/** Enumerations of finite sets as sequences: the order in which the source's
    `std::set` and `std::map` hand out their elements, and the order-free
    "each element exactly once" view of an unordered enumeration. */
module Collections {

  /** No element occurs twice. */
  predicate Distinct<T(==)>(s: seq<T>)
  {
    forall i, j :: 0 <= i < j < |s| ==> s[i] != s[j]
  }

  /** Strictly ascending, the iteration order of an ordered container. */
  predicate Increasing(s: seq<nat>)
  {
    forall i, j :: 0 <= i < j < |s| ==> s[i] < s[j]
  }

  /** `s` lists exactly the elements of `xs`, each once. */
  predicate Enumerates<T(==)>(s: seq<T>, xs: set<T>)
  {
    && Distinct(s)
    && (forall i :: 0 <= i < |s| ==> s[i] in xs)
    && (forall x :: x in xs ==> x in s)
  }

  lemma {:induction false} LeastExists(xs: set<nat>)
    requires xs != {}
    ensures exists m :: m in xs && forall x :: x in xs ==> m <= x
    decreases |xs|
  {
    var y :| y in xs;
    if xs == {y} {
      assert forall x :: x in xs ==> y <= x;
      assert y in xs;
    } else {
      LeastExists(xs - {y});
      var m :| m in xs - {y} && forall x :: x in xs - {y} ==> m <= x;
      var least := if y < m then y else m;
      forall x | x in xs ensures least <= x {
        if x != y {
          assert x in xs - {y};
        }
      }
      assert least in xs;
    }
  }

  /** The smallest element, the first one an ordered container yields. */
  function Least(xs: set<nat>): (m: nat)
    requires xs != {}
    ensures m in xs && forall x :: x in xs ==> m <= x
  {
    LeastExists(xs);
    var m :| m in xs && forall x :: x in xs ==> m <= x;
    m
  }

  /** The elements of `xs` in ascending order: what iterating a
      `std::set<node_id>` or the keys of a `std::map<node_id, _>` produces. */
  function Sorted(xs: set<nat>): (r: seq<nat>)
    ensures Increasing(r) && Enumerates(r, xs)
    ensures |r| == |xs|
    decreases |xs|
  {
    if xs == {} then []
    else
      var m := Least(xs);
      [m] + Sorted(xs - {m})
  }

  /** An enumeration is exactly as long as the set it enumerates. */
  lemma {:induction false} EnumerationLength<T>(s: seq<T>, xs: set<T>)
    requires Enumerates(s, xs)
    ensures |s| == |xs|
    decreases |s|
  {
    if s != [] {
      var t := s[1..];
      forall x | x in xs - {s[0]} ensures x in t {
        var i :| 0 <= i < |s| && s[i] == x;
        assert i != 0;
        assert t[i - 1] == x;
      }
      EnumerationLength(t, xs - {s[0]});
    }
  }

  /** Iterating an unordered set once, pushing every element: each element
      of `xs` ends up in `r` exactly once. */
  method Elements<T(==)>(xs: set<T>) returns (r: seq<T>)
    ensures Enumerates(r, xs)
  {
    r := [];
    var rest := xs;
    while rest != {}
      invariant rest <= xs
      invariant Distinct(r)
      invariant forall i :: 0 <= i < |r| ==> r[i] in xs && r[i] !in rest
      invariant forall x :: x in xs && x !in rest ==> x in r
      decreases rest
    {
      var x :| x in rest;
      r := r + [x];
      rest := rest - {x};
    }
  }
}
