/** `hostname()` of src/probe.cpp (duplicated in src/init_probe.cpp): the
    host name is read into a 256-byte buffer by `gethostname`, whose last byte
    is then forced to NUL before the buffer is read as a C string. The system
    call is not modelled: its effect is the buffer contents it leaves. */
module Hostname {

  /** SUSv2 limits host names to 255 bytes, plus the terminator. */
  const MaxHostnameSize: nat := 256

  /** Reading a NUL-terminated buffer as `std::string`: everything before the
      first NUL. */
  function CString(buffer: seq<char>): (r: string)
    requires '\0' in buffer
    ensures |r| < |buffer| && r == buffer[..|r|]
    ensures buffer[|r|] == '\0' && '\0' !in r
  {
    if buffer[0] == '\0' then []
    else
      assert '\0' in buffer[1..];
      [buffer[0]] + CString(buffer[1..])
  }

  /** The host name the probe reports, given the 256 bytes `gethostname`
      left in the buffer: never longer than 255 characters, free of NUL, and
      cut at the first NUL of the buffer's first 255 bytes. */
  function Hostname(written: seq<char>): (r: string)
    requires |written| == MaxHostnameSize
    ensures |r| <= MaxHostnameSize - 1 && '\0' !in r
    ensures r == written[..|r|]
    ensures |r| < MaxHostnameSize - 1 ==> written[|r|] == '\0'
  {
    var terminated := written[..MaxHostnameSize - 1] + ['\0'];
    assert terminated[MaxHostnameSize - 1] == '\0';
    CString(terminated)
  }
}
