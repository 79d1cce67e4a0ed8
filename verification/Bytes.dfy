module Bytes {
  type byte = x: int | 0 <= x < 256

  /** Plain text as bytes. */
  function Ascii(s: string): (t: seq<byte>)
    requires forall k :: 0 <= k < |s| ==> s[k] < 128 as char
    ensures |t| == |s| && forall k :: 0 <= k < |s| ==> t[k] == s[k] as int
  {
    seq(|s|, k requires 0 <= k < |s| => s[k] as int)
  }
}
