/** Little-endian words in byte sequences, and copying into buffers. */
module Bytes {
  import opened Common

  /** The number that two or four bytes on the wire stand for: the low byte comes first. */
  function Number(s: seq<byte>): nat
    requires |s| == 2 || |s| == 4
  {
    var b0: int, b1: int := s[0], s[1];
    if |s| == 2 then b0 + 0x100 * b1
    else
      var b2: int, b3: int := s[2], s[3];
      b0 + 0x100 * b1 + 0x1_0000 * b2 + 0x100_0000 * b3
  }

  function U16(n: u16): (s: seq<byte>)
    ensures |s| == 2 && Number(s) == n
  {
    [n % 0x100, n / 0x100]
  }

  function U32(n: u32): (s: seq<byte>)
    ensures |s| == 4 && Number(s) == n
  {
    U16(n % 0x1_0000) + U16(n / 0x1_0000)
  }

  function GetU16(s: seq<byte>, at: nat): (n: u16)
    requires at + 2 <= |s|
  {
    var lo: int, hi: int := s[at], s[at + 1];
    lo + 0x100 * hi
  }

  function GetU32(s: seq<byte>, at: nat): (n: u32)
    requires at + 4 <= |s|
  {
    var lo: int, hi: int := GetU16(s, at), GetU16(s, at + 2);
    lo + 0x1_0000 * hi
  }

  lemma U16RoundTrip(pre: seq<byte>, n: u16, post: seq<byte>)
    ensures GetU16(pre + U16(n) + post, |pre|) == n
  {
    var s := pre + U16(n) + post;
    assert s[|pre|] == n % 0x100 && s[|pre| + 1] == n / 0x100;
  }

  lemma U32RoundTrip(pre: seq<byte>, n: u32, post: seq<byte>)
    ensures GetU32(pre + U32(n) + post, |pre|) == n
  {
    var lo: u16, hi: u16 := n % 0x1_0000, n / 0x1_0000;
    var s := pre + U32(n) + post;
    assert s == pre + U16(lo) + (U16(hi) + post);
    assert s == (pre + U16(lo)) + U16(hi) + post;
    U16RoundTrip(pre, lo, U16(hi) + post);
    U16RoundTrip(pre + U16(lo), hi, post);
  }

  lemma WordOf(s: seq<byte>, at: nat)
    requires at + 4 <= |s|
    ensures U32(GetU32(s, at)) == s[at..at + 4]
  {
    var b0: int, b1: int, b2: int, b3: int := s[at], s[at + 1], s[at + 2], s[at + 3];
    var n: int := GetU32(s, at);
    assert n == b0 + 0x100 * b1 + 0x1_0000 * (b2 + 0x100 * b3);
    assert n % 0x1_0000 == b0 + 0x100 * b1 && n / 0x1_0000 == b2 + 0x100 * b3;
  }

  /** `memcpy(&dst[at], src, |src|)`. */
  method Memcpy(dst: array<byte>, at: nat, src: seq<byte>)
    requires at + |src| <= dst.Length
    modifies dst
    ensures dst[..] == old(dst[..at]) + src + old(dst[at + |src|..])
  {
    for i := 0 to |src|
      invariant dst[..at] == old(dst[..at])
      invariant dst[at..at + i] == src[..i]
      invariant dst[at + i..] == old(dst[at + i..])
    {
      dst[at + i] := src[i];
    }
    assert dst[..] == dst[..at] + dst[at..at + |src|] + dst[at + |src|..];
  }

  /** `memmove(&a[to], &a[from], n)` towards higher addresses; the areas may overlap. */
  method MemmoveUp(a: array<byte>, to: nat, from: nat, n: nat)
    requires from <= to && to + n <= a.Length
    modifies a
    ensures a[..] == old(a[..to]) + old(a[from..from + n]) + old(a[to + n..])
  {
    var i := n;
    while i > 0
      invariant 0 <= i <= n
      invariant forall k :: 0 <= k < to + i ==> a[k] == old(a[k])
      invariant forall k :: to + i <= k < to + n ==> a[k] == old(a[k - to + from])
      invariant forall k :: to + n <= k < a.Length ==> a[k] == old(a[k])
    {
      i := i - 1;
      a[to + i] := a[from + i];
    }
    assert a[..] == old(a[..to]) + old(a[from..from + n]) + old(a[to + n..]);
  }

  /** `memset(&a[at], 0, n)`. */
  method MemsetZero(a: array<byte>, at: nat, n: nat)
    requires at + n <= a.Length
    modifies a
    ensures a[..] == old(a[..at]) + Zeros(n) + old(a[at + n..])
  {
    for i := 0 to n
      invariant forall k :: 0 <= k < a.Length ==>
        a[k] == if at <= k < at + i then 0 else old(a[k])
    {
      a[at + i] := 0;
    }
    assert a[..] == old(a[..at]) + Zeros(n) + old(a[at + n..]);
  }

  function Zeros(n: nat): (s: seq<byte>)
    ensures |s| == n && forall i :: 0 <= i < n ==> s[i] == 0
  {
    seq(n, _ => 0)
  }
}
