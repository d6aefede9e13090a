/** The typing indicator's draft preview and timeout. */
module Typing {
  import opened Bytes

  // ----- UTF-8, section 4 of RFC 3629 -----

  predicate Tail(b: Byte) {
    0x80 <= b <= 0xBF
  }

  /** The length of the character the bytes start with, or 0 when they start with none. */
  function CharLength(s: seq<Byte>): (n: nat)
    ensures n <= 4 && n <= |s|
    ensures forall i :: 1 <= i < n ==> Tail(s[i])
    ensures n > 0 ==> !Tail(s[0])
  {
    if |s| >= 1 && s[0] <= 0x7F then 1
    else if |s| >= 2 && 0xC2 <= s[0] <= 0xDF && Tail(s[1]) then 2
    else if |s| >= 3 && ThreeByteStart(s[0], s[1]) && Tail(s[2]) then 3
    else if |s| >= 4 && FourByteStart(s[0], s[1]) && Tail(s[2]) && Tail(s[3]) then 4
    else 0
  }

  predicate ThreeByteStart(a: Byte, b: Byte) {
    || (a == 0xE0 && 0xA0 <= b <= 0xBF)
    || (0xE1 <= a <= 0xEC && Tail(b))
    || (a == 0xED && 0x80 <= b <= 0x9F)
    || (0xEE <= a <= 0xEF && Tail(b))
  }

  predicate FourByteStart(a: Byte, b: Byte) {
    || (a == 0xF0 && 0x90 <= b <= 0xBF)
    || (0xF1 <= a <= 0xF3 && Tail(b))
    || (a == 0xF4 && 0x80 <= b <= 0x8F)
  }

  predicate ValidUtf8(s: seq<Byte>) {
    s == [] || (CharLength(s) > 0 && ValidUtf8(s[CharLength(s)..]))
  }

  /** A character may start here: the byte is not a continuation byte. */
  predicate RuneStart(b: Byte) {
    !Tail(b)
  }

  /** A place between characters. */
  predicate Boundary(s: seq<Byte>, k: nat)
    requires k <= |s|
  {
    k == 0 || k == |s| || RuneStart(s[k])
  }

  lemma PrefixKeepsCharLength(s: seq<Byte>, k: nat)
    requires CharLength(s) <= k <= |s| && CharLength(s) > 0
    ensures CharLength(s[..k]) == CharLength(s)
  {
  }

  /** Valid text splits into valid text at every boundary. */
  lemma {:induction false} BoundarySplits(s: seq<Byte>, k: nat)
    requires ValidUtf8(s) && k <= |s| && Boundary(s, k)
    ensures ValidUtf8(s[..k]) && ValidUtf8(s[k..])
    decreases |s|
  {
    if k == 0 {
      assert s[0..] == s;
    } else {
      var n := CharLength(s);
      assert k >= n;
      BoundarySplits(s[n..], k - n);
      PrefixKeepsCharLength(s, k);
      assert s[..k][n..] == s[n..][..k - n];
      assert s[n..][k - n..] == s[k..];
    }
  }

  lemma FirstByteDecides(s: seq<Byte>, k: nat)
    requires CharLength(s) > 0 && 0 < k <= |s| && CharLength(s[..k]) > 0
    ensures CharLength(s[..k]) == CharLength(s)
  {
  }

  /** And at no other place. */
  lemma {:induction false} OnlyBoundariesSplit(s: seq<Byte>, k: nat)
    requires ValidUtf8(s) && k <= |s| && ValidUtf8(s[..k])
    ensures Boundary(s, k)
    decreases |s|
  {
    if 0 < k {
      var n := CharLength(s);
      FirstByteDecides(s, k);
      assert s[..k][n..] == s[n..][..k - n];
      OnlyBoundariesSplit(s[n..], k - n);
      if k == n && n < |s| {
        assert s[n..][0] == s[n];
      }
    }
  }

  // ----- the preview -----

  /** The greatest cut at or below the limit that is not in front of a continuation byte. */
  predicate IsCut(s: seq<Byte>, limit: nat, k: nat)
    requires limit < |s|
  {
    && k <= limit && (k == 0 || RuneStart(s[k]))
    && forall j :: k < j <= limit ==> !RuneStart(s[j])
  }

  method TruncateUtf8(s: seq<Byte>, maxBytes: int) returns (r: seq<Byte>)
    ensures maxBytes <= 0 || |s| <= maxBytes ==> r == s
    ensures 0 < maxBytes < |s| ==> |r| <= |s| && r == s[..|r|] && IsCut(s, maxBytes, |r|)
  {
    if maxBytes <= 0 || |s| <= maxBytes {
      return s;
    }
    var cut := maxBytes;
    while cut > 0 && !RuneStart(s[cut])
      invariant 0 <= cut <= maxBytes
      invariant forall j :: cut < j <= maxBytes ==> !RuneStart(s[j])
    {
      cut := cut - 1;
    }
    r := s[..cut];
  }

  /** On valid text the cut gives the longest valid prefix within the limit, and gives up at most
      three bytes of it. */
  lemma CutIsTheLongestValidPrefix(s: seq<Byte>, limit: nat, k: nat)
    requires ValidUtf8(s) && 0 < limit < |s| && IsCut(s, limit, k)
    ensures ValidUtf8(s[..k])
    ensures forall j :: 0 <= j <= limit && ValidUtf8(s[..j]) ==> j <= k
    ensures limit - k <= 3
  {
    BoundarySplits(s, k);
    forall j | 0 <= j <= limit && ValidUtf8(s[..j])
      ensures j <= k
    {
      OnlyBoundariesSplit(s, j);
    }
    var n := CharLength(s[k..]);
    assert s[k..][n..] == s[k + n..];
    if k + n <= limit {
      assert ValidUtf8(s[k + n..]);
      assert s[k + n..][0] == s[k + n];
      assert RuneStart(s[k + n]);
      assert false;
    }
  }

  // ----- the timeout -----

  const NANOS_PER_MILLI := 1_000_000

  predicate Fits32(x: int) {
    -0x8000_0000 <= x < 0x8000_0000
  }

  predicate Fits64(x: int) {
    -0x8000_0000_0000_0000 <= x < 0x8000_0000_0000_0000
  }

  /** The conversion to 32 bits keeps the low bits. */
  function Wrap32(x: int): (w: int)
    ensures Fits32(w)
    ensures w == x <==> Fits32(x)
  {
    (x + 0x8000_0000) % 0x1_0000_0000 - 0x8000_0000
  }

  /** Whole milliseconds of a duration, truncated toward zero. */
  function Millis(d: int): (ms: int) {
    if d >= 0 then d / NANOS_PER_MILLI else -((-d) / NANOS_PER_MILLI)
  }

  function Min(a: int, b: int): (least: int) {
    if a < b then a else b
  }

  /** A positive request gets exactly itself or the maximum in whole milliseconds, and nothing
      overflows; without one the default is clamped, exactly when that fits in 32 bits. */
  method ResolveTypingTimeout(requestedMs: int, defaultTimeout: int, maxTimeout: int) returns (ms: int)
    requires Fits32(requestedMs) && Fits64(defaultTimeout) && Fits64(maxTimeout)
    ensures requestedMs > 0 && maxTimeout >= 0 ==> ms == Min(requestedMs, maxTimeout / 1_000_000)
    ensures requestedMs <= 0 ==>
      (ms == Millis(Min(defaultTimeout, maxTimeout)) <==> Fits32(Millis(Min(defaultTimeout, maxTimeout))))
    ensures requestedMs <= 0 <= defaultTimeout && 0 <= maxTimeout && defaultTimeout / 1_000_000 < 0x8000_0000 ==>
      ms == Min(defaultTimeout / 1_000_000, maxTimeout / 1_000_000)
  {
    var d := defaultTimeout;
    if requestedMs > 0 {
      d := requestedMs * NANOS_PER_MILLI;
      assert Fits64(d);
    }
    if d > maxTimeout {
      d := maxTimeout;
    }
    ms := Wrap32(Millis(d));
  }
}
