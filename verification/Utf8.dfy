/**
 * Byte lengths of texts encoded as UTF-8, and the cut that the runtime makes with
 * "encode, slice, decode ignoring errors".
 */
module Utf8 {
  /** Number of bytes in the encoding of one character. */
  function Width(c: char): (w: nat)
    ensures 1 <= w <= 4
  {
    if c as int < 0x80 then 1 else if c as int < 0x800 then 2 else if c as int < 0x1_0000 then 3 else 4
  }

  /** The bytes of one character, as section 3 of RFC 3629 lays them out. */
  function Encode(c: char): seq<int> {
    var n := c as int;
    if n < 0x80 then [n]
    else if n < 0x800 then [0xC0 + n / 0x40, 0x80 + n % 0x40]
    else if n < 0x1_0000 then [0xE0 + n / 0x1000, 0x80 + n / 0x40 % 0x40, 0x80 + n % 0x40]
    else [0xF0 + n / 0x4_0000, 0x80 + n / 0x1000 % 0x40, 0x80 + n / 0x40 % 0x40, 0x80 + n % 0x40]
  }

  /** A character has as many bytes as the first of them announces, and the others are marked as continuing it. */
  lemma EncodeWidth(c: char)
    ensures |Encode(c)| == Width(c) && forall i :: 0 <= i < |Encode(c)| ==> 0 <= Encode(c)[i] < 0x100
    ensures var first := Encode(c)[0];
            Width(c) == if first < 0x80 then 1 else if first < 0xE0 then 2 else if first < 0xF0 then 3 else 4
    ensures forall i :: 1 <= i < |Encode(c)| ==> 0x80 <= Encode(c)[i] < 0xC0
  {}

  function Bytes(s: string): nat {
    if s == [] then 0 else Bytes(s[..|s| - 1]) + Width(s[|s| - 1])
  }

  /** The longest prefix of s whose encoding has at most limit bytes: a character cut in
      the middle of its encoding is ignored by the decoder. */
  function Fit(s: string, limit: nat): (r: string)
    ensures |r| <= |s| && r == s[..|r|]
    ensures Bytes(r) <= limit
    ensures |r| < |s| ==> limit < Bytes(r) + Width(s[|r|])
    ensures r == s <==> Bytes(s) <= limit
  {
    if Bytes(s) <= limit then s else Fit(s[..|s| - 1], limit)
  }

  lemma {:induction false} BytesConcat(a: string, b: string)
    ensures Bytes(a + b) == Bytes(a) + Bytes(b)
  {
    if b == [] {
      assert a + b == a;
    } else {
      var n := |b| - 1;
      assert (a + b)[..|a + b| - 1] == a + b[..n];
      BytesConcat(a, b[..n]);
    }
  }

  lemma {:induction false} BytesAtLeastLength(s: string)
    ensures Bytes(s) >= |s|
  {
    if s != [] {
      BytesAtLeastLength(s[..|s| - 1]);
    }
  }

  lemma {:induction false} BytesOfAscii(s: string)
    requires forall n :: 0 <= n < |s| ==> s[n] as int < 0x80
    ensures Bytes(s) == |s|
  {
    if s != [] { BytesOfAscii(s[..|s| - 1]); }
  }

  const MARKER: string := "...[truncated]"

  lemma MarkerBytes()
    ensures |MARKER| == 14 && Bytes(MARKER) == 14
  {
    BytesOfAscii(MARKER);
  }

  /** A text over the limit is cut and marked; the marker itself is never cut. */
  function Truncate(s: string, limit: nat): string {
    if Bytes(s) <= limit then s
    else Fit(s, if limit < |MARKER| then 0 else limit - |MARKER|) + MARKER
  }

  /** The result is within the limit exactly when the marker fits or nothing had to be cut. */
  lemma TruncateBytes(s: string, limit: nat)
    ensures Bytes(Truncate(s, limit)) <= limit <==> Bytes(s) <= limit || 14 <= limit
    ensures Bytes(Truncate(s, limit)) <= if limit < 14 then 14 else limit
    ensures Truncate(s, limit) == s <== Bytes(s) <= limit
  {
    MarkerBytes();
    if limit < Bytes(s) {
      BytesConcat(Fit(s, if limit < |MARKER| then 0 else limit - |MARKER|), MARKER);
    }
  }
}
