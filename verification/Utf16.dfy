/**
 Text as JavaScript sees it: a sequence of UTF-16 code units, and what it costs when it is written
 as UTF-8 (section 3 of RFC 3629). A surrogate without its partner is written as U+FFFD, three
 bytes, which is what `Buffer.byteLength` counts.
 */
module Utf16 {
  type CodeUnit = u: int | 0 <= u < 0x1_0000
  type Byte = b: int | 0 <= b < 0x100
  type Text = seq<CodeUnit>

  predicate IsHigh(u: CodeUnit) { 0xD800 <= u <= 0xDBFF }

  predicate IsLow(u: CodeUnit) { 0xDC00 <= u <= 0xDFFF }

  /** A surrogate pair starts at index `i`. */
  predicate PairAt(s: Text, i: int) {
    0 <= i && i + 1 < |s| && IsHigh(s[i]) && IsLow(s[i + 1])
  }

  /** UTF-8 bytes of one code unit that is not half of a pair. */
  function UnitCost(u: CodeUnit): nat {
    if u < 0x80 then 1 else if u < 0x800 then 2 else 3
  }

  /** What `Buffer.byteLength(s, 'utf8')` returns. */
  function ByteLength(s: Text): nat {
    if s == [] then 0
    else if PairAt(s, 0) then 4 + ByteLength(s[2..])
    else UnitCost(s[0]) + ByteLength(s[1..])
  }

  /** One more code unit costs its own bytes, or a single byte when it completes a pair. */
  lemma {:induction false} ByteLengthSnoc(s: Text, u: CodeUnit)
    ensures ByteLength(s + [u]) == ByteLength(s) +
            if |s| > 0 && IsHigh(s[|s| - 1]) && IsLow(u) then 1 else UnitCost(u)
  {
    if s == [] {
      assert (s + [u])[1..] == [];
    } else if PairAt(s, 0) {
      assert (s + [u])[2..] == s[2..] + [u];
      ByteLengthSnoc(s[2..], u);
    } else if |s| == 1 {
      if PairAt(s + [u], 0) {
        assert (s + [u])[2..] == [];
      } else {
        assert (s + [u])[1..] == [u];
        assert [u][1..] == [];
        assert s[1..] == [];
      }
    } else {
      assert (s + [u])[1..] == s[1..] + [u];
      ByteLengthSnoc(s[1..], u);
    }
  }

  /** Bytes add up unless the join itself creates a pair. */
  lemma {:induction false} ByteLengthConcat(a: Text, b: Text)
    requires !(a != [] && b != [] && IsHigh(a[|a| - 1]) && IsLow(b[0]))
    ensures ByteLength(a + b) == ByteLength(a) + ByteLength(b)
    decreases |b|
  {
    if b == [] {
      assert a + b == a;
    } else {
      var front, u := b[..|b| - 1], b[|b| - 1];
      assert a + b == (a + front) + [u];
      assert b == front + [u];
      ByteLengthConcat(a, front);
      ByteLengthSnoc(a + front, u);
      ByteLengthSnoc(front, u);
    }
  }

  /** Longer prefixes cost strictly more. */
  lemma {:induction false} PrefixCostGrows(s: Text, i: nat, j: nat)
    requires i <= j <= |s|
    ensures ByteLength(s[..i]) + (j - i) <= ByteLength(s[..j])
    decreases j - i
  {
    if i < j {
      PrefixCostGrows(s, i, j - 1);
      assert s[..j] == s[..j - 1] + [s[j - 1]];
      ByteLengthSnoc(s[..j - 1], s[j - 1]);
    }
  }

  /** A text of ASCII characters costs its length. */
  lemma {:induction false} AsciiByteLength(s: Text)
    requires forall i :: 0 <= i < |s| ==> s[i] < 0x80
    ensures ByteLength(s) == |s|
  {
    if s != [] {
      AsciiByteLength(s[1..]);
    }
  }

  // ----- The encoding itself ------------------------------------------------------------------

  function UnitBytes(u: CodeUnit): (bytes: seq<Byte>)
    ensures |bytes| == UnitCost(u)
  {
    if u < 0x80 then [u]
    else if u < 0x800 then [0xC0 + u / 64, 0x80 + u % 64]
    else if IsHigh(u) || IsLow(u) then [0xEF, 0xBF, 0xBD]
    else [0xE0 + u / 4096, 0x80 + u / 64 % 64, 0x80 + u % 64]
  }

  function PairBytes(high: CodeUnit, low: CodeUnit): (bytes: seq<Byte>)
    requires IsHigh(high) && IsLow(low)
    ensures |bytes| == 4
  {
    var point := 0x1_0000 + (high - 0xD800) * 0x400 + (low - 0xDC00);
    [0xF0 + point / 262144, 0x80 + point / 4096 % 64, 0x80 + point / 64 % 64, 0x80 + point % 64]
  }

  function Encode(s: Text): seq<Byte> {
    if s == [] then []
    else if PairAt(s, 0) then PairBytes(s[0], s[1]) + Encode(s[2..])
    else UnitBytes(s[0]) + Encode(s[1..])
  }

  /** The counted length is the length of the UTF-8 encoding. */
  lemma {:induction false} ByteLengthIsEncodedLength(s: Text)
    ensures ByteLength(s) == |Encode(s)|
  {
    if s == [] {
    } else if PairAt(s, 0) {
      ByteLengthIsEncodedLength(s[2..]);
    } else {
      ByteLengthIsEncodedLength(s[1..]);
    }
  }
}
