/** Hexadecimal command strings, as `bytes.fromhex` reads them. */
module Hex {
  import opened Wrappers

  type byte = x: int | 0 <= x < 256

  predicate IsHexDigit(c: char) {
    '0' <= c <= '9' || 'a' <= c <= 'f' || 'A' <= c <= 'F'
  }

  /** ASCII whitespace: space, tab, line feed, vertical tab, form feed, carriage return. */
  predicate IsSpace(c: char) {
    c == ' ' || '\t' <= c <= '\r'
  }

  function DigitValue(c: char): (v: nat)
    requires IsHexDigit(c)
    ensures v < 16
  {
    if c <= '9' then c as int - '0' as int
    else if c <= 'F' then c as int - 'A' as int + 10
    else c as int - 'a' as int + 10
  }

  /** The lower-case digit for v, as the source's `{:02x}` log format writes it. */
  function DigitChar(v: nat): (c: char)
    requires v < 16
    ensures IsHexDigit(c) && DigitValue(c) == v
  {
    "0123456789abcdef"[v]
  }

  /**
   * Whitespace is skipped before every byte; each byte is two adjacent hex digits
   * (either case); anything else, including an odd digit left at the end or a
   * space inside a pair, is an error (Python's ValueError).
   */
  function Decode(s: string): (r: Option<seq<byte>>)
    ensures r.Some? ==> 2 * |r.value| <= |s|
    ensures r.Some? ==> forall i :: 0 <= i < |s| ==> IsHexDigit(s[i]) || IsSpace(s[i])
    decreases |s|
  {
    if s == [] then Some([])
    else if IsSpace(s[0]) then
      var r := Decode(s[1..]);
      assert r.Some? ==> forall i :: 1 <= i < |s| ==> s[i] == s[1..][i - 1];
      r
    else if |s| >= 2 && IsHexDigit(s[0]) && IsHexDigit(s[1]) then
      match Decode(s[2..])
      case None => None
      case Some(rest) =>
        assert forall i :: 2 <= i < |s| ==> s[i] == s[2..][i - 2];
        Some([16 * DigitValue(s[0]) + DigitValue(s[1])] + rest)
    else None
  }

  /** The source's log format: two lower-case hex digits and a space per byte. */
  function Encode(b: seq<byte>): (s: string)
    ensures |s| == 3 * |b|
    ensures forall i :: 0 <= i < |s| ==> if i % 3 == 2 then s[i] == ' ' else IsHexDigit(s[i])
  {
    if b == [] then [] else [DigitChar(b[0] / 16), DigitChar(b[0] % 16), ' '] + Encode(b[1..])
  }

  /** Every byte string survives encoding and decoding unchanged. */
  lemma {:induction false} DecodeEncode(b: seq<byte>)
    ensures Decode(Encode(b)) == Some(b)
  {
    if b != [] {
      var hi, lo := DigitChar(b[0] / 16), DigitChar(b[0] % 16);
      var rest := Encode(b[1..]);
      var s := Encode(b);
      assert s == [hi, lo, ' '] + rest;
      assert s[2..] == [' '] + rest;
      assert s[2..][1..] == rest;
      DecodeEncode(b[1..]);
      assert Decode(s[2..]) == Some(b[1..]);
      assert 16 * DigitValue(hi) + DigitValue(lo) == b[0];
      assert b == [b[0]] + b[1..];
    }
  }

  /** Without whitespace, a string decodes exactly when it is an even number of hex digits. */
  lemma {:induction false} DecodeSpaceFree(s: string)
    requires forall i :: 0 <= i < |s| ==> !IsSpace(s[i])
    ensures Decode(s).Some? <==> |s| % 2 == 0 && forall i :: 0 <= i < |s| ==> IsHexDigit(s[i])
    ensures Decode(s).Some? ==> 2 * |Decode(s).value| == |s|
    decreases |s|
  {
    if |s| == 1 {
      assert !IsSpace(s[0]);
    } else if |s| >= 2 {
      var t := s[2..];
      assert !IsSpace(s[0]);
      assert forall i :: 0 <= i < |t| ==> !IsSpace(t[i]) by {
        forall i | 0 <= i < |t| ensures !IsSpace(t[i]) {
          assert t[i] == s[i + 2];
        }
      }
      DecodeSpaceFree(t);
      var allHex := forall i :: 0 <= i < |s| ==> IsHexDigit(s[i]);
      if IsHexDigit(s[0]) && IsHexDigit(s[1]) {
        assert allHex <==> forall i :: 0 <= i < |t| ==> IsHexDigit(t[i]) by {
          forall i | 0 <= i < |t| ensures t[i] == s[i + 2] { }
          if forall i :: 0 <= i < |t| ==> IsHexDigit(t[i]) {
            forall i | 0 <= i < |s| ensures IsHexDigit(s[i]) {
              if i >= 2 { assert s[i] == t[i - 2]; }
            }
          }
        }
        assert Decode(s).Some? <==> Decode(t).Some?;
      } else {
        assert Decode(s).None? && !allHex;
      }
    }
  }
}
