/** Bytes, `hexdigest()` and `int(s, 16)`: the path by which a message digest
    becomes an integer seed. */
module Hex {
  import opened Wrappers

  type Byte = b: int | 0 <= b < 256

  /** The lower-case hexadecimal digits, by value. */
  const HexDigits: string := "0123456789abcdef"

  /** `digest.hexdigest()`: two lower-case hexadecimal digits per byte, the
      high nibble first. */
  function HexDigest(d: seq<Byte>): (s: string)
    ensures |s| == 2 * |d|
  {
    if |d| == 0 then ""
    else
      var b := d[|d| - 1];
      HexDigest(d[..|d| - 1]) + [HexDigits[b / 16], HexDigits[b % 16]]
  }

  /** The unsigned integer that `d` denotes, most significant byte first. */
  function BigEndian(d: seq<Byte>): nat {
    if |d| == 0 then 0 else BigEndian(d[..|d| - 1]) * 256 + d[|d| - 1]
  }

  /** The value of one hexadecimal digit of either case, as `int(_, 16)`
      reads it. */
  function DigitValue(c: char): (v: Option<nat>)
    ensures v.Some? ==> v.value < 16
  {
    if '0' <= c <= '9' then Some(c as int - '0' as int)
    else if 'a' <= c <= 'f' then Some(c as int - 'a' as int + 10)
    else if 'A' <= c <= 'F' then Some(c as int - 'A' as int + 10)
    else None
  }

  /** The value of a string of hexadecimal digits, the empty string being 0. */
  function DigitsValue(s: string): Option<nat> {
    if |s| == 0 then Some(0)
    else
      match (DigitsValue(s[..|s| - 1]), DigitValue(s[|s| - 1]))
      case (Some(p), Some(v)) => Some(p * 16 + v)
      case _ => None
  }

  /** `int(s, 16)` on a string of hexadecimal digits: None where Python
      raises `ValueError` (the empty string, a non-digit). */
  function ParseHex(s: string): (v: Option<nat>)
    ensures v.Some? <==> |s| > 0 && forall k :: 0 <= k < |s| ==> DigitValue(s[k]).Some?
  {
    DigitsValueDefined(s);
    if |s| == 0 then None else DigitsValue(s)
  }

  /** A digit string has a value exactly when each of its characters is a
      digit. */
  lemma {:induction false} DigitsValueDefined(s: string)
    ensures DigitsValue(s).Some? <==> forall k :: 0 <= k < |s| ==> DigitValue(s[k]).Some?
  {
    if |s| > 0 {
      var front := s[..|s| - 1];
      DigitsValueDefined(front);
      assert forall k :: 0 <= k < |front| ==> front[k] == s[k];
    }
  }

  /** Appending one digit shifts the value by one nibble. */
  lemma DigitsValueAppend(s: string, c: char, p: nat, v: nat)
    requires DigitsValue(s) == Some(p) && DigitValue(c) == Some(v)
    ensures DigitsValue(s + [c]) == Some(p * 16 + v)
  {
    assert (s + [c])[..|s|] == s;
  }

  lemma DigitOf(n: nat)
    requires n < 16
    ensures DigitValue(HexDigits[n]) == Some(n)
  {
  }

  /** The digest of a non-empty byte string ends with the two digits of its
      last byte. */
  lemma HexDigestLast(d: seq<Byte>)
    requires |d| > 0
    ensures HexDigest(d) == HexDigest(d[..|d| - 1]) + [HexDigits[d[|d| - 1] / 16]] + [HexDigits[d[|d| - 1] % 16]]
  {
  }

  /** Byte `i` of the digest is written at positions `2 * i` and `2 * i + 1`
      as its high and its low nibble, in lower-case hexadecimal digits. */
  lemma {:induction false} HexDigestDigits(d: seq<Byte>)
    ensures forall i :: 0 <= i < |d| ==>
      HexDigest(d)[2 * i] == HexDigits[d[i] / 16] && HexDigest(d)[2 * i + 1] == HexDigits[d[i] % 16]
  {
    if |d| > 0 {
      var front := d[..|d| - 1];
      HexDigestDigits(front);
      HexDigestLast(d);
      forall i | 0 <= i < |d|
        ensures HexDigest(d)[2 * i] == HexDigits[d[i] / 16] && HexDigest(d)[2 * i + 1] == HexDigits[d[i] % 16]
      {
        if i < |d| - 1 {
          assert d[i] == front[i];
        }
      }
    }
  }

  /** Two nibbles make one byte. */
  lemma NibblePair(p: nat, b: Byte)
    ensures (p * 16 + b / 16) * 16 + b % 16 == p * 256 + b
  {
    assert (p * 16 + b / 16) * 16 == p * 256 + (b / 16) * 16;
  }

  /** Reading the hex digest back as a base-16 integer gives the big-endian
      value of the digest bytes. */
  lemma {:induction false} DigitsValueHexDigest(d: seq<Byte>)
    ensures DigitsValue(HexDigest(d)) == Some(BigEndian(d))
  {
    if |d| > 0 {
      var front, b := d[..|d| - 1], d[|d| - 1];
      var hi, lo := b / 16, b % 16;
      var n := BigEndian(front);
      var p := HexDigest(front);
      var p1 := p + [HexDigits[hi]];
      assert DigitsValue(p) == Some(n) by { DigitsValueHexDigest(front); }
      assert DigitsValue(p1) == Some(n * 16 + hi) by {
        DigitOf(hi);
        DigitsValueAppend(p, HexDigits[hi], n, hi);
      }
      assert DigitsValue(p1 + [HexDigits[lo]]) == Some((n * 16 + hi) * 16 + lo) by {
        DigitOf(lo);
        DigitsValueAppend(p1, HexDigits[lo], n * 16 + hi, lo);
      }
      assert HexDigest(d) == p1 + [HexDigits[lo]] by { HexDigestLast(d); }
      NibblePair(n, b);
    }
  }

  /** `int(digest.hexdigest(), 16)` never raises on a non-empty digest and
      equals the digest's big-endian value. */
  lemma ParseHexDigest(d: seq<Byte>)
    requires |d| > 0
    ensures ParseHex(HexDigest(d)) == Some(BigEndian(d))
  {
    DigitsValueHexDigest(d);
  }
}
