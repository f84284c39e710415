/** UTF-8 itself, section 3 of RFC 3629: code points to octets and back. */
module Utf8Encoding {
  import opened Prelude
  import opened Utf8Clamp

  /** A code point that may be encoded: anything up to U+10FFFF but the surrogates. */
  predicate IsScalar(c: int) {
    0 <= c < 0xD800 || 0xE000 <= c < 0x11_0000
  }

  /** The code points of a UTF-16 text; a surrogate without its other half reads as U+FFFD. */
  function Scalars(s: Text): seq<int> {
    if s == [] then []
    else if |s| >= 2 && IsHigh(s[0]) && IsLow(s[1]) then
      [0x1_0000 + (s[0] - 0xD800) * 0x400 + (s[1] - 0xDC00)] + Scalars(s[2..])
    else if IsHigh(s[0]) || IsLow(s[0]) then [0xFFFD] + Scalars(s[1..])
    else [s[0]] + Scalars(s[1..])
  }

  /** The octets of one code point. */
  function Octets(c: int): (bs: seq<int>)
    requires IsScalar(c)
    ensures |bs| == if c < 0x80 then 1 else if c < 0x800 then 2 else if c < 0x1_0000 then 3 else 4
    ensures forall i :: 0 <= i < |bs| ==> 0 <= bs[i] < 0x100
  {
    if c < 0x80 then [c]
    else if c < 0x800 then [0xC0 + c / 0x40, 0x80 + c % 0x40]
    else
      var high := c / 0x40;
      if c < 0x1_0000 then [0xE0 + high / 0x40, 0x80 + high % 0x40, 0x80 + c % 0x40]
      else
        var top := high / 0x40;
        [0xF0 + top / 0x40, 0x80 + top % 0x40, 0x80 + high % 0x40, 0x80 + c % 0x40]
  }

  predicate AllScalars(cs: seq<int>) {
    forall i :: 0 <= i < |cs| ==> IsScalar(cs[i])
  }

  function Encode(cs: seq<int>): seq<int>
    requires AllScalars(cs)
  {
    if cs == [] then [] else Octets(cs[0]) + Encode(cs[1..])
  }

  predicate IsTrail(b: int) {
    0x80 <= b < 0xC0
  }

  /** The first code point of some octets, and how many it takes. */
  function DecodeOne(bs: seq<int>): Option<(int, nat)> {
    if bs == [] then None
    else if 0 <= bs[0] < 0x80 then Some((bs[0], 1))
    else if 0xC0 <= bs[0] < 0xE0 && |bs| >= 2 && IsTrail(bs[1]) then
      Some(((bs[0] - 0xC0) * 0x40 + (bs[1] - 0x80), 2))
    else if 0xE0 <= bs[0] < 0xF0 && |bs| >= 3 && IsTrail(bs[1]) && IsTrail(bs[2]) then
      Some((((bs[0] - 0xE0) * 0x40 + (bs[1] - 0x80)) * 0x40 + (bs[2] - 0x80), 3))
    else if 0xF0 <= bs[0] < 0xF8 && |bs| >= 4 && IsTrail(bs[1]) && IsTrail(bs[2]) && IsTrail(bs[3]) then
      Some(((((bs[0] - 0xF0) * 0x40 + (bs[1] - 0x80)) * 0x40 + (bs[2] - 0x80)) * 0x40 + (bs[3] - 0x80), 4))
    else None
  }

  function Decode(bs: seq<int>): Option<seq<int>>
    decreases |bs|
  {
    if bs == [] then Some([])
    else match DecodeOne(bs)
      case None => None
      case Some((c, n)) =>
        if n == 0 || n > |bs| then None
        else match Decode(bs[n..])
          case None => None
          case Some(rest) => Some([c] + rest)
  }

  lemma OctetsDecode(c: int, rest: seq<int>)
    requires IsScalar(c)
    ensures DecodeOne(Octets(c) + rest) == Some((c, |Octets(c)|))
  {
    var bs := Octets(c) + rest;
    assert bs[..|Octets(c)|] == Octets(c);
    assert forall i :: 0 <= i < |Octets(c)| ==> bs[i] == Octets(c)[i];
  }

  /** What is encoded decodes to itself. */
  lemma {:induction false} RoundTrip(cs: seq<int>)
    requires AllScalars(cs)
    ensures Decode(Encode(cs)) == Some(cs)
  {
    if cs != [] {
      var rest := Encode(cs[1..]);
      OctetsDecode(cs[0], rest);
      assert Encode(cs) == Octets(cs[0]) + rest && Encode(cs)[|Octets(cs[0])|..] == rest;
      RoundTrip(cs[1..]);
      assert [cs[0]] + cs[1..] == cs;
    }
  }

  lemma {:induction false} ScalarsAreScalars(s: Text)
    ensures AllScalars(Scalars(s))
  {
    if s != [] {
      if |s| >= 2 && IsHigh(s[0]) && IsLow(s[1]) {
        ScalarsAreScalars(s[2..]);
      } else {
        ScalarsAreScalars(s[1..]);
      }
    }
  }

  /** The length that the clamp measures is the length of the encoding. */
  lemma {:induction false} LengthOfEncoding(s: Text)
    ensures AllScalars(Scalars(s)) && |Encode(Scalars(s))| == Utf8Len(s)
  {
    ScalarsAreScalars(s);
    if s != [] {
      if |s| >= 2 && IsHigh(s[0]) && IsLow(s[1]) {
        LengthOfEncoding(s[2..]);
        assert Scalars(s)[1..] == Scalars(s[2..]);
      } else {
        LengthOfEncoding(s[1..]);
        assert Scalars(s)[1..] == Scalars(s[1..]);
      }
    }
  }

  /** The clamped text encodes within the budget, and no longer prefix does. */
  lemma ClampFitsTheEncoding(text: Text, max: nat, k: nat)
    requires k <= |text|
    ensures var r := Clamp(text, max);
            && r <= text
            && AllScalars(Scalars(r)) && |Encode(Scalars(r))| <= max
            && AllScalars(Scalars(text[..k])) && (k > |r| ==> |Encode(Scalars(text[..k]))| > max)
  {
    ClampIsTheLongestFit(text, max, Clamp(text, max));
    LengthOfEncoding(Clamp(text, max));
    LengthOfEncoding(text[..k]);
  }
}
