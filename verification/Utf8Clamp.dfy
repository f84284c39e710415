/** UTF-16 text under a UTF-8 byte budget. */
module Utf8Clamp {
  type Unit = u: int | 0 <= u < 0x1_0000

  type Text = seq<Unit>

  predicate IsHigh(u: Unit) {
    0xD800 <= u < 0xDC00
  }

  predicate IsLow(u: Unit) {
    0xDC00 <= u < 0xE000
  }

  /** Bytes of a code unit that stands alone; a lone surrogate is sent as U+FFFD, three bytes. */
  function UnitBytes(u: Unit): (n: nat)
    ensures 1 <= n <= 3
  {
    if u < 0x80 then 1 else if u < 0x800 then 2 else 3
  }

  /** Length of the UTF-8 encoding (section 3 of RFC 3629), read from the front. */
  function Utf8Len(s: Text): nat {
    if s == [] then 0
    else if |s| >= 2 && IsHigh(s[0]) && IsLow(s[1]) then 4 + Utf8Len(s[2..])
    else UnitBytes(s[0]) + Utf8Len(s[1..])
  }

  /** Bytes that one more unit adds: completing a pair turns three bytes into four. */
  function Growth(s: Text, u: Unit): nat {
    if s != [] && IsHigh(s[|s| - 1]) && IsLow(u) then 1 else UnitBytes(u)
  }

  lemma {:induction false} OneMoreUnit(s: Text, u: Unit)
    ensures Utf8Len(s + [u]) == Utf8Len(s) + Growth(s, u)
    decreases |s|
  {
    var t := s + [u];
    if s == [] {
      assert t[1..] == [];
    } else if |s| >= 2 && IsHigh(s[0]) && IsLow(s[1]) {
      assert t[2..] == s[2..] + [u];
      OneMoreUnit(s[2..], u);
    } else if |s| == 1 {
      assert t[1..] == [u] && [u][1..] == [] && t[2..] == [] && s[1..] == [];
    } else {
      assert t[1..] == s[1..] + [u];
      OneMoreUnit(s[1..], u);
    }
  }

  /** Every unit adds at least one byte, even where a cut falls inside a surrogate pair. */
  lemma {:induction false} LongerPrefixesCostMore(s: Text, i: nat, j: nat)
    requires i < j <= |s|
    ensures Utf8Len(s[..i]) < Utf8Len(s[..j])
    decreases j
  {
    assert s[..j] == s[..j - 1] + [s[j - 1]];
    OneMoreUnit(s[..j - 1], s[j - 1]);
    if i < j - 1 {
      LongerPrefixesCostMore(s, i, j - 1);
    }
  }

  /** r is the longest prefix of text whose encoding fits. */
  predicate IsLongestFit(text: Text, max: nat, r: Text) {
    && r <= text
    && Utf8Len(r) <= max
    && forall k :: |r| < k <= |text| ==> Utf8Len(text[..k]) > max
  }

  function FitFrom(text: Text, max: nat, n: nat): nat
    requires n <= |text|
  {
    if n == 0 || Utf8Len(text[..n]) <= max then n else FitFrom(text, max, n - 1)
  }

  function Clamp(text: Text, max: nat): Text {
    var n := FitFrom(text, max, |text|);
    FitIsWithin(text, max, |text|);
    text[..n]
  }

  lemma {:induction false} FitIsWithin(text: Text, max: nat, n: nat)
    requires n <= |text|
    ensures var k := FitFrom(text, max, n);
            && k <= n && Utf8Len(text[..k]) <= max
            && forall m :: k < m <= n ==> Utf8Len(text[..m]) > max
  {
    if n > 0 && Utf8Len(text[..n]) > max {
      FitIsWithin(text, max, n - 1);
    }
  }

  /** The longest fitting prefix exists and is unique. */
  lemma ClampIsTheLongestFit(text: Text, max: nat, r: Text)
    ensures IsLongestFit(text, max, r) <==> r == Clamp(text, max)
  {
    FitIsWithin(text, max, |text|);
    var c := Clamp(text, max);
    if IsLongestFit(text, max, r) {
      assert r == text[..|r|];
      assert |c| <= |r| && |r| <= |c|;
    }
  }

  /** Text that fits comes back whole, and clamping twice is clamping once. */
  lemma ClampIsIdempotent(text: Text, max: nat)
    ensures Clamp(text, max) == text <==> Utf8Len(text) <= max
    ensures Clamp(Clamp(text, max), max) == Clamp(text, max)
  {
    var c := Clamp(text, max);
    FitIsWithin(text, max, |text|);
    assert text[..|text|] == text && c[..|c|] == c;
  }

  /** A cut falls between the two halves of a pair exactly when three bytes are left before the pair. */
  lemma CutsInsideAPairIff(text: Text, max: nat, k: nat)
    requires 0 < k < |text| && IsHigh(text[k - 1]) && IsLow(text[k])
    ensures |Clamp(text, max)| == k <==> Utf8Len(text[..k - 1]) + 3 == max
  {
    var c := Clamp(text, max);
    ClampIsTheLongestFit(text, max, c);
    assert c == text[..|c|];
    assert text[..k] == text[..k - 1] + [text[k - 1]];
    OneMoreUnit(text[..k - 1], text[k - 1]);
    assert text[..k + 1] == text[..k] + [text[k]];
    OneMoreUnit(text[..k], text[k]);
    assert Utf8Len(text[..k]) == Utf8Len(text[..k - 1]) + 3;
    assert Utf8Len(text[..k + 1]) == Utf8Len(text[..k]) + 1;
    if Utf8Len(text[..k]) == max {
      forall m | k < m <= |text| ensures Utf8Len(text[..m]) > max {
        LongerPrefixesCostMore(text, k, m);
      }
      ClampIsTheLongestFit(text, max, text[..k]);
    }
  }

  /** The binary search over prefixes. */
  method ClampBytes(text: Text, max: nat) returns (r: Text)
    ensures r == Clamp(text, max)
    ensures IsLongestFit(text, max, r)
  {
    if Utf8Len(text) <= max {
      ClampIsTheLongestFit(text, max, text);
      assert text[..|text|] == text;
      return text;
    }
    var lo, hi := 0, |text|;
    while lo < hi
      invariant 0 <= lo <= hi <= |text|
      invariant Utf8Len(text[..lo]) <= max
      invariant forall k :: hi < k <= |text| ==> Utf8Len(text[..k]) > max
    {
      var mid := (lo + hi + 1) / 2;
      if Utf8Len(text[..mid]) <= max {
        lo := mid;
      } else {
        forall k | mid <= k <= |text| ensures Utf8Len(text[..k]) > max {
          if mid < k {
            LongerPrefixesCostMore(text, mid, k);
          }
        }
        hi := mid - 1;
      }
    }
    r := text[..lo];
    ClampIsTheLongestFit(text, max, r);
  }
}
