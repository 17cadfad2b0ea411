/** The string primitives the components rely on: `String.prototype.trim`,
    a global character-class replacement, ASCII lower-casing, `includes`,
    and the decimal rendering of a non-negative integer in a template string. */
module Text {

  /** The characters `trim` removes: ECMAScript WhiteSpace and LineTerminator. */
  const WhiteSpaceChars: set<char> := {
    '\t', '\n', '\U{000B}', '\U{000C}', '\r', ' ', '\U{00A0}', '\U{1680}',
    '\U{2000}', '\U{2001}', '\U{2002}', '\U{2003}', '\U{2004}', '\U{2005}',
    '\U{2006}', '\U{2007}', '\U{2008}', '\U{2009}', '\U{200A}',
    '\U{2028}', '\U{2029}', '\U{202F}', '\U{205F}', '\U{3000}', '\U{FEFF}'
  }

  predicate IsWhiteSpace(c: char) {
    c in WhiteSpaceChars
  }

  /** The position of the first character at or after `i` that is not
      white space, or `|s|` when there is none. */
  function StartOfText(s: string, i: nat): (k: nat)
    requires i <= |s|
    ensures i <= k <= |s|
    ensures forall j :: i <= j < k ==> IsWhiteSpace(s[j])
    ensures k < |s| ==> !IsWhiteSpace(s[k])
    decreases |s| - i
  {
    if i < |s| && IsWhiteSpace(s[i]) then StartOfText(s, i + 1) else i
  }

  /** The end of the text before position `j`: the smallest `e >= lo` such
      that everything from `e` up to `j` is white space. */
  function EndOfText(s: string, j: nat, lo: nat): (e: nat)
    requires lo <= j <= |s|
    ensures lo <= e <= j
    ensures forall m :: e <= m < j ==> IsWhiteSpace(s[m])
    ensures e > lo ==> !IsWhiteSpace(s[e - 1])
    decreases j
  {
    if j > lo && IsWhiteSpace(s[j - 1]) then EndOfText(s, j - 1, lo) else j
  }

  /** `r` is `s` with the white space before position `k` and after
      position `k + |r|` removed, and `r` neither starts nor ends with
      white space. */
  ghost predicate TrimmedAt(s: string, k: nat, r: string) {
    && k + |r| <= |s|
    && s[k..k + |r|] == r
    && (forall i :: 0 <= i < k ==> IsWhiteSpace(s[i]))
    && (forall i :: k + |r| <= i < |s| ==> IsWhiteSpace(s[i]))
    && (|r| > 0 ==> !IsWhiteSpace(r[0]) && !IsWhiteSpace(r[|r| - 1]))
  }

  /** `String.prototype.trim`: the text between the leading and the
      trailing white space. */
  function Trim(s: string): (r: string)
    ensures TrimmedAt(s, StartOfText(s, 0), r)
  {
    var k := StartOfText(s, 0);
    var e := EndOfText(s, |s|, k);
    var r := s[k..e];
    assert |r| > 0 ==> r[0] == s[k] && r[|r| - 1] == s[e - 1];
    r
  }

  /** Any two trimmings of the same string coincide. */
  lemma {:induction false} TrimmedAtUnique(s: string, k1: nat, r1: string, k2: nat, r2: string)
    requires TrimmedAt(s, k1, r1) && TrimmedAt(s, k2, r2)
    ensures r1 == r2
  {
    if |r1| > 0 {
      assert s[k1] == r1[0];
      assert |r2| > 0;
      assert s[k2] == r2[0];
      assert k1 == k2;
      var e1, e2 := k1 + |r1|, k2 + |r2|;
      assert s[e1 - 1] == r1[|r1| - 1] && s[e2 - 1] == r2[|r2| - 1];
      assert e1 == e2;
    } else {
      assert |r2| == 0;
    }
  }

  /** The trimming relation determines `Trim` completely. */
  lemma TrimCharacterised(s: string, k: nat, r: string)
    requires TrimmedAt(s, k, r)
    ensures Trim(s) == r
  {
    TrimmedAtUnique(s, k, r, StartOfText(s, 0), Trim(s));
  }

  /** Trimming twice is trimming once. */
  lemma TrimIdempotent(s: string)
    ensures Trim(Trim(s)) == Trim(s)
  {
    var t := Trim(s);
    assert TrimmedAt(t, 0, t) by {
      assert t[0..|t|] == t;
    }
    TrimCharacterised(t, 0, t);
  }

  /** The en dash and the em dash, the class `[–—]`. */
  predicate IsLongDash(c: char) {
    c == '\U{2013}' || c == '\U{2014}'
  }

  function FixDash(c: char): char {
    if IsLongDash(c) then '-' else c
  }

  /** `s.replace(/[–—]/g, "-")`. */
  function ReplaceLongDashes(s: string): (r: string)
    ensures |r| == |s|
    ensures forall i :: 0 <= i < |s| ==> r[i] == FixDash(s[i])
    ensures forall i :: 0 <= i < |r| ==> !IsLongDash(r[i])
  {
    if s == [] then [] else [FixDash(s[0])] + ReplaceLongDashes(s[1..])
  }

  /** Replacing dashes never turns a character into white space or out of it. */
  lemma ReplaceKeepsWhiteSpace(s: string)
    ensures forall i :: 0 <= i < |s| ==> (IsWhiteSpace(ReplaceLongDashes(s)[i]) <==> IsWhiteSpace(s[i]))
  {
    forall i | 0 <= i < |s| ensures IsWhiteSpace(ReplaceLongDashes(s)[i]) <==> IsWhiteSpace(s[i]) {
      FixDashKeepsWhiteSpace(s[i]);
    }
  }

  lemma FixDashKeepsWhiteSpace(c: char)
    ensures IsWhiteSpace(FixDash(c)) <==> IsWhiteSpace(c)
  {
  }

  /** Replacing dashes commutes with slicing. */
  lemma ReplaceSlice(s: string, k: nat, e: nat)
    requires k <= e <= |s|
    ensures ReplaceLongDashes(s)[k..e] == ReplaceLongDashes(s[k..e])
  {
    var r := ReplaceLongDashes(s[k..e]);
    forall i | 0 <= i < e - k ensures ReplaceLongDashes(s)[k..e][i] == r[i] {
      assert s[k..e][i] == s[k + i];
    }
  }

  /** Replacing dashes keeps a trimming a trimming. */
  lemma ReplaceKeepsTrimming(s: string, k: nat, t: string)
    requires TrimmedAt(s, k, t)
    ensures TrimmedAt(ReplaceLongDashes(s), k, ReplaceLongDashes(t))
  {
    var d, r := ReplaceLongDashes(s), ReplaceLongDashes(t);
    ReplaceSlice(s, k, k + |t|);
    ReplaceKeepsBlank(s, 0, k);
    ReplaceKeepsBlank(s, k + |t|, |s|);
    ReplaceKeepsEnds(t);
  }

  /** Replacing dashes keeps a white-space run white space. */
  lemma ReplaceKeepsBlank(s: string, lo: nat, hi: nat)
    requires lo <= hi <= |s|
    requires forall i :: lo <= i < hi ==> IsWhiteSpace(s[i])
    ensures forall i :: lo <= i < hi ==> IsWhiteSpace(ReplaceLongDashes(s)[i])
  {
    forall i | lo <= i < hi ensures IsWhiteSpace(ReplaceLongDashes(s)[i]) {
      FixDashKeepsWhiteSpace(s[i]);
    }
  }

  /** Replacing dashes keeps a string's ends free of white space. */
  lemma ReplaceKeepsEnds(t: string)
    requires |t| > 0 ==> !IsWhiteSpace(t[0]) && !IsWhiteSpace(t[|t| - 1])
    ensures var r := ReplaceLongDashes(t);
      |r| > 0 ==> !IsWhiteSpace(r[0]) && !IsWhiteSpace(r[|r| - 1])
  {
    if |t| > 0 {
      FixDashKeepsWhiteSpace(t[0]);
      FixDashKeepsWhiteSpace(t[|t| - 1]);
    }
  }

  function LowerAscii(c: char): char {
    if 'A' <= c <= 'Z' then (c as int + 32) as char else c
  }

  /** `toLowerCase`, restricted to the ASCII letters. */
  function ToLower(s: string): (r: string)
    ensures |r| == |s|
    ensures forall i :: 0 <= i < |s| ==> r[i] == LowerAscii(s[i])
    ensures forall i :: 0 <= i < |r| ==> !('A' <= r[i] <= 'Z')
  {
    if s == [] then [] else [LowerAscii(s[0])] + ToLower(s[1..])
  }

  /** `t` occurs in `s` starting at position `i`. */
  ghost predicate OccursAt(s: string, t: string, i: nat) {
    i + |t| <= |s| && s[i..i + |t|] == t
  }

  /** `s.includes(t)`, scanning `s` from the left. */
  predicate Contains(s: string, t: string)
    decreases |s|
  {
    (|t| <= |s| && s[..|t|] == t) || (|s| > 0 && Contains(s[1..], t))
  }

  /** The scan finds `t` exactly when it occurs somewhere in `s`. */
  lemma {:induction false} ContainsIff(s: string, t: string)
    ensures Contains(s, t) <==> exists i :: OccursAt(s, t, i)
    decreases |s|
  {
    if |t| <= |s| && s[..|t|] == t {
      assert OccursAt(s, t, 0);
    } else if |s| > 0 {
      ContainsIff(s[1..], t);
      if Contains(s[1..], t) {
        var i: nat :| OccursAt(s[1..], t, i);
        OccursInTail(s, t, i);
      }
      if i: nat :| OccursAt(s, t, i) {
        OccursPastHead(s, t, i);
      }
    } else {
      assert |t| > |s|;
    }
  }

  /** An occurrence in the tail of `s` is one position further on in `s`. */
  lemma OccursInTail(s: string, t: string, i: nat)
    requires |s| > 0 && OccursAt(s[1..], t, i)
    ensures OccursAt(s, t, i + 1)
  {
    assert s[i + 1..i + 1 + |t|] == s[1..][i..i + |t|];
  }

  /** An occurrence of `t` in `s` that is not at the head is one in its tail. */
  lemma OccursPastHead(s: string, t: string, i: nat)
    requires OccursAt(s, t, i) && !(|t| <= |s| && s[..|t|] == t)
    ensures i > 0 && OccursAt(s[1..], t, i - 1)
  {
    assert s[1..][i - 1..i - 1 + |t|] == s[i..i + |t|];
  }

  function DigitChar(d: nat): (c: char)
    requires d < 10
    ensures '0' <= c <= '9' && c as int - '0' as int == d
  {
    "0123456789"[d]
  }

  /** Decimal rendering of a non-negative integer, as `${n}` produces it. */
  function NatToString(n: nat): (r: string)
    ensures |r| >= 1
    ensures forall i :: 0 <= i < |r| ==> '0' <= r[i] <= '9'
    ensures n > 0 ==> r[0] != '0'
    decreases n
  {
    if n < 10 then [DigitChar(n)] else NatToString(n / 10) + [DigitChar(n % 10)]
  }

  /** The value of a string of decimal digits. */
  function DigitsValue(s: string): nat
    requires forall i :: 0 <= i < |s| ==> '0' <= s[i] <= '9'
  {
    if s == [] then 0 else DigitsValue(s[..|s| - 1]) * 10 + (s[|s| - 1] as int - '0' as int)
  }

  /** Reading the rendering back yields the number, so the rendering is injective. */
  lemma {:induction false} NatToStringRoundTrip(n: nat)
    ensures DigitsValue(NatToString(n)) == n
    decreases n
  {
    var r := NatToString(n);
    if n >= 10 {
      NatToStringRoundTrip(n / 10);
      assert r[..|r| - 1] == NatToString(n / 10);
    }
  }

  lemma NatToStringInjective(m: nat, n: nat)
    requires NatToString(m) == NatToString(n)
    ensures m == n
  {
    NatToStringRoundTrip(m);
    NatToStringRoundTrip(n);
  }

  /** A key of the form `${p}-${n}` gives back both its prefix and its number,
      because the number's digits never include the dash. */
  lemma DashNumberInjective(p1: string, m: nat, p2: string, n: nat)
    requires p1 + "-" + NatToString(m) == p2 + "-" + NatToString(n)
    ensures p1 == p2 && m == n
  {
    var k := p1 + "-" + NatToString(m);
    var d1, d2 := NatToString(m), NatToString(n);
    assert k[|p1|] == '-' && k[|p2|] == '-';
    assert |d1| == |d2|;
    assert d1 == k[|p1| + 1..] == d2;
    NatToStringInjective(m, n);
    assert p1 == k[..|p1|] == p2;
  }
}
