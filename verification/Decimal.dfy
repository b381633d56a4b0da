/**
 Decimal notation of natural numbers, and the few string operations (trimming, padding,
 splitting at a dot, ordering) that the amount codecs and the coin list share.
 */
module Decimal {

  // ---------- numbers ----------

  function Pow10(k: nat): (p: nat)
    ensures p > 0
  {
    if k == 0 then 1 else 10 * Pow10(k - 1)
  }

  predicate IsDigit(c: char) {
    '0' <= c <= '9'
  }

  /** Every character is a digit; the empty string qualifies. */
  predicate AllDigits(s: string) {
    forall i :: 0 <= i < |s| ==> IsDigit(s[i])
  }

  function DigitValue(c: char): (v: nat)
    requires IsDigit(c)
    ensures v < 10
  {
    c as int - '0' as int
  }

  function DigitChar(v: nat): (c: char)
    requires v < 10
    ensures IsDigit(c) && DigitValue(c) == v
  {
    ('0' as int + v) as char
  }

  /** The number a digit string denotes, most significant digit first. */
  function Value(s: string): nat
    requires AllDigits(s)
  {
    if s == "" then 0 else 10 * Value(s[..|s| - 1]) + DigitValue(s[|s| - 1])
  }

  /** The shortest digit string denoting n. */
  function Digits(n: nat): (s: string)
    ensures |s| > 0 && AllDigits(s)
  {
    if n < 10 then [DigitChar(n)] else Digits(n / 10) + [DigitChar(n % 10)]
  }

  /** An integer as Go prints it. */
  function SignedText(value: int): string {
    if value < 0 then "-" + Digits(-value) else Digits(value)
  }

  lemma {:induction false} ValueOfDigits(n: nat)
    ensures Value(Digits(n)) == n
  {
    if n >= 10 {
      ValueOfDigits(n / 10);
      assert Digits(n)[..|Digits(n)| - 1] == Digits(n / 10);
    }
  }

  lemma DigitsInjective(m: nat, n: nat)
    requires Digits(m) == Digits(n)
    ensures m == n
  {
    ValueOfDigits(m);
    ValueOfDigits(n);
  }

  lemma {:induction false} ValueConcat(a: string, b: string)
    requires AllDigits(a) && AllDigits(b)
    ensures AllDigits(a + b)
    ensures Value(a + b) == Value(a) * Pow10(|b|) + Value(b)
  {
    if b == "" {
      assert a + b == a;
    } else {
      var last := |b| - 1;
      ValueConcat(a, b[..last]);
      assert (a + b)[..|a + b| - 1] == a + b[..last];
      ShiftScale(Value(a), last);
    }
  }

  lemma ShiftScale(x: nat, k: nat)
    ensures 10 * (x * Pow10(k)) == x * Pow10(k + 1)
  {
  }

  lemma {:induction false} ValueBound(s: string)
    requires AllDigits(s)
    ensures Value(s) < Pow10(|s|)
  {
    if s != "" {
      ValueBound(s[..|s| - 1]);
    }
  }

  // ---------- zeros and trimming ----------

  function Zeros(k: nat): (s: string)
    ensures |s| == k && AllDigits(s)
    ensures forall i :: 0 <= i < k ==> s[i] == '0'
  {
    seq(k, _ => '0')
  }

  lemma {:induction false} ZerosValue(k: nat)
    ensures Value(Zeros(k)) == 0
  {
    if k > 0 {
      ZerosValue(k - 1);
      assert Zeros(k)[..k - 1] == Zeros(k - 1);
    }
  }

  /** Drops every trailing c. */
  function TrimRight(s: string, c: char): (t: string)
    ensures t <= s
  {
    if s != "" && s[|s| - 1] == c then TrimRight(s[..|s| - 1], c) else s
  }

  /** Drops every leading c. */
  function TrimLeft(s: string, c: char): string {
    if s != "" && s[0] == c then TrimLeft(s[1..], c) else s
  }

  lemma {:induction false} TrimRightRestored(s: string)
    ensures TrimRight(s, '0') + Zeros(|s| - |TrimRight(s, '0')|) == s
    ensures TrimRight(s, '0') == "" || TrimRight(s, '0')[|TrimRight(s, '0')| - 1] != '0'
  {
    if s != "" && s[|s| - 1] == '0' {
      TrimRightRestored(s[..|s| - 1]);
    }
  }

  lemma NothingToTrim(s: string, c: char)
    requires s != "" && s[|s| - 1] != c
    ensures TrimRight(s, c) == s
  {
  }

  lemma {:induction false} TrimLeftValue(s: string)
    requires AllDigits(s)
    ensures AllDigits(TrimLeft(s, '0')) && Value(TrimLeft(s, '0')) == Value(s)
  {
    if s != "" && s[0] == '0' {
      TrimLeftValue(s[1..]);
      ValueConcat(s[..1], s[1..]);
      assert s[..1] + s[1..] == s;
      assert Value(s[..1]) == 0 by { assert s[..1][..0] == ""; }
    }
  }

  /** White space as Unicode (and so Go's strings.TrimSpace) defines it. */
  predicate IsSpace(c: char) {
    || c == ' ' || '\t' <= c <= '\r'
    || c == '\U{0085}' || c == '\U{00A0}' || c == '\U{1680}'
    || '\U{2000}' <= c <= '\U{200A}'
    || c == '\U{2028}' || c == '\U{2029}' || c == '\U{202F}' || c == '\U{205F}' || c == '\U{3000}'
  }

  function TrimSpaceLeft(s: string): string {
    if s != "" && IsSpace(s[0]) then TrimSpaceLeft(s[1..]) else s
  }

  function TrimSpaceRight(s: string): string {
    if s != "" && IsSpace(s[|s| - 1]) then TrimSpaceRight(s[..|s| - 1]) else s
  }

  function TrimSpace(s: string): string {
    TrimSpaceRight(TrimSpaceLeft(s))
  }

  /** What TrimSpace takes off is white space, and it leaves none at either end. */
  lemma {:induction false} SpaceRight(s: string) returns (end: string)
    ensures s == TrimSpaceRight(s) + end && forall c <- end :: IsSpace(c)
    ensures TrimSpaceRight(s) != "" ==> !IsSpace(TrimSpaceRight(s)[|TrimSpaceRight(s)| - 1])
  {
    end := "";
    if s != "" && IsSpace(s[|s| - 1]) {
      end := SpaceRight(s[..|s| - 1]);
      end := end + [s[|s| - 1]];
      hide IsSpace;
    }
  }

  lemma {:induction false} SpaceLeft(s: string) returns (start: string)
    ensures s == start + TrimSpaceLeft(s) && forall c <- start :: IsSpace(c)
    ensures TrimSpaceLeft(s) != "" ==> !IsSpace(TrimSpaceLeft(s)[0])
  {
    start := "";
    if s != "" && IsSpace(s[0]) {
      start := SpaceLeft(s[1..]);
      start := [s[0]] + start;
      hide IsSpace;
    }
  }

  lemma SpaceTrimmed(s: string) returns (start: string, end: string)
    ensures s == start + TrimSpace(s) + end
    ensures (forall c <- start :: IsSpace(c)) && (forall c <- end :: IsSpace(c))
    ensures TrimSpace(s) != "" ==> !IsSpace(TrimSpace(s)[0]) && !IsSpace(TrimSpace(s)[|TrimSpace(s)| - 1])
  {
    start := SpaceLeft(s);
    end := SpaceRight(TrimSpaceLeft(s));
    hide IsSpace;
    assert TrimSpace(s) != "" ==> TrimSpace(s)[0] == TrimSpaceLeft(s)[0];
  }

  lemma {:induction false} LeftTaken(start: string, rest: string)
    requires (forall c <- start :: IsSpace(c)) && rest != "" && !IsSpace(rest[0])
    ensures TrimSpaceLeft(start + rest) == rest
  {
    hide IsSpace;
    if start == "" {
      assert start + rest == rest;
    } else {
      LeftTaken(start[1..], rest);
      assert (start + rest)[1..] == start[1..] + rest;
      assert start[0] in start;
    }
  }

  lemma {:induction false} RightTaken(rest: string, end: string)
    requires (forall c <- end :: IsSpace(c)) && rest != "" && !IsSpace(rest[|rest| - 1])
    ensures TrimSpaceRight(rest + end) == rest
  {
    hide IsSpace;
    if end == "" {
      assert rest + end == rest;
    } else {
      var last := |end| - 1;
      RightTaken(rest, end[..last]);
      assert (rest + end)[..|rest + end| - 1] == rest + end[..last];
      assert end[last] in end;
    }
  }

  lemma NoSpaceAround(s: string)
    requires s != "" && !IsSpace(s[0]) && !IsSpace(s[|s| - 1])
    ensures TrimSpace(s) == s
  {
    hide IsSpace;
  }

  /** The ASCII characters that count as white space, and no character of an amount does. */
  lemma SpacesTold(c: char)
    ensures c in " \t\n\r" ==> IsSpace(c)
    ensures IsDigit(c) || c in "+-." ==> !IsSpace(c)
    ensures IsSpace('\U{000B}') && IsSpace('\U{000C}') && !IsSpace('\U{0008}') && !IsSpace('\U{000E}')
    ensures IsSpace('\U{0085}') && IsSpace('\U{00A0}') && IsSpace('\U{1680}')
    ensures IsSpace('\U{2000}') && IsSpace('\U{200A}') && !IsSpace('\U{200B}') && !IsSpace('\U{1FFF}')
    ensures IsSpace('\U{2028}') && IsSpace('\U{2029}') && IsSpace('\U{202F}') && IsSpace('\U{205F}') && IsSpace('\U{3000}')
  {
  }

  // ---------- splitting ----------

  /** Position of the first c, or |s|. */
  function IndexOf(s: string, c: char): (i: nat)
    ensures i <= |s|
    ensures c !in s[..i]
    ensures i < |s| ==> s[i] == c
  {
    if s == "" || s[0] == c then 0 else
      var i := 1 + IndexOf(s[1..], c);
      assert s[..i] == [s[0]] + s[1..][..i - 1];
      i
  }

  lemma IndexOfUnique(s: string, c: char, i: nat)
    requires i <= |s| && c !in s[..i] && (i < |s| ==> s[i] == c)
    ensures IndexOf(s, c) == i
  {
    var j := IndexOf(s, c);
    assert forall k :: 0 <= k < i ==> s[..i][k] != c;
    assert forall k :: 0 <= k < j ==> s[..j][k] != c;
  }

  /** Splits at every c. */
  function Split(s: string, c: char): (parts: seq<string>)
    ensures |parts| > 0 && parts[0] == s[..IndexOf(s, c)]
    decreases |s|
  {
    var i := IndexOf(s, c);
    if i == |s| then [s] else [s[..i]] + Split(s[i + 1..], c)
  }

  /** Splits at the first c only. */
  function SplitFirst(s: string, c: char): (parts: seq<string>)
    ensures |parts| == 1 || |parts| == 2
  {
    var i := IndexOf(s, c);
    if i == |s| then [s] else [s[..i], s[i + 1..]]
  }

  lemma SplitWhole(s: string, c: char)
    ensures |Split(s, c)| == 1 <==> c !in s
    ensures c !in s ==> Split(s, c) == [s]
  {
    var i := IndexOf(s, c);
    if i == |s| {
      assert s[..i] == s;
    } else {
      assert s[i] == c;
    }
  }

  /** Splitting everywhere and splitting once agree exactly when nothing is left to split. */
  lemma SplitAgrees(s: string, c: char)
    ensures |Split(s, c)| <= 2 ==> Split(s, c) == SplitFirst(s, c)
    ensures |Split(s, c)| <= 2 <==> |SplitFirst(s, c)| == 1 || c !in SplitFirst(s, c)[1]
  {
    var i := IndexOf(s, c);
    if i < |s| {
      SplitWhole(s[i + 1..], c);
      var tail := Split(s[i + 1..], c);
      assert Split(s, c) == [s[..i]] + tail;
    }
  }

  // ---------- order ----------

  /** Lexicographic order, as Go compares strings. */
  predicate Less(a: string, b: string) {
    b != "" && (a == "" || a[0] < b[0] || (a[0] == b[0] && Less(a[1..], b[1..])))
  }

  /** Less is the lexicographic order: at the first difference the smaller character or the end decides. */
  lemma {:induction false} FirstDifference(a: string, b: string) returns (k: nat)
    requires Less(a, b)
    ensures k <= |a| && k < |b| && a[..k] == b[..k] && (k < |a| ==> a[k] < b[k])
  {
    if a == "" || a[0] < b[0] {
      k := 0;
    } else {
      k := FirstDifference(a[1..], b[1..]);
      assert a[..k + 1] == [a[0]] + a[1..][..k] && b[..k + 1] == [b[0]] + b[1..][..k];
      k := k + 1;
    }
  }

  lemma {:induction false} LessTotal(a: string, b: string)
    ensures Less(a, b) || a == b || Less(b, a)
    ensures !(Less(a, b) && Less(b, a))
    ensures !Less(a, a)
  {
    if a != "" && b != "" && a[0] == b[0] {
      LessTotal(a[1..], b[1..]);
      if a[1..] == b[1..] {
        assert a == [a[0]] + a[1..] && b == [b[0]] + b[1..];
      }
    }
    if a != "" {
      LessTotal(a[1..], a[1..]);
    }
  }

  lemma {:induction false} LessTransitive(a: string, b: string, c: string)
    requires Less(a, b) && Less(b, c)
    ensures Less(a, c)
  {
    if a != "" && a[0] == b[0] && b[0] == c[0] {
      LessTransitive(a[1..], b[1..], c[1..]);
    }
  }
}
