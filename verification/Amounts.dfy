/**
 The notation the four wallets share: optional whole digits, at most one dot, optional
 fraction digits. Each wallet has its own parser and printer of it.
 */
module Amounts {
  import opened Wrappers
  import opened Decimal

  datatype AmountError = Empty | Negative | InvalidDecimals | InvalidFormat | TooManyPlaces | OutOfRange

  type Parsed = Result<nat, AmountError>

  predicate GivesBack(r: Parsed, v: int) {
    r.Ok? && r.value == v
  }

  datatype Notation = Notation(whole: string, fraction: string, dotted: bool) {
    predicate Valid() {
      whole != "" && AllDigits(whole) && AllDigits(fraction) && (!dotted ==> fraction == "")
    }
  }

  predicate IsDigits(s: string) {
    s != "" && AllDigits(s)
  }

  /** The reference reading of unsigned notation. */
  function Read(body: string): (r: Option<Notation>)
    ensures r.Some? ==> r.value.Valid()
  {
    var parts := SplitFirst(body, '.');
    var whole := if parts[0] == "" then "0" else parts[0];
    var fraction := if |parts| == 2 then parts[1] else "";
    if AllDigits(whole) && AllDigits(fraction) then Some(Notation(whole, fraction, |parts| == 2)) else None
  }

  /** What reads: digits, or digits around one dot; missing whole digits stand for zero. */
  lemma ReadMeans(body: string)
    ensures AllDigits(body) ==> Read(body) == Some(Notation(if body == "" then "0" else body, "", false))
    ensures Read(body).Some? ==>
      || AllDigits(body)
      || exists k :: 0 <= k < |body| && body[k] == '.' && AllDigits(body[..k]) && AllDigits(body[k + 1..])
  {
    var i := IndexOf(body, '.');
    assert AllDigits(body) && i < |body| ==> IsDigit(body[i]);
    if i == |body| {
      assert body[..i] == body;
    }
  }

  lemma ReadDotted(whole: string, fraction: string)
    requires AllDigits(whole) && AllDigits(fraction)
    ensures Read(whole + "." + fraction) == Some(Notation(if whole == "" then "0" else whole, fraction, true))
  {
    var body := whole + "." + fraction;
    assert forall i :: 0 <= i < |whole| ==> whole[i] != '.';
    assert body[..|whole|] == whole;
    IndexOfUnique(body, '.', |whole|);
    assert body[|whole| + 1..] == fraction;
  }

  /** Splitting at every dot reads the same notation; a second dot reads as nothing. */
  lemma SplitReads(body: string)
    ensures |Split(body, '.')| > 0
    ensures var parts := Split(body, '.');
      var whole := if parts[0] == "" then "0" else parts[0];
      var fraction := if |parts| == 2 then parts[1] else "";
      Read(body) == if |parts| <= 2 && AllDigits(whole) && AllDigits(fraction)
                    then Some(Notation(whole, fraction, |parts| == 2)) else None
  {
    SplitAgrees(body, '.');
    if |Split(body, '.')| > 2 {
      var fraction := SplitFirst(body, '.')[1];
      var k :| 0 <= k < |fraction| && fraction[k] == '.';
      assert !IsDigit(fraction[k]);
    }
  }

  function Padded(fraction: string, d: nat): (s: string)
    requires |fraction| <= d && AllDigits(fraction)
    ensures |s| == d && AllDigits(s)
  {
    fraction + Zeros(d - |fraction|)
  }

  /** The amount in units of 10^-d, when the fraction fits: its digits read as one number. */
  function Scaled(n: Notation, d: nat): nat
    requires n.Valid() && |n.fraction| <= d
  {
    Value(n.whole + Padded(n.fraction, d))
  }

  /** Multiplying and adding computes the same number. */
  lemma ScaledByAdding(n: Notation, d: nat)
    requires n.Valid() && |n.fraction| <= d
    ensures Scaled(n, d) == Value(n.whole) * Pow10(d) + Value(Padded(n.fraction, d))
  {
    ValueConcat(n.whole, Padded(n.fraction, d));
  }

  /** In exact arithmetic: the whole part times 10^d and the fraction times what is left of it. */
  lemma ScaledExactly(whole: string, fraction: string, d: nat)
    requires AllDigits(whole) && AllDigits(fraction) && |fraction| <= d
    ensures Scaled(Notation(if whole == "" then "0" else whole, fraction, true), d)
         == Value(whole) * Pow10(d) + Value(fraction) * Pow10(d - |fraction|)
  {
    ScaledByAdding(Notation(if whole == "" then "0" else whole, fraction, true), d);
    assert Value("0") == Value("") by { assert "0"[..0] == ""; }
    ValueConcat(fraction, Zeros(d - |fraction|));
    ZerosValue(d - |fraction|);
    hide Value, Pow10, Scaled;
  }

  // ---------- the canonical text of an amount ----------

  function PadZero(s: string, width: nat): (t: string)
    ensures |t| >= width && (AllDigits(s) ==> AllDigits(t))
  {
    if |s| < width then Zeros(width - |s|) + s else s
  }

  /** Whole part, then the fraction behind a dot unless it is empty. */
  function Dotted(whole: string, fraction: string): string {
    if fraction == "" then whole else whole + "." + fraction
  }

  /** Cuts digits d places from the end and drops the zeros the fraction ends in. */
  function PlaceDot(raw: string, d: nat): string
    requires |raw| > d
  {
    Dotted(raw[..|raw| - d], TrimRight(raw[|raw| - d..], '0'))
  }

  /** The canonical text of v units of 10^-d. */
  function Canonical(v: nat, d: nat): string {
    PlaceDot(PadZero(Digits(v), d + 1), d)
  }

  lemma DottedReads(whole: string, fraction: string)
    requires IsDigits(whole) && AllDigits(fraction)
    ensures Read(Dotted(whole, fraction)) == Some(Notation(whole, fraction, fraction != ""))
  {
    var text := Dotted(whole, fraction);
    assert forall i :: 0 <= i < |whole| ==> whole[i] != '.';
    IndexOfUnique(text, '.', |whole|);
    assert text[..|whole|] == whole;
    if fraction != "" {
      assert text[|whole| + 1..] == fraction;
    }
  }

  lemma DottedTrimmed(whole: string, fraction: string)
    requires IsDigits(whole) && AllDigits(fraction)
    ensures TrimSpace(Dotted(whole, fraction)) == Dotted(whole, fraction)
    ensures Dotted(whole, fraction) != "" && IsDigit(Dotted(whole, fraction)[0])
  {
    var text := Dotted(whole, fraction);
    assert text[0] == whole[0];
    assert IsDigit(text[|text| - 1]);
  }

  /** The digits before the dot, and the fraction that padding restores. */
  lemma PlacedDot(raw: string, d: nat) returns (whole: string, fraction: string)
    requires |raw| > d && AllDigits(raw)
    ensures IsDigits(whole) && AllDigits(fraction) && |fraction| <= d
    ensures PlaceDot(raw, d) == Dotted(whole, fraction) && whole + Padded(fraction, d) == raw
  {
    hide TrimRight, Dotted;
    whole := raw[..|raw| - d];
    var full := raw[|raw| - d..];
    fraction := TrimRight(full, '0');
    TrimRightRestored(full);
    assert Padded(fraction, d) == full;
    assert raw == whole + full;
  }

  /** Reading digits with a dot placed in them gives the digits back. */
  lemma PlacedDotReads(raw: string, d: nat)
    requires |raw| > d && AllDigits(raw)
    ensures Read(PlaceDot(raw, d)).Some?
    ensures var n := Read(PlaceDot(raw, d)).value;
      |n.fraction| <= d && Scaled(n, d) == Value(raw) && (n.dotted ==> n.fraction != "")
  {
    hide Read, Value, Dotted, PlaceDot, Padded;
    var whole, fraction := PlacedDot(raw, d);
    DottedReads(whole, fraction);
  }

  /** Reading the canonical text gives back the amount; there is no sign and no space in it. */
  lemma CanonicalReads(v: nat, d: nat)
    ensures var text := Canonical(v, d);
      && text != "" && IsDigit(text[0]) && TrimSpace(text) == text
      && Read(text).Some? && |Read(text).value.fraction| <= d && Scaled(Read(text).value, d) == v
      && (Read(text).value.dotted ==> Read(text).value.fraction != "")
  {
    hide Read, Scaled, Value, TrimSpace, TrimRight, PadZero, Digits, Dotted;
    var raw := PadZero(Digits(v), d + 1);
    PaddedValue(v, d + 1);
    PlacedDotReads(raw, d);
    DottedTrimmed(raw[..|raw| - d], TrimRight(raw[|raw| - d..], '0'));
  }

  lemma {:induction false} NoLeadingZero(n: nat)
    requires n > 0
    ensures Digits(n)[0] != '0'
  {
    if n >= 10 {
      NoLeadingZero(n / 10);
    }
  }

  /** The canonical text is as short as it can be: no zero in front of the whole part or behind the fraction. */
  lemma CanonicalShape(v: nat, d: nat) returns (whole: string, fraction: string)
    ensures Canonical(v, d) == if fraction == "" then whole else whole + "." + fraction
    ensures whole != "" && (whole == "0" || whole[0] != '0')
    ensures |fraction| <= d && (fraction != "" ==> fraction[|fraction| - 1] != '0')
  {
    hide Digits, TrimRight;
    var raw := PadZero(Digits(v), d + 1);
    whole, fraction := raw[..|raw| - d], TrimRight(raw[|raw| - d..], '0');
    TrimRightRestored(raw[|raw| - d..]);
    if |Digits(v)| > d {
      if v == 0 {
        assert Digits(0) == "0" by { ZeroDigit(); }
      } else {
        NoLeadingZero(v);
      }
    }
  }

  lemma ZeroDigit()
    ensures Digits(0) == "0"
  {
  }

  lemma WholeOnly(raw: string)
    requires raw != ""
    ensures PlaceDot(raw, 0) == raw
  {
    assert raw[..|raw| - 0] == raw && raw[|raw| - 0..] == "";
  }

  lemma PaddedValue(v: nat, width: nat)
    ensures Value(PadZero(Digits(v), width)) == v
  {
    ValueOfDigits(v);
    if |Digits(v)| < width {
      ZerosValue(width - |Digits(v)|);
      ValueConcat(Zeros(width - |Digits(v)|), Digits(v));
    }
  }
}

/** web3utils/evm: concatenate the digits, cut or pad the fraction, drop leading zeros. */
module EvmAmount {
  import opened Wrappers
  import opened Decimal
  import opened Amounts

  function ParseUnits(text: string, decimals: int): Parsed {
    var amount := TrimSpace(text);
    if amount == "" then Err(Empty)
    else if amount[0] == '-' then Err(Negative)
    else if decimals < 0 then Err(InvalidDecimals)
    else
      var parts := SplitFirst(amount, '.');
      var whole := if parts[0] == "" then "0" else parts[0];
      var given := if |parts| == 2 then parts[1] else "";
      if !IsDigits(whole) || (given != "" && !IsDigits(given)) then Err(InvalidFormat)
      else
        var kept := if |given| > decimals then given[..decimals] else given;
        var number := TrimLeft(whole + Padded(kept, decimals), '0');
        TrimLeftValue(whole + Padded(kept, decimals));
        if number == "" then Ok(0) else Ok(Value(number))
  }

  function FormatUnits(value: int, decimals: nat): string {
    if value == 0 then "0"
    else
      var raw := SignedText(value);
      if decimals == 0 then raw
      else
        var padded := if |raw| <= decimals then Zeros(decimals - |raw| + 1) + raw else raw;
        var whole := padded[..|padded| - decimals];
        var fraction := TrimRight(padded[|padded| - decimals..], '0');
        if fraction == "" then whole else whole + "." + fraction
  }

  /** The fraction cut to the places there are. */
  function Cut(n: Notation, d: nat): (c: Notation)
    requires n.Valid()
    ensures c.Valid() && |c.fraction| <= d
  {
    if |n.fraction| > d then n.(fraction := n.fraction[..d]) else n
  }

  /** Digit concatenation means: read the notation, cut the fraction, scale. */
  lemma ParseMeaning(text: string, decimals: int)
    ensures ParseUnits(text, decimals) ==
      var amount := TrimSpace(text);
      if amount == "" then Err(Empty)
      else if amount[0] == '-' then Err(Negative)
      else if decimals < 0 then Err(InvalidDecimals)
      else match Read(amount)
        case None => Err(InvalidFormat)
        case Some(n) => Ok(Scaled(Cut(n, decimals), decimals))
  {
    var amount := TrimSpace(text);
    if amount != "" && amount[0] != '-' && decimals >= 0 {
      match Read(amount)
      case None =>
      case Some(n) =>
        var c := Cut(n, decimals);
        TrimLeftValue(c.whole + Padded(c.fraction, decimals));
    }
  }

  /** Errors are looked for in this order: nothing there, the sign, the decimals, the format. */
  lemma Refusals(d: nat)
    ensures ParseUnits("", d) == Err(Empty) == ParseUnits("", -1)
    ensures ParseUnits("-1", d) == Err(Negative) == ParseUnits("-1", -1)
    ensures ParseUnits("x", -1) == Err(InvalidDecimals)
    ensures ParseUnits("x", d) == Err(InvalidFormat) == ParseUnits("+1", d)
  {
    hide ParseUnits, IsSpace, Scaled, Read;
    SpacesTold('-'); SpacesTold('1'); SpacesTold('+');
    NoSpaceAround("-1"); NoSpaceAround("+1");
    assert TrimSpace("x") == "x" by { NotSpace(); NoSpaceAround("x"); }
    assert TrimSpace("") == "";
    assert Read("x") == None by { ReadMeans("x"); }
    assert Read("+1") == None by { ReadMeans("+1"); }
    ParseMeaning("", d); ParseMeaning("", -1); ParseMeaning("-1", d); ParseMeaning("-1", -1);
    ParseMeaning("x", -1); ParseMeaning("x", d); ParseMeaning("+1", d);
  }

  lemma NotSpace()
    ensures !IsSpace('x')
  {
  }

  /**
   An accepted amount is rounded down: with X the digits read as one number and f fraction
   digits, the result v is the integer part of X * 10^decimals / 10^f.
   */
  lemma ParseFloors(text: string, decimals: nat)
    requires ParseUnits(text, decimals).Ok?
    ensures Read(TrimSpace(text)).Some?
    ensures var n := Read(TrimSpace(text)).value;
      var v := ParseUnits(text, decimals).value;
      var exact := Value(n.whole + n.fraction) * Pow10(decimals);
      v * Pow10(|n.fraction|) <= exact < (v + 1) * Pow10(|n.fraction|)
  {
    hide ParseUnits, Read, TrimSpace, Value;
    ParseMeaning(text, decimals);
    ScaledFloors(Read(TrimSpace(text)).value, decimals);
  }

  lemma ScaledFloors(n: Notation, d: nat)
    requires n.Valid()
    ensures var v := Scaled(Cut(n, d), d);
      var exact := Value(n.whole + n.fraction) * Pow10(d);
      v * Pow10(|n.fraction|) <= exact < (v + 1) * Pow10(|n.fraction|)
  {
    hide Scaled, Value, Pow10, Padded;
    var v := Scaled(Cut(n, d), d);
    var f := |n.fraction|;
    ValueConcat(n.whole, n.fraction);
    ScaledByAdding(Cut(n, d), d);
    if f <= d {
      Pow10Sum(d - f, f);
      PaddedScales(n.fraction, d);
      Rearrange(Value(n.whole), Value(n.fraction), Pow10(d - f), Pow10(f));
    } else {
      var kept, lost := n.fraction[..d], n.fraction[d..];
      assert n.fraction == kept + lost;
      assert Padded(kept, d) == kept by { PaddedFull(kept); }
      ValueConcat(kept, lost);
      ValueBound(lost);
      Pow10Sum(d, f - d);
      FloorBound(Value(n.whole), Value(kept), Value(lost), Pow10(d), Pow10(f - d));
    }
  }

  lemma PaddedFull(s: string)
    requires AllDigits(s)
    ensures Padded(s, |s|) == s
  {
  }

  lemma PaddedScales(s: string, d: nat)
    requires AllDigits(s) && |s| <= d
    ensures Value(Padded(s, d)) == Value(s) * Pow10(d - |s|)
  {
    hide Value, Pow10;
    ValueConcat(s, Zeros(d - |s|));
    ZerosValue(d - |s|);
  }

  lemma Rearrange(w: nat, x: nat, p: nat, q: nat)
    requires p > 0 && q > 0
    ensures (w * (p * q) + x * p) * q == (w * q + x) * (p * q) < (w * (p * q) + x * p + 1) * q
  {
    var a := p * q;
    assert (w * a + x * p) * q == w * a * q + x * p * q;
    assert (w * q + x) * a == w * q * a + x * a;
    assert x * p * q == x * a;
  }

  lemma FloorBound(w: nat, k: nat, l: nat, p: nat, q: nat)
    requires l < q && p > 0
    ensures (w * p + k) * (p * q) <= (w * (p * q) + (k * q + l)) * p < (w * p + k + 1) * (p * q)
  {
    var x := w * p + k;
    calc {
      (w * (p * q) + (k * q + l)) * p;
    == { ProductsRegroup(w, k, p, q); }
      (x * q + l) * p;
    == { Distribute(x * q, l, p); ProductsCommute(x, q, p); }
      x * (p * q) + l * p;
    }
    Distribute(x, 1, p * q);
    LessTimes(l, q, p);
  }

  lemma ProductsRegroup(w: int, k: int, p: int, q: int)
    ensures w * (p * q) + k * q == (w * p + k) * q
  {
  }

  lemma ProductsCommute(x: int, q: int, p: int)
    ensures x * q * p == x * (p * q)
  {
  }

  lemma Distribute(x: int, y: int, z: int)
    ensures (x + y) * z == x * z + y * z
  {
  }

  lemma LessTimes(l: nat, q: nat, p: nat)
    requires l < q && p > 0
    ensures l * p < p * q
  {
  }

  lemma {:induction false} Pow10Sum(a: nat, b: nat)
    ensures Pow10(a) * Pow10(b) == Pow10(a + b)
  {
    if a > 0 {
      Pow10Sum(a - 1, b);
      assert Pow10(a) * Pow10(b) == 10 * (Pow10(a - 1) * Pow10(b));
    }
  }

  lemma ZeroIsCanonical(d: nat)
    ensures Canonical(0, d) == "0"
  {
    var raw := PadZero(Digits(0), d + 1);
    assert raw == Zeros(d + 1) by { assert Digits(0) == "0"; }
    AllZerosTrimmed(raw[1..]);
  }

  lemma {:induction false} AllZerosTrimmed(s: string)
    requires forall i :: 0 <= i < |s| ==> s[i] == '0'
    ensures TrimRight(s, '0') == ""
  {
    if s != "" {
      AllZerosTrimmed(s[..|s| - 1]);
    }
  }

  lemma FormatIsCanonical(v: nat, d: nat)
    ensures FormatUnits(v, d) == Canonical(v, d)
  {
    hide Digits;
    if v == 0 {
      ZeroIsCanonical(d);
    } else if d == 0 {
      WholeOnly(Digits(v));
    }
  }

  lemma {:induction false} TrimRightKeeps(s: string, zero: char, c: char)
    requires c in s && c != zero
    ensures c in TrimRight(s, zero)
  {
    if s[|s| - 1] == zero {
      assert s == s[..|s| - 1] + [zero];
      TrimRightKeeps(s[..|s| - 1], zero, c);
    }
  }

  /** A negative value keeps its minus sign somewhere, if not in front. */
  lemma NegativePrints(v: int, d: nat)
    requires v < 0
    ensures '-' in FormatUnits(v, d)
  {
    hide Digits, TrimRight, SignedText, Zeros;
    var raw := SignedText(v);
    assert raw != "" && raw[0] == '-' by { MinusInFront(v); }
    if d > 0 {
      var padded := if |raw| <= d then Zeros(d - |raw| + 1) + raw else raw;
      assert raw[0] in raw && '-' in padded;
      MinusAround(padded, d);
    }
  }

  lemma MinusInFront(v: int)
    requires v < 0
    ensures SignedText(v) != "" && SignedText(v)[0] == '-'
  {
  }

  /** Cutting the text at the dot and trimming zeros keeps the sign in one of the parts. */
  lemma MinusAround(padded: string, d: nat)
    requires d <= |padded| && '-' in padded
    ensures '-' in padded[..|padded| - d] || '-' in TrimRight(padded[|padded| - d..], '0')
  {
    hide TrimRight;
    var whole, fraction := padded[..|padded| - d], padded[|padded| - d..];
    assert padded == whole + fraction;
    if '-' in fraction {
      TrimRightKeeps(fraction, '0', '-');
    }
  }

  /** A character that is neither a digit nor a dot spoils the notation. */
  lemma MinusUnreadable(body: string)
    requires '-' in body
    ensures Read(body) == None
  {
    var k :| 0 <= k < |body| && body[k] == '-';
    var i := IndexOf(body, '.');
    if k < i {
      assert body[..i][k] == '-' && !IsDigit('-');
    } else {
      assert body[i + 1..][k - i - 1] == '-' && !IsDigit('-');
    }
  }

  /** A minus sign, wherever it stands, is refused. */
  lemma MinusRefused(text: string, decimals: nat)
    requires '-' in text
    ensures ParseUnits(text, decimals).Err?
  {
    SpacesTold('-');
    var start, end := SpaceTrimmed(text);
    assert '-' !in start && '-' !in end;
    assert '-' in TrimSpace(text);
    ParseMeaning(text, decimals);
    MinusUnreadable(TrimSpace(text));
    hide ParseUnits, Read, Scaled, TrimSpaceLeft, TrimSpaceRight;
  }

  lemma MinusFivePrinted()
    ensures FormatUnits(-5, 2) == "0.-5"
  {
    assert SignedText(-5) == "-5" by { assert Digits(5) == "5"; }
    hide Digits, TrimRight, SignedText;
    assert Zeros(1) == "0";
    assert ("0" + "-5")[..1] == "0" && ("0" + "-5")[1..] == "-5";
    assert TrimRight("-5", '0') == "-5" by { NothingToTrim("-5", '0'); }
  }

  /** The minus sign can end up behind the dot. */
  lemma MinusBehindDot()
    ensures FormatUnits(-5, 2) == "0.-5" && ParseUnits("0.-5", 2) == Err(InvalidFormat)
  {
    MinusFivePrinted();
    NoSpaceAround("0.-5");
    ParseMeaning("0.-5", 2);
    MinusUnreadable("0.-5");
    hide FormatUnits, ParseUnits, Read, TrimSpace, Scaled;
  }

  /**
   Printing and parsing again loses nothing, exactly on non-negative values: a negative one prints
   as text like "-5" or "0.-5" that is refused.
   */
  lemma RoundTrip(v: int, d: nat)
    ensures GivesBack(ParseUnits(FormatUnits(v, d), d), v) <==> v >= 0
    ensures v < 0 ==> ParseUnits(FormatUnits(v, d), d).Err?
  {
    hide ParseUnits, Read, Scaled, TrimSpace, Canonical, FormatUnits;
    if v >= 0 {
      FormatIsCanonical(v, d);
      CanonicalReads(v, d);
      ParseMeaning(FormatUnits(v, d), d);
    } else {
      NegativePrints(v, d);
      MinusRefused(FormatUnits(v, d), d);
    }
  }
}

/** web3utils/solana and web3utils/tron: scale the whole part, add the padded fraction. */
module SolanaAmount {
  import opened Wrappers
  import opened Decimal
  import opened Amounts

  const MAX_DECIMALS := 255

  /** What an amount denotes; errors in the order the parser looks for them. */
  function Denoted(text: string, decimals: int): Parsed {
    var amount := TrimSpace(text);
    if amount == "" then Err(Empty)
    else if !(0 <= decimals <= MAX_DECIMALS) then Err(InvalidDecimals)
    else
      var body := if amount[0] == '+' then amount[1..] else amount;
      if body != "" && body[0] == '-' then Err(Negative)
      else match Read(body)
        case None => Err(InvalidFormat)
        case Some(n) => if |n.fraction| > decimals then Err(TooManyPlaces) else Ok(Scaled(n, decimals))
  }

  method ParseUnits(text: string, decimals: int) returns (r: Parsed)
    ensures r == Denoted(text, decimals)
  {
    hide Read, Scaled, Split, TrimSpace, Value, Pow10;
    var amount := TrimSpace(text);
    if amount == "" { return Err(Empty); }
    if decimals < 0 || decimals > MAX_DECIMALS { return Err(InvalidDecimals); }
    if amount[0] == '+' {
      amount := amount[1..];
    }
    if amount != "" && amount[0] == '-' { return Err(Negative); }
    var parts := Split(amount, '.');
    SplitReads(amount);
    if |parts| > 2 { return Err(InvalidFormat); }
    var whole := parts[0];
    if whole == "" {
      whole := "0";
    }
    if !IsDigits(whole) { return Err(InvalidFormat); }
    var fraction := "";
    if |parts| == 2 {
      fraction := parts[1];
      if fraction != "" && !IsDigits(fraction) { return Err(InvalidFormat); }
    }
    if |fraction| > decimals { return Err(TooManyPlaces); }
    ScaledByAdding(Notation(whole, fraction, |parts| == 2), decimals);
    fraction := Padded(fraction, decimals);
    var wholeValue := Value(whole);
    wholeValue := wholeValue * Pow10(decimals);
    if fraction == "" {
      ZerosValue(0);
      assert Zeros(0) == "";
      return Ok(wholeValue);
    }
    wholeValue := wholeValue + Value(fraction);
    return Ok(wholeValue);
  }

  /** Past the spaces and one plus, what is left must read and its fraction fit. */
  lemma DenotedBody(text: string, plus: bool, body: string, d: nat)
    requires TrimSpace(text) == (if plus then "+" else "") + body && d <= 255
    requires (plus || body != "") && (body == "" || (body[0] != '-' && (plus || body[0] != '+')))
    ensures Denoted(text, d) == match Read(body)
      case None => Err(InvalidFormat)
      case Some(n) => if |n.fraction| > d then Err(TooManyPlaces) else Ok(Scaled(n, d))
  {
    hide TrimSpace, Read, Scaled;
    if plus {
      assert ("+" + body)[1..] == body;
    } else {
      assert "" + body == body;
    }
  }

  /** An amount in the notation, with spaces around it and perhaps a plus in front, is worth its digits. */
  lemma Accepts(start: string, plus: bool, whole: string, fraction: string, end: string, d: nat)
    requires (forall c <- start :: IsSpace(c)) && (forall c <- end :: IsSpace(c))
    requires AllDigits(whole) && AllDigits(fraction) && |fraction| <= d <= 255
    ensures Denoted(start + ((if plus then "+" else "") + (whole + "." + fraction)) + end, d)
         == Ok(Value(whole) * Pow10(d) + Value(fraction) * Pow10(d - |fraction|))
  {
    hide Read, TrimSpace, Value, Pow10, Scaled, Denoted, IsSpace;
    var body := whole + "." + fraction;
    var amount := (if plus then "+" else "") + body;
    AmountText(plus, whole, fraction);
    AmountTrimmed(start, amount, end);
    ReadDotted(whole, fraction);
    ScaledExactly(whole, fraction, d);
    DenotedBody(start + amount + end, plus, body, d);
  }

  lemma AmountText(plus: bool, whole: string, fraction: string)
    requires AllDigits(whole) && AllDigits(fraction)
    ensures var body := whole + "." + fraction;
      && body != "" && body[0] != '-' && body[0] != '+'
      && forall c <- (if plus then "+" else "") + body :: IsDigit(c) || c in "+-."
  {
    var body := whole + "." + fraction;
    assert forall c <- body :: c in whole || c == '.' || c in fraction;
    assert body[0] in body;
  }

  lemma AmountTrimmed(start: string, amount: string, end: string)
    requires (forall c <- start :: IsSpace(c)) && (forall c <- end :: IsSpace(c))
    requires amount != "" && forall c <- amount :: IsDigit(c) || c in "+-."
    ensures TrimSpace(start + amount + end) == amount
  {
    SpacesTold(amount[0]);
    SpacesTold(amount[|amount| - 1]);
    assert amount[0] in amount && amount[|amount| - 1] in amount;
    hide IsSpace;
    LeftTaken(start, amount + end);
    assert start + amount + end == start + (amount + end);
    RightTaken(amount, end);
  }

  /** Errors are looked for in this order: nothing there, the decimals, the sign. */
  lemma RefusedAtOnce(d: nat)
    requires d <= 255
    ensures Denoted("", d) == Err(Empty) == Denoted("", -1)
    ensures Denoted("-1", -1) == Err(InvalidDecimals) == Denoted("-1", 256)
    ensures Denoted("-1", d) == Err(Negative) == Denoted("+-1", d)
  {
    hide Scaled, Read, IsSpace;
    SpacesTold('-'); SpacesTold('1'); SpacesTold('+');
    NoSpaceAround("-1"); NoSpaceAround("+-1");
    assert TrimSpace("") == "";
    assert "+-1"[1..] == "-1";
  }

  /** Then the format, then the places. */
  lemma RefusedByFormat(d: nat)
    requires d <= 255
    ensures Denoted("x", d) == Err(InvalidFormat) == Denoted("1.2.3", d)
    ensures d < 2 ==> Denoted("1.23", d) == Err(TooManyPlaces)
  {
    hide TrimSpace, Scaled, Read, Denoted;
    NoSpaceAround("x"); NoSpaceAround("1.2.3"); NoSpaceAround("1.23");
    assert Read("x") == None by { ReadMeans("x"); }
    TwoDots();
    ReadDotted("1", "23");
    assert "1.23" == "1" + "." + "23";
    DenotedBody("x", false, "x", d);
    DenotedBody("1.2.3", false, "1.2.3", d);
    DenotedBody("1.23", false, "1.23", d);
  }

  lemma TwoDots()
    ensures Read("1.2.3") == None
  {
    var parts := SplitFirst("1.2.3", '.');
    IndexOfUnique("1.2.3", '.', 1);
    assert parts[1] == "2.3";
    assert !IsDigit(parts[1][1]);
  }

  function FormatUnits(value: int, decimals: nat): string {
    var digits := Digits(if value < 0 then -value else value);
    var result := if decimals == 0 then digits else WithDot(digits, decimals);
    if value < 0 then "-" + result else result
  }

  /** The digits with a dot before the last places and no zeros behind it. */
  function WithDot(digits: string, decimals: nat): string
    requires decimals > 0
  {
    var padded := if |digits| <= decimals then Zeros(decimals - |digits| + 1) + digits else digits;
    var whole := padded[..|padded| - decimals];
    var fraction := TrimRight(padded[|padded| - decimals..], '0');
    if fraction != "" then whole + "." + fraction else whole
  }

  lemma FormatIsCanonical(v: nat, d: nat)
    ensures FormatUnits(v, d) == Canonical(v, d)
  {
    hide Digits, TrimRight, Zeros;
    if d == 0 {
      WholeOnly(Digits(v));
    }
  }

  /** Printing and parsing again loses nothing, exactly on non-negative amounts. */
  lemma RoundTrip(v: int, d: nat)
    requires d <= 255
    ensures GivesBack(Denoted(FormatUnits(v, d), d), v) <==> v >= 0
    ensures v < 0 ==> Denoted(FormatUnits(v, d), d) == Err(Negative)
  {
    hide TrimSpace, Read, Scaled, Canonical, FormatUnits;
    if v >= 0 {
      FormatIsCanonical(v, d);
      CanonicalReads(v, d);
    } else {
      NegativeSign(v, d);
      LeadingSignStays(FormatUnits(v, d));
    }
  }

  /** A negative value prints as its absolute value behind a minus sign. */
  lemma NegativeSign(v: int, d: nat)
    requires v < 0
    ensures FormatUnits(v, d) == "-" + FormatUnits(-v, d)
    ensures FormatUnits(v, d) != "" && FormatUnits(v, d)[0] == '-'
  {
    hide Digits, WithDot;
  }

  lemma {:induction false} TrimKeepsFirst(s: string)
    requires s != "" && !IsSpace(s[0])
    ensures TrimSpaceRight(s) != "" && TrimSpaceRight(s)[0] == s[0]
  {
    if IsSpace(s[|s| - 1]) {
      TrimKeepsFirst(s[..|s| - 1]);
    }
  }

  lemma LeadingSignStays(s: string)
    requires s != "" && s[0] == '-'
    ensures TrimSpace(s) != "" && TrimSpace(s)[0] == '-'
  {
    TrimKeepsFirst(s);
  }
}

/** web3utils/bitcoin: eight places, never more than the 21 million coins. */
module BitcoinAmount {
  import opened Wrappers
  import opened Decimal
  import opened Integers
  import opened Amounts
  import SolanaAmount

  const PLACES := 8
  const COIN := 100_000_000
  const MAX_SATOSHI := 2_100_000_000_000_000

  function Denoted(text: string): Parsed {
    var amount := TrimSpace(text);
    if amount == "" then Err(Empty)
    else
      var body := if amount[0] == '+' then amount[1..] else amount;
      if body != "" && body[0] == '-' then Err(Negative)
      else match Read(body)
        case None => Err(InvalidFormat)
        case Some(n) =>
          if n.dotted && n.fraction == "" then Err(InvalidFormat)
          else if |n.fraction| > PLACES then Err(TooManyPlaces)
          else if Scaled(n, PLACES) > MAX_SATOSHI then Err(OutOfRange)
          else Ok(Scaled(n, PLACES))
  }

  method ParseBTCAmount(text: string) returns (r: Parsed)
    ensures r == Denoted(text)
  {
    hide Read, Scaled, Split, TrimSpace, Value, Pow10;
    var value := TrimSpace(text);
    if value == "" { return Err(Empty); }
    if value[0] == '+' {
      value := value[1..];
    }
    if value != "" && value[0] == '-' { return Err(Negative); }
    var parts := Split(value, '.');
    SplitReads(value);
    if |parts| > 2 { return Err(InvalidFormat); }
    var whole := parts[0];
    if whole == "" {
      whole := "0";
    }
    if !IsDigits(whole) { return Err(InvalidFormat); }
    var fraction := "";
    if |parts| == 2 {
      fraction := parts[1];
      if !IsDigits(fraction) { return Err(InvalidFormat); }
      if |fraction| > PLACES { return Err(TooManyPlaces); }
    }
    ScaledByAdding(Notation(whole, fraction, |parts| == 2), PLACES);
    fraction := Padded(fraction, PLACES);
    var wholeInt := Value(whole);
    wholeInt := wholeInt * COIN;
    wholeInt := wholeInt + Value(fraction);
    assert COIN == Pow10(PLACES) by { CoinIsPow10(); }
    if wholeInt > MAX_SATOSHI { return Err(OutOfRange); }
    return Ok(wholeInt);
  }

  /** Errors are looked for in this order: nothing there, the sign, the format, the places. */
  lemma Refusals()
    ensures Denoted("") == Err(Empty)
    ensures Denoted("-1") == Err(Negative) == Denoted("+-1")
    ensures Denoted("-") == Err(Negative)
    ensures Denoted("1.") == Err(InvalidFormat)
    ensures Denoted("0.123456789") == Err(TooManyPlaces)
  {
    hide IsSpace, Scaled, Read;
    SpacesTold('-'); SpacesTold('+'); SpacesTold('0'); SpacesTold('1'); SpacesTold('9'); SpacesTold('.');
    NoSpaceAround("-1"); NoSpaceAround("+-1"); NoSpaceAround("-"); NoSpaceAround("1."); NoSpaceAround("0.123456789");
    assert TrimSpace("") == "";
    assert "+-1"[1..] == "-1";
    ReadDotted("1", "");
    ReadDotted("0", "123456789");
    assert "1." == "1" + "." + "" && "0.123456789" == "0" + "." + "123456789";
    hide TrimSpace;
  }

  lemma CoinIsPow10()
    ensures Pow10(PLACES) == COIN
  {
    assert Pow10(4) == 10000;
    assert Pow10(8) == 10000 * Pow10(4);
  }

  // Go's int64 negation and truncated division.
  function Negate64(n: int): int {
    if n == MIN_INT64 then n else -n
  }

  function TruncDiv(a: int, b: int): int
    requires b > 0
  {
    if a >= 0 then a / b else -((-a) / b)
  }

  function TruncMod(a: int, b: int): int
    requires b > 0
  {
    a - b * TruncDiv(a, b)
  }

  /** Width-8 zero padding counts the sign. */
  function SignedPad(value: int): string {
    if value < 0 then "-" + PadZero(Digits(-value), PLACES - 1) else PadZero(Digits(value), PLACES)
  }

  function FormatSatoshi(satoshi: int): string {
    var negative := satoshi < 0;
    var s := if negative then Negate64(satoshi) else satoshi;
    var text := SignedText(TruncDiv(s, COIN)) + "." + SignedPad(TruncMod(s, COIN));
    var trimmed := TrimRight(TrimRight(text, '0'), '.');
    var value := if trimmed == "" then "0" else trimmed;
    if negative then "-" + value else value
  }

  /** The digits of a number above 10^k: those of its upper part, then its last k places. */
  lemma {:induction false} DigitsSplit(q: nat, r: nat, k: nat)
    requires r < Pow10(k) && q > 0
    ensures Digits(q * Pow10(k) + r) == Digits(q) + Places(r, k)
  {
    hide Digits;
    if k > 0 {
      var x := q * Pow10(k - 1);
      DigitsSplit(q, r / 10, k - 1);
      assert q * Pow10(k) == 10 * x;
      assert x >= 1;
      DigitsStep(x, r);
      assert Digits(q * Pow10(k) + r) == Digits(q) + Places(r / 10, k - 1) + [DigitChar(r % 10)];
    } else {
      assert Places(r, 0) == "";
    }
  }

  lemma DigitsStep(x: nat, r: nat)
    requires x >= 1
    ensures Digits(10 * x + r) == Digits(x + r / 10) + [DigitChar(r % 10)]
  {
    assert (10 * x + r) / 10 == x + r / 10 && (10 * x + r) % 10 == r % 10;
  }

  lemma {:induction false} PlacesArePadded(r: nat, k: nat)
    requires r < Pow10(k) && k > 0
    ensures Places(r, k) == PadZero(Digits(r), k)
  {
    if r < 10 {
      SmallPlaces(r, k);
    } else {
      PlacesArePadded(r / 10, k - 1);
    }
  }

  lemma {:induction false} SmallPlaces(r: nat, k: nat)
    requires r < 10 && k > 0
    ensures Places(r, k) == Zeros(k - 1) + [DigitChar(r)]
  {
    if k > 1 {
      SmallPlaces(0, k - 1);
      assert Zeros(k - 2) + "0" == Zeros(k - 1);
    }
  }

  /** The last k places of r. */
  function Places(r: nat, k: nat): (s: string)
    ensures |s| == k && AllDigits(s)
  {
    if k == 0 then "" else Places(r / 10, k - 1) + [DigitChar(r % 10)]
  }

  lemma FormatIsCanonical(n: nat)
    ensures FormatSatoshi(n) == Canonical(n, PLACES)
  {
    CoinIsPow10();
    hide Pow10, TrimRight, Digits, Places;
    var q, r := n / COIN, n % COIN;
    var raw := PadZero(Digits(n), PLACES + 1);
    var full := Places(r, PLACES);
    PlacesArePadded(r, PLACES);
    if q == 0 {
      assert Digits(0) == "0" by { ZeroDigit(); }
      PlacesBound(n);
      assert "0" + Zeros(PLACES - |Digits(n)|) == Zeros(PLACES + 1 - |Digits(n)|);
    } else {
      DigitsSplit(q, r, PLACES);
    }
    assert raw == Digits(q) + full;
    assert raw[..|raw| - PLACES] == Digits(q) && raw[|raw| - PLACES..] == full;
    DotStopsTrim(Digits(q), full);
  }

  lemma PlacesBound(r: nat)
    requires r < COIN
    ensures |Digits(r)| <= PLACES
  {
    CoinIsPow10();
    hide Pow10, Places;
    PlacesArePadded(r, PLACES);
  }

  /** Trimming zeros never crosses the dot; an empty fraction then takes the dot along. */
  lemma {:induction false} DotStopsTrim(whole: string, full: string)
    requires whole != "" && AllDigits(whole) && AllDigits(full)
    ensures TrimRight(whole + "." + full, '0') == whole + "." + TrimRight(full, '0')
    ensures TrimRight(TrimRight(whole + "." + full, '0'), '.')
         == if TrimRight(full, '0') == "" then whole else whole + "." + TrimRight(full, '0')
  {
    var text := whole + "." + full;
    if full != "" && full[|full| - 1] == '0' {
      var shorter := full[..|full| - 1];
      DotStopsTrim(whole, shorter);
      assert text[..|text| - 1] == whole + "." + shorter;
    } else if full == "" {
      assert text[..|text| - 1] == whole;
      assert whole[|whole| - 1] != '.';
    }
  }

  lemma NegativeSign(n: int)
    requires n < 0
    ensures FormatSatoshi(n) != "" && FormatSatoshi(n)[0] == '-'
  {
    hide TrimRight, SignedText, SignedPad;
  }

  /** A negative amount prints as its absolute value behind a minus sign, but for the smallest int64. */
  lemma NegativePrints(n: int)
    requires MIN_INT64 < n < 0
    ensures FormatSatoshi(n) == "-" + FormatSatoshi(-n)
  {
    hide TrimRight, SignedText, SignedPad;
  }

  /** The smallest int64 has no absolute value: it prints with a sign in both of its parts. */
  lemma SmallestPrints()
    ensures FormatSatoshi(MIN_INT64) == "--" + Digits(92233720368) + ".-" + Digits(54775808)
  {
    hide Digits, TrimRight;
    assert TruncDiv(MIN_INT64, COIN) == -92233720368 && TruncMod(MIN_INT64, COIN) == -54775808;
    var places := Digits(54775808);
    EightDigits();
    var text := "-" + Digits(92233720368) + "." + ("-" + places);
    assert SignedPad(-54775808) == "-" + places;
    assert text[|text| - 1] == '8';
    NothingToTrim(text, '0');
    NothingToTrim(text, '.');
    assert "-" + text == "--" + Digits(92233720368) + ".-" + places;
  }

  lemma EightDigits()
    ensures |Digits(54775808)| == 8 && Digits(54775808)[7] == '8'
  {
    assert |Digits(5477)| == 4;
    assert |Digits(547758)| == 6;
  }

  /** An int64 amount survives printing and parsing exactly when it is a possible coin amount. */
  lemma RoundTrip(n: int)
    requires IsInt64(n)
    ensures GivesBack(Denoted(FormatSatoshi(n)), n) <==> 0 <= n <= 2_100_000_000_000_000
    ensures n < 0 ==> Denoted(FormatSatoshi(n)) == Err(Negative)
    ensures n > 2_100_000_000_000_000 ==> Denoted(FormatSatoshi(n)) == Err(OutOfRange)
  {
    hide TrimSpace, Read, Scaled, Canonical, FormatSatoshi;
    if n >= 0 {
      FormatIsCanonical(n);
      CanonicalReads(n, PLACES);
    } else {
      NegativeSign(n);
      SolanaAmount.LeadingSignStays(FormatSatoshi(n));
    }
  }
}

/** How the wallets' parsers and printers compare. */
module AmountTheorems {
  import opened Wrappers
  import opened Decimal
  import opened Amounts
  import EvmAmount
  import SolanaAmount
  import BitcoinAmount

  predicate LeadingPlus(text: string) {
    TrimSpace(text) != "" && TrimSpace(text)[0] == '+'
  }

  /**
   Without a leading plus the two algorithms agree wherever Solana accepts, and Solana accepts
   exactly the amounts EVM accepts whose fraction fits. A leading plus is never accepted by EVM.
   */
  lemma EvmRefinesSolana(text: string, decimals: int)
    ensures LeadingPlus(text) ==> !EvmAmount.ParseUnits(text, decimals).Ok?
    ensures !LeadingPlus(text) && SolanaAmount.Denoted(text, decimals).Ok? ==>
      EvmAmount.ParseUnits(text, decimals) == SolanaAmount.Denoted(text, decimals)
    ensures !LeadingPlus(text) && EvmAmount.ParseUnits(text, decimals).Ok? ==>
      (SolanaAmount.Denoted(text, decimals).Ok? <==>
       decimals <= 255 && |Read(TrimSpace(text)).value.fraction| <= decimals)
  {
    EvmAmount.ParseMeaning(text, decimals);
    if LeadingPlus(text) {
      var amount := TrimSpace(text);
      var i := IndexOf(amount, '.');
      assert amount[..i] != "" && amount[..i][0] == '+';
    }
  }

  /** Bitcoin accepts what Solana accepts at eight places, less a bare trailing dot and what exceeds the supply. */
  lemma BitcoinNarrowsSolana(text: string, v: nat)
    ensures BitcoinAmount.Denoted(text) == Ok(v) <==>
      && SolanaAmount.Denoted(text, 8) == Ok(v)
      && v <= 2_100_000_000_000_000
      && !BareTrailingDot(text)
  {
    var amount := TrimSpace(text);
    if amount != "" {
      var body := if amount[0] == '+' then amount[1..] else amount;
      var i := IndexOf(body, '.');
      if Read(body).Some? {
        assert Read(body).value.dotted && Read(body).value.fraction == "" <==> BareTrailingDot(text);
      }
    }
  }

  /** The text ends in its only dot. */
  predicate BareTrailingDot(text: string) {
    var amount := TrimSpace(text);
    amount != "" && amount[|amount| - 1] == '.' && IndexOf(amount, '.') == |amount| - 1
  }

  /** One canonical text per amount: all printers give it, and no two amounts share it. */
  lemma PrintersAgree(v: nat, w: nat, d: nat)
    ensures EvmAmount.FormatUnits(v, d) == SolanaAmount.FormatUnits(v, d)
    ensures BitcoinAmount.FormatSatoshi(v) == SolanaAmount.FormatUnits(v, 8)
    ensures SolanaAmount.FormatUnits(v, d) == SolanaAmount.FormatUnits(w, d) ==> v == w
  {
    EvmAmount.FormatIsCanonical(v, d);
    SolanaAmount.FormatIsCanonical(v, d);
    SolanaAmount.FormatIsCanonical(w, d);
    SolanaAmount.FormatIsCanonical(v, BitcoinAmount.PLACES);
    BitcoinAmount.FormatIsCanonical(v);
    CanonicalReads(v, d);
    CanonicalReads(w, d);
  }
}
