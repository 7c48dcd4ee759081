/** src/json.c, parse_number: the tokens it takes whole are exactly the numbers of section 6 of RFC 8259. */
module JsonNumber {
  import opened Prelude
  import opened JsonText

  // mark is the letter of an exponent, and its sign if it has one.
  datatype Exponent = Exponent(mark: string, digits: string)

  datatype Numeral = Numeral(minus: bool, whole: string, fraction: Option<string>, exponent: Option<Exponent>)

  predicate AllDigits(s: string) {
    s != "" && forall k | 0 <= k < |s| :: IsDigit(s[k])
  }

  predicate MarkOk(m: string) {
    1 <= |m| <= 2 && (m[0] == 'e' || m[0] == 'E') && (|m| == 2 ==> m[1] == '+' || m[1] == '-')
  }

  // The grammar: no leading zeroes, and at least one digit wherever digits are called for.
  predicate NumeralOk(n: Numeral) {
    && AllDigits(n.whole) && (n.whole[0] == '0' ==> n.whole == "0")
    && (n.fraction.Some? ==> AllDigits(n.fraction.value))
    && (n.exponent.Some? ==>
          MarkOk(n.exponent.value.mark) && AllDigits(n.exponent.value.digits))
  }

  function FractionText(f: Option<string>): string {
    if f.Some? then "." + f.value else ""
  }

  function ExponentText(e: Option<Exponent>): string {
    if e.Some? then e.value.mark + e.value.digits else ""
  }

  function NumeralText(n: Numeral): string {
    (if n.minus then "-" else "") + n.whole + FractionText(n.fraction) + ExponentText(n.exponent)
  }

  // ---- every numeral is taken ---------------------------------------------------------------------------

  lemma {:induction false} DigitsAre(s: string, i: nat, n: nat)
    requires i <= n <= |s| && (forall k | i <= k < n :: IsDigit(s[k])) && (n < |s| ==> !IsDigit(s[n]))
    ensures Digits(s, i) == n
    decreases n - i
  {
    if i < n { DigitsAre(s, i + 1, n); }
  }

  // A run of digits between a front and a rest.
  lemma DigitsBetween(front: string, ds: string, rest: string, i: nat)
    requires AllDigits(ds) && |front| <= i <= |front| + |ds| && (rest != "" ==> !IsDigit(rest[0]))
    ensures Digits(front + ds + rest, i) == |front| + |ds|
  {
    var s := front + ds + rest;
    assert forall k | |front| <= k < |front| + |ds| :: s[k] == ds[k - |front|];
    DigitsAre(s, i, |front| + |ds|);
  }

  lemma WholeTaken(minus: bool, whole: string, rest: string)
    requires AllDigits(whole) && (whole[0] == '0' ==> whole == "0") && (rest != "" ==> !IsDigit(rest[0]))
    ensures var front := if minus then "-" else ""; IntegerEnd(front + whole + rest) == Some(|front| + |whole|)
  {
    var front := if minus then "-" else "";
    var s := front + whole + rest;
    assert s[|front|] == whole[0] && IsDigit(whole[0]);
    if whole[0] != '0' { DigitsBetween(front, whole, rest, |front| + 1); }
  }

  lemma FractionTaken(front: string, f: Option<string>, rest: string)
    requires (f.Some? ==> AllDigits(f.value)) && (rest != "" ==> rest[0] in "eE")
    ensures FractionEnd(front + FractionText(f) + rest, |front|) == Some(|front| + |FractionText(f)|)
  {
    var s := front + FractionText(f) + rest;
    if f.Some? {
      assert s == (front + ".") + f.value + rest;
      assert s[|front|] == '.' && s[|front| + 1] == f.value[0];
      DigitsBetween(front + ".", f.value, rest, |front| + 1);
    } else {
      assert rest != "" ==> s[|front|] == rest[0];
    }
  }

  lemma ExponentAt(s: string, i: nat, m: string)
    requires MarkOk(m) && i + |m| < |s| && s[i] == m[0] && (|m| == 2 ==> s[i + 1] == m[1]) && IsDigit(s[i + |m|])
    ensures ExponentEnd(s, i) == Some(Digits(s, i + |m|))
  {
    hide Digits;
  }

  lemma MarkedAt(front: string, m: string, ds: string)
    requires MarkOk(m) && ds != ""
    ensures var s := front + (m + ds);
      && s == front + m + ds + "" && s[|front|] == m[0] && (|m| == 2 ==> s[|front| + 1] == m[1])
      && s[|front| + |m|] == ds[0] && |s| == |front| + |m| + |ds|
  {}

  lemma ExponentTaken(front: string, e: Option<Exponent>)
    requires e.Some? ==> MarkOk(e.value.mark) && AllDigits(e.value.digits)
    ensures ExponentEnd(front + ExponentText(e), |front|) == Some(|front| + |ExponentText(e)|)
  {
    if e.Some? {
      hide Digits, ExponentEnd, MarkOk;
      var m, ds := e.value.mark, e.value.digits;
      MarkedAt(front, m, ds);
      DigitsBetween(front + m, ds, "", |front| + |m|);
      ExponentAt(front + (m + ds), |front|, m);
    } else {
      assert front + ExponentText(e) == front;
    }
  }

  lemma NumeralTaken(n: Numeral)
    requires NumeralOk(n)
    ensures IsNumber(NumeralText(n))
  {
    hide IntegerEnd, FractionEnd, ExponentEnd, IsNumber, AllDigits;
    var sign, f, e := if n.minus then "-" else "", FractionText(n.fraction), ExponentText(n.exponent);
    assert f + e != "" ==> !IsDigit((f + e)[0]);
    assert e != "" ==> e[0] in "eE";
    hide *;
    NumeralSplits(n);
    WholeTaken(n.minus, n.whole, f + e);
    FractionTaken(sign + n.whole, n.fraction, e);
    ExponentTaken(sign + n.whole + f, n.exponent);
    Lengths(sign, n.whole, f, e);
    TakenInParts(NumeralText(n), |sign| + |n.whole|, |sign| + |n.whole| + |f|);
  }

  lemma NumeralSplits(n: Numeral)
    ensures var sign, f, e := if n.minus then "-" else "", FractionText(n.fraction), ExponentText(n.exponent);
      && NumeralText(n) == sign + n.whole + f + e
      && NumeralText(n) == sign + n.whole + (f + e)
  {}

  lemma Lengths(a: string, b: string, c: string, d: string)
    ensures |a + b| == |a| + |b| && |a + b + c| == |a| + |b| + |c| && |a + b + c + d| == |a| + |b| + |c| + |d|
  {}

  lemma TakenInParts(s: string, i: nat, j: nat)
    requires i <= j <= |s|
    requires IntegerEnd(s) == Some(i) && FractionEnd(s, i) == Some(j) && ExponentEnd(s, j) == Some(|s|)
    ensures IsNumber(s)
  {
    hide IntegerEnd, FractionEnd, ExponentEnd;
  }

  // ---- and nothing else -----------------------------------------------------------------------------------

  lemma {:induction false} DigitsRun(s: string, i: nat)
    requires i <= |s|
    ensures forall k | i <= k < Digits(s, i) :: IsDigit(s[k])
    decreases |s| - i
  {
    if i < |s| && IsDigit(s[i]) { DigitsRun(s, i + 1); }
  }

  lemma WholeOf(s: string) returns (minus: bool, whole: string)
    requires IntegerEnd(s).Some?
    ensures AllDigits(whole) && (whole[0] == '0' ==> whole == "0")
    ensures s[..IntegerEnd(s).value] == (if minus then "-" else "") + whole
  {
    minus := s[0] == '-';
    var m, i := if minus then 1 else 0, IntegerEnd(s).value;
    whole := s[m..i];
    if s[m] != '0' { DigitsRun(s, m + 1); }
  }

  lemma FractionOf(s: string, i: nat) returns (f: Option<string>)
    requires i <= |s| && FractionEnd(s, i).Some?
    ensures f.Some? ==> AllDigits(f.value)
    ensures s[i..FractionEnd(s, i).value] == FractionText(f)
  {
    var j := FractionEnd(s, i).value;
    if i == |s| || s[i] != '.' {
      f := None;
    } else {
      DigitsRun(s, i + 1);
      assert Digits(s, i + 1) == Digits(s, i + 2);
      f := Some(s[i + 1..j]);
    }
  }

  lemma ExponentOf(s: string, i: nat) returns (e: Option<Exponent>)
    requires i <= |s| && ExponentEnd(s, i).Some?
    ensures e.Some? ==> MarkOk(e.value.mark) && AllDigits(e.value.digits)
    ensures s[i..ExponentEnd(s, i).value] == ExponentText(e)
  {
    var end := ExponentEnd(s, i).value;
    if i == |s| || (s[i] != 'e' && s[i] != 'E') {
      e := None;
    } else {
      var j := if i + 1 < |s| && (s[i + 1] == '+' || s[i + 1] == '-') then i + 2 else i + 1;
      DigitsRun(s, j);
      assert Digits(s, j) == Digits(s, j + 1);
      assert s[i..j] == if j == i + 2 then [s[i], s[i + 1]] else [s[i]];
      e := Some(Exponent(s[i..j], s[j..end]));
    }
  }

  lemma NumeralOf(s: string) returns (n: Numeral)
    requires IsNumber(s)
    ensures NumeralOk(n) && NumeralText(n) == s
  {
    hide IntegerEnd, FractionEnd, ExponentEnd, FractionText, ExponentText, AllDigits;
    var i := IntegerEnd(s).value;
    var j := FractionEnd(s, i).value;
    var minus, whole := WholeOf(s);
    var f := FractionOf(s, i);
    var e := ExponentOf(s, j);
    n := Numeral(minus, whole, f, e);
    hide NumberLen, IsNumber;
    InParts(s, i, j, FractionText(f), ExponentText(e));
  }

  lemma InParts(s: string, i: nat, j: nat, f: string, e: string)
    requires i <= j <= |s| && s[i..j] == f && s[j..|s|] == e
    ensures s[..i] + f + e == s
  {}

  /** parse_number takes a whole token if and only if the grammar has it. */
  lemma NumberIffNumeral(s: string)
    ensures IsNumber(s) <==> exists n :: NumeralOk(n) && NumeralText(n) == s
  {
    if IsNumber(s) {
      var n := NumeralOf(s);
      assert NumeralOk(n) && NumeralText(n) == s;
    }
    forall n | NumeralOk(n) && NumeralText(n) == s
      ensures IsNumber(s)
    {
      NumeralTaken(n);
    }
  }
}
