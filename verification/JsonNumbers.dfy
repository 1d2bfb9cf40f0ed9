/** The number grammar of RFC 8259, section 6, as an automaton that reads a character at a time. */
module JsonNumbers {
  import opened JsonGrammar

  datatype Place = Start | Minus | Zero | Whole | Point | Fraction | Exponent | Sign | Power | Nowhere

  function Next(at: Place, c: char): Place {
    match at
    case Start => if c == '-' then Minus else if c == '0' then Zero else if '1' <= c <= '9' then Whole else Nowhere
    case Minus => if c == '0' then Zero else if '1' <= c <= '9' then Whole else Nowhere
    case Zero => if c == '.' then Point else if c in {'e', 'E'} then Exponent else Nowhere
    case Whole =>
      if '0' <= c <= '9' then Whole else if c == '.' then Point else if c in {'e', 'E'} then Exponent else Nowhere
    case Point => if '0' <= c <= '9' then Fraction else Nowhere
    case Fraction => if '0' <= c <= '9' then Fraction else if c in {'e', 'E'} then Exponent else Nowhere
    case Exponent => if c in {'+', '-'} then Sign else if '0' <= c <= '9' then Power else Nowhere
    case Sign => if '0' <= c <= '9' then Power else Nowhere
    case Power => if '0' <= c <= '9' then Power else Nowhere
    case Nowhere => Nowhere
  }

  function After(at: Place, s: string): Place
    decreases |s|
  {
    if s == "" then at else After(Next(at, s[0]), s[1..])
  }

  predicate Ends(at: Place) { at in {Zero, Whole, Fraction, Power} }

  lemma {:induction false} AfterConcat(at: Place, s: string, t: string)
    ensures After(at, s + t) == After(After(at, s), t)
    decreases |s|
  {
    hide Next;
    if s == "" {
      assert s + t == t;
    } else {
      assert (s + t)[1..] == s[1..] + t;
      AfterConcat(Next(at, s[0]), s[1..], t);
    }
  }

  predicate AllDigits(s: string) { forall i :: 0 <= i < |s| ==> Digit(s[i]) }

  lemma {:induction false} StaysInDigits(at: Place, s: string)
    requires AllDigits(s) && at in {Whole, Fraction, Power}
    ensures After(at, s) == at
    decreases |s|
  {
    if s != "" {
      StaysInDigits(at, s[1..]);
    }
  }

  // ----- a token is read to an end

  lemma WholeRead(at: Place, s: string)
    requires IntPart(s) && at in {Start, Minus}
    ensures After(at, s) == if s[0] == '0' then Zero else Whole
  {
    assert After(at, s) == After(Next(at, s[0]), s[1..]);
    if s[0] != '0' {
      StaysInDigits(Whole, s[1..]);
    }
  }

  lemma FractionRead(at: Place, s: string)
    requires FracPart(s) && at in {Zero, Whole}
    ensures After(at, s) in {at, Fraction}
  {
    if s != "" {
      assert After(at, s) == After(Point, s[1..]) == After(Next(Point, s[1]), s[1..][1..]);
      StaysInDigits(Fraction, s[1..][1..]);
    }
  }

  lemma ExponentRead(at: Place, s: string)
    requires ExpPart(s) && at in {Zero, Whole, Fraction}
    ensures Ends(After(at, s))
  {
    if s != "" {
      assert After(at, s) == After(Exponent, s[1..]) == After(Next(Exponent, s[1]), s[1..][1..]);
      if Digits(s[1..]) {
        StaysInDigits(Power, s[1..][1..]);
      } else {
        var power := s[2..];
        assert s[1..][1..] == power;
        assert After(Sign, power) == After(Next(Sign, power[0]), power[1..]);
        StaysInDigits(Power, power[1..]);
      }
    }
  }

  lemma TokenRead(s: string)
    requires NumberToken(s)
    ensures Ends(After(Start, s))
  {
    hide IntPart, FracPart, ExpPart, Next;
    var sign, whole, frac, exp :|
      s == sign + whole + frac + exp && (sign == "" || sign == "-") && IntPart(whole) && FracPart(frac) && ExpPart(exp);
    AfterConcat(Start, sign + whole + frac, exp);
    AfterConcat(Start, sign + whole, frac);
    AfterConcat(Start, sign, whole);
    SignRead(sign);
    WholeRead(After(Start, sign), whole);
    FractionRead(After(Start, sign + whole), frac);
    ExponentRead(After(Start, sign + whole + frac), exp);
  }

  lemma SignRead(sign: string)
    requires sign == "" || sign == "-"
    ensures After(Start, sign) == if sign == "" then Start else Minus
  {}

  // ----- what is read to an end is a token

  lemma {:induction false} LostForGood(s: string)
    ensures After(Nowhere, s) == Nowhere
    decreases |s|
  {
    if s != "" {
      LostForGood(s[1..]);
    }
  }

  lemma NothingAfter(at: Place)
    ensures After(at, "") == at
  {}

  lemma {:induction false} PowerLeft(s: string)
    requires Ends(After(Power, s))
    ensures AllDigits(s)
    decreases |s|
  {
    if s != "" {
      LostForGood(s[1..]);
      PowerLeft(s[1..]);
      assert forall i :: 0 < i < |s| ==> s[i] == s[1..][i - 1];
    }
  }

  lemma ExponentLeft(s: string)
    requires Ends(After(Exponent, s))
    ensures Digits(s) || (s != "" && s[0] in {'+', '-'} && Digits(s[1..]))
  {
    LostForGood(s[1..]);
    if Digit(s[0]) {
      PowerLeft(s[1..]);
      DigitsFrom(s);
    } else {
      var t := s[1..];
      NothingAfter(Sign);
      assert After(Sign, t) == After(Next(Sign, t[0]), t[1..]);
      LostForGood(t[1..]);
      PowerLeft(t[1..]);
      DigitsFrom(t);
    }
  }

  lemma DigitsFrom(s: string)
    requires s != "" && Digit(s[0]) && AllDigits(s[1..])
    ensures Digits(s)
  {
    assert forall i :: 0 < i < |s| ==> s[i] == s[1..][i - 1];
  }

  /** Digits, then an exponent part or none. */
  lemma {:induction false} FractionLeft(s: string) returns (digits: string, exp: string)
    requires Ends(After(Fraction, s))
    ensures s == digits + exp && AllDigits(digits) && ExpPart(exp)
    decreases |s|
  {
    if s == "" {
      digits, exp := "", "";
    } else if Digit(s[0]) {
      digits, exp := FractionLeft(s[1..]);
      digits := [s[0]] + digits;
    } else {
      LostForGood(s[1..]);
      ExponentLeft(s[1..]);
      digits, exp := "", s;
      ExponentIs(s);
    }
  }

  lemma ExponentIs(s: string)
    requires s != "" && s[0] in {'e', 'E'}
    requires Digits(s[1..]) || (|s| > 1 && s[1] in {'+', '-'} && Digits(s[1..][1..]))
    ensures ExpPart(s)
  {
    assert s[1..][1..] == s[2..] || |s| < 2;
  }

  /** A fraction part or none, then an exponent part or none. */
  lemma AfterWhole(at: Place, s: string) returns (frac: string, exp: string)
    requires at in {Zero, Whole} && Ends(After(at, s)) && (s != "" ==> !Digit(s[0]))
    ensures s == frac + exp && FracPart(frac) && ExpPart(exp)
  {
    if s == "" {
      frac, exp := "", "";
    } else if s[0] == '.' {
      var t := s[1..];
      NothingAfter(Point);
      assert After(Point, t) == After(Next(Point, t[0]), t[1..]);
      LostForGood(t[1..]);
      var digits;
      digits, exp := FractionLeft(t[1..]);
      frac := ['.'] + ([t[0]] + digits);
      assert frac[1..] == [t[0]] + digits;
      assert ([t[0]] + digits)[1..] == digits;
      DigitsFrom([t[0]] + digits);
    } else {
      LostForGood(s[1..]);
      ExponentLeft(s[1..]);
      frac, exp := "", s;
      ExponentIs(s);
    }
  }

  /** Digits, then the rest. */
  lemma {:induction false} WholeLeft(s: string) returns (digits: string, frac: string, exp: string)
    requires Ends(After(Whole, s))
    ensures s == digits + frac + exp && AllDigits(digits) && FracPart(frac) && ExpPart(exp)
    decreases |s|
  {
    if s != "" && Digit(s[0]) {
      digits, frac, exp := WholeLeft(s[1..]);
      assert s == [s[0]] + digits + frac + exp;
      digits := [s[0]] + digits;
    } else {
      digits := "";
      frac, exp := AfterWhole(Whole, s);
    }
  }

  lemma NumberLeft(at: Place, s: string) returns (whole: string, frac: string, exp: string)
    requires at in {Start, Minus} && Ends(After(at, s)) && (s != "" ==> s[0] != '-')
    ensures s == whole + frac + exp && IntPart(whole) && FracPart(frac) && ExpPart(exp)
  {
    LostForGood(s[1..]);
    if s[0] == '0' {
      LeadingZero(s[1..]);
      whole := "0";
      frac, exp := AfterWhole(Zero, s[1..]);
    } else {
      var digits;
      digits, frac, exp := WholeLeft(s[1..]);
      whole := [s[0]] + digits;
      assert whole[1..] == digits;
      DigitsFrom(whole);
    }
    assert s == [s[0]] + s[1..];
  }

  lemma LeadingZero(s: string)
    requires Ends(After(Zero, s))
    ensures s != "" ==> !Digit(s[0])
  {
    if s != "" {
      LostForGood(s[1..]);
    }
  }

  lemma MinusOnce(s: string)
    requires Ends(After(Minus, s))
    ensures s != "" ==> s[0] != '-'
  {
    if s != "" {
      LostForGood(s[1..]);
    }
  }

  lemma ReadIsToken(s: string)
    requires Ends(After(Start, s))
    ensures NumberToken(s)
  {
    hide IntPart, FracPart, ExpPart;
    var whole, frac, exp;
    if s != "" && s[0] == '-' {
      MinusOnce(s[1..]);
      whole, frac, exp := NumberLeft(Minus, s[1..]);
      assert s == "-" + whole + frac + exp;
    } else {
      whole, frac, exp := NumberLeft(Start, s);
      assert s == "" + whole + frac + exp;
    }
  }

  /** A text is a number token exactly when the automaton reads it to an end. */
  lemma NumberTokenExactly(s: string)
    ensures NumberToken(s) <==> Ends(After(Start, s))
  {
    hide NumberToken, Next, Ends;
    if NumberToken(s) {
      TokenRead(s);
    }
    if Ends(After(Start, s)) {
      ReadIsToken(s);
    }
  }
}
