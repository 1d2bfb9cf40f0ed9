/** The text handling under the server's configuration: trimming, numbers and token lists, each with its way back. */
module ConfigText {
  import opened Options

  predicate IsSpace(c: char) { c == ' ' || 9 as char <= c <= 13 as char }

  function TrimLeft(s: string): string {
    if s != "" && IsSpace(s[0]) then TrimLeft(s[1..]) else s
  }

  function TrimRight(s: string): string {
    if s != "" && IsSpace(s[|s| - 1]) then TrimRight(s[..|s| - 1]) else s
  }

  function Trim(s: string): string { TrimRight(TrimLeft(s)) }

  predicate Trimmed(s: string) { s != "" ==> !IsSpace(s[0]) && !IsSpace(s[|s| - 1]) }

  lemma {:induction false} TrimRightKeeps(s: string)
    ensures |TrimRight(s)| <= |s| && TrimRight(s) == s[..|TrimRight(s)|]
    ensures TrimRight(s) != "" ==> !IsSpace(TrimRight(s)[|TrimRight(s)| - 1])
  {
    if s != "" && IsSpace(s[|s| - 1]) {
      TrimRightKeeps(s[..|s| - 1]);
    }
  }

  lemma {:induction false} TrimLeftKeeps(s: string)
    ensures |TrimLeft(s)| <= |s| && TrimLeft(s) == s[|s| - |TrimLeft(s)|..]
    ensures TrimLeft(s) != "" ==> !IsSpace(TrimLeft(s)[0])
  {
    if s != "" && IsSpace(s[0]) {
      TrimLeftKeeps(s[1..]);
    }
  }

  /** Trimming leaves a piece of the text without spaces around it. */
  lemma TrimIsTrimmed(s: string)
    ensures Trimmed(Trim(s)) && forall i :: 0 <= i < |Trim(s)| ==> Trim(s)[i] in s
  {
    TrimLeftKeeps(s);
    TrimRightKeeps(TrimLeft(s));
  }

  /** Space, tab, line feed, vertical tab, form feed or carriage return. */
  predicate OneOfSix(c: char) { c as int in {32, 9, 10, 11, 12, 13} }

  predicate OnlySpace(s: string) { forall i :: 0 <= i < |s| ==> OneOfSix(s[i]) }

  lemma {:induction false} RightTrimmed(s: string) returns (right: string)
    ensures s == TrimRight(s) + right && OnlySpace(right)
  {
    right := "";
    if s != "" && IsSpace(s[|s| - 1]) {
      var rest := RightTrimmed(s[..|s| - 1]);
      right := rest + [s[|s| - 1]];
      assert s == s[..|s| - 1] + [s[|s| - 1]];
    }
  }

  lemma {:induction false} LeftTrimmed(s: string) returns (left: string)
    ensures s == left + TrimLeft(s) && OnlySpace(left)
  {
    left := "";
    if s != "" && IsSpace(s[0]) {
      var rest := LeftTrimmed(s[1..]);
      left := [s[0]] + rest;
      assert s == [s[0]] + s[1..];
    }
  }

  /** Only space is trimmed off, and none is left at either end. */
  lemma TrimExactly(s: string) returns (left: string, right: string)
    ensures s == left + Trim(s) + right && OnlySpace(left) && OnlySpace(right)
    ensures Trim(s) != "" ==> !OneOfSix(Trim(s)[0]) && !OneOfSix(Trim(s)[|Trim(s)| - 1])
  {
    hide TrimLeft, TrimRight, IsSpace, OneOfSix;
    left := LeftTrimmed(s);
    right := RightTrimmed(TrimLeft(s));
    TrimIsTrimmed(s);
    if Trim(s) != "" {
      SixSpaces(Trim(s)[0]);
      SixSpaces(Trim(s)[|Trim(s)| - 1]);
    }
    assert s == left + (Trim(s) + right);
  }

  lemma SixSpaces(c: char)
    ensures IsSpace(c) <==> OneOfSix(c)
  {}

  lemma TrimKeepsTrimmed(s: string)
    requires Trimmed(s)
    ensures Trim(s) == s && Trim([' '] + s) == s && Trim(s + [' ']) == s
  {
    assert ([' '] + s)[1..] == s && (s + [' '])[..|s|] == s;
    if s == "" {
      assert TrimLeft([' ']) == "" by { assert [' '][1..] == ""; }
    }
  }

  /** The part before the first c. */
  function Before(s: string, c: char): string {
    if s == "" || s[0] == c then "" else [s[0]] + Before(s[1..], c)
  }

  lemma {:induction false} BeforeIs(s: string, c: char)
    ensures |Before(s, c)| <= |s| && Before(s, c) == s[..|Before(s, c)|] && c !in Before(s, c)
    ensures |Before(s, c)| < |s| ==> s[|Before(s, c)|] == c
    ensures c !in s ==> Before(s, c) == s
  {
    if s != "" && s[0] != c {
      BeforeIs(s[1..], c);
    }
  }

  lemma {:induction false} BeforeFirst(s: string, c: char, n: nat)
    requires n <= |s| && (forall i :: 0 <= i < n ==> s[i] != c) && (n < |s| ==> s[n] == c)
    ensures Before(s, c) == s[..n]
  {
    if s != "" && s[0] != c {
      BeforeFirst(s[1..], c, n - 1);
    }
  }

  // ----- numbers

  function DigitChar(d: nat): char
    requires d < 10
  {
    '0' + d as char
  }

  predicate IsDigit(c: char) { '0' <= c <= '9' }

  function DigitValue(c: char): nat
    requires IsDigit(c)
  {
    (c - '0') as nat
  }

  predicate AllDigits(s: string) { forall i :: 0 <= i < |s| ==> IsDigit(s[i]) }

  /** %d or %u of a number that is not negative. */
  function Decimal(n: nat): string {
    if n < 10 then [DigitChar(n)] else Decimal(n / 10) + [DigitChar(n % 10)]
  }

  function DigitsValue(s: string): nat
    requires AllDigits(s)
  {
    if s == "" then 0 else 10 * DigitsValue(s[..|s| - 1]) + DigitValue(s[|s| - 1])
  }

  lemma {:induction false} DecimalBack(n: nat)
    ensures Decimal(n) != "" && AllDigits(Decimal(n)) && DigitsValue(Decimal(n)) == n
  {
    if n >= 10 {
      DecimalBack(n / 10);
      assert Decimal(n)[..|Decimal(n)| - 1] == Decimal(n / 10);
    } else {
      assert Decimal(n)[..0] == "";
    }
  }

  lemma {:induction false} DecimalLength(n: nat)
    requires n < 100000
    ensures |Decimal(n)| <= 5
  {
    assert n / 10 < 10000 && n / 10 / 10 < 1000 && n / 10 / 10 / 10 < 100 && n / 10 / 10 / 10 / 10 < 10;
    assert |Decimal(n / 10 / 10 / 10 / 10)| == 1;
    assert |Decimal(n / 10 / 10 / 10)| <= 2;
    assert |Decimal(n / 10 / 10)| <= 3;
    assert |Decimal(n / 10)| <= 4;
  }

  /** strtol in base 10 over the whole text; a value too large for a long is out of every range too. */
  function ParseInt(v: string, low: int, high: int): Option<int> {
    var s := TrimLeft(v);
    var signed := s != "" && (s[0] == '-' || s[0] == '+');
    var digits := if signed then s[1..] else s;
    if digits == "" || !AllDigits(digits) then None
    else
      var x: int := if signed && s[0] == '-' then 0 - DigitsValue(digits) else DigitsValue(digits);
      if x < low || x > high then None else Some(x)
  }

  /** Space, a sign or none, and decimal digits that say x. */
  ghost predicate Spells(v: string, x: int) {
    exists space, sign, digits :: SpelledBy(v, x, space, sign, digits)
  }

  predicate SpelledBy(v: string, x: int, space: string, sign: string, digits: string) {
    && v == space + sign + digits && OnlySpace(space)
    && sign in {"", "+", "-"} && digits != "" && AllDigits(digits)
    && (forall i :: 0 <= i < |digits| ==> OneOfTen(digits[i]))
    && x == if sign == "-" then 0 - DigitsValue(digits) else DigitsValue(digits)
  }

  predicate OneOfTen(c: char) { c in "0123456789" }

  lemma TenDigits(s: string)
    requires AllDigits(s)
    ensures forall i :: 0 <= i < |s| ==> OneOfTen(s[i])
  {
    forall i | 0 <= i < |s| ensures OneOfTen(s[i]) {
      TenDigit(s[i]);
    }
  }

  lemma TenDigit(c: char)
    requires IsDigit(c)
    ensures OneOfTen(c)
  {
    assert c == "0123456789"[DigitValue(c)];
  }

  lemma {:induction false} TrimOver(space: string, rest: string)
    requires OnlySpace(space)
    requires rest != "" && !IsSpace(rest[0])
    ensures TrimLeft(space + rest) == rest
  {
    if space == "" {
      assert space + rest == rest;
    } else {
      assert (space + rest)[1..] == space[1..] + rest;
      TrimOver(space[1..], rest);
    }
  }

  lemma ReadIsSpelled(v: string, low: int, high: int, x: int)
    requires ParseInt(v, low, high) == Some(x)
    ensures Spells(v, x) && low <= x <= high
  {
    hide DigitsValue, TrimLeft, IsSpace, OneOfSix, IsDigit, OneOfTen, OnlySpace;
    var s := TrimLeft(v);
    var space := LeftTrimmed(v);
    if s[0] == '-' || s[0] == '+' {
      TenDigits(s[1..]);
      assert s == [s[0]] + s[1..];
      assert space + s == space + [s[0]] + s[1..];
      assert SpelledBy(v, x, space, [s[0]], s[1..]);
    } else {
      TenDigits(s);
      assert space + s == space + "" + s;
      assert SpelledBy(v, x, space, "", s);
    }
  }

  lemma SpelledIsRead(v: string, low: int, high: int, x: int, space: string, sign: string, digits: string)
    requires SpelledBy(v, x, space, sign, digits) && low <= x <= high
    ensures ParseInt(v, low, high) == Some(x)
  {
    hide DigitsValue;
    assert v == space + (sign + digits);
    assert (sign + digits)[|sign|..] == digits;
    TrimOver(space, sign + digits);
    assert sign == "" ==> sign + digits == digits;
  }

  /** A number is read exactly when the text spells it and it is in range. */
  lemma ParseIntExactly(v: string, low: int, high: int, x: int)
    ensures ParseInt(v, low, high) == Some(x) <==> Spells(v, x) && low <= x <= high
  {
    hide ParseInt, SpelledBy;
    if ParseInt(v, low, high) == Some(x) {
      ReadIsSpelled(v, low, high, x);
    }
    if Spells(v, x) && low <= x <= high {
      var space, sign, digits :| SpelledBy(v, x, space, sign, digits);
      SpelledIsRead(v, low, high, x, space, sign, digits);
    }
  }

  lemma ParseDecimal(n: nat, low: int, high: int)
    requires low <= n <= high
    ensures ParseInt(Decimal(n), low, high) == Some(n) && Trimmed(Decimal(n))
  {
    DecimalBack(n);
    var s := Decimal(n);
    assert IsDigit(s[0]) && IsDigit(s[|s| - 1]);
  }

  // ----- token lists

  predicate Delimiter(c: char) { c == ',' || c == ' ' || c == '\t' }

  /** strtok with ", \t": the runs between delimiters. */
  function Tokens(s: string): seq<string>
    decreases |s|
  {
    if s == "" then []
    else if Delimiter(s[0]) then Tokens(s[1..])
    else [Run(s)] + (RunShorter(s); Tokens(s[|Run(s)|..]))
  }

  function Run(s: string): string {
    if s == "" || Delimiter(s[0]) then "" else [s[0]] + Run(s[1..])
  }

  lemma {:induction false} RunShorter(s: string)
    ensures |Run(s)| <= |s| && Run(s) == s[..|Run(s)|]
    ensures forall i :: 0 <= i < |Run(s)| ==> !Delimiter(s[i])
    ensures |Run(s)| < |s| ==> Delimiter(s[|Run(s)|])
    ensures s != "" && !Delimiter(s[0]) ==> |Run(s)| > 0
  {
    if s != "" && !Delimiter(s[0]) {
      RunShorter(s[1..]);
    }
  }

  predicate Plain(t: string) { t != "" && forall i :: 0 <= i < |t| ==> !Delimiter(t[i]) }

  lemma {:induction false} RunOver(t: string, rest: string)
    requires (forall i :: 0 <= i < |t| ==> !Delimiter(t[i])) && (rest == "" || Delimiter(rest[0]))
    ensures Run(t + rest) == t
  {
    if t != "" {
      assert (t + rest)[1..] == t[1..] + rest;
      RunOver(t[1..], rest);
    }
  }

  /** Tokens with what stands between them: gaps[i] before token i. */
  function Spread(gaps: seq<string>, tokens: seq<string>): string
    requires |gaps| == |tokens|
  {
    if tokens == [] then "" else gaps[0] + (tokens[0] + Spread(gaps[1..], tokens[1..]))
  }

  predicate Gap(s: string) { forall i :: 0 <= i < |s| ==> s[i] in {',', ' ', '\t'} }

  lemma {:induction false} GapOver(gap: string, rest: string)
    requires Gap(gap)
    ensures Tokens(gap + rest) == Tokens(rest)
  {
    if gap == "" {
      assert gap + rest == rest;
    } else {
      assert (gap + rest)[1..] == gap[1..] + rest;
      GapOver(gap[1..], rest);
    }
  }

  /** However many commas, spaces and tabs stand between them, and before and after, the tokens come back. */
  lemma {:induction false} TokensOfSpread(gaps: seq<string>, tokens: seq<string>, last: string)
    requires |gaps| == |tokens| && Gap(last)
    requires forall i :: 0 <= i < |tokens| ==> Gap(gaps[i]) && Plain(tokens[i]) && (i > 0 ==> gaps[i] != "")
    ensures Tokens(Spread(gaps, tokens) + last) == tokens
  {
    if tokens == [] {
      assert Spread(gaps, tokens) + last == last + "";
      GapOver(last, "");
    } else {
      var rest := Spread(gaps[1..], tokens[1..]);
      TokensOfSpread(gaps[1..], tokens[1..], last);
      assert Spread(gaps, tokens) + last == gaps[0] + (tokens[0] + (rest + last));
      GapOver(gaps[0], tokens[0] + (rest + last));
      if |tokens| > 1 {
        assert rest == gaps[1] + (tokens[1] + Spread(gaps[1..][1..], tokens[1..][1..]));
        assert (rest + last)[0] == gaps[1][0];
      } else {
        assert rest + last == last;
      }
      RunOver(tokens[0], rest + last);
      var s := tokens[0] + (rest + last);
      assert s[0] == tokens[0][0] && s[|tokens[0]|..] == rest + last;
      assert tokens == [tokens[0]] + tokens[1..];
    }
  }

  /** The list as it is printed. */
  function Listed(tokens: seq<string>): string {
    if tokens == [] then ""
    else if |tokens| == 1 then tokens[0]
    else tokens[0] + ", " + Listed(tokens[1..])
  }

  lemma {:induction false} TokensOfListed(tokens: seq<string>)
    requires forall i :: 0 <= i < |tokens| ==> Plain(tokens[i])
    ensures Tokens(Listed(tokens)) == tokens
  {
    if |tokens| == 1 {
      RunOver(tokens[0], "");
      assert tokens[0] + "" == tokens[0];
      assert tokens[0][|tokens[0]|..] == "";
    } else if |tokens| > 1 {
      var rest := Listed(tokens[1..]);
      var s := tokens[0] + ", " + rest;
      assert s == tokens[0] + (", " + rest);
      RunOver(tokens[0], ", " + rest);
      assert s[|tokens[0]|..] == ", " + rest;
      assert (", " + rest)[1..] == " " + rest && (" " + rest)[1..] == rest;
      TokensOfListed(tokens[1..]);
      assert Tokens(", " + rest) == Tokens(" " + rest) == Tokens(rest);
      assert tokens == [tokens[0]] + tokens[1..];
    }
  }
}
