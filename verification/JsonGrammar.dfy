/** JSON texts as concrete trees, white space included (RFC 8259, sections 2 to 7), and the looser trees around them. */
module JsonGrammar {

  datatype Key = NoKey | Key(name: string, before: string, after: string)

  datatype Item = Item(lead: string, key: Key, value: Value, trail: string)

  /** A container without items has the gap between its brackets. They need not match; WellFormed says they do. */
  datatype Value = Token(text: string) | Container(isObject: bool, gap: string, items: seq<Item>, endsObject: bool)

  function Open(isObject: bool): char { if isObject then '{' else '[' }

  function Close(isObject: bool): char { if isObject then '}' else ']' }

  function Render(v: Value): (r: string)
    ensures |r| > 0 || (v.Token? && v.text == "")
    decreases v
  {
    match v
    case Token(text) => text
    case Container(isObject, gap, items, endsObject) =>
      [Open(isObject)] + (if items == [] then gap else RenderItems(items)) + [Close(endsObject)]
  }

  function RenderItems(items: seq<Item>): string
    decreases items
  {
    if items == [] then ""
    else if |items| == 1 then RenderItem(items[0])
    else RenderItem(items[0]) + [','] + RenderItems(items[1..])
  }

  function RenderItem(item: Item): string
    decreases item
  {
    item.lead + RenderKey(item.key) + Render(item.value) + item.trail
  }

  function RenderKey(key: Key): string {
    match key
    case NoKey => ""
    case Key(name, before, after) => name + before + [':'] + after
  }

  // ----- well-formed texts

  predicate IsWs(c: char) { c == ' ' || c == '\t' || c == '\n' || c == '\r' }

  predicate Blank(s: string) { forall i :: 0 <= i < |s| ==> IsWs(s[i]) }

  predicate Digit(c: char) { '0' <= c <= '9' }

  predicate HexDigit(c: char) { Digit(c) || 'a' <= c <= 'f' || 'A' <= c <= 'F' }

  predicate Escapable(c: char) {
    c == '"' || c == '\\' || c == '/' || c == 'b' || c == 'f' || c == 'n' || c == 'r' || c == 't'
  }

  /** Characters and escapes, up to the closing quote. */
  predicate StringBody(s: string)
    decreases |s|
  {
    s == "" ||
    if s[0] == '\\' then
      |s| > 1 &&
      if s[1] == 'u' then |s| >= 6 && HexDigit(s[2]) && HexDigit(s[3]) && HexDigit(s[4]) && HexDigit(s[5]) &&
        StringBody(s[6..])
      else Escapable(s[1]) && StringBody(s[2..])
    else s[0] >= ' ' && s[0] != '"' && StringBody(s[1..])
  }

  predicate StringToken(s: string) {
    |s| >= 2 && s[0] == '"' && s[|s| - 1] == '"' && StringBody(s[1..|s| - 1])
  }

  predicate Digits(s: string) { |s| > 0 && forall i :: 0 <= i < |s| ==> Digit(s[i]) }

  predicate IntPart(s: string) { Digits(s) && (s[0] == '0' ==> |s| == 1) }

  predicate FracPart(s: string) { s == "" || (s[0] == '.' && Digits(s[1..])) }

  predicate ExpPart(s: string) {
    s == "" || ((s[0] == 'e' || s[0] == 'E') &&
      (Digits(s[1..]) || (|s| > 1 && (s[1] == '+' || s[1] == '-') && Digits(s[2..]))))
  }

  /** -? int frac? exp? */
  ghost predicate NumberToken(s: string) {
    exists sign, int_, frac, exp ::
      s == sign + int_ + frac + exp && (sign == "" || sign == "-") && IntPart(int_) && FracPart(frac) && ExpPart(exp)
  }

  predicate Word(s: string) { s == "true" || s == "false" || s == "null" }

  ghost predicate WellFormed(v: Value)
    decreases v
  {
    match v
    case Token(text) => StringToken(text) || NumberToken(text) || Word(text)
    case Container(isObject, gap, items, endsObject) =>
      && endsObject == isObject && Blank(gap) && (items != [] ==> gap == "")
      && forall i :: 0 <= i < |items| ==> WellFormedItem(items[i], isObject)
  }

  ghost predicate WellFormedItem(item: Item, isObject: bool)
    decreases item
  {
    && Blank(item.lead) && Blank(item.trail) && WellFormed(item.value)
    && (if isObject then item.key.Key? && StringToken(item.key.name) && Blank(item.key.before) && Blank(item.key.after)
        else item.key.NoKey?)
  }

  /** The texts of RFC 8259, without white space around them. */
  ghost predicate IsJson(text: string) {
    exists v :: WellFormed(v) && Render(v) == text
  }

  /** How many containers enclose the innermost value, this one counted. */
  function Nesting(v: Value): nat
    decreases v
  {
    match v
    case Token(_) => 0
    case Container(_, _, items, _) => 1 + NestingItems(items)
  }

  function NestingItems(items: seq<Item>): nat
    decreases items
  {
    if items == [] then 0
    else
      var first, rest := Nesting(items[0].value), NestingItems(items[1..]);
      if first > rest then first else rest
  }

  /** Every number satisfies p. */
  ghost predicate Numbers(v: Value, p: string -> bool)
    decreases v
  {
    match v
    case Token(text) => NumberRun(text) ==> p(text)
    case Container(_, _, items, _) => forall i :: 0 <= i < |items| ==> NumbersItem(items[i], p)
  }

  ghost predicate NumbersItem(item: Item, p: string -> bool)
    decreases item
  {
    Numbers(item.value, p)
  }

  predicate NumberChar(c: char) { Digit(c) || c == '+' || c == '-' || c == '.' || c == 'e' || c == 'E' }

  /** A number token is number characters only, and starts with a digit or a minus. */
  lemma NumberChars(s: string)
    requires NumberToken(s)
    ensures |s| > 0 && (Digit(s[0]) || s[0] == '-') && forall i :: 0 <= i < |s| ==> NumberChar(s[i])
  {
    var sign, int_, frac, exp :|
      s == sign + int_ + frac + exp && (sign == "" || sign == "-") && IntPart(int_) && FracPart(frac) && ExpPart(exp);
    AllNumberChars(frac);
    ExpNumberChars(exp);
    assert s[0] == if sign == "" then int_[0] else '-';
  }

  lemma AllNumberChars(frac: string)
    requires FracPart(frac)
    ensures forall i :: 0 <= i < |frac| ==> NumberChar(frac[i])
  {
    forall i | 0 < i < |frac| ensures NumberChar(frac[i]) {
      assert frac[i] == frac[1..][i - 1];
    }
  }

  lemma ExpNumberChars(exp: string)
    requires ExpPart(exp)
    ensures forall i :: 0 <= i < |exp| ==> NumberChar(exp[i])
  {
    forall i | 0 < i < |exp| ensures NumberChar(exp[i]) {
      if Digits(exp[1..]) {
        assert exp[i] == exp[1..][i - 1];
      } else if i > 1 {
        assert exp[i] == exp[2..][i - 2];
      }
    }
  }

  // ----- looser texts

  function HexValue(h: char): nat {
    if '0' <= h <= '9' then (h - '0') as nat
    else if 'a' <= h <= 'f' then (h - 'a') as nat + 10
    else if 'A' <= h <= 'F' then (h - 'A') as nat + 10
    else 99
  }

  /** Four characters as a number, a bad digit counting 99. */
  function Unit(a: char, b: char, c: char, d: char): nat {
    ((HexValue(a) * 16 + HexValue(b)) * 16 + HexValue(c)) * 16 + HexValue(d)
  }

  /** The code an escaped letter stands for (RFC 8259, section 7). */
  function EscapeCode(c: char): nat {
    if c == 'b' then 8 else if c == 't' then 9 else if c == 'n' then 10
    else if c == 'f' then 12 else if c == 'r' then 13 else c as nat
  }

  /** What a string's body denotes: a character its own code, an escape the code unit RFC 8259, section 7, gives it. */
  function Denoted(body: string): seq<nat>
    decreases |body|
  {
    if body == "" then []
    else if body[0] != '\\' then [body[0] as nat] + Denoted(body[1..])
    else if |body| == 1 then []
    else if body[1] != 'u' then [EscapeCode(body[1])] + Denoted(body[2..])
    else if |body| < 6 then []
    else [Unit(body[2], body[3], body[4], body[5])] + Denoted(body[6..])
  }

  function Codes(s: string): (r: seq<nat>)
    ensures |r| == |s| && forall i :: 0 <= i < |s| ==> r[i] == s[i] as nat
  {
    seq(|s|, i requires 0 <= i < |s| => s[i] as nat)
  }

  /** As a string's body, but four characters after a backslash and u need only be small as a number. */
  predicate LooseBody(s: string)
    decreases |s|
  {
    s == "" ||
    if s[0] == '\\' then
      |s| > 1 &&
      if s[1] == 'u' then |s| >= 6 && Unit(s[2], s[3], s[4], s[5]) <= 0xFFFF && LooseBody(s[6..])
      else Escapable(s[1]) && LooseBody(s[2..])
    else s[0] >= ' ' && s[0] != '"' && LooseBody(s[1..])
  }

  predicate LooseString(s: string) {
    |s| >= 2 && s[0] == '"' && s[|s| - 1] == '"' && LooseBody(s[1..|s| - 1])
  }

  /** Characters a number may hold, in any order. */
  predicate NumberRun(s: string) {
    |s| > 0 && (Digit(s[0]) || s[0] == '-') && forall i :: 0 <= i < |s| ==> NumberChar(s[i])
  }

  predicate LooseToken(s: string) { LooseString(s) || NumberRun(s) || Word(s) }

  predicate LooseKey(key: Key) {
    key.Key? ==> LooseString(key.name) && Blank(key.before) && Blank(key.after)
  }

  /** A tree over loose tokens, with keys anywhere and any bracket at the end. */
  predicate Shaped(v: Value)
    decreases v
  {
    match v
    case Token(text) => LooseToken(text)
    case Container(_, gap, items, _) =>
      Blank(gap) && (items != [] ==> gap == "") && forall i :: 0 <= i < |items| ==> ShapedItem(items[i])
  }

  predicate ShapedItem(item: Item)
    decreases item
  {
    Blank(item.lead) && Blank(item.trail) && LooseKey(item.key) && Shaped(item.value)
  }

  /** Every container begins as its opening bracket says: a key first in an object only; and no bracket of the other
      kind ends one that holds nothing. */
  predicate Opens(v: Value)
    decreases v
  {
    match v
    case Token(_) => true
    case Container(isObject, _, items, endsObject) =>
      && (if items == [] then endsObject == isObject else items[0].key.Key? == isObject)
      && forall i :: 0 <= i < |items| ==> OpensItem(items[i])
  }

  predicate OpensItem(item: Item)
    decreases item
  {
    Opens(item.value)
  }

  /** Every backslash and u has four hex digits. */
  predicate HexBody(s: string)
    decreases |s|
  {
    s == "" ||
    if s[0] == '\\' && |s| > 1 then
      if s[1] == 'u' then
        |s| >= 6 && HexDigit(s[2]) && HexDigit(s[3]) && HexDigit(s[4]) && HexDigit(s[5]) && HexBody(s[6..])
      else HexBody(s[2..])
    else HexBody(s[1..])
  }

  predicate HexToken(s: string) {
    LooseString(s) ==> HexBody(s[1..|s| - 1])
  }

  /** Every bracket is closed by its own kind, keys are where objects have them and nowhere else, every escape has its
      hex digits, and every number is a number of RFC 8259. */
  ghost predicate Strict(v: Value)
    decreases v
  {
    match v
    case Token(text) => HexToken(text) && (NumberRun(text) ==> NumberToken(text))
    case Container(isObject, _, items, endsObject) =>
      endsObject == isObject && forall i :: 0 <= i < |items| ==> StrictItem(items[i], isObject)
  }

  ghost predicate StrictItem(item: Item, isObject: bool)
    decreases item
  {
    item.key.Key? == isObject && (item.key.Key? ==> HexToken(item.key.name)) && Strict(item.value)
  }

  /** The sixteen digits in order, in either case. */
  lemma DigitInOrder(h: char)
    requires HexDigit(h)
    ensures HexValue(h) < 16
    ensures h == "0123456789abcdef"[HexValue(h)] || h == "0123456789ABCDEF"[HexValue(h)]
  {}

  lemma SmallDigit(h: char)
    ensures HexDigit(h) <==> HexValue(h) <= 15
  {}

  lemma {:induction false} BodyIsStrict(s: string)
    ensures StringBody(s) <==> LooseBody(s) && HexBody(s)
    decreases |s|
  {
    hide HexDigit, HexValue;
    if s != "" {
      if s[0] != '\\' {
        BodyIsStrict(s[1..]);
      } else if |s| > 1 && s[1] != 'u' {
        BodyIsStrict(s[2..]);
      } else if |s| >= 6 {
        SmallDigit(s[2]);
        SmallDigit(s[3]);
        SmallDigit(s[4]);
        SmallDigit(s[5]);
        BodyIsStrict(s[6..]);
      }
    }
  }

  lemma StringIsStrict(s: string)
    ensures StringToken(s) <==> LooseString(s) && HexToken(s)
  {
    if |s| >= 2 {
      BodyIsStrict(s[1..|s| - 1]);
    }
  }

  /** The well-formed trees are the strict ones among the shaped. */
  lemma {:induction false} WellFormedIsStrict(v: Value)
    ensures WellFormed(v) <==> Shaped(v) && Strict(v)
    decreases v
  {
    match v
    case Token(text) =>
      StringIsStrict(text);
      TokenKinds(text);
    case Container(isObject, _, items, _) =>
      forall i | 0 <= i < |items|
        ensures WellFormedItem(items[i], isObject) <==> ShapedItem(items[i]) && StrictItem(items[i], isObject)
      {
        WellFormedIsStrict(items[i].value);
        if items[i].key.Key? {
          StringIsStrict(items[i].key.name);
        }
      }
  }

  lemma TokenKinds(s: string)
    ensures NumberToken(s) ==> NumberRun(s)
    ensures LooseString(s) ==> !NumberRun(s) && !Word(s)
    ensures NumberRun(s) ==> !Word(s)
  {
    if NumberToken(s) {
      NumberChars(s);
    }
  }

  lemma {:induction false} StrictOpens(v: Value)
    requires Strict(v)
    ensures Opens(v)
    decreases v
  {
    if v.Container? {
      forall i | 0 <= i < |v.items| ensures OpensItem(v.items[i]) {
        assert StrictItem(v.items[i], v.isObject);
        StrictOpens(v.items[i].value);
      }
      if v.items != [] {
        assert StrictItem(v.items[0], v.isObject);
      }
    }
  }

  /** What a value may start with tells what it is. */
  lemma FirstChar(v: Value)
    requires Shaped(v)
    ensures |Render(v)| > 0 && !IsWs(Render(v)[0]) && Render(v)[0] != ']' && Render(v)[0] != '}'
    ensures Render(v)[0] == '"' <==> v.Token? && LooseString(v.text)
    ensures Digit(Render(v)[0]) || Render(v)[0] == '-' <==> v.Token? && NumberRun(v.text)
    ensures v.Container? <==> Render(v)[0] == '{' || Render(v)[0] == '['
    ensures v.Container? ==> (Render(v)[0] == '{' <==> v.isObject)
  {
    hide LooseBody;
  }
}
