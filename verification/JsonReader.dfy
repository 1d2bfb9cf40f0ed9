/** The manifest reader's skip: a loop with a depth counter that passes over any value. */
module JsonReader {
  import opened JsonGrammar
  import opened Options

  const MAX_DEPTH := 64
  const MAX_NUMBER := 39

  /** accepts(token): strtod reads the whole token and the result is finite. */
  datatype Mode = Mode(lenient: bool, accepts: string -> bool)

  // ----- what the loops compute

  function Blanks(s: string, p: nat): (q: nat)
    requires p <= |s|
    ensures p <= q <= |s| && Blank(s[p..q]) && (q < |s| ==> !IsWs(s[q]))
    decreases |s| - p
  {
    if p < |s| && IsWs(s[p]) then Blanks(s, p + 1) else p
  }

  function Eaten(s: string, p: nat, c: char): (r: Option<nat>)
    requires p <= |s|
    ensures r.Some? ==> p < r.value <= |s|
  {
    var q := Blanks(s, p);
    if q < |s| && s[q] == c then Some(q + 1) else None
  }

  /** k more digits; a bad one counts 99 and is caught only when the value passes 16 bits. */
  function Hex(s: string, p: nat, k: nat, v: nat): (r: Option<nat>)
    requires p <= |s|
    ensures r.Some? ==> p <= r.value <= |s|
    decreases k
  {
    if k == 0 then Some(p)
    else if p >= |s| || v * 16 + HexValue(s[p]) > 0xFFFF then None
    else Hex(s, p + 1, k - 1, v * 16 + HexValue(s[p]))
  }

  lemma HexValueIs(h: char)
    ensures HexValue(h) ==
      if '0' <= h <= '9' then (h - '0') as nat
      else if 'a' <= h <= 'f' then (h - 'a') as nat + 10
      else if 'A' <= h <= 'F' then (h - 'A') as nat + 10
      else 99
  {}

  /** The value of the k characters from p. */
  function Prefix(s: string, p: nat, k: nat): nat
    requires p + k <= |s|
  {
    if k == 0 then 0 else Prefix(s, p, k - 1) * 16 + HexValue(s[p + k - 1])
  }

  lemma FourPrefix(s: string, p: nat)
    requires p + 4 <= |s|
    ensures Prefix(s, p, 4) == Unit(s[p], s[p + 1], s[p + 2], s[p + 3])
  {
    hide HexValue;
    assert Prefix(s, p, 1) == HexValue(s[p]);
    assert Prefix(s, p, 2) == HexValue(s[p]) * 16 + HexValue(s[p + 1]);
  }

  /** After the opening quote: past the closing one. */
  function StringEnd(s: string, p: nat): (r: Option<nat>)
    requires p <= |s|
    ensures r.Some? ==> p < r.value <= |s|
    decreases |s| - p
  {
    if p == |s| then None
    else if s[p] == '"' then Some(p + 1)
    else if s[p] < ' ' then None
    else if s[p] != '\\' then StringEnd(s, p + 1)
    else if p + 1 == |s| then None
    else if s[p + 1] == 'u' then
      match Hex(s, p + 2, 4, 0) case None => None case Some(q) => StringEnd(s, q)
    else if Escapable(s[p + 1]) then StringEnd(s, p + 2)
    else None
  }

  function StringRead(s: string, p: nat): (r: Option<nat>)
    requires p <= |s|
    ensures r.Some? ==> p < r.value <= |s|
  {
    match Eaten(s, p, '"') case None => None case Some(q) => StringEnd(s, q)
  }

  function Run(s: string, p: nat): (q: nat)
    requires p <= |s|
    ensures p <= q <= |s|
    decreases |s| - p
  {
    if p < |s| && NumberChar(s[p]) then Run(s, p + 1) else p
  }

  function NumberRead(s: string, p: nat, mode: Mode): (r: Option<nat>)
    requires p <= |s|
    ensures r.Some? ==> p < r.value <= |s|
  {
    var q := Run(s, p);
    if p < q <= p + MAX_NUMBER && (mode.lenient || mode.accepts(s[p..q])) then Some(q) else None
  }

  predicate StartsWith(s: string, p: nat, w: string) {
    p + |w| <= |s| && s[p..p + |w|] == w
  }

  function WordRead(s: string, p: nat): (r: Option<nat>)
    ensures r.Some? ==> p < r.value <= |s|
  {
    if StartsWith(s, p, "true") then Some(p + 4)
    else if StartsWith(s, p, "false") then Some(p + 5)
    else if StartsWith(s, p, "null") then Some(p + 4)
    else None
  }

  function TokenRead(s: string, p: nat, mode: Mode): (r: Option<nat>)
    requires p < |s|
    ensures r.Some? ==> p < r.value <= |s|
  {
    if s[p] == '"' then StringRead(s, p)
    else if s[p] == '-' || Digit(s[p]) then NumberRead(s, p, mode)
    else WordRead(s, p)
  }

  /** A string and a colon. */
  function KeyRead(s: string, p: nat): (r: Option<nat>)
    requires p <= |s|
    ensures r.Some? ==> p < r.value <= |s|
  {
    match StringRead(s, p) case None => None case Some(q) => Eaten(s, q, ':')
  }

  /** The loop about to read a value with d containers open, to the end of the outermost. */
  function AtValue(s: string, p: nat, d: nat, mode: Mode): (r: Option<nat>)
    requires p <= |s|
    ensures r.Some? ==> p < r.value <= |s|
    decreases |s| - p, 1
  {
    var q := Blanks(s, p);
    if q == |s| then None
    else if s[q] == '{' || s[q] == '[' then
      if d + 1 > MAX_DEPTH then None
      else match Eaten(s, q + 1, Close(s[q] == '{'))
        case Some(e) => AfterValue(s, e, d, mode)
        case None =>
          if s[q] == '[' then AtValue(s, q + 1, d + 1, mode)
          else match KeyRead(s, q + 1) case None => None case Some(k) => AtValue(s, k, d + 1, mode)
    else match TokenRead(s, q, mode) case None => None case Some(e) => AfterValue(s, e, d, mode)
  }

  /** The loop after a value: a comma goes on, a bracket closes, whatever its kind. */
  function AfterValue(s: string, p: nat, d: nat, mode: Mode): (r: Option<nat>)
    requires p <= |s|
    ensures r.Some? ==> p <= r.value <= |s|
    decreases |s| - p, 0
  {
    if d == 0 then Some(p)
    else
      var q := Blanks(s, p);
      if q == |s| then None
      else if s[q] == ',' then AtValue(s, AfterComma(s, q + 1), d, mode)
      else if s[q] == '}' || s[q] == ']' then AfterValue(s, q + 1, d - 1, mode)
      else None
  }

  function AfterComma(s: string, p: nat): (q: nat)
    requires p <= |s|
    ensures p <= q <= |s|
  {
    match KeyRead(s, p) case Some(k) => k case None => p
  }

  // ----- the loops

  class Reader {
    const text: string
    const mode: Mode
    var p: nat

    predicate Valid()
      reads this
    {
      p <= |text|
    }

    constructor (text: string, mode: Mode)
      ensures Valid() && this.text == text && this.mode == mode && p == 0
    {
      this.text, this.mode, p := text, mode, 0;
    }

    method Ws()
      requires Valid()
      modifies this
      ensures Valid() && p == Blanks(text, old(p))
    {
      while p < |text| && (text[p] == ' ' || text[p] == '\t' || text[p] == '\n' || text[p] == '\r')
        invariant Valid() && Blanks(text, p) == Blanks(text, old(p))
      {
        p := p + 1;
      }
    }

    method Eat(c: char) returns (ok: bool)
      requires Valid()
      modifies this
      ensures Valid() && (ok <==> Eaten(text, old(p), c).Some?)
      ensures p == if ok then Eaten(text, old(p), c).value else Blanks(text, old(p))
    {
      Ws();
      if p < |text| && text[p] == c {
        p := p + 1;
        return true;
      }
      ok := false;
    }

    /** Four characters and their value. */
    method FourHex() returns (ok: bool, v: nat)
      requires Valid()
      modifies this
      ensures Valid() && (ok <==> Hex(text, old(p), 4, 0).Some?)
      ensures ok ==> p == Hex(text, old(p), 4, 0).value
      ensures ok ==> p == old(p) + 4 && v == Unit(text[p - 4], text[p - 3], text[p - 2], text[p - 1])
    {
      hide Unit, HexValue;
      v := 0;
      for k := 0 to 4
        invariant Valid() && Hex(text, p, 4 - k, v) == Hex(text, old(p), 4, 0)
        invariant p == old(p) + k && v == Prefix(text, old(p), k)
      {
        if p >= |text| {
          ok := false;
          return;
        }
        var h := text[p];
        v := v * 16 +
        (if '0' <= h <= '9' then (h - '0') as nat
         else if 'a' <= h <= 'f' then (h - 'a') as nat + 10
         else if 'A' <= h <= 'F' then (h - 'A') as nat + 10
         else 99);
        HexValueIs(h);
        p := p + 1;
        if v > 0xFFFF {
          ok := false;
          return;
        }
      }
      FourPrefix(text, p - 4);
      ok := true;
    }

    /** A string whose value nobody wants. */
    method Str() returns (ok: bool)
      requires Valid()
      modifies this
      ensures Valid() && (ok <==> StringRead(text, old(p)).Some?)
      ensures ok ==> p == StringRead(text, old(p)).value
    {
      var quoted := Eat('"');
      if !quoted {
        return false;
      }
      ghost var body := p;
      while p < |text|
        invariant Valid() && StringEnd(text, p) == StringEnd(text, body)
        decreases |text| - p
      {
        var c := text[p];
        ghost var at := p;
        p := p + 1;
        if c == '"' {
          return true;
        }
        if c < ' ' {
          return false;
        }
        if c == '\\' {
          if p >= |text| {
            return false;
          }
          var e := text[p];
          p := p + 1;
          if e == 'u' {
            var hex, _ := FourHex();
            if !hex {
              return false;
            }
          } else if e !in "\"\\/bfnrt" {
            return false;
          }
        }
      }
      ok := false;
    }

    method StrColon() returns (ok: bool)
      requires Valid()
      modifies this
      ensures Valid() && (ok <==> KeyRead(text, old(p)).Some?)
      ensures ok ==> p == KeyRead(text, old(p)).value
    {
      hide StringRead, Eaten;
      ok := Str();
      if ok {
        ok := Eat(':');
      }
    }

    method Num() returns (ok: bool)
      requires Valid()
      modifies this
      ensures Valid()
      ensures var at := Blanks(text, old(p)); var q := Run(text, at);
        (ok <==> at < q <= at + MAX_NUMBER && mode.accepts(text[at..q])) && (ok ==> p == q)
    {
      Ws();
      ghost var start := p;
      var n, buffer := 0, "";
      while p < |text| && n < MAX_NUMBER && text[p] in "+-.0123456789eE"
        invariant Valid() && p == start + n && n <= MAX_NUMBER
        invariant Run(text, p) == Run(text, start) && buffer == text[start..p]
      {
        buffer := buffer + [text[p]];
        p, n := p + 1, n + 1;
      }
      if n == 0 || (p < |text| && text[p] in "+-.0123456789eE") {
        return false;
      }
      ok := mode.accepts(buffer);
    }

    /** The same characters again when the number itself does not matter. */
    method AnyNum() returns (ok: bool)
      requires Valid()
      modifies this
      ensures Valid()
      ensures var q := Run(text, old(p)); (ok <==> old(p) < q <= old(p) + MAX_NUMBER) && (ok ==> p == q)
    {
      var n := 0;
      while p < |text| && n < MAX_NUMBER + 1 && text[p] in "+-.0123456789eE"
        invariant Valid() && p == old(p) + n && n <= MAX_NUMBER + 1 && Run(text, p) == Run(text, old(p))
      {
        p, n := p + 1, n + 1;
      }
      RunBeyond(text, p);
      ok := 0 < n < MAX_NUMBER + 1;
    }

    /** A token where one must be. */
    method Token() returns (ok: bool)
      requires p < |text| && !IsWs(text[p])
      modifies this
      ensures Valid() && (ok <==> TokenRead(text, old(p), mode).Some?)
      ensures ok ==> p == TokenRead(text, old(p), mode).value
    {
      var c := text[p];
      if c == '"' {
        ok := Str();
      } else if c == '-' || '0' <= c <= '9' {
        var at := p;
        ok := Num();
        if !ok && mode.lenient {
          p := at;
          ok := AnyNum();
        }
      } else {
        var q := WordRead(text, p);
        ok := q.Some?;
        if ok {
          p := q.value;
        }
      }
    }

    /** What begins a value: a token, an empty container, or a container whose first value is next. */
    method Begin(depth0: nat) returns (next: Next, depth: nat)
      requires Valid()
      modifies this
      ensures Valid() && (next.Fail? ==> AtValue(text, old(p), depth0, mode) == None)
      ensures next.Value? ==> p > old(p) && AtValue(text, old(p), depth0, mode) == AtValue(text, p, depth, mode)
      ensures next.After? ==> p > old(p) && AtValue(text, old(p), depth0, mode) == AfterValue(text, p, depth, mode)
    {
      hide Blanks, Eaten, KeyRead, TokenRead, AfterValue;
      depth := depth0;
      Ws();
      if p >= |text| {
        return Fail, depth;
      }
      var c := text[p];
      if c == '{' || c == '[' {
        depth := depth + 1;
        if depth > MAX_DEPTH {
          return Fail, depth;
        }
        p := p + 1;
        ghost var inside := p;
        var empty := Eat(Close(c == '{'));
        if empty {
          return After, depth - 1;
        }
        if c == '{' {
          KeyAgain(text, inside);
          var key := StrColon();
          return if key then Value else Fail, depth;
        }
        ValueAgain(text, inside, depth, mode);
        return Value, depth;
      }
      var ok := Token();
      next := if ok then After else Fail;
    }

    /** After a value: a comma continues the container, a close ends it. */
    method Follow(depth0: nat) returns (next: Next, depth: nat)
      requires Valid()
      modifies this
      ensures Valid() && (next.Fail? ==> AfterValue(text, old(p), depth0, mode) == None)
      ensures next.Value? ==> p > old(p) && AfterValue(text, old(p), depth0, mode) == AtValue(text, p, depth, mode)
      ensures next.After? ==> AfterValue(text, old(p), depth0, mode) == Some(p)
    {
      hide Blanks, Eaten, KeyRead, TokenRead, AtValue;
      depth := depth0;
      while depth > 0
        invariant Valid() && p >= old(p) && AfterValue(text, p, depth, mode) == AfterValue(text, old(p), depth0, mode)
        decreases |text| - p
      {
        Ws();
        if p >= |text| {
          return Fail, depth;
        }
        if text[p] == ',' {
          p := p + 1;
          var save := p;
          var key := StrColon();
          if !key {
            p := save;
          }
          return Value, depth;
        }
        if text[p] != '}' && text[p] != ']' {
          return Fail, depth;
        }
        p, depth := p + 1, depth - 1;
      }
      next := After;
    }

    /** Passes over one value. */
    method Skip() returns (ok: bool)
      requires Valid()
      modifies this
      ensures Valid() && (ok <==> AtValue(text, old(p), 0, mode).Some?)
      ensures ok ==> p == AtValue(text, old(p), 0, mode).value
    {
      hide AtValue, AfterValue;
      var depth: nat, next := 0, Value;
      while next.Value?
        invariant Valid() && (next.Fail? ==> AtValue(text, old(p), 0, mode) == None)
        invariant next.Value? ==> AtValue(text, p, depth, mode) == AtValue(text, old(p), 0, mode)
        invariant next.After? ==> AtValue(text, old(p), 0, mode) == Some(p)
        decreases next.Value?, |text| - p
      {
        next, depth := Begin(depth);
        if next.After? {
          next, depth := Follow(depth);
        }
      }
      ok := next.After?;
    }
  }

  /** What the loop does next; After with no container open is the end. */
  datatype Next = Value | After | Fail

  lemma RunBeyond(s: string, p: nat)
    requires p <= |s|
    ensures p < |s| && NumberChar(s[p]) ==> Run(s, p) > p
  {}

  lemma KeyAgain(s: string, p: nat)
    requires p <= |s|
    ensures KeyRead(s, Blanks(s, p)) == KeyRead(s, p)
  {}

  lemma ValueAgain(s: string, p: nat, d: nat, mode: Mode)
    requires p <= |s|
    ensures AtValue(s, Blanks(s, p), d, mode) == AtValue(s, p, d, mode)
  {
    hide Eaten, KeyRead, TokenRead, AfterValue;
  }

  // ----- the loops pass over every loose tree, and so over every well-formed one

  predicate At(s: string, p: nat, r: string) { p + |r| <= |s| && s[p..p + |r|] == r }

  /** No number goes on here. */
  predicate Stops(s: string, p: nat) { p == |s| || (p < |s| && !NumberChar(s[p])) }

  lemma AtBoth(s: string, p: nat, a: string, b: string)
    requires At(s, p, a + b)
    ensures At(s, p, a) && At(s, p + |a|, b)
  {
    var r := s[p..p + |a + b|];
    assert s[p..p + |a|] == r[..|a|] && s[p + |a|..p + |a| + |b|] == r[|a|..];
  }

  lemma AtChar(s: string, p: nat, c: char)
    requires At(s, p, [c])
    ensures p < |s| && s[p] == c
  {
    assert s[p..p + 1][0] == c;
  }

  lemma {:induction false} BlanksOver(s: string, p: nat, w: string)
    requires Blank(w) && At(s, p, w) && (p + |w| < |s| ==> !IsWs(s[p + |w|]))
    ensures Blanks(s, p) == p + |w|
    decreases |w|
  {
    if |w| > 0 {
      AtBoth(s, p, [w[0]], w[1..]);
      AtChar(s, p, w[0]);
      BlanksOver(s, p + 1, w[1..]);
    }
  }

  lemma AtIndex(s: string, p: nat, r: string, i: nat)
    requires At(s, p, r) && i < |r|
    ensures p + i < |s| && s[p + i] == r[i]
  {
    assert s[p..p + |r|][i] == s[p + i];
  }

  /** The length of the first character or escape. */
  function PieceLength(body: string): (n: nat)
    requires body != "" && LooseBody(body)
    ensures 0 < n <= |body|
  {
    if body[0] != '\\' then 1 else if body[1] == 'u' then 6 else 2
  }

  lemma PieceOver(s: string, p: nat, body: string)
    requires body != "" && LooseBody(body) && At(s, p, body)
    ensures var n := PieceLength(body);
      p + n <= |s| && LooseBody(body[n..]) && StringEnd(s, p) == StringEnd(s, p + n)
  {
    hide At, Unit, Hex;
    var n := PieceLength(body);
    AtIndex(s, p, body, 0);
    AtIndex(s, p, body, n - 1);
    if n > 1 {
      AtIndex(s, p, body, 1);
    }
    if n == 6 {
      AtIndex(s, p, body, 2);
      AtIndex(s, p, body, 3);
      AtIndex(s, p, body, 4);
      FourDigits(s, p + 2);
    }
  }

  lemma {:induction false} StringOver(s: string, p: nat, body: string)
    requires LooseBody(body) && At(s, p, body) && p + |body| < |s| && s[p + |body|] == '"'
    ensures StringEnd(s, p) == Some(p + |body| + 1)
    decreases |body|
  {
    hide At;
    if |body| > 0 {
      var n := PieceLength(body);
      PieceOver(s, p, body);
      assert body == body[..n] + body[n..];
      AtBoth(s, p, body[..n], body[n..]);
      StringOver(s, p + n, body[n..]);
    }
  }

  /** The value only grows, so it stays within 16 bits when it ends there. */
  lemma FourDigits(s: string, p: nat)
    requires p + 4 <= |s|
    ensures Hex(s, p, 4, 0) == if Unit(s[p], s[p + 1], s[p + 2], s[p + 3]) <= 0xFFFF then Some(p + 4) else None
  {
    hide HexValue;
    var a := HexValue(s[p]);
    var b := a * 16 + HexValue(s[p + 1]);
    var c := b * 16 + HexValue(s[p + 2]);
    var d := c * 16 + HexValue(s[p + 3]);
    assert a <= b <= c <= d;
    if d <= 0xFFFF {
      assert Hex(s, p + 4, 0, d) == Some(p + 4);
      assert Hex(s, p + 3, 1, c) == Some(p + 4);
      assert Hex(s, p + 2, 2, b) == Some(p + 4);
      assert Hex(s, p + 1, 3, a) == Some(p + 4);
    } else {
      assert Hex(s, p + 3, 1, c) == None;
      assert Hex(s, p + 2, 2, b) == None;
      assert Hex(s, p + 1, 3, a) == None;
    }
  }

  lemma {:induction false} RunOver(s: string, p: nat, token: string)
    requires At(s, p, token) && Stops(s, p + |token|) && forall i :: 0 <= i < |token| ==> NumberChar(token[i])
    ensures Run(s, p) == p + |token|
    decreases |token|
  {
    if |token| > 0 {
      AtBoth(s, p, [token[0]], token[1..]);
      AtChar(s, p, token[0]);
      RunOver(s, p + 1, token[1..]);
    }
  }

  /** The numbers the reader takes. */
  predicate Short(token: string, mode: Mode) { |token| <= MAX_NUMBER && (mode.lenient || mode.accepts(token)) }

  predicate TokenFits(text: string, mode: Mode) { NumberRun(text) ==> Short(text, mode) }

  lemma StringTokenOver(s: string, p: nat, text: string)
    requires LooseString(text) && At(s, p, text)
    ensures p < |s| && s[p] == '"' && StringRead(s, p) == Some(p + |text|)
  {
    var body := text[1..|text| - 1];
    assert text == ['"'] + (body + ['"']);
    AtBoth(s, p, ['"'], body + ['"']);
    AtBoth(s, p + 1, body, ['"']);
    AtChar(s, p, '"');
    AtChar(s, p + 1 + |body|, '"');
    StringOver(s, p + 1, body);
  }

  lemma WordOver(s: string, p: nat, text: string)
    requires Word(text) && At(s, p, text)
    ensures WordRead(s, p) == Some(p + |text|)
    ensures p < |s| && s[p] == text[0]
  {
    assert s[p..p + |text|][0] == text[0];
    assert s[p] == text[0];
    if text != "true" { assert !StartsWith(s, p, "true") by { OtherStart(s, p, "true", text); } }
    if text == "null" { assert !StartsWith(s, p, "false") by { OtherStart(s, p, "false", text); } }
  }

  lemma OtherStart(s: string, p: nat, w: string, text: string)
    requires |w| > 0 && |text| > 0 && At(s, p, text) && w[0] != text[0]
    ensures !StartsWith(s, p, w)
  {
    assert s[p..p + |text|][0] == s[p];
    if p + |w| <= |s| {
      assert s[p..p + |w|][0] == s[p];
    }
  }

  lemma TokenOver(s: string, p: nat, text: string, mode: Mode)
    requires LooseToken(text) && At(s, p, text) && (NumberRun(text) ==> Stops(s, p + |text|))
    ensures p < |s| && TokenRead(s, p, mode) == if TokenFits(text, mode) then Some(p + |text|) else None
  {
    hide StringRead, WordRead;
    TokenKinds(text);
    if NumberRun(text) {
      RunOver(s, p, text);
      assert s[p] == s[p..p + |text|][0] == text[0];
    } else if LooseString(text) {
      StringTokenOver(s, p, text);
    } else {
      WordOver(s, p, text);
    }
  }

  /** The depth and the numbers are within the reader's limits, with d containers open around. */
  ghost predicate Fits(v: Value, d: nat, mode: Mode)
    decreases v
  {
    match v
    case Token(text) => TokenFits(text, mode)
    case Container(_, _, items, _) => d + 1 <= MAX_DEPTH && FitsItems(items, d + 1, mode)
  }

  ghost predicate FitsItems(items: seq<Item>, d: nat, mode: Mode)
    decreases items
  {
    items == [] || (Fits(items[0].value, d, mode) && FitsItems(items[1..], d, mode))
  }

  /** Where the loop reads an item's value from: past its colon, if it has a key. */
  function ValueStart(item: Item, p: nat): nat {
    match item.key
    case NoKey => p
    case Key(name, before, _) => p + |item.lead| + |name| + |before| + 1
  }

  function ValuePlace(item: Item, p: nat): nat { p + |item.lead| + |RenderKey(item.key)| }

  lemma KeyOver(item: Item, s: string, p: nat)
    requires ShapedItem(item) && item.key.Key? && At(s, p, RenderItem(item))
    ensures KeyRead(s, p) == Some(ValueStart(item, p))
    ensures Blanks(s, p) == p + |item.lead| < |s| && s[p + |item.lead|] == '"'
    ensures At(s, ValuePlace(item, p), Render(item.value) + item.trail)
    ensures At(s, ValueStart(item, p), item.key.after)
  {
    hide At, LooseString, Render, Blanks, StringRead, Eaten;
    var k := item.key;
    var q := p + |item.lead|;
    assert RenderItem(item) == item.lead + RenderKey(k) + (Render(item.value) + item.trail);
    AtBoth(s, p, item.lead + RenderKey(k), Render(item.value) + item.trail);
    AtBoth(s, p, item.lead, RenderKey(k));
    KeyParts(k, s, q);
    BlanksOver(s, p, item.lead);
    BlanksAgain(s, p);
  }

  lemma KeyParts(k: Key, s: string, q: nat)
    requires k.Key? && LooseKey(k) && At(s, q, RenderKey(k))
    ensures q < |s| && s[q] == '"' && StringRead(s, q) == Some(q + |k.name|)
    ensures At(s, q + |k.name| + |k.before| + 1, k.after)
    ensures q + |k.name| <= |s| && Eaten(s, q + |k.name|, ':') == Some(q + |k.name| + |k.before| + 1)
  {
    hide LooseString, StringRead, At, Blanks, Blank, Eaten, IsWs, RenderKey;
    KeyPlaces(k, s, q);
    AtInside(s, q, k.name);
    StringTokenOver(s, q, k.name);
    AtChar(s, q + |k.name| + |k.before|, ':');
    BlanksToColon(s, q + |k.name|, k.before);
    EatenAt(s, q + |k.name|, ':');
  }

  lemma KeyPlaces(k: Key, s: string, q: nat)
    requires k.Key? && At(s, q, RenderKey(k))
    ensures At(s, q, k.name) && At(s, q + |k.name|, k.before) && At(s, q + |k.name| + |k.before|, [':'])
    ensures At(s, q + |k.name| + |k.before| + 1, k.after)
  {
    hide At, RenderKey;
    KeyRegrouped(k);
    AtBoth(s, q, k.name, k.before + ([':'] + k.after));
    AtBoth(s, q + |k.name|, k.before, [':'] + k.after);
    AtBoth(s, q + |k.name| + |k.before|, [':'], k.after);
  }

  lemma KeyRegrouped(k: Key)
    requires k.Key?
    ensures RenderKey(k) == k.name + (k.before + ([':'] + k.after))
  {
    Reassociate(k.name, k.before, [':'], k.after);
  }

  lemma BlanksToColon(s: string, p: nat, w: string)
    requires Blank(w) && At(s, p, w) && p + |w| < |s| && s[p + |w|] == ':'
    ensures Blanks(s, p) == p + |w|
  {
    hide At, Blanks;
    BlanksOver(s, p, w);
  }

  lemma BlanksAgain(s: string, p: nat)
    requires p <= |s|
    ensures StringRead(s, Blanks(s, p)) == StringRead(s, p)
  {}

  lemma BlanksTo(s: string, p: nat, w: string, c: char)
    requires Blank(w) && At(s, p, w + [c]) && !IsWs(c)
    ensures Blanks(s, p) == p + |w| < |s| && s[p + |w|] == c
  {
    AtBoth(s, p, w, [c]);
    AtChar(s, p + |w|, c);
    BlanksOver(s, p, w);
  }

  /** The value itself comes next, past the blanks. */
  lemma ItemValue(item: Item, s: string, p: nat)
    requires ShapedItem(item) && At(s, p, RenderItem(item))
    ensures ValueStart(item, p) <= |s| && Blanks(s, ValueStart(item, p)) == ValuePlace(item, p)
    ensures At(s, ValuePlace(item, p), Render(item.value))
    ensures At(s, ValuePlace(item, p) + |Render(item.value)|, item.trail)
  {
    hide At, Render, Blanks, ShapedItem;
    if item.key.Key? {
      KeyedValue(item, s, p);
    } else {
      PlainValue(item, s, p);
    }
  }

  lemma KeyedValue(item: Item, s: string, p: nat)
    requires ShapedItem(item) && item.key.Key? && At(s, p, RenderItem(item))
    ensures ValueStart(item, p) <= |s| && Blanks(s, ValueStart(item, p)) == ValuePlace(item, p)
    ensures At(s, ValuePlace(item, p), Render(item.value))
    ensures At(s, ValuePlace(item, p) + |Render(item.value)|, item.trail)
  {
    hide At, Render, Blanks, LooseString, Shaped, IsWs, KeyRead;
    var place := ValuePlace(item, p);
    KeyOver(item, s, p);
    AtBoth(s, place, Render(item.value), item.trail);
    AtInside(s, ValueStart(item, p), item.key.after);
    NotBlank(item.value, s, place);
    BlanksOver(s, ValueStart(item, p), item.key.after);
  }

  lemma PlainValue(item: Item, s: string, p: nat)
    requires ShapedItem(item) && item.key.NoKey? && At(s, p, RenderItem(item))
    ensures p <= |s| && Blanks(s, p) == p + |item.lead|
    ensures At(s, p + |item.lead|, Render(item.value))
    ensures At(s, p + |item.lead| + |Render(item.value)|, item.trail)
  {
    hide At, Render, Blanks, LooseKey, Shaped, IsWs;
    var place := p + |item.lead|;
    assert RenderItem(item) == item.lead + (Render(item.value) + item.trail);
    AtBoth(s, p, item.lead, Render(item.value) + item.trail);
    AtInside(s, p, item.lead);
    AtBoth(s, place, Render(item.value), item.trail);
    NotBlank(item.value, s, place);
    BlanksOver(s, p, item.lead);
  }

  lemma NotBlank(v: Value, s: string, p: nat)
    requires Shaped(v) && At(s, p, Render(v))
    ensures p < |s| && s[p] == Render(v)[0] && !IsWs(s[p]) && s[p] != ']' && s[p] != '}'
    ensures s[p] == '"' <==> v.Token? && LooseString(v.text)
    ensures v.Container? <==> s[p] == '{' || s[p] == '['
    ensures v.Container? ==> (s[p] == '{' <==> v.isObject)
  {
    FirstChar(v);
    assert s[p..p + |Render(v)|][0] == s[p];
  }

  /** What comes after the item: a comma or a bracket. */
  predicate ItemEnds(item: Item, s: string, p: nat) {
    var end := p + |RenderItem(item)|;
    end < |s| && (s[end] == ',' || s[end] == ']' || s[end] == '}')
  }

  /** A key is read exactly where the item has one: a string that is an item's value has no colon after it. */
  lemma ItemKey(item: Item, s: string, p: nat)
    requires ShapedItem(item) && At(s, p, RenderItem(item)) && ItemEnds(item, s, p)
    ensures p <= |s| && KeyRead(s, p) == if item.key.Key? then Some(ValueStart(item, p)) else None
    ensures Blanks(s, p) == p + |item.lead|
  {
    hide At, Render, Blanks, LooseString, StringEnd;
    if item.key.Key? {
      KeyOver(item, s, p);
    } else {
      ItemValue(item, s, p);
      var place := ValuePlace(item, p);
      NotBlank(item.value, s, place);
      BlanksAgain(s, p);
      if s[place] == '"' {
        TokenRender(item.value);
        StringTokenOver(s, place, item.value.text);
        BlanksOver(s, place + |item.value.text|, item.trail);
      }
    }
  }

  lemma TokenRender(v: Value)
    requires v.Token?
    ensures Render(v) == v.text
  {}

  /** No number goes on after v, if v is one. */
  predicate NumberStops(v: Value, s: string, p: nat) {
    v.Token? && NumberRun(v.text) ==> Stops(s, p + |v.text|)
  }

  /** A loose value is passed over to its very end, or refused when something in it is over the limits. */
  lemma {:induction false} SkipsValue(v: Value, s: string, p: nat, d: nat, mode: Mode)
    requires Shaped(v) && Opens(v) && At(s, p, Render(v)) && NumberStops(v, s, p)
    ensures p <= |s| && p + |Render(v)| <= |s|
    ensures AtValue(s, p, d, mode) == if Fits(v, d, mode) then AfterValue(s, p + |Render(v)|, d, mode) else None
    decreases v, 1
  {
    hide At, TokenRead, Render, RenderItems, AfterValue, AtValue, Fits, FitsItems, ShapedItem, OpensItem, LooseToken;
    AtInside(s, p, Render(v));
    if v.Token? {
      SkipsToken(v, s, p, d, mode);
    } else if v.items == [] {
      SkipsEmpty(v, s, p, d, mode);
    } else {
      FullOver(v, s, p);
      if d + 1 <= MAX_DEPTH {
        SkipsItems(v.items, v.endsObject, s, p + 1, d + 1, mode);
      }
      SkipsFull(v, s, p, d, mode);
    }
  }

  lemma SkipsToken(v: Value, s: string, p: nat, d: nat, mode: Mode)
    requires v.Token? && Shaped(v) && At(s, p, Render(v)) && NumberStops(v, s, p)
    ensures p + |Render(v)| <= |s|
    ensures AtValue(s, p, d, mode) == if Fits(v, d, mode) then AfterValue(s, p + |Render(v)|, d, mode) else None
  {
    hide At, TokenRead, AfterValue, TokenFits;
    NotBlank(v, s, p);
    AtInside(s, p, Render(v));
    TokenOver(s, p, v.text, mode);
  }

  lemma SkipsEmpty(v: Value, s: string, p: nat, d: nat, mode: Mode)
    requires v.Container? && v.items == [] && Shaped(v) && Opens(v) && At(s, p, Render(v))
    ensures p + |Render(v)| <= |s|
    ensures AtValue(s, p, d, mode) == if Fits(v, d, mode) then AfterValue(s, p + |Render(v)|, d, mode) else None
  {
    hide At, TokenRead, AfterValue, Render;
    NotBlank(v, s, p);
    AtInside(s, p, Render(v));
    EmptyOver(v, s, p);
  }

  lemma SkipsFull(v: Value, s: string, p: nat, d: nat, mode: Mode)
    requires v.Container? && v.items != [] && Shaped(v) && At(s, p, Render(v))
    requires p < |s| && s[p] == Open(v.isObject) && Eaten(s, p + 1, Close(v.isObject)) == None
    requires v.isObject ==> KeyRead(s, p + 1) == Some(ValueStart(v.items[0], p + 1))
    requires !v.isObject ==> ValueStart(v.items[0], p + 1) == p + 1
    requires ValueStart(v.items[0], p + 1) <= |s| && p + |Render(v)| <= |s|
    requires d + 1 <= MAX_DEPTH ==> (AtValue(s, ValueStart(v.items[0], p + 1), d + 1, mode) ==
      (if FitsItems(v.items, d + 1, mode) then AfterValue(s, p + |RenderItems(v.items)| + 2, d, mode) else None))
    ensures AtValue(s, p, d, mode) == if Fits(v, d, mode) then AfterValue(s, p + |Render(v)|, d, mode) else None
  {
    hide At, TokenRead, AfterValue, RenderItems, FitsItems, ValueStart, Eaten, KeyRead;
    NotBlank(v, s, p);
  }

  lemma AtInside(s: string, p: nat, r: string)
    requires At(s, p, r)
    ensures p <= p + |r| <= |s|
  {}

  lemma EmptyOver(v: Value, s: string, p: nat)
    requires v.Container? && v.items == [] && Shaped(v) && At(s, p, Render(v))
    ensures p < |s| && s[p] == Open(v.isObject) && Blanks(s, p + 1) == p + 1 + |v.gap|
    ensures Eaten(s, p + 1, Close(v.endsObject)) == Some(p + |Render(v)|)
  {
    hide At, Blanks, Eaten;
    assert Render(v) == [Open(v.isObject)] + (v.gap + [Close(v.endsObject)]);
    AtBoth(s, p, [Open(v.isObject)], v.gap + [Close(v.endsObject)]);
    AtChar(s, p, Open(v.isObject));
    BlanksTo(s, p + 1, v.gap, Close(v.endsObject));
    EatenAt(s, p + 1, Close(v.endsObject));
  }

  lemma EatenAt(s: string, p: nat, c: char)
    requires p <= |s| && Blanks(s, p) < |s| && s[Blanks(s, p)] == c
    ensures Eaten(s, p, c) == Some(Blanks(s, p) + 1)
  {}

  /** A container that holds something: its first item is next. */
  lemma ContainerOver(v: Value, s: string, p: nat)
    requires v.Container? && v.items != [] && At(s, p, Render(v))
    ensures p < |s| && s[p] == Open(v.isObject)
    ensures At(s, p + 1, RenderItems(v.items) + [Close(v.endsObject)])
    ensures |Render(v)| == |RenderItems(v.items)| + 2 && At(s, p + 1, RenderItem(v.items[0]))
  {
    hide At;
    var inner := RenderItems(v.items);
    assert Render(v) == [Open(v.isObject)] + (inner + [Close(v.endsObject)]) by { ContainerRender(v); }
    AtBoth(s, p, [Open(v.isObject)], inner + [Close(v.endsObject)]);
    AtChar(s, p, Open(v.isObject));
    AtBoth(s, p + 1, inner, [Close(v.endsObject)]);
    FirstItem(v.items, s, p + 1);
  }

  /** ... and no closing bracket. */
  lemma ItemFirst(item: Item, s: string, p: nat)
    requires ShapedItem(item) && At(s, p, RenderItem(item))
    ensures p <= |s| && Blanks(s, p) < |s| && s[Blanks(s, p)] != ']' && s[Blanks(s, p)] != '}'
    ensures ValueStart(item, p) <= |s|
    ensures if item.key.Key? then KeyRead(s, p) == Some(ValueStart(item, p)) else ValueStart(item, p) == p
  {
    hide At, LooseString, Blanks, StringRead, Render;
    ItemValue(item, s, p);
    if item.key.Key? {
      KeyOver(item, s, p);
    } else {
      NotBlank(item.value, s, ValuePlace(item, p));
    }
  }

  lemma FullOver(v: Value, s: string, p: nat)
    requires v.Container? && v.items != [] && Shaped(v) && Opens(v) && At(s, p, Render(v))
    ensures p < |s| && s[p] == Open(v.isObject) && Eaten(s, p + 1, Close(v.isObject)) == None
    ensures At(s, p + 1, RenderItems(v.items) + [Close(v.endsObject)])
    ensures |Render(v)| == |RenderItems(v.items)| + 2 && ValueStart(v.items[0], p + 1) <= |s|
    ensures v.isObject ==> KeyRead(s, p + 1) == Some(ValueStart(v.items[0], p + 1))
    ensures !v.isObject ==> ValueStart(v.items[0], p + 1) == p + 1
  {
    hide At, Blanks, KeyRead, Render, RenderItems, RenderItem, ShapedItem;
    ContainerOver(v, s, p);
    assert ShapedItem(v.items[0]);
    ItemFirst(v.items[0], s, p + 1);
  }

  lemma ContainerRender(v: Value)
    requires v.Container? && v.items != []
    ensures Render(v) == [Open(v.isObject)] + (RenderItems(v.items) + [Close(v.endsObject)])
  {}

  lemma FirstItem(items: seq<Item>, s: string, p: nat)
    requires items != [] && At(s, p, RenderItems(items))
    ensures At(s, p, RenderItem(items[0]))
  {
    hide RenderItem, At;
    if |items| > 1 {
      assert RenderItems(items) == RenderItem(items[0]) + ([','] + RenderItems(items[1..]));
      AtBoth(s, p, RenderItem(items[0]), [','] + RenderItems(items[1..]));
    }
  }

  lemma {:induction false} SkipsItems(items: seq<Item>, endsObject: bool, s: string, p: nat, d: nat, mode: Mode)
    requires items != [] && d > 0 && forall i :: 0 <= i < |items| ==> ShapedItem(items[i]) && OpensItem(items[i])
    requires At(s, p, RenderItems(items) + [Close(endsObject)])
    ensures ValueStart(items[0], p) <= |s| && p + |RenderItems(items)| + 1 <= |s|
    ensures AtValue(s, ValueStart(items[0], p), d, mode) ==
      if FitsItems(items, d, mode) then AfterValue(s, p + |RenderItems(items)| + 1, d - 1, mode) else None
    decreases items, 0
  {
    hide At, Render, Fits, Blanks, AtValue, AfterComma, ShapedItem, RenderItem, RenderItems, ValueStart, Opens;
    hide NumberStops, AfterValue, FitsItems;
    var item := items[0];
    FitsFirst(items, d, mode);
    AtInside(s, p, RenderItems(items) + [Close(endsObject)]);
    ItemEnd(items, endsObject, s, p);
    ItemParts(item, s, p);
    ValueAgain(s, ValueStart(item, p), d, mode);
    assert OpensItem(item);
    SkipsValue(item.value, s, ValuePlace(item, p), d, mode);
    AfterItem(s, ValuePlace(item, p) + |Render(item.value)|, d, mode);
    if |items| > 1 {
      var next := p + |RenderItem(item)| + 1;
      SkipsItems(items[1..], endsObject, s, next, d, mode);
      ItemEnd(items[1..], endsObject, s, next);
      CommaOver(items[1], s, next);
    }
  }

  lemma FitsFirst(items: seq<Item>, d: nat, mode: Mode)
    requires items != []
    ensures FitsItems(items, d, mode) <==>
      Fits(items[0].value, d, mode) && (|items| > 1 ==> FitsItems(items[1..], d, mode))
  {
    hide Fits;
  }

  /** After a value inside a container: a comma and another item, or the bracket that ends it. */
  lemma AfterItem(s: string, p: nat, d: nat, mode: Mode)
    requires p <= |s| && d > 0 && Blanks(s, p) < |s|
    requires var c := s[Blanks(s, p)]; c == ',' || c == '}' || c == ']'
    ensures var end := Blanks(s, p);
      AfterValue(s, p, d, mode) ==
        if s[end] == ',' then AtValue(s, AfterComma(s, end + 1), d, mode) else AfterValue(s, end + 1, d - 1, mode)
  {
    hide AtValue, AfterComma, Blanks;
  }

  lemma ItemParts(item: Item, s: string, p: nat)
    requires ShapedItem(item) && At(s, p, RenderItem(item)) && ItemEnds(item, s, p)
    ensures ValueStart(item, p) <= |s| && Blanks(s, ValueStart(item, p)) == ValuePlace(item, p)
    ensures Shaped(item.value) && At(s, ValuePlace(item, p), Render(item.value))
    ensures NumberStops(item.value, s, ValuePlace(item, p))
    ensures var after := ValuePlace(item, p) + |Render(item.value)|;
      after <= |s| && Blanks(s, after) == p + |RenderItem(item)|
  {
    hide At, Render, Blanks;
    ItemValue(item, s, p);
    TrailStops(item, s, ValuePlace(item, p) + |Render(item.value)|, p + |RenderItem(item)|);
    if item.value.Token? {
      TokenRender(item.value);
    }
  }

  /** Nothing but blanks, then the comma or the bracket. */
  lemma TrailStops(item: Item, s: string, after: nat, end: nat)
    requires Blank(item.trail) && At(s, after, item.trail) && end == after + |item.trail| < |s|
    requires s[end] == ',' || s[end] == ']' || s[end] == '}'
    ensures Stops(s, after) && Blanks(s, after) == end
  {
    BlanksOver(s, after, item.trail);
    if |item.trail| > 0 {
      assert s[after..end][0] == s[after];
    }
  }

  lemma ItemEnd(items: seq<Item>, endsObject: bool, s: string, p: nat)
    requires items != [] && At(s, p, RenderItems(items) + [Close(endsObject)])
    ensures p + |RenderItems(items)| < |s|
    ensures At(s, p, RenderItem(items[0])) && ItemEnds(items[0], s, p)
    ensures s[p + |RenderItem(items[0])|] == if |items| > 1 then ',' else Close(endsObject)
    ensures |items| > 1 ==> At(s, p + |RenderItem(items[0])| + 1, RenderItems(items[1..]) + [Close(endsObject)])
    ensures |RenderItems(items)| == |RenderItem(items[0])| + if |items| > 1 then 1 + |RenderItems(items[1..])| else 0
  {
    hide At, RenderItem, RenderItems;
    AtInside(s, p, RenderItems(items) + [Close(endsObject)]);
    ItemsRender(items);
    var first := RenderItem(items[0]);
    if |items| > 1 {
      var rest := RenderItems(items[1..]);
      Reassociate(first, [','], rest, [Close(endsObject)]);
      AtBoth(s, p, first, [','] + (rest + [Close(endsObject)]));
      AtBoth(s, p + |first|, [','], rest + [Close(endsObject)]);
      AtChar(s, p + |first|, ',');
    } else {
      AtBoth(s, p, first, [Close(endsObject)]);
      AtChar(s, p + |first|, Close(endsObject));
    }
  }

  lemma Reassociate(a: string, b: string, c: string, d: string)
    ensures a + b + c + d == a + (b + (c + d))
  {}

  lemma ItemsRender(items: seq<Item>)
    requires items != []
    ensures RenderItems(items) ==
      if |items| == 1 then RenderItem(items[0]) else RenderItem(items[0]) + [','] + RenderItems(items[1..])
  {}

  /** After a comma: past the key if there is one; a string that is no key is left where it was. */
  lemma CommaOver(item: Item, s: string, p: nat)
    requires ShapedItem(item) && At(s, p, RenderItem(item)) && ItemEnds(item, s, p)
    ensures p <= |s| && AfterComma(s, p) == ValueStart(item, p)
  {
    hide At, ShapedItem, ItemEnds, KeyRead;
    ItemKey(item, s, p);
  }

  // ----- the result

  lemma {:induction false} FitsExactly(v: Value, d: nat, mode: Mode)
    requires d <= MAX_DEPTH
    ensures Fits(v, d, mode) <==> d + Nesting(v) <= MAX_DEPTH && Numbers(v, t => Short(t, mode))
    decreases v, 1
  {
    match v
    case Token(text) =>
    case Container(_, _, items, _) =>
      if d + 1 <= MAX_DEPTH {
        FitsItemsExactly(items, d + 1, mode);
      }
  }

  lemma {:induction false} FitsItemsExactly(items: seq<Item>, d: nat, mode: Mode)
    requires d <= MAX_DEPTH
    ensures FitsItems(items, d, mode) <==>
      d + NestingItems(items) <= MAX_DEPTH && forall i :: 0 <= i < |items| ==>
        NumbersItem(items[i], t => Short(t, mode))
    decreases items, 0
  {
    if items != [] {
      FitsExactly(items[0].value, d, mode);
      FitsItemsExactly(items[1..], d, mode);
      assert items == [items[0]] + items[1..];
    }
  }

  /** The reader's limits: nested at most 64 deep, each number at most 39 characters and, unless lenient, finite. */
  ghost predicate Within(v: Value, mode: Mode) {
    Nesting(v) <= MAX_DEPTH && Numbers(v, t => Short(t, mode))
  }

  /** Every loose value is passed over to its very end, exactly when it is within the limits. */
  lemma SkipsLoose(v: Value, s: string, p: nat, mode: Mode)
    requires Shaped(v) && Opens(v) && At(s, p, Render(v)) && NumberStops(v, s, p)
    ensures p <= |s| && AtValue(s, p, 0, mode) == if Within(v, mode) then Some(p + |Render(v)|) else None
  {
    hide Render, Shaped, Opens, AtValue, Fits, At, NumberStops;
    SkipsValue(v, s, p, 0, mode);
    FitsExactly(v, 0, mode);
  }

  /** Every well-formed value is passed over to its very end, exactly when it is within the limits. */
  lemma SkipsWellFormed(v: Value, before: string, behind: string, mode: Mode)
    requires WellFormed(v) && (behind == "" || !NumberChar(behind[0]))
    ensures var text := before + Render(v) + behind;
      AtValue(text, |before|, 0, mode) == if Within(v, mode) then Some(|before| + |Render(v)|) else None
  {
    hide Render, WellFormed, AtValue, Within, Shaped, Opens, Strict, NumberRun;
    var text := before + Render(v) + behind;
    assert text[|before|..|before| + |Render(v)|] == Render(v);
    WellFormedIsStrict(v);
    StrictOpens(v);
    if v.Token? {
      TokenRender(v);
    }
    SkipsLoose(v, text, |before|, mode);
  }
}
