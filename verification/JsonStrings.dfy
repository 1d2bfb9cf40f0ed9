/** What strings denote: what the writer escapes is denoted by what it writes, and the reader's value is what was
    denoted. */
module JsonStrings {
  import opened JsonGrammar
  import opened JsonReader
  import JsonLanguage
  import JsonWriter
  import opened Options

  // ----- the writer

  lemma EscapeDenotes(c: char, rest: string)
    ensures Denoted(JsonWriter.Escaped(c) + rest) == [c as nat] + Denoted(rest)
  {
    var piece := JsonWriter.Escaped(c);
    assert (piece + rest)[|piece|..] == rest;
    if |piece| == 6 {
      DigitDenotes(c as nat / 16);
      DigitDenotes(c as nat % 16);
      assert Unit(piece[2], piece[3], piece[4], piece[5]) == c as nat;
    }
  }

  lemma DigitDenotes(n: nat)
    requires n < 16
    ensures HexValue(JsonWriter.HexDigitOf(n)) == n
  {}

  /** What is written denotes the string it was written for. */
  lemma {:induction false} EscapedDenotes(s: string)
    ensures StringBody(JsonWriter.EscapedAll(s)) && Denoted(JsonWriter.EscapedAll(s)) == Codes(s)
  {
    hide JsonWriter.Escaped, Denoted, StringBody;
    JsonWriter.EscapedIsBody(s);
    if s == "" {
      NothingDenoted();
    } else {
      EscapeDenotes(s[0], JsonWriter.EscapedAll(s[1..]));
      EscapedDenotes(s[1..]);
    }
  }

  lemma NothingDenoted()
    ensures Denoted("") == []
  {}

  // ----- the reader

  predicate Printable(codes: seq<nat>) {
    forall i :: 0 <= i < |codes| ==> 0x20 <= codes[i] < 0x7F
  }

  /** What the body of a string read from p denotes. */
  function Value(s: string, p: nat): seq<nat>
    requires p <= |s| && StringRead(s, p).Some?
  {
    Rest(s, Blanks(s, p) + 1)
  }

  /** What is still to be read of it. */
  function Rest(s: string, p: nat): seq<nat>
    requires p <= |s| && StringEnd(s, p).Some?
  {
    Denoted(s[p..StringEnd(s, p).value - 1])
  }

  /** The code of the character or escape at p, and where the next one is. */
  function CodeAt(s: string, p: nat): (r: (nat, nat))
    requires p < |s| && StringEnd(s, p).Some? && s[p] != '"'
    ensures p < r.1 <= |s|
  {
    if s[p] != '\\' then (s[p] as nat, p + 1)
    else if s[p + 1] != 'u' then (EscapeCode(s[p + 1]), p + 2)
    else
      JsonLanguage.HexReads(s, p + 2);
      (Unit(s[p + 2], s[p + 3], s[p + 4], s[p + 5]), p + 6)
  }

  lemma EndStep(s: string, p: nat)
    requires p < |s| && StringEnd(s, p).Some? && s[p] != '"'
    ensures StringEnd(s, CodeAt(s, p).1) == StringEnd(s, p)
  {
    hide Unit, Hex, EscapeCode;
    if s[p] == '\\' && s[p + 1] == 'u' {
      JsonLanguage.HexReads(s, p + 2);
      FourDigits(s, p + 2);
    }
  }

  lemma RestStep(s: string, p: nat)
    requires p < |s| && StringEnd(s, p).Some? && s[p] != '"'
    ensures var (code, next) := CodeAt(s, p);
      StringEnd(s, next) == StringEnd(s, p) && Rest(s, p) == [code] + Rest(s, next)
  {
    hide Unit, EscapeCode, Denoted, StringEnd;
    EndStep(s, p);
    var e, next := StringEnd(s, p).value, CodeAt(s, p).1;
    var body := s[p..e - 1];
    assert body[next - p..] == s[next..e - 1];
    if s[p] == '\\' {
      EscapeAt(s, p);
    }
    DenotedFirst(body, next - p);
  }

  lemma EscapeAt(s: string, p: nat)
    requires p < |s| && StringEnd(s, p).Some? && s[p] == '\\'
    ensures p + 1 < |s|
  {}

  lemma DenotedFirst(body: string, n: nat)
    requires body != "" && n <= |body|
    requires n == if body[0] != '\\' then 1 else if |body| > 1 && body[1] == 'u' then 6 else 2
    ensures Denoted(body) ==
      [if n == 1 then body[0] as nat else if n == 2 then EscapeCode(body[1])
       else Unit(body[2], body[3], body[4], body[5])] + Denoted(body[n..])
  {}

  /** The codes of the eight escapes, by place. */
  function Unescaped(e: char): (r: Option<char>)
    ensures r.Some? <==> Escapable(e)
    ensures r.Some? ==> r.value as nat == EscapeCode(e)
  {
    if e == '"' then Some('"') else if e == '\\' then Some('\\') else if e == '/' then Some('/')
    else if e == 'b' then Some('\U{08}') else if e == 'f' then Some('\U{0C}')
    else if e == 'n' then Some('\n') else if e == 'r' then Some('\r') else if e == 't' then Some('\t')
    else None
  }

  /** What has been stored, and what is to come. */
  ghost predicate Storing(text: string, body: nat, p: nat, stored: string) {
    && body <= |text| && p <= |text| && StringEnd(text, p) == StringEnd(text, body)
    && Printable(Codes(stored))
    && (StringEnd(text, p).Some? ==> Rest(text, body) == Codes(stored) + Rest(text, p))
  }

  lemma StoreNothing(text: string, body: nat)
    requires body <= |text|
    ensures Storing(text, body, body, "")
  {
    hide Rest;
  }

  /** A character or escape that reads as code c, with more from next on. */
  ghost predicate Piece(text: string, p: nat, code: nat, next: nat) {
    && p < next <= |text| && text[p] != '"' && text[p] >= ' '
    && if text[p] != '\\' then next == p + 1 && code == text[p] as nat
       else p + 1 < |text| &&
            if text[p + 1] != 'u' then Escapable(text[p + 1]) && next == p + 2 && code == EscapeCode(text[p + 1])
            else Hex(text, p + 2, 4, 0) == Some(next) && next == p + 6 &&
                 code == Unit(text[p + 2], text[p + 3], text[p + 4], text[p + 5])
  }

  lemma PieceRead(text: string, p: nat, code: nat, next: nat)
    requires Piece(text, p, code, next)
    ensures StringEnd(text, next) == StringEnd(text, p)
    ensures StringEnd(text, p).Some? ==> CodeAt(text, p) == (code, next)
  {
    hide Unit, Hex, EscapeCode;
  }

  lemma StoreOne(text: string, body: nat, p: nat, stored: string, c: char, next: nat)
    requires Storing(text, body, p, stored) && Piece(text, p, c as nat, next) && 0x20 <= c as nat < 0x7F
    ensures Storing(text, body, next, stored + [c])
  {
    hide StringEnd, Rest, CodeAt;
    PieceRead(text, p, c as nat, next);
    assert Codes(stored + [c]) == Codes(stored) + [c as nat];
    if StringEnd(text, p).Some? {
      hide Piece;
      RestStep(text, p);
      assert Codes(stored) + ([c as nat] + Rest(text, next)) == Codes(stored) + [c as nat] + Rest(text, next);
    }
  }

  /** A code that does not print, or finds no room, refuses the whole string. */
  lemma StoreNone(text: string, body: nat, p: nat, stored: string, code: nat, next: nat, cap: nat)
    requires Storing(text, body, p, stored) && Piece(text, p, code, next)
    requires !(0x20 <= code < 0x7F) || |stored| + 1 >= cap
    ensures Refusing(text, body, cap)
  {
    hide StringEnd, Rest, CodeAt;
    PieceRead(text, p, code, next);
    if StringEnd(text, p).Some? {
      hide Piece;
      RestStep(text, p);
      assert Rest(text, body)[|stored|] == code;
    }
  }

  ghost predicate Refusing(text: string, body: nat, cap: nat) {
    body <= |text| &&
    (StringEnd(text, body).Some? ==> !(Printable(Rest(text, body)) && |Rest(text, body)| < cap))
  }

  /** No string goes on here. */
  lemma StoreBroken(text: string, body: nat, p: nat, stored: string, cap: nat)
    requires Storing(text, body, p, stored)
    requires p < |text| && text[p] >= ' ' ==> text[p] == '\\'
    requires p + 1 < |text| && text[p] >= ' ' ==>
      if text[p + 1] == 'u' then Hex(text, p + 2, 4, 0).None? else !Escapable(text[p + 1])
    ensures Refusing(text, body, cap)
  {
    hide Hex, Rest;
  }

  lemma StoredAll(text: string, body: nat, p: nat, stored: string)
    requires Storing(text, body, p, stored) && p < |text| && text[p] == '"'
    ensures StringEnd(text, body) == Some(p + 1) && Rest(text, body) == Codes(stored) && Printable(Rest(text, body))
  {
    assert Codes(stored) + [] == Codes(stored);
  }

  /** Reads a string into a buffer: accepted exactly when everything it denotes is printable and fits with its NUL. */
  method StringInto(r: Reader, out: array<char>) returns (ok: bool)
    requires r.Valid() && out.Length > 0
    modifies r, out
    ensures r.Valid()
    ensures ok <==> Readable(r.text, old(r.p), out.Length)
    ensures ok ==> r.p == StringRead(r.text, old(r.p)).value
    ensures ok ==>
      var n := |Value(r.text, old(r.p))|;
      Codes(out[..n]) == Value(r.text, old(r.p)) && out[n] == '\0'
    ensures '\0' in out[..]
  {
    hide StringRead, Value, Printable;
    var n;
    ok, n := StringBodyInto(r, out);
    if !ok {
      out[n] := '\0';
    }
    assert out[..][n] == '\0';
  }

  /** A string whose value is printable and leaves room for a NUL. */
  predicate Readable(s: string, p: nat, cap: nat)
    requires p <= |s|
  {
    StringRead(s, p).Some? && Printable(Value(s, p)) && |Value(s, p)| < cap
  }

  method StringBodyInto(r: Reader, out: array<char>) returns (ok: bool, n: nat)
    requires r.Valid() && out.Length > 0
    modifies r, out
    ensures r.Valid() && n < out.Length
    ensures ok <==> Readable(r.text, old(r.p), out.Length)
    ensures ok ==> r.p == StringRead(r.text, old(r.p)).value
    ensures ok ==> n == |Value(r.text, old(r.p))| && Codes(out[..n]) == Value(r.text, old(r.p)) && out[n] == '\0'
  {
    hide StringEnd, Rest, CodeAt, Storing, Unit, Hex, EscapeCode, Unescaped, Escapable, Printable;
    n := 0;
    var quoted := r.Eat('"');
    if !quoted {
      return false, 0;
    }
    ghost var body := r.p;
    StoreNothing(r.text, body);
    assert out[..0] == "";
    while r.p < |r.text|
      invariant r.Valid() && n < out.Length && Storing(r.text, body, r.p, out[..n])
      decreases |r.text| - r.p
    {
      ghost var at, stored := r.p, out[..n];
      var c := r.text[r.p];
      r.p := r.p + 1;
      if c == '"' {
        out[n] := '\0';
        StoredAll(r.text, body, at, stored);
        return true, n;
      }
      if c < ' ' {
        StoreBroken(r.text, body, at, stored, out.Length);
        return false, n;
      }
      ghost var code := c as nat;
      if c == '\\' {
        if r.p >= |r.text| {
          StoreBroken(r.text, body, at, stored, out.Length);
          return false, n;
        }
        var e := r.text[r.p];
        r.p := r.p + 1;
        if e == 'u' {
          var hex, v := r.FourHex();
          if !hex {
            StoreBroken(r.text, body, at, stored, out.Length);
            return false, n;
          }
          code := v;
          c := if 0x20 <= v < 0x7F then v as char else '\0';
        } else {
          var found := Unescaped(e);
          if found.None? {
            StoreBroken(r.text, body, at, stored, out.Length);
            return false, n;
          }
          c := found.value;
          code := EscapeCode(e);
        }
      }
      assert Piece(r.text, at, code, r.p);
      if c as nat < 0x20 || c as nat >= 0x7F || n + 1 >= out.Length {
        StoreNone(r.text, body, at, stored, code, r.p, out.Length);
        return false, n;
      }
      StoreOne(r.text, body, at, stored, c, r.p);
      out[n] := c;
      n := n + 1;
      assert out[..n] == stored + [c];
    }
    StoreBroken(r.text, body, r.p, out[..n], out.Length);
    ok := false;
  }

  // ----- the writer's strings are the reader's

  /** The reader gets back what the writer wrote, or refuses it exactly when something in it does not print or it does
      not fit. */
  lemma WrittenIsRead(s: string, before: string, after: string, cap: nat)
    ensures var text := before + JsonWriter.Quoted(s) + after;
      && StringRead(text, |before|) == Some(|before + JsonWriter.Quoted(s)|) && Value(text, |before|) == Codes(s)
      && (Readable(text, |before|, cap) <==> Printable(Codes(s)) && |s| < cap)
  {
    hide StringEnd, Denoted, LooseBody, JsonWriter.EscapedAll;
    var body := JsonWriter.EscapedAll(s);
    var text := before + JsonWriter.Quoted(s) + after;
    var p := |before|;
    assert text[p] == '"' && !IsWs('"');
    assert text[p + 1..p + 1 + |body|] == body && text[p + 1 + |body|] == '"';
    EscapedDenotes(s);
    BodyIsStrict(body);
    StringOver(text, p + 1, body);
  }
}
