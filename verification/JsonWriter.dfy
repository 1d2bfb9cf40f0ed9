/** The bounded JSON writer: refuses what does not fit, keeps room to close every level, and always closes right. */
module JsonWriter {
  import opened JsonGrammar
  import JsonLanguage
  import JsonReader
  import opened Options

  const RESERVE := 20
  const MAX_OPEN := 15

  // ----- escaped strings

  function HexDigitOf(n: nat): char
    requires n < 16
  {
    "0123456789abcdef"[n]
  }

  /** One character as it is written. */
  function Escaped(c: char): (r: string)
    ensures 1 <= |r| <= 6
  {
    if c == '"' || c == '\\' then ['\\', c]
    else if c < ' ' then ['\\', 'u', '0', '0', HexDigitOf(c as nat / 16), HexDigitOf(c as nat % 16)]
    else [c]
  }

  function EscapedAll(s: string): string {
    if s == "" then "" else Escaped(s[0]) + EscapedAll(s[1..])
  }

  function Quoted(s: string): string { ['"'] + EscapedAll(s) + ['"'] }

  lemma EscapedNext(s: string, i: nat)
    requires i <= |s|
    ensures EscapedAll(s[i..]) == if i == |s| then "" else Escaped(s[i]) + EscapedAll(s[i + 1..])
  {
    if i < |s| {
      assert s[i..][1..] == s[i + 1..];
    }
  }

  /** Escaping always makes a string token. */
  lemma QuotedIsToken(s: string)
    ensures StringToken(Quoted(s))
  {
    EscapedIsBody(s);
    assert Quoted(s)[1..|Quoted(s)| - 1] == EscapedAll(s);
  }

  lemma {:induction false} EscapedIsBody(s: string)
    ensures StringBody(EscapedAll(s))
  {
    if s != "" {
      EscapedIsBody(s[1..]);
      BodyGrows(s[0], EscapedAll(s[1..]));
    }
  }

  lemma BodyGrows(c: char, rest: string)
    requires StringBody(rest)
    ensures StringBody(Escaped(c) + rest)
  {
    var piece := Escaped(c);
    assert (piece + rest)[|piece|..] == rest;
    if |piece| == 6 {
      HexDigits(c as nat / 16);
      HexDigits(c as nat % 16);
    }
  }

  lemma HexDigits(n: nat)
    requires n < 16
    ensures HexDigit(HexDigitOf(n))
  {}

  /** What was written can be read back: different strings are written differently. */
  lemma {:induction false} EscapedInjective(s: string, t: string)
    requires EscapedAll(s) == EscapedAll(t)
    ensures s == t
  {
    if s != "" && t != "" {
      assert EscapedAll(s)[0] == Escaped(s[0])[0] && EscapedAll(t)[0] == Escaped(t[0])[0];
      FirstEscape(s[0], t[0], EscapedAll(s[1..]), EscapedAll(t[1..]));
      EscapedInjective(s[1..], t[1..]);
      assert s == [s[0]] + s[1..] && t == [t[0]] + t[1..];
    }
  }

  lemma FirstEscape(a: char, b: char, restA: string, restB: string)
    requires Escaped(a) + restA == Escaped(b) + restB
    ensures a == b && restA == restB
  {
    var s, t := Escaped(a) + restA, Escaped(b) + restB;
    assert s[0] == Escaped(a)[0] && t[0] == Escaped(b)[0];
    if |Escaped(a)| > 1 {
      assert s[1] == Escaped(a)[1] && t[1] == Escaped(b)[1];
      if |Escaped(a)| == 6 {
        assert s[4] == Escaped(a)[4] && t[4] == Escaped(b)[4];
        assert s[5] == Escaped(a)[5] && t[5] == Escaped(b)[5];
        HexInjective(a as nat / 16, b as nat / 16);
        HexInjective(a as nat % 16, b as nat % 16);
        assert a as nat == b as nat;
      }
    }
    assert restA == s[|Escaped(a)|..] && restB == t[|Escaped(b)|..];
  }

  lemma HexInjective(m: nat, n: nat)
    requires m < 16 && n < 16 && HexDigitOf(m) == HexDigitOf(n)
    ensures m == n
  {}

  // ----- the document being written

  /** An open container: its bracket, its key in the one around it, and what it holds so far. */
  datatype Level = Level(isObject: bool, key: Key, items: seq<Item>)

  function KeyOf(key: Option<string>): Key {
    match key case None => NoKey case Some(k) => Key(Quoted(k), "", "")
  }

  function Compact(key: Key, v: Value): Item { Item("", key, v, "") }

  function Comma(items: seq<Item>): string { if items == [] then "" else [','] }

  /** The text of the open levels, outermost first. */
  function Text(doc: seq<Level>): string
    requires doc != []
  {
    var top := doc[|doc| - 1];
    (if |doc| == 1 then "" else Text(doc[..|doc| - 1]) + Comma(doc[|doc| - 2].items) + RenderKey(top.key))
    + [Open(top.isObject)] + RenderItems(top.items)
  }

  function Added(doc: seq<Level>, item: Item): seq<Level>
    requires doc != []
  {
    var n := |doc| - 1;
    doc[n := doc[n].(items := doc[n].items + [item])]
  }

  function Opened(doc: seq<Level>, isObject: bool, key: Key): seq<Level> { doc + [Level(isObject, key, [])] }

  function Whole(level: Level): Value { Container(level.isObject, "", level.items, level.isObject) }

  function Closed(doc: seq<Level>): seq<Level>
    requires |doc| > 1
  {
    var n := |doc| - 1;
    Added(doc[..n], Compact(doc[n].key, Whole(doc[n])))
  }

  /** The document as it would be if every level were closed now. */
  function Root(doc: seq<Level>): Value
    requires doc != []
    decreases |doc|
  {
    if |doc| == 1 then Whole(doc[0]) else Root(Closed(doc))
  }

  lemma {:induction false} RenderAdded(items: seq<Item>, item: Item)
    ensures RenderItems(items + [item]) == RenderItems(items) + Comma(items) + RenderItem(item)
  {
    hide RenderItem;
    var both := items + [item];
    if |items| > 1 {
      RenderAdded(items[1..], item);
      assert both[1..] == items[1..] + [item];
      ItemsStep(both);
      ItemsStep(items);
      Regroup(RenderItem(items[0]) + [','], RenderItems(items[1..]), [','], RenderItem(item), "");
    } else if |items| == 1 {
      assert both[1..] == [item];
      ItemsStep(both);
    }
  }

  lemma ItemsStep(items: seq<Item>)
    requires |items| > 1
    ensures RenderItems(items) == RenderItem(items[0]) + [','] + RenderItems(items[1..])
  {}

  lemma TextAdded(doc: seq<Level>, item: Item)
    requires doc != []
    ensures Text(Added(doc, item)) == Text(doc) + Comma(doc[|doc| - 1].items) + RenderItem(item)
  {
    hide RenderItems, RenderItem, RenderKey, Comma, Text;
    var n := |doc| - 1;
    var doc' := Added(doc, item);
    assert doc'[..n] == doc[..n];
    RenderAdded(doc[n].items, item);
    TextAround(doc);
    TextAround(doc');
    Joined(Around(doc) + [Open(doc[n].isObject)], RenderItems(doc[n].items), Comma(doc[n].items), RenderItem(item));
  }

  /** The text before the innermost bracket. */
  function Around(doc: seq<Level>): string
    requires doc != []
  {
    var n := |doc| - 1;
    if n == 0 then "" else Text(doc[..n]) + Comma(doc[n - 1].items) + RenderKey(doc[n].key)
  }

  lemma TextAround(doc: seq<Level>)
    requires doc != []
    ensures Text(doc) == Around(doc) + [Open(doc[|doc| - 1].isObject)] + RenderItems(doc[|doc| - 1].items)
  {
    hide RenderItems, RenderKey, Comma;
  }

  lemma Joined(a: string, b: string, c: string, d: string)
    ensures a + (b + c + d) == a + b + c + d
  {}

  lemma TextOpened(doc: seq<Level>, isObject: bool, key: Key)
    requires doc != []
    ensures Text(Opened(doc, isObject, key)) ==
      Text(doc) + Comma(doc[|doc| - 1].items) + RenderKey(key) + [Open(isObject)]
  {
    assert Opened(doc, isObject, key)[..|doc|] == doc;
  }

  lemma TextClosed(doc: seq<Level>)
    requires |doc| > 1
    ensures Text(Closed(doc)) == Text(doc) + [Close(doc[|doc| - 1].isObject)]
  {
    hide *;
    var n := |doc| - 1;
    var top, below := doc[n], doc[..n];
    ClosedIsAdded(doc);
    TextAdded(below, Compact(top.key, Whole(top)));
    RenderWhole(top);
    TextInside(doc);
    Regroup(Text(below) + Comma(doc[n - 1].items), RenderKey(top.key), [Open(top.isObject)], RenderItems(top.items),
      [Close(top.isObject)]);
  }

  lemma ClosedIsAdded(doc: seq<Level>)
    requires |doc| > 1
    ensures Closed(doc) == Added(doc[..|doc| - 1], Compact(doc[|doc| - 1].key, Whole(doc[|doc| - 1])))
  {}

  lemma TextInside(doc: seq<Level>)
    requires |doc| > 1
    ensures var n := |doc| - 1;
      Text(doc) == Text(doc[..n]) + Comma(doc[n - 1].items) + RenderKey(doc[n].key) + [Open(doc[n].isObject)] +
        RenderItems(doc[n].items)
  {}

  lemma Regroup(a: string, b: string, c: string, d: string, e: string)
    ensures a + (b + c + d + e) == a + b + c + d + e
  {}

  lemma RenderWhole(top: Level)
    ensures RenderItem(Compact(top.key, Whole(top))) ==
      RenderKey(top.key) + [Open(top.isObject)] + RenderItems(top.items) + [Close(top.isObject)]
  {
    var v := Whole(top);
    assert Render(v) == [Open(top.isObject)] + RenderItems(top.items) + [Close(top.isObject)];
  }

  // ----- calls, and what a run of them leaves

  datatype Call =
    | OpenCall(isObject: bool, key: Option<string>)
    | CloseCall
    | PutCall(key: Option<string>, text: string)

  datatype State = State(ok: bool, doc: seq<Level>)

  function Start(cap: nat): State { State(cap > RESERVE + 2, [Level(true, NoKey, [])]) }

  function Needed(doc: seq<Level>, key: Option<string>, length: nat): nat
    requires doc != []
  {
    |Comma(doc[|doc| - 1].items)| + |RenderKey(KeyOf(key))| + length
  }

  predicate Room(cap: nat, st: State, need: nat)
    requires st.doc != []
  {
    st.ok && |Text(st.doc)| + need + RESERVE < cap
  }

  predicate Refused(cap: nat, st: State, call: Call)
    requires st.doc != []
  {
    match call
    case OpenCall(_, key) => |st.doc| - 1 >= MAX_OPEN || !Room(cap, st, Needed(st.doc, key, 1))
    case CloseCall => false
    case PutCall(key, text) => !Room(cap, st, Needed(st.doc, key, |text|))
  }

  /** What a call does to a document that never runs out of room. */
  function Effect(doc: seq<Level>, call: Call): (r: seq<Level>)
    requires doc != []
    ensures r != []
  {
    match call
    case OpenCall(isObject, key) => Opened(doc, isObject, KeyOf(key))
    case CloseCall => if |doc| > 1 then Closed(doc) else doc
    case PutCall(key, text) => Added(doc, Compact(KeyOf(key), Token(text)))
  }

  function Step(cap: nat, st: State, call: Call): (r: State)
    requires st.doc != []
    ensures r.doc != []
  {
    if Refused(cap, st, call) then State(false, st.doc) else State(st.ok, Effect(st.doc, call))
  }

  function Run(cap: nat, calls: seq<Call>): (r: State)
    ensures r.doc != []
  {
    if calls == [] then Start(cap) else Step(cap, Run(cap, calls[..|calls| - 1]), calls[|calls| - 1])
  }

  function Ideal(calls: seq<Call>): (r: seq<Level>)
    ensures r != []
  {
    if calls == [] then Start(0).doc else Effect(Ideal(calls[..|calls| - 1]), calls[|calls| - 1])
  }

  /** Once something was refused, only closes act, and they do not change the document. */
  lemma AfterRefusal(cap: nat, st: State, call: Call)
    requires st.doc != [] && !st.ok
    ensures !Step(cap, st, call).ok && Root(Step(cap, st, call).doc) == Root(st.doc)
  {}

  lemma StartIsFine(cap: nat)
    requires cap > RESERVE + 2
    ensures Start(cap) == State(true, Start(0).doc)
  {}

  /** The finished document holds exactly the calls before the first refused one, however the later ones go. */
  lemma {:induction false} HoldsUpToRefusal(cap: nat, calls: seq<Call>) returns (k: nat)
    requires cap > RESERVE + 2
    ensures k <= |calls| && Root(Run(cap, calls).doc) == Root(Ideal(calls[..k]))
    ensures Run(cap, calls[..k]) == State(true, Ideal(calls[..k]))
    ensures Run(cap, calls).ok <==> k == |calls|
    ensures k < |calls| ==> Refused(cap, Run(cap, calls[..k]), calls[k])
  {
    hide Root, Effect, Refused, Start;
    if calls == [] {
      k := 0;
      StartIsFine(cap);
    } else {
      var n := |calls| - 1;
      var init, call := calls[..n], calls[n];
      k := HoldsUpToRefusal(cap, init);
      assert calls[..n + 1] == calls && calls[..k] == init[..k];
      if k < n {
        AfterRefusal(cap, Run(cap, init), call);
      } else {
        assert init[..k] == init;
        if !Refused(cap, Run(cap, init), call) {
          k := n + 1;
        }
      }
    }
  }

  // ----- key discipline

  /** Members of objects have keys and elements of arrays do not; every value put is a token. */
  ghost predicate Disciplined(doc: seq<Level>) {
    && doc != [] && doc[0].isObject && doc[0].key == NoKey
    && (forall i :: 0 < i < |doc| ==> KeyFits(doc[i].key, doc[i - 1].isObject))
    && (forall i :: 0 <= i < |doc| ==> LevelWellFormed(doc[i]))
  }

  ghost predicate KeyFits(key: Key, isObject: bool) {
    if isObject then key.Key? && StringToken(key.name) && Blank(key.before) && Blank(key.after) else key.NoKey?
  }

  ghost predicate LevelWellFormed(level: Level) {
    forall i :: 0 <= i < |level.items| ==> WellFormedItem(level.items[i], level.isObject)
  }

  ghost predicate Obeys(doc: seq<Level>, call: Call)
    requires doc != []
  {
    match call
    case OpenCall(_, key) => key.Some? == doc[|doc| - 1].isObject
    case CloseCall => true
    case PutCall(key, text) =>
      key.Some? == doc[|doc| - 1].isObject &&
      (StringToken(text) || NumberToken(text) || Word(text))
  }

  /** Every call that is not refused keeps the discipline; what is refused leaves no trace. */
  ghost predicate RunObeys(cap: nat, calls: seq<Call>) {
    forall k :: 0 <= k < |calls| && !Refused(cap, Run(cap, calls[..k]), calls[k]) ==>
      Obeys(Run(cap, calls[..k]).doc, calls[k])
  }

  /** The innermost level and the ones around it. */
  lemma DisciplinedTop(doc: seq<Level>)
    requires |doc| > 1
    ensures var n := |doc| - 1;
      Disciplined(doc) <==> Disciplined(doc[..n]) && KeyFits(doc[n].key, doc[n - 1].isObject) && LevelWellFormed(doc[n])
  {
    hide KeyFits, LevelWellFormed;
    var n := |doc| - 1;
    var below := doc[..n];
    if Disciplined(doc) {
      forall i | 0 < i < n ensures KeyFits(below[i].key, below[i - 1].isObject) {
        assert KeyFits(doc[i].key, doc[i - 1].isObject);
      }
      assert KeyFits(doc[n].key, doc[n - 1].isObject);
    }
    if Disciplined(below) && KeyFits(doc[n].key, doc[n - 1].isObject) && LevelWellFormed(doc[n]) {
      forall i | 0 < i < |doc| ensures KeyFits(doc[i].key, doc[i - 1].isObject) {
        if i < n {
          assert KeyFits(below[i].key, below[i - 1].isObject);
        }
      }
      forall i | 0 <= i < |doc| ensures LevelWellFormed(doc[i]) {
        if i < n {
          assert LevelWellFormed(below[i]);
        }
      }
    }
  }

  lemma LevelAdded(level: Level, item: Item)
    ensures LevelWellFormed(level.(items := level.items + [item])) <==>
      LevelWellFormed(level) && WellFormedItem(item, level.isObject)
  {
    hide WellFormedItem;
    var more := level.items + [item];
    assert more[|level.items|] == item;
    assert forall i :: 0 <= i < |level.items| ==> more[i] == level.items[i];
  }

  lemma AddedDisciplined(doc: seq<Level>, item: Item)
    requires doc != []
    ensures Disciplined(Added(doc, item)) <==> Disciplined(doc) && WellFormedItem(item, doc[|doc| - 1].isObject)
  {
    hide WellFormedItem, KeyFits, LevelWellFormed;
    var n := |doc| - 1;
    LevelAdded(doc[n], item);
    if n > 0 {
      DisciplinedTop(doc);
      DisciplinedTop(Added(doc, item));
      assert Added(doc, item)[..n] == doc[..n];
    }
  }

  lemma WholeWellFormed(level: Level, isObject: bool)
    ensures WellFormedItem(Compact(level.key, Whole(level)), isObject) <==>
      KeyFits(level.key, isObject) && LevelWellFormed(level)
  {
    var v := Whole(level);
    assert WellFormed(v) <==> LevelWellFormed(level);
  }

  lemma ClosedDisciplined(doc: seq<Level>)
    requires |doc| > 1
    ensures Disciplined(Closed(doc)) <==> Disciplined(doc)
  {
    hide Disciplined, KeyFits, LevelWellFormed, WellFormedItem;
    var n := |doc| - 1;
    DisciplinedTop(doc);
    WholeWellFormed(doc[n], doc[n - 1].isObject);
    AddedDisciplined(doc[..n], Compact(doc[n].key, Whole(doc[n])));
  }

  lemma KeyOfFits(key: Option<string>, isObject: bool)
    ensures KeyFits(KeyOf(key), isObject) <==> key.Some? == isObject
  {
    if key.Some? {
      QuotedIsToken(key.value);
    }
  }

  lemma OpenedDisciplined(doc: seq<Level>, isObject: bool, key: Option<string>)
    requires doc != []
    ensures Disciplined(Opened(doc, isObject, KeyOf(key))) <==> Disciplined(doc) && key.Some? == doc[|doc| - 1].isObject
  {
    hide Disciplined, KeyFits;
    var doc' := Opened(doc, isObject, KeyOf(key));
    assert doc'[..|doc|] == doc;
    KeyOfFits(key, doc[|doc| - 1].isObject);
    DisciplinedTop(doc');
  }

  lemma PutWellFormed(key: Option<string>, text: string, isObject: bool)
    ensures WellFormedItem(Compact(KeyOf(key), Token(text)), isObject) <==>
      key.Some? == isObject && (StringToken(text) || NumberToken(text) || Word(text))
  {
    KeyOfFits(key, isObject);
  }

  /** A call keeps the discipline exactly when it obeys or is refused. */
  lemma StepDisciplined(cap: nat, st: State, call: Call)
    requires st.doc != []
    ensures Disciplined(Step(cap, st, call).doc) <==>
      Disciplined(st.doc) && (!Refused(cap, st, call) ==> Obeys(st.doc, call))
  {
    hide StringToken, NumberToken, Room, Disciplined, Opened, Added, Closed, WellFormedItem, KeyOf, Needed;
    match call
    case OpenCall(isObject, key) => OpenedDisciplined(st.doc, isObject, key);
    case CloseCall =>
      if |st.doc| > 1 {
        ClosedDisciplined(st.doc);
      }
    case PutCall(key, text) =>
      AddedDisciplined(st.doc, Compact(KeyOf(key), Token(text)));
      PutWellFormed(key, text, st.doc[|st.doc| - 1].isObject);
  }

  lemma {:induction false} RunDisciplined(cap: nat, calls: seq<Call>)
    ensures Disciplined(Run(cap, calls).doc) <==> RunObeys(cap, calls)
  {
    hide Refused, Obeys, Disciplined, RunObeys, Step;
    if calls == [] {
      StartDisciplined(cap);
    } else {
      var n := |calls| - 1;
      RunObeysLast(cap, calls);
      RunDisciplined(cap, calls[..n]);
      StepDisciplined(cap, Run(cap, calls[..n]), calls[n]);
    }
  }

  lemma RunObeysLast(cap: nat, calls: seq<Call>)
    requires calls != []
    ensures var n := |calls| - 1;
      RunObeys(cap, calls) <==>
        RunObeys(cap, calls[..n]) && (!Refused(cap, Run(cap, calls[..n]), calls[n]) ==>
          Obeys(Run(cap, calls[..n]).doc, calls[n]))
  {
    hide Refused, Obeys, Run;
    var n := |calls| - 1;
    var init := calls[..n];
    assert forall k :: 0 <= k < n ==> init[..k] == calls[..k] && init[k] == calls[k];
  }

  lemma StartDisciplined(cap: nat)
    ensures Disciplined(Start(cap).doc) && RunObeys(cap, [])
  {}

  lemma {:induction false} RunRooted(cap: nat, calls: seq<Call>)
    ensures var doc := Run(cap, calls).doc; doc[0].isObject && doc[0].key == NoKey
  {
    hide Step;
    if calls != [] {
      var n := |calls| - 1;
      RunRooted(cap, calls[..n]);
      StepRooted(cap, Run(cap, calls[..n]), calls[n]);
    }
  }

  lemma StepRooted(cap: nat, st: State, call: Call)
    requires st.doc != []
    ensures var doc := Step(cap, st, call).doc; doc[0].isObject == st.doc[0].isObject && doc[0].key == st.doc[0].key
  {
    hide Refused, KeyOf, Whole;
  }

  /** The document is well formed exactly when the discipline was kept. */
  lemma {:induction false} RootWellFormed(doc: seq<Level>)
    requires doc != [] && doc[0].isObject && doc[0].key == NoKey
    ensures WellFormed(Root(doc)) <==> Disciplined(doc)
    ensures Root(doc).Container? && Root(doc).isObject
    decreases |doc|
  {
    if |doc| > 1 {
      ClosedDisciplined(doc);
      RootWellFormed(Closed(doc));
    } else {
      var v := Root(doc);
      assert WellFormed(v) <==> LevelWellFormed(doc[0]);
    }
  }

  // ----- and so is its text

  /** Tokens everywhere, keys perhaps in the wrong places. */
  predicate DocShaped(doc: seq<Level>) {
    forall i :: 0 <= i < |doc| ==> LevelShaped(doc[i])
  }

  predicate LevelShaped(level: Level) {
    LooseKey(level.key) && forall i :: 0 <= i < |level.items| ==> ShapedItem(level.items[i])
  }

  lemma AddedShaped(doc: seq<Level>, item: Item)
    requires doc != [] && DocShaped(doc) && ShapedItem(item)
    ensures DocShaped(Added(doc, item))
  {
    hide ShapedItem, LooseKey;
    var n := |doc| - 1;
    assert LevelShaped(doc[n]);
    assert LevelShaped(Added(doc, item)[n]);
  }

  lemma ClosedShaped(doc: seq<Level>)
    requires |doc| > 1 && DocShaped(doc)
    ensures DocShaped(Closed(doc))
  {
    hide LooseKey;
    var n := |doc| - 1;
    var v := Whole(doc[n]);
    assert LevelShaped(doc[n]);
    assert Shaped(v) && ShapedItem(Compact(doc[n].key, v));
    AddedShaped(doc[..n], Compact(doc[n].key, v));
  }

  lemma {:induction false} RootShaped(doc: seq<Level>)
    requires doc != [] && DocShaped(doc)
    ensures Shaped(Root(doc))
    decreases |doc|
  {
    if |doc| > 1 {
      ClosedShaped(doc);
      RootShaped(Closed(doc));
    } else {
      assert LevelShaped(doc[0]);
    }
  }

  lemma KeyOfLoose(key: Option<string>)
    ensures LooseKey(KeyOf(key))
  {
    if key.Some? {
      QuotedIsToken(key.value);
      StringIsStrict(Quoted(key.value));
    }
  }

  /** What the source's callers put: an escaped string, a printed number, a word. */
  ghost predicate PutsTokens(calls: seq<Call>) {
    forall i :: 0 <= i < |calls| && calls[i].PutCall? ==>
      StringToken(calls[i].text) || NumberToken(calls[i].text) || Word(calls[i].text)
  }

  lemma StepShaped(cap: nat, st: State, call: Call)
    requires st.doc != [] && DocShaped(st.doc)
    requires call.PutCall? ==> StringToken(call.text) || NumberToken(call.text) || Word(call.text)
    ensures DocShaped(Step(cap, st, call).doc)
  {
    hide StringToken, NumberToken, LooseString, NumberRun, Refused, LooseKey, KeyOf;
    match call
    case OpenCall(_, key) => KeyOfLoose(key);
    case CloseCall =>
      if |st.doc| > 1 {
        ClosedShaped(st.doc);
      }
    case PutCall(key, text) =>
      KeyOfLoose(key);
      TokenKinds(text);
      StringIsStrict(text);
      AddedShaped(st.doc, Compact(KeyOf(key), Token(text)));
  }

  lemma {:induction false} RunShaped(cap: nat, calls: seq<Call>)
    requires PutsTokens(calls)
    ensures DocShaped(Run(cap, calls).doc)
  {
    if calls != [] {
      var n := |calls| - 1;
      RunShaped(cap, calls[..n]);
      StepShaped(cap, Run(cap, calls[..n]), calls[n]);
    }
  }

  /** The finished text is JSON exactly when every call that was not refused kept the key discipline. */
  lemma FinishedIsJsonExactlyWhen(cap: nat, calls: seq<Call>)
    requires PutsTokens(calls)
    ensures IsJson(Render(Root(Run(cap, calls).doc))) <==> RunObeys(cap, calls)
  {
    hide WellFormed, Shaped, Strict, IsJson, Root, Render, RunObeys, Disciplined, DocShaped, PutsTokens;
    var doc := Run(cap, calls).doc;
    RunShaped(cap, calls);
    RootShaped(doc);
    RunRooted(cap, calls);
    RunDisciplined(cap, calls);
    RootWellFormed(doc);
    WellFormedIsStrict(Root(doc));
    JsonLanguage.JsonExactlyWhen(Root(doc));
  }

  lemma KeylessRun(cap: nat, call: Call)
    requires cap > RESERVE + 2 && call == OpenCall(true, None)
    ensures Run(cap, [call]) == State(true, [Level(true, NoKey, []), Level(true, NoKey, [])])
    ensures PutsTokens([call]) && !RunObeys(cap, [call])
  {
    assert [call][..0] == [] && Run(cap, []) == Start(cap);
    assert Text(Start(cap).doc) == "{";
    assert !Obeys(Run(cap, [call][..0]).doc, [call][0]);
  }

  /** Without a key at top level, as the header has it, the text is no JSON. */
  lemma KeylessTopIsNotJson(cap: nat)
    requires cap > RESERVE + 2
    ensures Render(Root(Run(cap, [OpenCall(true, None)]).doc)) == "{{}}" && !IsJson("{{}}")
  {
    hide Run, RunObeys, PutsTokens, IsJson, Root, Render;
    KeylessRun(cap, OpenCall(true, None));
    FinishedIsJsonExactlyWhen(cap, [OpenCall(true, None)]);
    KeylessText([Level(true, NoKey, []), Level(true, NoKey, [])]);
  }

  lemma KeylessText(doc: seq<Level>)
    requires doc == [Level(true, NoKey, []), Level(true, NoKey, [])]
    ensures Render(Root(doc)) == "{{}}"
  {
    var inner := Compact(NoKey, Whole(doc[1]));
    assert doc[..1] == [doc[0]] && [] + [inner] == [inner];
    assert Closed(doc) == [Level(true, NoKey, [inner])];
    assert inner.value == Container(true, "", [], true) && Render(inner.value) == "{}";
    assert RenderItem(inner) == "" + RenderKey(NoKey) + "{}" + "";
    assert RenderItems([inner]) == "{}";
    assert Root(doc) == Container(true, "", [inner], true);
  }

  // ----- the writer

  /** first: nothing written in the level yet; closer: the bracket that ends it. */
  ghost predicate Flags(doc: seq<Level>, first: seq<bool>, closer: seq<char>)
    requires |doc| <= |first| && |doc| <= |closer|
  {
    && (forall d :: 0 <= d < |doc| ==> (first[d] <==> d == |doc| - 1 && doc[d].items == []))
    && (forall d :: 0 < d < |doc| ==> closer[d] == Close(doc[d].isObject))
  }

  class Writer {
    const buf: array<char>
    var len: nat
    var ok: bool
    var first: seq<bool>
    var closer: seq<char>
    var depth: nat
    ghost var st: State

    ghost predicate Valid()
      reads this, buf
    {
      && |first| == |closer| == MAX_OPEN + 1 && st.doc != [] && st.doc[0].isObject && ok == st.ok
      && (if buf.Length > RESERVE + 2 then Writing() else !ok && len == 0 && depth == 0 && |st.doc| == 1)
    }

    /** The buffer holds the text of the open levels, with room left to close them all. */
    ghost predicate Writing()
      requires |first| == |closer| == MAX_OPEN + 1 && st.doc != []
      reads this, buf
    {
      && depth == |st.doc| - 1 && depth <= MAX_OPEN && len + depth + 5 < buf.Length
      && buf[..len] == Text(st.doc) && buf[len] == '\0'
      && Flags(st.doc, first, closer)
    }

    constructor (buf: array<char>)
      modifies buf
      ensures Valid() && this.buf == buf && st == Start(buf.Length)
    {
      this.buf := buf;
      len, depth := 0, 0;
      ok := buf.Length > RESERVE + 2;
      first, closer := seq(MAX_OPEN + 1, i => i == 0), seq(MAX_OPEN + 1, _ => '\0');
      st := Start(buf.Length);
      new;
      if ok {
        buf[0], buf[1] := '{', '\0';
        len := 1;
        assert buf[..1] == Text(st.doc);
      }
    }

    method Raw(s: string)
      requires len + |s| < buf.Length
      modifies this`len, buf
      ensures len == old(len) + |s| && buf[..len] == old(buf[..len]) + s && buf[len] == '\0'
    {
      ghost var was := buf[..len];
      for i := 0 to |s|
        invariant len == old(len) && buf[..len + i] == was + s[..i]
      {
        buf[len + i] := s[i];
        assert buf[..len + i + 1] == buf[..len + i] + [s[i]];
        assert s[..i + 1] == s[..i] + [s[i]];
      }
      assert s[..|s|] == s;
      len := len + |s|;
      ghost var now := buf[..len];
      buf[len] := '\0';
      assert buf[..len] == now;
    }

    /** Quoted and escaped. */
    method Esc(s: string)
      requires len + |Quoted(s)| < buf.Length
      modifies this`len, buf
      ensures len == old(len) + |Quoted(s)| && buf[..len] == old(buf[..len]) + Quoted(s) && buf[len] == '\0'
    {
      hide EscapedAll, Escaped, Text;
      ghost var was := buf[..len];
      Raw("\"");
      assert s[0..] == s;
      for i := 0 to |s|
        invariant len + |EscapedAll(s[i..])| + 1 < buf.Length
        invariant buf[..len] + EscapedAll(s[i..]) == was + ['"'] + EscapedAll(s)
      {
        EscapedNext(s, i);
        ghost var before, rest := buf[..len], EscapedAll(s[i + 1..]);
        Raw(Escaped(s[i]));
        assert before + (Escaped(s[i]) + rest) == before + Escaped(s[i]) + rest;
      }
      EscapedNext(s, |s|);
      assert buf[..len] == was + ['"'] + EscapedAll(s);
      Raw("\"");
    }

    method EscLen(s: string) returns (n: nat)
      ensures n == |Quoted(s)|
    {
      n := 2;
      for i := 0 to |s|
        invariant n + |EscapedAll(s[i..])| == |Quoted(s)|
      {
        assert s[i..][1..] == s[i + 1..];
        n := n + if s[i] == '"' || s[i] == '\\' then 2 else if s[i] < ' ' then 6 else 1;
      }
    }

    method PutKey(key: Option<string>)
      requires len + |RenderKey(KeyOf(key))| < buf.Length && buf[len] == '\0'
      modifies this`len, buf
      ensures len == old(len) + |RenderKey(KeyOf(key))| && buf[len] == '\0'
      ensures buf[..len] == old(buf[..len]) + RenderKey(KeyOf(key))
    {
      hide EscapedAll;
      if key.Some? {
        Esc(key.value);
        Raw(":");
        assert RenderKey(KeyOf(key)) == Quoted(key.value) + [':'];
      }
    }

    /** Comma and key before a value; false, and nothing written, if the whole item would not fit. */
    method Begin(key: Option<string>, valueLength: nat) returns (fits: bool)
      requires Valid()
      modifies this`ok, this`len, this`first, buf
      ensures fits <==> Room(buf.Length, st, Needed(st.doc, key, valueLength))
      ensures !fits ==> !ok && len == old(len) && first == old(first) && buf[..] == old(buf[..])
      ensures fits ==> ok && st.ok && first == old(first)[depth := false] && len + valueLength + RESERVE < buf.Length
      ensures fits ==>
        buf[..len] == old(buf[..len]) + Comma(st.doc[|st.doc| - 1].items) + RenderKey(KeyOf(key)) &&
        buf[len] == '\0'
    {
      hide Text, EscapedAll, RenderItems;
      var keyLength := 0;
      if key.Some? {
        var quoted := EscLen(key.value);
        keyLength := quoted + 1;
      }
      var need := (if first[depth] then 0 else 1) + keyLength + valueLength;
      if !(ok && len + need + RESERVE < buf.Length) {
        ok := false;
        return false;
      }
      ghost var was, comma := buf[..len], Comma(st.doc[|st.doc| - 1].items);
      if !first[depth] {
        Raw(",");
      }
      assert buf[..len] == was + comma;
      first := first[depth := false];
      PutKey(key);
      fits := true;
    }

    method OpenLevel(isObject: bool, key: Option<string>)
      requires Valid()
      modifies this, buf
      ensures Valid() && st == Step(buf.Length, old(st), OpenCall(isObject, key))
    {
      hide Text, RenderKey, Comma, Room, Needed, Flags, RenderItems;
      if depth >= MAX_OPEN {
        ok := false;
        st := State(false, st.doc);
        return;
      }
      var fits := Begin(key, 1);
      if !fits {
        st := State(false, st.doc);
        return;
      }
      Raw([Open(isObject)]);
      depth := depth + 1;
      first := first[depth := true];
      closer := closer[depth := Close(isObject)];
      TextOpened(st.doc, isObject, KeyOf(key));
      OpenedFlags(st.doc, old(first), old(closer), isObject, KeyOf(key));
      st := State(true, Opened(st.doc, isObject, KeyOf(key)));
    }

    /** Whatever was opened, closed right; the reserve has room for it. */
    method CloseLevel()
      requires Valid()
      modifies this, buf
      ensures Valid() && st == Step(buf.Length, old(st), CloseCall)
    {
      hide Text, RenderKey, Comma;
      if depth <= 0 {
        return;
      }
      Raw([closer[depth]]);
      depth := depth - 1;
      TextClosed(st.doc);
      ClosedFlags(st.doc, first, closer);
      st := State(st.ok, Closed(st.doc));
    }

    /** A string, number or word already spelled. */
    method Put(key: Option<string>, text: string)
      requires Valid()
      modifies this, buf
      ensures Valid() && st == Step(buf.Length, old(st), PutCall(key, text))
    {
      hide Text, RenderKey, Comma, RenderItem, Room, Needed, Flags, RenderItems;
      var fits := Begin(key, |text|);
      if !fits {
        st := State(false, st.doc);
        return;
      }
      Raw(text);
      var item := Compact(KeyOf(key), Token(text));
      TextAdded(st.doc, item);
      CompactToken(KeyOf(key), text);
      AddedFlags(st.doc, old(first), closer, item);
      st := State(true, Added(st.doc, item));
    }

    method Str(key: Option<string>, v: string)
      requires Valid()
      modifies this, buf
      ensures Valid() && st == Step(buf.Length, old(st), PutCall(key, Quoted(v)))
    {
      hide Text, RenderKey, Comma, RenderItem, EscapedAll, Quoted, Room, Needed, Flags, RenderItems;
      var length := EscLen(v);
      var fits := Begin(key, length);
      if !fits {
        st := State(false, st.doc);
        return;
      }
      Esc(v);
      var item := Compact(KeyOf(key), Token(Quoted(v)));
      TextAdded(st.doc, item);
      CompactToken(KeyOf(key), Quoted(v));
      AddedFlags(st.doc, old(first), closer, item);
      st := State(true, Added(st.doc, item));
    }

    /** The text snprintf gave a finite number, or null. */
    method Num(key: Option<string>, finite: bool, text: string)
      requires Valid()
      modifies this, buf
      ensures Valid() && st == Step(buf.Length, old(st), PutCall(key, if finite then text else "null"))
    {
      Put(key, if finite then text else "null");
    }

    method Bool(key: Option<string>, v: bool)
      requires Valid()
      modifies this, buf
      ensures Valid() && st == Step(buf.Length, old(st), PutCall(key, if v then "true" else "false"))
    {
      Put(key, if v then "true" else "false");
    }

    /** Closes every open level; the text is the whole document, and there was always room. */
    method Finish() returns (n: nat)
      requires Valid()
      modifies this, buf
      ensures buf.Length <= RESERVE + 2 ==> n == 0 && buf[..] == old(buf[..])
      ensures buf.Length > RESERVE + 2 ==> n < buf.Length && buf[..n] == Render(Root(old(st).doc)) && buf[n] == '\0'
    {
      hide Text, Render;
      if buf.Length <= RESERVE + 2 {
        return 0;
      }
      while depth > 0
        invariant Valid() && Root(st.doc) == Root(old(st).doc)
        decreases depth
      {
        RootClosed(st.doc);
        CloseLevel();
      }
      OneLevel(st.doc);
      Raw("}");
      n := len;
    }
  }

  lemma OpenedFlags(doc: seq<Level>, first: seq<bool>, closer: seq<char>, isObject: bool, key: Key)
    requires doc != [] && |doc| < |first| && |doc| < |closer| && Flags(doc, first, closer)
    ensures Flags(Opened(doc, isObject, key), first[|doc| - 1 := false][|doc| := true],
      closer[|doc| := Close(isObject)])
  {}

  lemma ClosedFlags(doc: seq<Level>, first: seq<bool>, closer: seq<char>)
    requires |doc| > 1 && |doc| <= |first| && |doc| <= |closer| && Flags(doc, first, closer)
    ensures |Closed(doc)| == |doc| - 1 && Flags(Closed(doc), first, closer)
  {}

  lemma AddedFlags(doc: seq<Level>, first: seq<bool>, closer: seq<char>, item: Item)
    requires doc != [] && |doc| <= |first| && |doc| <= |closer| && Flags(doc, first, closer)
    ensures |Added(doc, item)| == |doc| && Flags(Added(doc, item), first[|doc| - 1 := false], closer)
  {}

  lemma CompactToken(key: Key, text: string)
    ensures RenderItem(Compact(key, Token(text))) == RenderKey(key) + text
  {}

  lemma RootClosed(doc: seq<Level>)
    requires |doc| > 1
    ensures Root(Closed(doc)) == Root(doc)
  {}

  lemma OneLevel(doc: seq<Level>)
    requires |doc| == 1 && doc[0].isObject
    ensures Render(Root(doc)) == Text(doc) + ['}']
  {}

  // ----- the reader passes over what the writer wrote

  /** Within a nesting limit, and with every number so. */
  ghost predicate Tame(doc: seq<Level>, p: string -> bool) {
    forall i :: 0 <= i < |doc| ==> NestingItems(doc[i].items) + i <= MAX_OPEN && LevelNumbers(doc[i], p)
  }

  ghost predicate LevelNumbers(level: Level, p: string -> bool) {
    forall i :: 0 <= i < |level.items| ==> NumbersItem(level.items[i], p)
  }

  lemma {:induction false} NestingAdded(items: seq<Item>, item: Item)
    ensures NestingItems(items + [item]) ==
      if Nesting(item.value) > NestingItems(items) then Nesting(item.value) else NestingItems(items)
  {
    if items == [] {
      assert ([] + [item])[1..] == [];
    } else {
      NestingAdded(items[1..], item);
      assert (items + [item])[1..] == items[1..] + [item];
    }
  }

  lemma AddedTame(doc: seq<Level>, item: Item, p: string -> bool)
    requires doc != [] && Tame(doc, p) && NumbersItem(item, p) && Nesting(item.value) + |doc| - 1 <= MAX_OPEN
    ensures Tame(Added(doc, item), p)
  {
    hide NumbersItem;
    var n := |doc| - 1;
    NestingAdded(doc[n].items, item);
    assert LevelNumbers(doc[n], p);
    assert LevelNumbers(Added(doc, item)[n], p);
  }

  lemma ClosedTame(doc: seq<Level>, p: string -> bool)
    requires |doc| > 1 && Tame(doc, p)
    ensures Tame(Closed(doc), p)
  {
    var n := |doc| - 1;
    assert LevelNumbers(doc[n], p);
    AddedTame(doc[..n], Compact(doc[n].key, Whole(doc[n])), p);
  }

  lemma {:induction false} RootTame(doc: seq<Level>, p: string -> bool)
    requires doc != [] && Tame(doc, p)
    ensures Nesting(Root(doc)) <= MAX_OPEN + 1 && Numbers(Root(doc), p)
    decreases |doc|
  {
    if |doc| > 1 {
      ClosedTame(doc, p);
      RootTame(Closed(doc), p);
    } else {
      assert LevelNumbers(doc[0], p);
    }
  }

  lemma {:induction false} RunTame(cap: nat, calls: seq<Call>, p: string -> bool)
    requires forall i :: 0 <= i < |calls| && calls[i].PutCall? && NumberRun(calls[i].text) ==> p(calls[i].text)
    ensures Tame(Run(cap, calls).doc, p) && |Run(cap, calls).doc| <= MAX_OPEN + 1
  {
    if calls != [] {
      var n := |calls| - 1;
      var init := calls[..n];
      RunTame(cap, init, p);
      TameStep(cap, Run(cap, init), calls[n], p);
    }
  }

  lemma TameStep(cap: nat, st: State, call: Call, p: string -> bool)
    requires st.doc != [] && Tame(st.doc, p) && |st.doc| <= MAX_OPEN + 1
    requires call.PutCall? && NumberRun(call.text) ==> p(call.text)
    ensures Tame(Step(cap, st, call).doc, p) && |Step(cap, st, call).doc| <= MAX_OPEN + 1
  {
    hide Room, NumberRun, Tame, NumbersItem;
    if !Refused(cap, st, call) {
      match call
      case OpenCall(isObject, key) =>
        OpenedTame(st.doc, isObject, KeyOf(key), p);
      case CloseCall =>
        if |st.doc| > 1 {
          ClosedTame(st.doc, p);
        }
      case PutCall(key, text) =>
        TokenTame(KeyOf(key), text, p);
        AddedTame(st.doc, Compact(KeyOf(key), Token(text)), p);
    }
  }

  lemma OpenedTame(doc: seq<Level>, isObject: bool, key: Key, p: string -> bool)
    requires Tame(doc, p) && |doc| <= MAX_OPEN
    ensures Tame(Opened(doc, isObject, key), p)
  {}

  lemma TokenTame(key: Key, text: string, p: string -> bool)
    requires NumberRun(text) ==> p(text)
    ensures NumbersItem(Compact(key, Token(text)), p)
  {}

  ghost predicate PutsShort(calls: seq<Call>, mode: JsonReader.Mode) {
    forall i :: 0 <= i < |calls| && calls[i].PutCall? && NumberRun(calls[i].text) ==>
      JsonReader.Short(calls[i].text, mode)
  }

  lemma FinishedWithin(cap: nat, calls: seq<Call>, mode: JsonReader.Mode)
    requires PutsShort(calls, mode)
    ensures JsonReader.Within(Root(Run(cap, calls).doc), mode)
  {
    hide Root, Run, Tame, NumberRun, JsonReader.Short;
    RunTame(cap, calls, t => JsonReader.Short(t, mode));
    RootTame(Run(cap, calls).doc, t => JsonReader.Short(t, mode));
  }

  /** The finished document of any disciplined run, however short the buffer, is a well-formed object that the manifest
      reader passes over to its end. */
  lemma FinishedReads(cap: nat, calls: seq<Call>, mode: JsonReader.Mode, behind: string)
    requires RunObeys(cap, calls)
    requires PutsShort(calls, mode)
    requires behind == "" || !NumberChar(behind[0])
    ensures var v := Root(Run(cap, calls).doc);
      && WellFormed(v) && v.Container? && v.isObject
      && JsonReader.AtValue(Render(v) + behind, 0, 0, mode) == Some(|Render(v)|)
  {
    hide WellFormed, Render, JsonReader.AtValue, JsonReader.Within, Root, Run, RunObeys, Disciplined, PutsShort;
    FinishedWithin(cap, calls, mode);
    var doc := Run(cap, calls).doc;
    var v := Root(doc);
    RunDisciplined(cap, calls);
    RunRooted(cap, calls);
    RootWellFormed(doc);
    JsonReader.SkipsWellFormed(v, "", behind, mode);
    assert "" + Render(v) + behind == Render(v) + behind;
  }
}
