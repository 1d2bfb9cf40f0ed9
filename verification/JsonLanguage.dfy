/** What the reader's skip passes over, exactly: loose trees, of which each text has one; and which of them are JSON. */
module JsonLanguage {
  import opened JsonGrammar
  import opened JsonReader
  import opened Options

  // ----- whatever is passed over is a loose tree

  lemma {:induction false} RunChars(s: string, p: nat)
    requires p <= |s|
    ensures Stops(s, Run(s, p)) && forall i :: p <= i < Run(s, p) ==> NumberChar(s[i])
    decreases |s| - p
  {
    if p < |s| && NumberChar(s[p]) {
      RunChars(s, p + 1);
    }
  }

  lemma Grows(piece: string, rest: string)
    requires LooseBody(rest) && |piece| > 0
    requires if piece[0] != '\\' then |piece| == 1 && piece[0] >= ' ' && piece[0] != '"'
      else |piece| > 1 && if piece[1] != 'u' then |piece| == 2 && Escapable(piece[1])
      else |piece| == 6 && Unit(piece[2], piece[3], piece[4], piece[5]) <= 0xFFFF
    ensures LooseBody(piece + rest)
  {
    hide Unit;
    assert (piece + rest)[|piece|..] == rest;
  }

  /** What was read up to the closing quote is a loose body. */
  lemma {:induction false} BodyRead(s: string, p: nat)
    requires p <= |s| && StringEnd(s, p).Some?
    ensures var e := StringEnd(s, p).value; s[e - 1] == '"' && LooseBody(s[p..e - 1])
    decreases |s| - p
  {
    hide LooseBody, Unit, Hex;
    var e := StringEnd(s, p).value;
    if s[p] == '"' {
      assert s[p..p] == "";
      EmptyBody();
    } else {
      var next := if s[p] != '\\' then p + 1 else if s[p + 1] != 'u' then p + 2 else p + 6;
      if next == p + 6 {
        HexReads(s, p + 2);
        FourDigits(s, p + 2);
      }
      BodyRead(s, next);
      assert s[p..e - 1] == s[p..next] + s[next..e - 1];
      Grows(s[p..next], s[next..e - 1]);
    }
  }

  lemma EmptyBody()
    ensures LooseBody("")
  {}

  lemma HexReads(s: string, p: nat)
    requires p <= |s| && Hex(s, p, 4, 0).Some?
    ensures p + 4 <= |s|
  {
    HexLength(s, p, 4, 0);
  }

  lemma {:induction false} HexLength(s: string, p: nat, k: nat, v: nat)
    requires p <= |s| && Hex(s, p, k, v).Some?
    ensures p + k <= |s|
    decreases k
  {
    if k > 0 {
      HexLength(s, p + 1, k - 1, v * 16 + HexValue(s[p]));
    }
  }

  lemma StringIsRead(s: string, p: nat)
    requires p <= |s| && StringRead(s, p).Some?
    ensures Blanks(s, p) < StringRead(s, p).value && LooseString(s[Blanks(s, p)..StringRead(s, p).value])
  {
    hide LooseBody, StringEnd;
    var q, e := Blanks(s, p), StringRead(s, p).value;
    BodyRead(s, q + 1);
    assert s[q..e][1..|s[q..e]| - 1] == s[q + 1..e - 1];
  }

  lemma TokenIsRead(s: string, p: nat, mode: Mode)
    requires p < |s| && !IsWs(s[p]) && TokenRead(s, p, mode).Some?
    ensures var text := s[p..TokenRead(s, p, mode).value];
      LooseToken(text) && TokenFits(text, mode) && NumberStops(Token(text), s, p)
  {
    hide LooseString, StringRead, StartsWith;
    var e := TokenRead(s, p, mode).value;
    var text := s[p..e];
    if s[p] == '"' {
      StringIsRead(s, p);
    } else if s[p] == '-' || Digit(s[p]) {
      RunChars(s, p);
    } else {
      WordIsRead(s, p);
    }
    TokenKinds(text);
  }

  lemma WordIsRead(s: string, p: nat)
    requires p < |s| && WordRead(s, p).Some?
    ensures Word(s[p..WordRead(s, p).value])
  {}

  /** The key that was read. */
  lemma KeyIsRead(s: string, p: nat) returns (key: Key)
    requires p <= |s| && KeyRead(s, p).Some?
    ensures key.Key? && LooseKey(key)
    ensures var q, k := Blanks(s, p), KeyRead(s, p).value;
      k <= Blanks(s, k) && q <= Blanks(s, k) && s[q..Blanks(s, k)] == RenderKey(key)
  {
    hide LooseString, StringRead, Blanks;
    var q, k := Blanks(s, p), KeyRead(s, p).value;
    var e := StringRead(s, p).value;
    StringIsRead(s, p);
    key := Key(s[q..e], s[e..k - 1], s[k..Blanks(s, k)]);
    AroundOne(s, q, e, k - 1, Blanks(s, k));
  }

  lemma AroundOne(s: string, q: nat, e: nat, i: nat, end: nat)
    requires q <= e <= i < end <= |s|
    ensures s[q..end] == s[q..e] + s[e..i] + [s[i]] + s[i + 1..end]
  {
    assert s[q..i] == s[q..e] + s[e..i];
    assert s[q..end] == s[q..i] + s[i..end];
    assert s[i..end] == [s[i]] + s[i + 1..end];
  }

  lemma AtJoin(s: string, p: nat, a: string, b: string)
    requires At(s, p, a) && At(s, p + |a|, b)
    ensures At(s, p, a + b)
  {
    var q, e := p + |a|, p + |a| + |b|;
    assert s[p..e] == s[p..q] + s[q..e];
    assert p + |a + b| == e;
  }

  /** Where the value is read from: past its key, if it has one. */
  function Start(s: string, p: nat, keyed: bool): (k: nat)
    requires p <= |s| && (keyed ==> KeyRead(s, p).Some?)
    ensures p <= k <= |s|
  {
    if keyed then KeyRead(s, p).value else p
  }

  /** The item around a value that was read. */
  lemma ItemIsRead(s: string, p: nat, keyed: bool, v: Value) returns (item: Item)
    requires p <= |s| && (keyed ==> KeyRead(s, p).Some?)
    requires Shaped(v) && At(s, Blanks(s, Start(s, p, keyed)), Render(v))
    ensures ShapedItem(item) && item.value == v && item.key.Key? == keyed && At(s, p, RenderItem(item))
    ensures var after := Blanks(s, Start(s, p, keyed)) + |Render(v)|;
      after <= |s| && p + |RenderItem(item)| == Blanks(s, after)
  {
    hide At, Shaped, KeyRead, LooseKey, Render, RenderKey, RenderItem, IsWs;
    var q, k := Blanks(s, p), Start(s, p, keyed);
    var place := Blanks(s, k);
    AtInside(s, place, Render(v));
    var after := place + |Render(v)|;
    var key := NoKey;
    if keyed {
      key := KeyIsRead(s, p);
    }
    assert LooseKey(key) by { NoKeyIsLoose(); }
    item := Item(s[p..q], key, v, s[after..Blanks(s, after)]);
    AtSlice(s, p, q);
    AtSlice(s, after, Blanks(s, after));
    KeyPlace(s, p, keyed, key);
    AtItem(s, p, item);
  }

  lemma AtItem(s: string, p: nat, item: Item)
    requires At(s, p, item.lead) && At(s, p + |item.lead|, RenderKey(item.key))
    requires At(s, ValuePlace(item, p), Render(item.value))
    requires At(s, ValuePlace(item, p) + |Render(item.value)|, item.trail)
    ensures At(s, p, RenderItem(item))
    ensures p + |RenderItem(item)| == ValuePlace(item, p) + |Render(item.value)| + |item.trail|
  {
    hide At, RenderKey, Render;
    AtJoin(s, p, item.lead, RenderKey(item.key));
    AtJoin(s, p, item.lead + RenderKey(item.key), Render(item.value));
    AtJoin(s, p, item.lead + RenderKey(item.key) + Render(item.value), item.trail);
  }

  lemma NoKeyIsLoose()
    ensures LooseKey(NoKey)
  {}

  lemma KeyPlace(s: string, p: nat, keyed: bool, key: Key)
    requires p <= |s| && (keyed ==> KeyRead(s, p).Some?) && key.Key? == keyed
    requires var q, place := Blanks(s, p), Blanks(s, Start(s, p, keyed));
      q <= place && (keyed ==> s[q..place] == RenderKey(key))
    ensures At(s, Blanks(s, p), RenderKey(key))
    ensures Blanks(s, p) + |RenderKey(key)| == Blanks(s, Start(s, p, keyed))
  {}

  lemma AtOne(s: string, p: nat, c: char)
    requires p < |s| && s[p] == c
    ensures At(s, p, [c])
  {}

  lemma AtSlice(s: string, p: nat, q: nat)
    requires p <= q <= |s|
    ensures At(s, p, s[p..q])
  {}

  /** A value the loop got past, as the tree it passed over. */
  lemma {:induction false} ReadsValue(s: string, p: nat, d: nat, mode: Mode) returns (v: Value)
    requires p <= |s| && AtValue(s, p, d, mode).Some?
    ensures Shaped(v) && Opens(v) && Fits(v, d, mode)
    ensures At(s, Blanks(s, p), Render(v)) && NumberStops(v, s, Blanks(s, p))
    ensures Blanks(s, p) + |Render(v)| <= |s|
    ensures AfterValue(s, Blanks(s, p) + |Render(v)|, d, mode) == AtValue(s, p, d, mode)
    decreases |s| - p, 0
  {
    hide At, Eaten, KeyRead, TokenRead, LooseToken, TokenFits, NumberStops, ShapedItem, OpensItem;
    hide AtValue, AfterValue, Close, RenderItems;
    var q := Blanks(s, p);
    ValueBegins(s, p, d, mode);
    if s[q] == '{' || s[q] == '[' {
      var isObject := s[q] == '{';
      var empty := Eaten(s, q + 1, Close(isObject));
      if empty.Some? {
        v := Container(isObject, s[q + 1..empty.value - 1], [], isObject);
        EmptyIsRead(s, q, isObject);
      } else {
        var items, endsObject := ReadsItems(s, q + 1, isObject, d + 1, mode);
        v := Container(isObject, "", items, endsObject);
        FullIsRead(s, q, v);
      }
      Trivial(v, s, q);
    } else {
      var e := TokenRead(s, q, mode).value;
      v := Token(s[q..e]);
      TokenIsRead(s, q, mode);
      AtSlice(s, q, e);
    }
  }

  /** A value begins with a token, an empty container, or an opening bracket and perhaps a key. */
  lemma ValueBegins(s: string, p: nat, d: nat, mode: Mode)
    requires p <= |s| && AtValue(s, p, d, mode).Some?
    ensures Blanks(s, p) < |s|
    ensures var q := Blanks(s, p); s[q] != '{' && s[q] != '[' ==>
      TokenRead(s, q, mode).Some? && AtValue(s, p, d, mode) == AfterValue(s, TokenRead(s, q, mode).value, d, mode)
    ensures var q := Blanks(s, p); s[q] == '{' || s[q] == '[' ==>
      var empty := Eaten(s, q + 1, Close(s[q] == '{'));
      && d + 1 <= MAX_DEPTH
      && (empty.Some? ==> AtValue(s, p, d, mode) == AfterValue(s, empty.value, d, mode))
      && (empty.None? ==>
           && (s[q] == '{' ==> KeyRead(s, q + 1).Some?)
           && AtValue(s, p, d, mode) == AtValue(s, Start(s, q + 1, s[q] == '{'), d + 1, mode))
  {
    hide Eaten, KeyRead, TokenRead, AfterValue, Close, Blanks;
  }

  lemma Trivial(v: Value, s: string, p: nat)
    requires v.Container?
    ensures NumberStops(v, s, p)
  {}

  lemma EmptyIsRead(s: string, q: nat, isObject: bool)
    requires q < |s| && s[q] == Open(isObject) && Eaten(s, q + 1, Close(isObject)).Some?
    ensures var e := Eaten(s, q + 1, Close(isObject)).value;
      q + 1 < e <= |s| && Blank(s[q + 1..e - 1]) && At(s, q, Render(Container(isObject, s[q + 1..e - 1], [], isObject)))
  {
    var e := Eaten(s, q + 1, Close(isObject)).value;
    assert s[q..e] == [Open(isObject)] + s[q + 1..e - 1] + [Close(isObject)];
  }

  lemma FullIsRead(s: string, q: nat, v: Value)
    requires v.Container? && v.items != [] && q < |s| && s[q] == Open(v.isObject)
    requires At(s, q + 1, RenderItems(v.items) + [Close(v.endsObject)])
    ensures At(s, q, Render(v)) && |Render(v)| == |RenderItems(v.items)| + 2
  {
    hide At, Render;
    ContainerRender(v);
    AtOne(s, q, Open(v.isObject));
    AtJoin(s, q, [Open(v.isObject)], RenderItems(v.items) + [Close(v.endsObject)]);
  }

  /** The rest of a container, from where one of its items begins. */
  lemma {:induction false} ReadsItems(s: string, p: nat, keyed: bool, d: nat, mode: Mode)
    returns (items: seq<Item>, endsObject: bool)
    requires p <= |s| && d > 0 && (keyed ==> KeyRead(s, p).Some?) && AtValue(s, Start(s, p, keyed), d, mode).Some?
    ensures items != [] && items[0].key.Key? == keyed && FitsItems(items, d, mode)
    ensures forall i :: 0 <= i < |items| ==> ShapedItem(items[i]) && OpensItem(items[i])
    ensures At(s, p, RenderItems(items) + [Close(endsObject)]) && p + |RenderItems(items)| + 1 <= |s|
    ensures AfterValue(s, p + |RenderItems(items)| + 1, d - 1, mode) == AtValue(s, Start(s, p, keyed), d, mode)
    decreases |s| - p, 1
  {
    hide At, AtValue, AfterValue, AfterComma, Blanks, KeyRead, Start, NumberStops;
    hide Render, RenderItem, RenderItems, ShapedItem, Shaped, Fits, Close;
    var v := ReadsValue(s, Start(s, p, keyed), d, mode);
    var item := ItemIsRead(s, p, keyed, v);
    var end := p + |RenderItem(item)|;
    ValueFollowed(s, Blanks(s, Start(s, p, keyed)) + |Render(v)|, d, mode);
    AfterItem(s, Blanks(s, Start(s, p, keyed)) + |Render(v)|, d, mode);
    if s[end] == ',' {
      var key := KeyRead(s, end + 1).Some?;
      assert AfterComma(s, end + 1) == Start(s, end + 1, key) by { CommaStart(s, end + 1); }
      var rest;
      rest, endsObject := ReadsItems(s, end + 1, key, d, mode);
      items := [item] + rest;
      MoreItems(s, p, items, endsObject);
    } else {
      items, endsObject := [item], s[end] == '}';
      CloseKind(s[end]);
      LastItem(s, p, item, endsObject);
    }
    AtInside(s, p, RenderItems(items) + [Close(endsObject)]);
  }

  lemma ValueFollowed(s: string, p: nat, d: nat, mode: Mode)
    requires p <= |s| && d > 0 && AfterValue(s, p, d, mode).Some?
    ensures var end := Blanks(s, p);
      end < |s| && (s[end] == ',' || s[end] == '}' || s[end] == ']')
  {
    hide AtValue, AfterComma, Blanks;
  }

  lemma CloseKind(c: char)
    requires c == '}' || c == ']'
    ensures c == Close(c == '}')
  {}

  lemma CommaStart(s: string, p: nat)
    requires p <= |s|
    ensures AfterComma(s, p) == Start(s, p, KeyRead(s, p).Some?)
  {}

  lemma MoreItems(s: string, p: nat, items: seq<Item>, endsObject: bool)
    requires |items| > 1 && At(s, p, RenderItem(items[0]))
    requires var end := p + |RenderItem(items[0])|;
      end < |s| && s[end] == ',' && At(s, end + 1, RenderItems(items[1..]) + [Close(endsObject)])
    ensures At(s, p, RenderItems(items) + [Close(endsObject)])
    ensures p + |RenderItems(items)| == p + |RenderItem(items[0])| + 1 + |RenderItems(items[1..])|
  {
    hide At, RenderItem, RenderItems;
    var first, rest := RenderItem(items[0]), RenderItems(items[1..]);
    ItemsRender(items);
    AtOne(s, p + |first|, ',');
    AtJoin(s, p + |first|, [','], rest + [Close(endsObject)]);
    AtJoin(s, p, first, [','] + (rest + [Close(endsObject)]));
    Reassociate(first, [','], rest, [Close(endsObject)]);
  }

  lemma LastItem(s: string, p: nat, item: Item, endsObject: bool)
    requires At(s, p, RenderItem(item))
    requires var end := p + |RenderItem(item)|; end < |s| && s[end] == Close(endsObject)
    ensures At(s, p, RenderItems([item]) + [Close(endsObject)]) && RenderItems([item]) == RenderItem(item)
  {
    hide At, RenderItem;
    var end := p + |RenderItem(item)|;
    AtOne(s, end, Close(endsObject));
    AtJoin(s, p, RenderItem(item), [Close(endsObject)]);
  }

  // ----- a text has one tree

  lemma SameSlice(s: string, p: nat, a: string, b: string)
    requires At(s, p, a) && At(s, p, b) && |a| == |b|
    ensures a == b
  {}

  lemma SameToken(a: string, b: string, s: string, p: nat)
    requires LooseToken(a) && At(s, p, a) && NumberStops(Token(a), s, p)
    requires LooseToken(b) && At(s, p, b) && NumberStops(Token(b), s, p)
    ensures a == b
  {
    hide At, LooseToken, NumberStops, End;
    TokenEnd(a, s, p);
    TokenEnd(b, s, p);
    SameSlice(s, p, a, b);
  }

  /** Where any loose token ends, however long a number it is. */
  function End(s: string, p: nat): nat
    requires p < |s|
  {
    if s[p] == '-' || Digit(s[p]) then Run(s, p)
    else if s[p] == '"' then (match StringRead(s, p) case Some(e) => e case None => p)
    else match WordRead(s, p) case Some(e) => e case None => p
  }

  lemma TokenEnd(text: string, s: string, p: nat)
    requires LooseToken(text) && At(s, p, text) && NumberStops(Token(text), s, p)
    ensures p < |s| && End(s, p) == p + |text|
  {
    hide StringRead, WordRead, LooseString;
    TokenKinds(text);
    if NumberRun(text) {
      RunOver(s, p, text);
      assert s[p] == s[p..p + |text|][0] == text[0];
    } else if LooseString(text) {
      StringTokenOver(s, p, text);
    } else {
      WordOver(s, p, text);
    }
  }

  lemma {:induction false} SameValue(v: Value, w: Value, s: string, p: nat)
    requires Shaped(v) && At(s, p, Render(v)) && NumberStops(v, s, p)
    requires Shaped(w) && At(s, p, Render(w)) && NumberStops(w, s, p)
    ensures v == w
    decreases v, 1
  {
    hide At, Render, RenderItem, RenderItems, LooseToken, NumberRun, ShapedItem;
    NotBlank(v, s, p);
    NotBlank(w, s, p);
    if v.Token? {
      TokenRender(v);
      TokenRender(w);
      SameToken(v.text, w.text, s, p);
    } else {
      if v.items != [] {
        ContainerOver(v, s, p);
        NotEmpty(v.items, s, p + 1);
      } else {
        EmptyOver(v, s, p);
      }
      if w.items != [] {
        ContainerOver(w, s, p);
        NotEmpty(w.items, s, p + 1);
      } else {
        EmptyOver(w, s, p);
      }
      if v.items == [] {
        SameEmpty(v, w, s, p);
      } else {
        SameItems(v.items, v.endsObject, w.items, w.endsObject, s, p + 1);
      }
    }
  }

  /** No closing bracket comes first. */
  lemma NotEmpty(items: seq<Item>, s: string, p: nat)
    requires items != [] && ShapedItem(items[0]) && At(s, p, RenderItem(items[0]))
    ensures p <= |s| && forall isObject :: Eaten(s, p, Close(isObject)) == None
  {
    hide At, ShapedItem, RenderItem;
    ItemFirst(items[0], s, p);
  }

  lemma SameEmpty(v: Value, w: Value, s: string, p: nat)
    requires v.Container? && v.items == [] && Shaped(v) && At(s, p, Render(v))
    requires w.Container? && w.items == [] && Shaped(w) && At(s, p, Render(w)) && v.isObject == w.isObject
    ensures v == w
  {
    EmptyOver(v, s, p);
    EmptyOver(w, s, p);
    assert Render(v)[1..|v.gap| + 1] == v.gap && Render(w)[1..|w.gap| + 1] == w.gap;
    SameSlice(s, p, Render(v), Render(w));
    assert Render(v)[|v.gap| + 1] == Close(v.endsObject) && Render(w)[|w.gap| + 1] == Close(w.endsObject);
  }

  lemma {:induction false} SameItems(a: seq<Item>, aEnds: bool, b: seq<Item>, bEnds: bool, s: string, p: nat)
    requires a != [] && (forall i :: 0 <= i < |a| ==> ShapedItem(a[i])) && At(s, p, RenderItems(a) + [Close(aEnds)])
    requires b != [] && (forall i :: 0 <= i < |b| ==> ShapedItem(b[i])) && At(s, p, RenderItems(b) + [Close(bEnds)])
    ensures a == b && aEnds == bEnds
    decreases a, 0
  {
    hide At, RenderItem, RenderItems, ShapedItem;
    ItemEnd(a, aEnds, s, p);
    ItemEnd(b, bEnds, s, p);
    SameItem(a[0], b[0], s, p);
    if |a| > 1 {
      SameItems(a[1..], aEnds, b[1..], bEnds, s, p + |RenderItem(a[0])| + 1);
      assert a == [a[0]] + a[1..] && b == [b[0]] + b[1..];
    }
  }

  lemma {:induction false} SameItem(a: Item, b: Item, s: string, p: nat)
    requires ShapedItem(a) && At(s, p, RenderItem(a)) && ItemEnds(a, s, p)
    requires ShapedItem(b) && At(s, p, RenderItem(b)) && ItemEnds(b, s, p)
    ensures a == b
    decreases a
  {
    hide At, RenderItem, Render, ShapedItem, NumberStops, Blanks, KeyRead, ItemEnds;
    ItemKey(a, s, p);
    ItemKey(b, s, p);
    ItemParts(a, s, p);
    ItemParts(b, s, p);
    SameValue(a.value, b.value, s, ValuePlace(a, p));
    SameKey(a, b, s, p);
    SameSlice(s, p, RenderItem(a), RenderItem(b));
    SameEnds(a, b);
  }

  lemma SameEnds(a: Item, b: Item)
    requires RenderItem(a) == RenderItem(b) && |a.lead| == |b.lead| && a.key == b.key && a.value == b.value
    ensures a == b
  {
    var r := RenderItem(a);
    var n := |a.lead| + |RenderKey(a.key)| + |Render(a.value)|;
    assert a.lead == r[..|a.lead|] && b.lead == r[..|a.lead|];
    assert a.trail == r[n..] && b.trail == r[n..];
  }

  lemma SameKey(a: Item, b: Item, s: string, p: nat)
    requires ShapedItem(a) && At(s, p, RenderItem(a)) && ShapedItem(b) && At(s, p, RenderItem(b))
    requires |a.lead| == |b.lead| && a.key.Key? == b.key.Key?
    requires ValueStart(a, p) == ValueStart(b, p) && ValuePlace(a, p) == ValuePlace(b, p)
    ensures a.key == b.key
  {
    hide At, Render, RenderItem, LooseString, StringRead, Eaten;
    if a.key.Key? {
      var q := p + |a.lead|;
      KeyAt(a, s, p);
      KeyAt(b, s, p);
      KeyParts(a.key, s, q);
      KeyParts(b.key, s, q);
      SameSlice(s, q, RenderKey(a.key), RenderKey(b.key));
      SameParts(a.key, b.key);
    }
  }

  lemma SameParts(a: Key, b: Key)
    requires a.Key? && b.Key? && RenderKey(a) == RenderKey(b) && |a.name| == |b.name| && |a.before| == |b.before|
    ensures a == b
  {
    var r := RenderKey(a);
    var n := |a.name|;
    var m := n + |a.before|;
    assert a.name == r[..n] && b.name == r[..n] && a.before == r[n..m] && b.before == r[n..m];
    assert a.after == r[m + 1..] && b.after == r[m + 1..];
  }

  lemma KeyAt(item: Item, s: string, p: nat)
    requires At(s, p, RenderItem(item))
    ensures At(s, p + |item.lead|, RenderKey(item.key))
  {
    hide At, RenderKey, Render;
    assert RenderItem(item) == item.lead + (RenderKey(item.key) + (Render(item.value) + item.trail));
    AtBoth(s, p, item.lead, RenderKey(item.key) + (Render(item.value) + item.trail));
    AtBoth(s, p + |item.lead|, RenderKey(item.key), Render(item.value) + item.trail);
  }

  // ----- the results

  /** From p the loop passes over blanks and then v, which ends at e. */
  ghost predicate Passes(s: string, p: nat, e: nat, v: Value, mode: Mode)
    requires p <= |s|
  {
    var q := Blanks(s, p);
    && Shaped(v) && Opens(v) && Within(v, mode)
    && At(s, q, Render(v)) && NumberStops(v, s, q) && e == q + |Render(v)|
  }

  /** The skip passes over exactly the loose trees within the limits. */
  lemma AcceptsExactly(s: string, p: nat, e: nat, mode: Mode)
    requires p <= |s|
    ensures AtValue(s, p, 0, mode) == Some(e) <==> exists v :: Passes(s, p, e, v, mode)
  {
    hide Render, Shaped, Opens, AtValue, Fits, At, NumberStops, Nesting, Numbers;
    if AtValue(s, p, 0, mode) == Some(e) {
      var v := ReadsValue(s, p, 0, mode);
      FitsExactly(v, 0, mode);
      assert Passes(s, p, e, v, mode);
    }
    forall v | Passes(s, p, e, v, mode) ensures AtValue(s, p, 0, mode) == Some(e) {
      SkipsLoose(v, s, Blanks(s, p), mode);
      ValueAgain(s, p, 0, mode);
    }
  }

  /** What was passed over has one tree. */
  lemma PassesOnce(s: string, p: nat, e: nat, f: nat, v: Value, w: Value, mode: Mode)
    requires p <= |s| && Passes(s, p, e, v, mode) && Passes(s, p, f, w, mode)
    ensures v == w && e == f
  {
    hide Render, Shaped, Opens, At, NumberStops, Within;
    SameValue(v, w, s, Blanks(s, p));
  }

  /** The text of a shaped tree is JSON exactly when the tree is strict. */
  lemma JsonExactlyWhen(v: Value)
    requires Shaped(v)
    ensures IsJson(Render(v)) <==> Strict(v)
  {
    hide Render, Shaped, Strict, WellFormed, NumberRun;
    WellFormedIsStrict(v);
    var text := Render(v);
    assert text[0..|text|] == text;
    if v.Token? {
      TokenRender(v);
    }
    forall w | WellFormed(w) && Render(w) == text ensures Strict(v) {
      WellFormedIsStrict(w);
      if w.Token? {
        TokenRender(w);
      }
      SameValue(v, w, text, 0);
    }
  }

  /** Whatever the skip accepted, it passed over one loose tree, and that was JSON exactly when the tree is strict. */
  lemma AcceptedIsJsonExactlyWhen(s: string, p: nat, mode: Mode) returns (v: Value)
    requires p <= |s| && AtValue(s, p, 0, mode).Some?
    ensures var e := AtValue(s, p, 0, mode).value;
      Passes(s, p, e, v, mode) && Blanks(s, p) <= e && (IsJson(s[Blanks(s, p)..e]) <==> Strict(v))
  {
    hide Render, Shaped, Strict, IsJson, AtValue, Opens, Within, Blanks, NumberStops;
    var e := AtValue(s, p, 0, mode).value;
    AcceptsExactly(s, p, e, mode);
    v :| Passes(s, p, e, v, mode);
    JsonExactlyWhen(v);
  }

  /** A loose tree that is not strict is accepted all the same. */
  lemma AcceptedAnyway(v: Value, mode: Mode)
    requires Shaped(v) && Opens(v) && Within(v, mode) && !Strict(v)
    ensures AtValue(Render(v), 0, 0, mode) == Some(|Render(v)|) && !IsJson(Render(v))
  {
    hide Render, Shaped, Strict, IsJson, AtValue, Opens, Within, NumberRun;
    JsonExactlyWhen(v);
    var text := Render(v);
    assert text[0..|text|] == text;
    if v.Token? {
      TokenRender(v);
    }
    SkipsLoose(v, text, 0, mode);
  }

  /** A bad hex digit passes when the value stays within 16 bits. */
  lemma LooseHexAccepted(mode: Mode)
    ensures AtValue("\"\\u00g0\"", 0, 0, mode) == Some(8) && !IsJson("\"\\u00g0\"")
  {
    hide LooseBody, HexBody, AtValue, IsJson;
    var text := "\"\\u00g0\"";
    BadHexQuoted();
    BadHexBody();
    assert text[0] == '"' && LooseString(text) && !HexToken(text);
    TokenKinds(text);
    AcceptedAnyway(Token(text), mode);
  }

  lemma BadHexQuoted()
    ensures var text := "\"\\u00g0\""; |text| == 8 && text[7] == '"' && text[1..7] == "\\u00g0"
  {
    var text, body := "\"\\u00g0\"", "\\u00g0";
    assert |text| == 8 && |body| == 6;
    forall i | 0 <= i < 6 ensures text[1..7][i] == body[i] {
      assert text[1..7][i] == text[i + 1];
    }
  }

  lemma BadHexBody()
    ensures LooseBody("\\u00g0") && !HexBody("\\u00g0")
  {
    var body := "\\u00g0";
    assert body[0] == '\\' && body[1] == 'u' && body[4] == 'g' && body[6..] == "";
    assert Unit(body[2], body[3], body[4], body[5]) == 99 * 16;
    EmptyBody();
  }

  const NULL := Item("", NoKey, Token("null"), "")
  const KEYED := Item("", Key("\"a\"", "", ""), Token("null"), "")

  /** The two items may stand in any container after its first. */
  lemma NullItems(mode: Mode)
    ensures ShapedItem(NULL) && OpensItem(NULL) && NumbersItem(NULL, t => Short(t, mode))
    ensures ShapedItem(KEYED) && OpensItem(KEYED) && NumbersItem(KEYED, t => Short(t, mode))
    ensures Nesting(NULL.value) == 0 && Nesting(KEYED.value) == 0
    ensures !StrictItem(NULL, true) && !StrictItem(KEYED, false)
    ensures RenderItem(NULL) == "null" && RenderItem(KEYED) == "\"a\":null"
  {
    assert "\"a\""[1..2] == "a";
  }

  /** A bracket of the wrong kind passes: the counter does not know what was opened. */
  lemma MixedBracketsAccepted(mode: Mode)
    ensures AtValue("[null}", 0, 0, mode) == Some(6) && !IsJson("[null}")
  {
    hide ShapedItem, OpensItem, NumbersItem, StrictItem, RenderItem, AtValue, IsJson;
    NullItems(mode);
    var v := Container(false, "", [NULL], true);
    assert Render(v) == "[null}";
    assert NestingItems([NULL]) == 0;
    AcceptedAnyway(v, mode);
  }

  lemma TwoItems(a: Item, b: Item)
    ensures RenderItems([a, b]) == RenderItem(a) + [','] + RenderItem(b)
    ensures Nesting(a.value) == Nesting(b.value) == 0 ==> NestingItems([a, b]) == 0
  {
    hide RenderItem, Nesting;
    assert [a, b][1..] == [b] && [b][1..] == [];
    assert NestingItems([b]) == Nesting(b.value);
  }

  /** A member without a key passes, after a comma. */
  lemma KeylessMemberAccepted(mode: Mode)
    ensures AtValue("{\"a\":null,null}", 0, 0, mode) == Some(15) && !IsJson("{\"a\":null,null}")
  {
    hide ShapedItem, OpensItem, NumbersItem, StrictItem, RenderItem, RenderItems, NestingItems, AtValue, IsJson;
    NullItems(mode);
    TwoItems(KEYED, NULL);
    var v := Container(true, "", [KEYED, NULL], true);
    assert Render(v) == "{\"a\":null,null}";
    assert v.items[1] == NULL;
    AcceptedAnyway(v, mode);
  }

  /** An element with a key passes, after a comma. */
  lemma KeyedElementAccepted(mode: Mode)
    ensures AtValue("[null,\"a\":null]", 0, 0, mode) == Some(15) && !IsJson("[null,\"a\":null]")
  {
    hide ShapedItem, OpensItem, NumbersItem, StrictItem, RenderItem, RenderItems, NestingItems, AtValue, IsJson;
    NullItems(mode);
    TwoItems(NULL, KEYED);
    var v := Container(false, "", [NULL, KEYED], false);
    assert Render(v) == "[null,\"a\":null]";
    assert v.items[1] == KEYED;
    AcceptedAnyway(v, mode);
  }

  /** Number characters that make no number of RFC 8259 pass when strtod takes them, or when lenient. */
  lemma LooseNumberAccepted(text: string, mode: Mode)
    requires NumberRun(text) && Short(text, mode)
    ensures AtValue(text, 0, 0, mode) == Some(|text|)
    ensures IsJson(text) <==> NumberToken(text)
  {
    hide AtValue, NumberRun, NumberToken, IsJson;
    TokenKinds(text);
    JsonExactlyWhen(Token(text));
    assert text[0..|text|] == text;
    SkipsLoose(Token(text), text, 0, mode);
  }

  /** A leading zero is such a number. */
  lemma LeadingZeroAccepted(mode: Mode)
    requires Short("01", mode)
    ensures AtValue("01", 0, 0, mode) == Some(2) && !IsJson("01")
  {
    LooseNumberAccepted("01", mode);
  }
}
