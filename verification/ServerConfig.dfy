/** The dedicated server's configuration: a file of key = value lines parsed over what is already set, and printed
    back. */
module ServerConfig {
  import opened ConfigText
  import opened Options
  import opened Texts

  const LINE_MAX := 1199
  const LIST_MAX := 1023
  const MAX_MAPS := 16
  const MAP_NAME := 48
  const BIND_IP := 16
  const SIZES := 0x1_0000_0000_0000_0000

  datatype Bind = All | Lan | Tailscale | Address

  datatype Config = Config(
    name: string, motd: string, bind: Bind, bindIp: string, port: nat, maxPlayers: nat, password: string,
    maps: seq<string>, mapCount: nat, mapDir: string, trialDir: string, mode: nat, scoreLimit: nat, timeLimit: nat,
    respawn: nat, bots: nat, botSkill: nat, spawnProtect: nat, classes: bool, duplicateHeroes: bool, tickRate: nat,
    statusFile: string, scripted: bool, errors: nat)

  datatype Key =
    | Name | Motd | BindTo | Port | MaxPlayers | Password | Maps | MapDir | TrialDir | Mode | ScoreLimit | TimeLimit
    | Respawn | Bots | BotSkill | SpawnProtect | Classes | DuplicateHeroes | TickRate | StatusFile | Sim

  /** In the order they are printed. */
  function Keys(): (r: seq<Key>)
    ensures |r| == 21
  {
    [Name, Motd, BindTo, Port, MaxPlayers, Password, Maps, MapDir, TrialDir, Mode, ScoreLimit, TimeLimit,
     Respawn, Bots, BotSkill, SpawnProtect, Classes, DuplicateHeroes, TickRate, StatusFile, Sim]
  }

  function KeyText(k: Key): string {
    match k
    case Name => "name"
    case Motd => "motd"
    case BindTo => "bind"
    case Port => "port"
    case MaxPlayers => "max_players"
    case Password => "password"
    case Maps => "maps"
    case MapDir => "map_dir"
    case TrialDir => "trial_dir"
    case Mode => "mode"
    case ScoreLimit => "score_limit"
    case TimeLimit => "time_limit"
    case Respawn => "respawn"
    case Bots => "bots"
    case BotSkill => "bot_skill"
    case SpawnProtect => "spawn_protect"
    case Classes => "classes"
    case DuplicateHeroes => "duplicate_heroes"
    case TickRate => "tick_rate"
    case StatusFile => "status_file"
    case Sim => "sim"
  }

  lemma KeyTextsDiffer(a: Key, b: Key)
    requires KeyText(a) == KeyText(b)
    ensures a == b
  {
    var s, t := KeyText(a), KeyText(b);
    assert |s| == |t| && s[0] == t[0] && s[1] == t[1] && s[2] == t[2];
  }

  function KeyOf(s: string): Option<Key> { KeyFrom(s, 0) }

  function KeyFrom(s: string, n: nat): (r: Option<Key>)
    requires n <= |Keys()|
    ensures r.Some? ==> KeyText(r.value) == s
    ensures r.None? ==> forall i :: n <= i < |Keys()| ==> KeyText(Keys()[i]) != s
    decreases |Keys()| - n
  {
    if n == |Keys()| then None
    else if KeyText(Keys()[n]) == s then Some(Keys()[n])
    else KeyFrom(s, n + 1)
  }

  lemma KeyOfText(n: nat)
    requires n < |Keys()|
    ensures KeyOf(KeyText(Keys()[n])) == Some(Keys()[n])
  {
    var r := KeyOf(KeyText(Keys()[n]));
    KeyTextsDiffer(r.value, Keys()[n]);
  }

  // ----- values

  predicate Printable(s: string) { forall i :: 0 <= i < |s| ==> ' ' <= s[i] <= '~' }

  predicate MapName(t: string) {
    0 < |t| < MAP_NAME && forall i :: 0 <= i < |t| ==>
      'a' <= t[i] <= 'z' || '0' <= t[i] <= '9' || t[i] == '_' || t[i] == '-'
  }

  function Capped(s: string, n: nat): string { if |s| <= n then s else s[..n] }

  function TextCap(k: Key): nat {
    match k
    case Name => 24
    case Motd => 96
    case Password => 32
    case _ => 256
  }

  function ParseBool(v: string): Option<bool> {
    if v == "on" || v == "yes" || v == "true" || v == "1" then Some(true)
    else if v == "off" || v == "no" || v == "false" || v == "0" then Some(false)
    else None
  }

  function SkillName(n: nat): string {
    if n == 0 then "casual" else if n == 1 then "standard" else if n == 2 then "aggressive" else "brutal"
  }

  function ParseSkill(v: string): Option<int> {
    if v == SkillName(0) then Some(0) else if v == SkillName(1) then Some(1) else if v == SkillName(2) then Some(2)
    else if v == SkillName(3) then Some(3) else ParseInt(v, 0, 3)
  }

  function ModeName(n: nat): string { if n == 1 then "team" else if n == 2 then "ctf" else "slayer" }

  function ParseMode(v: string): Option<nat> {
    if v == "slayer" then Some(0)
    else if v == "team" || v == "team_slayer" then Some(1)
    else if v == "ctf" then Some(2)
    else None
  }

  function Range(k: Key): (int, int) {
    match k
    case Port => (1, 65535)
    case MaxPlayers => (2, 8)
    case ScoreLimit => (0, 255)
    case TimeLimit => (0, 120)
    case Respawn => (1, 60)
    case Bots => (0, 15)
    case SpawnProtect => (0, 10)
    case TickRate => (20, 120)
    case _ => (0, 3)
  }

  predicate TextKey(k: Key) { k.Name? || k.Motd? || k.Password? || k.MapDir? || k.TrialDir? || k.StatusFile? }

  predicate NumberKey(k: Key) {
    k.Port? || k.MaxPlayers? || k.ScoreLimit? || k.TimeLimit? || k.Respawn? || k.Bots? || k.SpawnProtect? || k.TickRate?
  }

  function WithText(c: Config, k: Key, v: string): (r: Config)
    ensures r.maps == c.maps
  {
    match k
    case Name => c.(name := v)
    case Motd => c.(motd := v)
    case Password => c.(password := v)
    case MapDir => c.(mapDir := v)
    case TrialDir => c.(trialDir := v)
    case StatusFile => c.(statusFile := v)
    case _ => c
  }

  function TextOf(c: Config, k: Key): string {
    match k
    case Name => c.name
    case Motd => c.motd
    case Password => if c.password != "" then "(set)" else ""
    case MapDir => c.mapDir
    case TrialDir => c.trialDir
    case StatusFile => c.statusFile
    case _ => ""
  }

  function WithNumber(c: Config, k: Key, n: nat): (r: Config)
    ensures r.maps == c.maps
  {
    match k
    case Port => c.(port := n)
    case MaxPlayers => c.(maxPlayers := n)
    case ScoreLimit => c.(scoreLimit := n)
    case TimeLimit => c.(timeLimit := n)
    case Respawn => c.(respawn := n)
    case Bots => c.(bots := n)
    case SpawnProtect => c.(spawnProtect := n)
    case TickRate => c.(tickRate := n)
    case _ => c
  }

  function NumberOf(c: Config, k: Key): nat {
    match k
    case Port => c.port
    case MaxPlayers => c.maxPlayers
    case ScoreLimit => c.scoreLimit
    case TimeLimit => c.timeLimit
    case Respawn => c.respawn
    case Bots => c.bots
    case SpawnProtect => c.spawnProtect
    case TickRate => c.tickRate
    case _ => 0
  }

  function Bad(c: Config): Config { c.(errors := c.errors + 1) }

  /** Map names are stored as they are read, so a bad one leaves those before it in the slots. */
  function TakeMaps(c: Config, count: nat, tokens: seq<string>): Config
    requires count <= MAX_MAPS == |c.maps|
    decreases |tokens|
  {
    if tokens == [] then if count == 0 then Bad(c) else c.(mapCount := count)
    else if !MapName(tokens[0]) || count == MAX_MAPS then Bad(c)
    else TakeMaps(c.(maps := c.maps[count := tokens[0]]), count + 1, tokens[1..])
  }

  function BindWord(v: string): (r: Option<Bind>)
    ensures r.Some? ==> !r.value.Address?
  {
    if v == "all" || v == "0.0.0.0" then Some(All)
    else if v == "lan" then Some(Lan)
    else if v == "tailscale" then Some(Tailscale)
    else None
  }

  function SetBind(c: Config, v: string, dotted: string -> bool): (r: Config)
    ensures r.maps == c.maps
  {
    match BindWord(v)
    case Some(b) => c.(bind := b)
    case None => if dotted(v) then c.(bind := Address, bindIp := Capped(v, BIND_IP - 1)) else Bad(c)
  }

  /** One key's value, checked and stored, or one more error. */
  function Set(c: Config, k: Key, v: string, dotted: string -> bool): Config
    requires |c.maps| == MAX_MAPS
  {
    if TextKey(k) then if |v| >= TextCap(k) || !Printable(v) then Bad(c) else WithText(c, k, v)
    else if NumberKey(k) then
      match ParseInt(v, Range(k).0, Range(k).1)
      case Some(n) => WithNumber(c, k, if n < 0 then 0 else n)
      case None => Bad(c)
    else match k
      case BindTo => SetBind(c, v, dotted)
      case Maps => TakeMaps(c, 0, Tokens(Capped(v, LIST_MAX)))
      case Mode => (match ParseMode(v) case Some(n) => c.(mode := n) case None => Bad(c))
      case BotSkill => (match ParseSkill(v) case Some(n) => c.(botSkill := if n < 0 then 0 else n) case None => Bad(c))
      case Classes => (match ParseBool(v) case Some(b) => c.(classes := b) case None => Bad(c))
      case DuplicateHeroes => (match ParseBool(v) case Some(b) => c.(duplicateHeroes := b) case None => Bad(c))
      case Sim =>
        if v == "match" then c.(scripted := false)
        else if v == "scripted" then c.(scripted := true)
        else Bad(c)
      case _ => c
  }

  lemma {:induction false} TakeMapsSlots(c: Config, count: nat, tokens: seq<string>)
    requires count <= MAX_MAPS == |c.maps|
    ensures |TakeMaps(c, count, tokens).maps| == MAX_MAPS
    decreases |tokens|
  {
    if tokens != [] && MapName(tokens[0]) && count < MAX_MAPS {
      TakeMapsSlots(c.(maps := c.maps[count := tokens[0]]), count + 1, tokens[1..]);
    }
  }

  lemma SetSlots(c: Config, k: Key, v: string, dotted: string -> bool)
    requires |c.maps| == MAX_MAPS
    ensures |Set(c, k, v, dotted).maps| == MAX_MAPS
  {
    hide ParseInt, Tokens, ParseBool, ParseMode, ParseSkill, Printable, TextKey, NumberKey, TakeMaps, WithText,
      WithNumber, SetBind, Range;
    TakeMapsSlots(c, 0, Tokens(Capped(v, LIST_MAX)));
  }

  // ----- lines

  /** The text of a line that counts: as much as the line buffer holds, to a NUL or a #, trimmed. */
  function Clean(raw: string): string { Trim(Before(Before(Capped(raw, LINE_MAX), '\0'), '#')) }

  /** An unknown key is only warned about. */
  function Applied(c: Config, k: string, v: string, dotted: string -> bool): Config
    requires |c.maps| == MAX_MAPS
  {
    match KeyOf(k) case None => c case Some(key) => Set(c, key, v, dotted)
  }

  function Line(c: Config, raw: string, dotted: string -> bool): Config
    requires |c.maps| == MAX_MAPS
  {
    var s := Clean(raw);
    var k := Before(s, '=');
    if s == "" then c
    else if |k| >= |s| then Bad(c)
    else Applied(c, Trim(k), Trim(s[|k| + 1..]), dotted)
  }

  function Lines(c: Config, lines: seq<string>, dotted: string -> bool): (r: Config)
    requires |c.maps| == MAX_MAPS
    ensures |r.maps| == MAX_MAPS
    decreases |lines|
  {
    if lines == [] then c
    else
      LineSlots(c, lines[0], dotted);
      Lines(Line(c, lines[0], dotted), lines[1..], dotted)
  }

  lemma LineSlots(c: Config, raw: string, dotted: string -> bool)
    requires |c.maps| == MAX_MAPS
    ensures |Line(c, raw, dotted).maps| == MAX_MAPS
  {
    hide Set, Clean, Before, Trim, KeyFrom;
    var s := Clean(raw);
    var k := Before(s, '=');
    if |k| < |s| && KeyOf(Trim(k)).Some? {
      SetSlots(c, KeyOf(Trim(k)).value, Trim(s[|k| + 1..]), dotted);
    }
  }

  /** What parsing a text over a configuration makes of it. */
  function Parsed(c: Config, text: string, dotted: string -> bool): (r: Config)
    requires |c.maps| == MAX_MAPS
    ensures |r.maps| == MAX_MAPS
  {
    Lines(c, Split('\n', text), dotted)
  }

  // ----- what is refused

  /** The values a key takes. */
  predicate Takes(k: Key, v: string, dotted: string -> bool) {
    if TextKey(k) then |v| < TextCap(k) && Printable(v)
    else if NumberKey(k) then ParseInt(v, Range(k).0, Range(k).1).Some?
    else match k
      case BindTo => BindWord(v).Some? || dotted(v)
      case Maps => (var names := Tokens(Capped(v, LIST_MAX)); 0 < |names| <= MAX_MAPS && AllMapNames(names))
      case Mode => ModeWord(v)
      case BotSkill => SkillWord(v) || ParseInt(v, 0, 3).Some?
      case Sim => v == "match" || v == "scripted"
      case _ => SwitchWord(v)
  }

  predicate ModeWord(v: string) { v in {"slayer", "team", "team_slayer", "ctf"} }

  predicate SkillWord(v: string) { v in {"casual", "standard", "aggressive", "brutal"} }

  predicate SwitchWord(v: string) { v in {"on", "yes", "true", "1", "off", "no", "false", "0"} }

  predicate AllMapNames(names: seq<string>) { forall i :: 0 <= i < |names| ==> MapName(names[i]) }

  /** One more error, and nothing else changed but map slots. */
  predicate OnlyError(c: Config, r: Config) { r == c.(errors := c.errors + 1, maps := r.maps) }

  lemma {:induction false} TakeMapsTakes(c: Config, count: nat, names: seq<string>)
    requires count <= MAX_MAPS == |c.maps|
    ensures var r := TakeMaps(c, count, names);
      if 0 < count + |names| <= MAX_MAPS && AllMapNames(names) then r.errors == c.errors else OnlyError(c, r)
    decreases |names|
  {
    hide MapName;
    if names != [] && MapName(names[0]) && count < MAX_MAPS {
      TakeMapsTakes(c.(maps := c.maps[count := names[0]]), count + 1, names[1..]);
      assert names == [names[0]] + names[1..];
    }
  }

  /** A value the key does not take is one more error and changes no setting; any other is none. */
  lemma SetTakes(c: Config, k: Key, v: string, dotted: string -> bool)
    requires |c.maps| == MAX_MAPS
    ensures var r := Set(c, k, v, dotted); if Takes(k, v, dotted) then r.errors == c.errors else OnlyError(c, r)
    ensures !k.Maps? && !Takes(k, v, dotted) ==> Set(c, k, v, dotted).maps == c.maps
  {
    hide Set, Takes, Tokens, TakeMaps, AllMapNames;
    if TextKey(k) || NumberKey(k) {
      PlainTakes(c, k, v, dotted);
    } else if k.Maps? {
      TakeMapsTakes(c, 0, Tokens(Capped(v, LIST_MAX)));
      MapsTakes(c, v, dotted);
    } else if k.BindTo? {
      BindTakes(c, v, dotted);
    } else {
      OtherTakes(c, k, v, dotted);
    }
  }

  lemma BindTakes(c: Config, v: string, dotted: string -> bool)
    requires |c.maps| == MAX_MAPS
    ensures var r := Set(c, BindTo, v, dotted);
      r.maps == c.maps && if Takes(BindTo, v, dotted) then r.errors == c.errors else OnlyError(c, r)
  {
    hide BindWord, Capped;
  }

  lemma PlainTakes(c: Config, k: Key, v: string, dotted: string -> bool)
    requires |c.maps| == MAX_MAPS && (TextKey(k) || NumberKey(k))
    ensures var r := Set(c, k, v, dotted);
      r.maps == c.maps && if Takes(k, v, dotted) then r.errors == c.errors else OnlyError(c, r)
  {
    hide ParseInt, Printable, Range, TextCap;
  }

  lemma MapsTakes(c: Config, v: string, dotted: string -> bool)
    requires |c.maps| == MAX_MAPS
    ensures Set(c, Maps, v, dotted) == TakeMaps(c, 0, Tokens(Capped(v, LIST_MAX)))
    ensures var names := Tokens(Capped(v, LIST_MAX));
      Takes(Maps, v, dotted) <==> 0 < |names| <= MAX_MAPS && AllMapNames(names)
  {
    hide Tokens, TakeMaps, AllMapNames;
  }

  lemma OtherTakes(c: Config, k: Key, v: string, dotted: string -> bool)
    requires |c.maps| == MAX_MAPS && !TextKey(k) && !NumberKey(k) && !k.Maps? && !k.BindTo?
    ensures var r := Set(c, k, v, dotted);
      r.maps == c.maps && if Takes(k, v, dotted) then r.errors == c.errors else OnlyError(c, r)
  {
    hide ParseInt, ParseBool, ParseMode, ParseSkill, ModeWord, SkillWord, SwitchWord, SetBind, TakeMaps, Tokens;
    ChoiceTakes(v);
  }

  lemma ChoiceTakes(v: string)
    ensures ParseMode(v).Some? <==> ModeWord(v)
    ensures ParseBool(v).Some? <==> SwitchWord(v)
    ensures ParseSkill(v).Some? <==> SkillWord(v) || ParseInt(v, 0, 3).Some?
  {
    hide ParseInt;
  }

  // ----- what the keys say

  lemma FirstNames()
    ensures Named([Name, Motd, BindTo, Port, MaxPlayers, Password, Maps],
                  ["name", "motd", "bind", "port", "max_players", "password", "maps"], 0)
  {}

  lemma MiddleNames()
    ensures Named([MapDir, TrialDir, Mode, ScoreLimit, TimeLimit, Respawn, Bots],
                  ["map_dir", "trial_dir", "mode", "score_limit", "time_limit", "respawn", "bots"], 7)
  {}

  lemma LastNames()
    ensures Named([BotSkill, SpawnProtect, Classes, DuplicateHeroes, TickRate, StatusFile, Sim],
                  ["bot_skill", "spawn_protect", "classes", "duplicate_heroes", "tick_rate", "status_file", "sim"], 14)
  {}

  /** The keys as a file names them, in the order they are printed. */
  lemma KeyNames()
    ensures Named([Name, Motd, BindTo, Port, MaxPlayers, Password, Maps],
                  ["name", "motd", "bind", "port", "max_players", "password", "maps"], 0)
    ensures Named([MapDir, TrialDir, Mode, ScoreLimit, TimeLimit, Respawn, Bots],
                  ["map_dir", "trial_dir", "mode", "score_limit", "time_limit", "respawn", "bots"], 7)
    ensures Named([BotSkill, SpawnProtect, Classes, DuplicateHeroes, TickRate, StatusFile, Sim],
                  ["bot_skill", "spawn_protect", "classes", "duplicate_heroes", "tick_rate", "status_file", "sim"], 14)
  {
    hide Keys, KeyText, Named;
    FirstNames();
    MiddleNames();
    LastNames();
  }

  predicate Named(keys: seq<Key>, texts: seq<string>, first: nat) {
    |keys| == |texts| == 7 && first + 7 <= |Keys()| &&
    Keys()[first..first + 7] == keys && forall i :: 0 <= i < 7 ==> KeyText(keys[i]) == texts[i]
  }

  predicate Shown(v: string, most: nat) {
    |v| <= most && forall i :: 0 <= i < |v| ==> 32 <= v[i] as int <= 126
  }

  /** The text spells a number in the range. */
  ghost predicate Within(v: string, low: int, high: int) {
    exists n :: Spells(v, n) && low <= n <= high
  }

  /** The text spells this number. */
  ghost predicate Says(v: string, n: nat) { Spells(v, n) }

  ghost predicate Known(k: Key, v: string, dotted: string -> bool) {
    match k
    case Name => Shown(v, 23)
    case Motd => Shown(v, 95)
    case Password => Shown(v, 31)
    case MapDir => Shown(v, 255)
    case TrialDir => Shown(v, 255)
    case StatusFile => Shown(v, 255)
    case Port => Within(v, 1, 65535)
    case MaxPlayers => Within(v, 2, 8)
    case ScoreLimit => Within(v, 0, 255)
    case TimeLimit => Within(v, 0, 120)
    case Respawn => Within(v, 1, 60)
    case Bots => Within(v, 0, 15)
    case SpawnProtect => Within(v, 0, 10)
    case TickRate => Within(v, 20, 120)
    case BotSkill => v in {"casual", "standard", "aggressive", "brutal"} || Within(v, 0, 3)
    case Mode => v in {"slayer", "team", "team_slayer", "ctf"}
    case Classes => v in {"on", "yes", "true", "1", "off", "no", "false", "0"}
    case DuplicateHeroes => v in {"on", "yes", "true", "1", "off", "no", "false", "0"}
    case Sim => v in {"match", "scripted"}
    case BindTo => v in {"all", "0.0.0.0", "lan", "tailscale"} || dotted(v)
    case Maps => KnownMaps(Tokens(if |v| <= 1023 then v else v[..1023]))
  }

  predicate KnownMaps(names: seq<string>) {
    1 <= |names| <= 16 && forall i :: 0 <= i < |names| ==>
      1 <= |names[i]| <= 47 && forall j :: 0 <= j < |names[i]| ==> NameCode(names[i][j] as int)
  }

  /** A lower-case letter, a digit, an underscore or a hyphen. */
  predicate NameCode(n: int) { 97 <= n <= 122 || 48 <= n <= 57 || n == 95 || n == 45 }

  /** What the key's value sets, and that it sets nothing else. */
  ghost predicate Means(c: Config, k: Key, v: string, r: Config) {
    match k
    case Name => r == c.(name := v)
    case Motd => r == c.(motd := v)
    case Password => r == c.(password := v)
    case MapDir => r == c.(mapDir := v)
    case TrialDir => r == c.(trialDir := v)
    case StatusFile => r == c.(statusFile := v)
    case Port => r == c.(port := r.port) && Says(v, r.port)
    case MaxPlayers => r == c.(maxPlayers := r.maxPlayers) && Says(v, r.maxPlayers)
    case ScoreLimit => r == c.(scoreLimit := r.scoreLimit) && Says(v, r.scoreLimit)
    case TimeLimit => r == c.(timeLimit := r.timeLimit) && Says(v, r.timeLimit)
    case Respawn => r == c.(respawn := r.respawn) && Says(v, r.respawn)
    case Bots => r == c.(bots := r.bots) && Says(v, r.bots)
    case SpawnProtect => r == c.(spawnProtect := r.spawnProtect) && Says(v, r.spawnProtect)
    case TickRate => r == c.(tickRate := r.tickRate) && Says(v, r.tickRate)
    case BotSkill => r == c.(botSkill := r.botSkill) && SkillMeant(v, r.botSkill)
    case Mode => r == c.(mode := if v == "slayer" then 0 else if v == "ctf" then 2 else 1)
    case Classes => r == c.(classes := v in {"on", "yes", "true", "1"})
    case DuplicateHeroes => r == c.(duplicateHeroes := v in {"on", "yes", "true", "1"})
    case Sim => r == c.(scripted := v == "scripted")
    case BindTo => r == BindMeant(c, v)
    case Maps => MapsMeant(c, Tokens(if |v| <= 1023 then v else v[..1023]), r)
  }

  ghost predicate SkillMeant(v: string, n: nat) {
    if v == "casual" then n == 0 else if v == "standard" then n == 1 else if v == "aggressive" then n == 2
    else if v == "brutal" then n == 3 else Says(v, n)
  }

  function BindMeant(c: Config, v: string): Config {
    if v in {"all", "0.0.0.0"} then c.(bind := All) else if v == "lan" then c.(bind := Lan)
    else if v == "tailscale" then c.(bind := Tailscale)
    else c.(bind := Address, bindIp := if |v| <= 15 then v else v[..15])
  }

  /** The names fill the first slots in order; the other slots stay. */
  predicate MapsMeant(c: Config, names: seq<string>, r: Config) {
    && r == c.(maps := r.maps, mapCount := |names|) && |r.maps| == |c.maps|
    && forall i :: 0 <= i < |r.maps| ==> r.maps[i] == if i < |names| then names[i] else c.maps[i]
  }

  lemma TextMeans(c: Config, k: Key, v: string, dotted: string -> bool)
    requires |c.maps| == MAX_MAPS && TextKey(k)
    ensures Takes(k, v, dotted) <==> Known(k, v, dotted)
    ensures Takes(k, v, dotted) ==> Means(c, k, v, Set(c, k, v, dotted))
  {
    hide ParseInt, Tokens, Within, Says, BindMeant, MapsMeant, KnownMaps;
  }

  lemma NumberWithin(v: string, low: nat, high: nat)
    ensures ParseInt(v, low, high).Some? <==> Within(v, low, high)
    ensures ParseInt(v, low, high).Some? ==>
      ParseInt(v, low, high).value >= low && Says(v, ParseInt(v, low, high).value)
  {
    hide ParseInt, Spells;
    var r := ParseInt(v, low, high);
    if r.Some? {
      ParseIntExactly(v, low, high, r.value);
    }
    if Within(v, low, high) {
      var n :| Spells(v, n) && low <= n <= high;
      ParseIntExactly(v, low, high, n);
    }
  }

  lemma NumberMeans(c: Config, k: Key, v: string, dotted: string -> bool)
    requires |c.maps| == MAX_MAPS && NumberKey(k)
    ensures Takes(k, v, dotted) <==> Known(k, v, dotted)
    ensures Takes(k, v, dotted) ==> Means(c, k, v, Set(c, k, v, dotted))
  {
    NumberWithin(v, Range(k).0, Range(k).1);
    hide ParseInt, Tokens, Within, Says, BindMeant, MapsMeant, KnownMaps;
  }

  lemma SkillMeans(c: Config, v: string, dotted: string -> bool)
    requires |c.maps| == MAX_MAPS
    ensures Takes(BotSkill, v, dotted) <==> Known(BotSkill, v, dotted)
    ensures Takes(BotSkill, v, dotted) ==> Means(c, BotSkill, v, Set(c, BotSkill, v, dotted))
  {
    hide Tokens, BindMeant, MapsMeant, KnownMaps, ParseInt, Within, Says;
    NumberWithin(v, 0, 3);
  }

  lemma SwitchMeans(c: Config, k: Key, v: string, dotted: string -> bool)
    requires |c.maps| == MAX_MAPS && (k.Classes? || k.DuplicateHeroes?)
    ensures Takes(k, v, dotted) <==> Known(k, v, dotted)
    ensures Takes(k, v, dotted) ==> Means(c, k, v, Set(c, k, v, dotted))
  {
    hide ParseInt, Tokens, Within, Says, BindMeant, MapsMeant, KnownMaps, SkillMeant, ParseSkill, Shown, Printable;
    hide ParseMode, ModeWord, SkillWord;
  }

  lemma ChoiceMeans(c: Config, k: Key, v: string, dotted: string -> bool)
    requires |c.maps| == MAX_MAPS && (k.Mode? || k.Sim?)
    ensures Takes(k, v, dotted) <==> Known(k, v, dotted)
    ensures Takes(k, v, dotted) ==> Means(c, k, v, Set(c, k, v, dotted))
  {
    hide ParseInt, Tokens, Within, Says, BindMeant, MapsMeant, KnownMaps, SkillMeant, ParseSkill, Shown, Printable;
    hide ParseBool, SwitchWord, SkillWord;
  }

  lemma BindMeans(c: Config, v: string, dotted: string -> bool)
    requires |c.maps| == MAX_MAPS
    ensures Takes(BindTo, v, dotted) <==> Known(BindTo, v, dotted)
    ensures Takes(BindTo, v, dotted) ==> Means(c, BindTo, v, Set(c, BindTo, v, dotted))
  {
    hide ParseInt, Tokens, Within, Says, MapsMeant, KnownMaps;
  }

  lemma {:induction false} MapsTaken(c: Config, count: nat, names: seq<string>)
    requires count + |names| <= MAX_MAPS == |c.maps| && 0 < count + |names| && AllMapNames(names)
    ensures var r := TakeMaps(c, count, names);
      && r == c.(maps := r.maps, mapCount := count + |names|) && |r.maps| == MAX_MAPS
      && forall i :: 0 <= i < MAX_MAPS ==>
        r.maps[i] == if count <= i < count + |names| then names[i - count] else c.maps[i]
    decreases |names|
  {
    hide MapName;
    if names != [] {
      MapsTaken(c.(maps := c.maps[count := names[0]]), count + 1, names[1..]);
    }
  }

  lemma MapNamesKnown(names: seq<string>)
    ensures 0 < |names| <= MAX_MAPS && AllMapNames(names) <==> KnownMaps(names)
  {}

  lemma MapsMeans(c: Config, v: string, dotted: string -> bool)
    requires |c.maps| == MAX_MAPS
    ensures Takes(Maps, v, dotted) <==> Known(Maps, v, dotted)
    ensures Takes(Maps, v, dotted) ==> Means(c, Maps, v, Set(c, Maps, v, dotted))
  {
    hide Tokens, TakeMaps, AllMapNames, KnownMaps;
    var names := Tokens(Capped(v, LIST_MAX));
    MapsTakes(c, v, dotted);
    MapNamesKnown(names);
    if Takes(Maps, v, dotted) {
      MapsTaken(c, 0, names);
    }
  }

  /** Every key takes exactly the values it is known to, and they set what they mean. */
  lemma KeyMeans(c: Config, k: Key, v: string, dotted: string -> bool)
    requires |c.maps| == MAX_MAPS
    ensures Takes(k, v, dotted) <==> Known(k, v, dotted)
    ensures Takes(k, v, dotted) ==> Means(c, k, v, Set(c, k, v, dotted))
  {
    hide Takes, Known, Means, Set;
    if TextKey(k) {
      TextMeans(c, k, v, dotted);
    } else if NumberKey(k) {
      NumberMeans(c, k, v, dotted);
    } else if k.Maps? {
      MapsMeans(c, v, dotted);
    } else if k.BindTo? {
      BindMeans(c, v, dotted);
    } else if k.BotSkill? {
      SkillMeans(c, v, dotted);
    } else if k.Classes? || k.DuplicateHeroes? {
      SwitchMeans(c, k, v, dotted);
    } else {
      ChoiceMeans(c, k, v, dotted);
    }
  }

  /** A line without an equals sign, or with a value its key does not take. */
  predicate Refused(raw: string, dotted: string -> bool) {
    var s := Clean(raw);
    var k := Before(s, '=');
    s != "" && (|k| >= |s| || (KeyOf(Trim(k)).Some? && !Takes(KeyOf(Trim(k)).value, Trim(s[|k| + 1..]), dotted)))
  }

  function RefusedLines(lines: seq<string>, dotted: string -> bool): nat {
    if lines == [] then 0 else (if Refused(lines[0], dotted) then 1 else 0) + RefusedLines(lines[1..], dotted)
  }

  lemma LineErrors(c: Config, raw: string, dotted: string -> bool)
    requires |c.maps| == MAX_MAPS
    ensures var r := Line(c, raw, dotted); if Refused(raw, dotted) then OnlyError(c, r) else r.errors == c.errors
  {
    hide Clean, Before, Trim, Set, Takes, KeyFrom;
    var s := Clean(raw);
    var k := Before(s, '=');
    if s != "" && |k| < |s| && KeyOf(Trim(k)).Some? {
      SetTakes(c, KeyOf(Trim(k)).value, Trim(s[|k| + 1..]), dotted);
    }
  }

  /** The errors are as many as the refused lines. */
  lemma {:induction false} LinesErrors(c: Config, lines: seq<string>, dotted: string -> bool)
    requires |c.maps| == MAX_MAPS
    ensures Lines(c, lines, dotted).errors == c.errors + RefusedLines(lines, dotted)
    decreases |lines|
  {
    hide Line, Refused;
    if lines != [] {
      LineSlots(c, lines[0], dotted);
      LineErrors(c, lines[0], dotted);
      LinesErrors(Line(c, lines[0], dotted), lines[1..], dotted);
    }
  }

  // ----- printing

  function BindText(c: Config): string {
    match c.bind case All => "all" case Lan => "lan" case Tailscale => "tailscale" case Address => c.bindIp
  }

  function OnOff(b: bool): string { if b then "on" else "off" }

  function Value(c: Config, k: Key): string
    requires c.mapCount <= |c.maps|
  {
    if TextKey(k) then TextOf(c, k)
    else if NumberKey(k) then Decimal(NumberOf(c, k))
    else match k
      case BindTo => BindText(c)
      case Maps => Listed(c.maps[..c.mapCount])
      case Mode => ModeName(c.mode)
      case BotSkill => SkillName(c.botSkill % 4)
      case Classes => OnOff(c.classes)
      case DuplicateHeroes => OnOff(c.duplicateHeroes)
      case Sim => if c.scripted then "scripted" else "match"
      case _ => ""
  }

  function PrintedLine(c: Config, k: Key): string
    requires c.mapCount <= |c.maps|
  {
    KeyText(k) + " = " + Value(c, k)
  }

  /** What stands after a key's equals sign in a printed file. */
  function Written(c: Config, k: Key): string
    requires c.mapCount <= |c.maps|
  {
    match k
    case Name => c.name
    case Motd => c.motd
    case BindTo =>
      (match c.bind case All => "all" case Lan => "lan" case Tailscale => "tailscale" case Address => c.bindIp)
    case Port => Decimal(c.port)
    case MaxPlayers => Decimal(c.maxPlayers)
    case Password => if c.password == "" then "" else "(set)"
    case Maps => Listed(c.maps[..c.mapCount])
    case MapDir => c.mapDir
    case TrialDir => c.trialDir
    case Mode => if c.mode == 1 then "team" else if c.mode == 2 then "ctf" else "slayer"
    case ScoreLimit => Decimal(c.scoreLimit)
    case TimeLimit => Decimal(c.timeLimit)
    case Respawn => Decimal(c.respawn)
    case Bots => Decimal(c.bots)
    case BotSkill => ["casual", "standard", "aggressive", "brutal"][c.botSkill % 4]
    case SpawnProtect => Decimal(c.spawnProtect)
    case Classes => if c.classes then "on" else "off"
    case DuplicateHeroes => if c.duplicateHeroes then "on" else "off"
    case TickRate => Decimal(c.tickRate)
    case StatusFile => c.statusFile
    case Sim => if c.scripted then "scripted" else "match"
  }

  /** Each line is the key's name, an equals sign between spaces, and the value as written. */
  lemma LineWritten(c: Config, k: Key)
    requires c.mapCount <= |c.maps|
    ensures PrintedLine(c, k) == KeyText(k) + " = " + Written(c, k)
  {
    hide KeyText, Decimal, Listed;
  }

  function PrintedFrom(c: Config, n: nat): string
    requires c.mapCount <= |c.maps| && n <= |Keys()|
    decreases |Keys()| - n
  {
    if n == |Keys()| then "" else PrintedLine(c, Keys()[n]) + ['\n'] + PrintedFrom(c, n + 1)
  }

  function Printed(c: Config): string
    requires c.mapCount <= |c.maps|
  {
    PrintedFrom(c, 0)
  }

  // ----- what every parsed configuration keeps

  predicate Harmless(s: string) { forall i :: 0 <= i < |s| ==> s[i] != '#' && s[i] != '\n' && s[i] != '\0' }

  predicate CleanText(s: string) { Trimmed(s) && Harmless(s) }

  ghost predicate Kept(c: Config) {
    && |c.maps| == MAX_MAPS && 0 < c.mapCount <= MAX_MAPS
    && (forall i :: 0 <= i < c.mapCount ==> MapName(c.maps[i]))
    && (forall k :: TextKey(k) ==> TextKept(c, k))
    && (forall k :: NumberKey(k) ==> Range(k).0 <= NumberOf(c, k) <= Range(k).1)
    && c.mode < 3 && c.botSkill < 4 && Harmless(c.bindIp) && |c.bindIp| < BIND_IP
  }

  function RawText(c: Config, k: Key): string { if k.Password? then c.password else TextOf(c, k) }

  ghost predicate TextKept(c: Config, k: Key) {
    CleanText(RawText(c, k)) && |RawText(c, k)| < TextCap(k) && Printable(RawText(c, k))
  }

  function Defaults(): Config {
    Config("Megamod Server", "", All, "", 32270, 8, "",
           seq(MAX_MAPS, i => if i == 0 then "bloodgulch" else ""), 1, "", "", 0, 0, 0, 5, 3, 1, 3, false, false, 60,
             "", false, 0)
  }

  lemma DefaultsKept()
    ensures Kept(Defaults())
  {
    hide MapName, Printable, Range, NumberOf, TextKept;
    DefaultMap();
    forall k | TextKey(k) ensures TextKept(Defaults(), k) { DefaultText(k); }
    forall k | NumberKey(k) ensures Range(k).0 <= NumberOf(Defaults(), k) <= Range(k).1 { DefaultNumber(k); }
  }

  lemma DefaultMap()
    ensures MapName(Defaults().maps[0])
  {}

  lemma DefaultText(k: Key)
    requires TextKey(k)
    ensures TextKept(Defaults(), k)
  {
    if k.Name? {
      DefaultName();
    } else {
      assert RawText(Defaults(), k) == "";
    }
  }

  lemma DefaultName()
    ensures TextKept(Defaults(), Name)
  {
    var s := "Megamod Server";
    assert |s| == 14 && RawText(Defaults(), Name) == s;
    assert Trimmed(s) && Harmless(s) && Printable(s);
  }

  lemma DefaultNumber(k: Key)
    requires NumberKey(k)
    ensures Range(k).0 <= NumberOf(Defaults(), k) <= Range(k).1
  {}

  lemma {:induction false} TakeMapsKept(c: Config, count: nat, tokens: seq<string>)
    requires Kept(c) && count <= MAX_MAPS && forall i :: 0 <= i < count ==> MapName(c.maps[i])
    ensures Kept(TakeMaps(c, count, tokens))
    decreases |tokens|
  {
    hide MapName, TextKept, NumberOf, Range;
    if tokens == [] {
      MapsKept(c, c.maps, if count == 0 then c.mapCount else count);
    } else if MapName(tokens[0]) && count < MAX_MAPS {
      MapsKept(c, c.maps[count := tokens[0]], c.mapCount);
      TakeMapsKept(c.(maps := c.maps[count := tokens[0]]), count + 1, tokens[1..]);
    }
    BadKept(c);
  }

  lemma MapsKept(c: Config, maps: seq<string>, count: nat)
    requires Kept(c) && |maps| == MAX_MAPS && 0 < count <= MAX_MAPS && forall i :: 0 <= i < count ==> MapName(maps[i])
    ensures Kept(c.(maps := maps, mapCount := count))
  {
    var c' := c.(maps := maps, mapCount := count);
    forall k | TextKey(k) ensures TextKept(c', k) {
      assert TextKept(c, k) && RawText(c', k) == RawText(c, k);
    }
    forall k | NumberKey(k) ensures Range(k).0 <= NumberOf(c', k) <= Range(k).1 {
      assert NumberOf(c', k) == NumberOf(c, k);
    }
  }

  lemma BadKept(c: Config)
    requires Kept(c)
    ensures Kept(Bad(c))
  {
    hide MapName;
    var c' := Bad(c);
    forall k | TextKey(k) ensures TextKept(c', k) {
      assert TextKept(c, k) && RawText(c', k) == RawText(c, k);
    }
    forall k | NumberKey(k) ensures Range(k).0 <= NumberOf(c', k) <= Range(k).1 {
      assert NumberOf(c', k) == NumberOf(c, k);
    }
  }

  lemma TextsKept(c: Config, k: Key, v: string)
    requires Kept(c) && TextKey(k) && CleanText(v) && |v| < TextCap(k) && Printable(v)
    ensures Kept(WithText(c, k, v))
  {
    hide MapName, CleanText, Printable;
    var c' := WithText(c, k, v);
    forall j | TextKey(j) ensures TextKept(c', j) {
      assert TextKept(c, j);
      assert RawText(c', j) == if j == k then v else RawText(c, j);
    }
    forall j | NumberKey(j) ensures Range(j).0 <= NumberOf(c', j) <= Range(j).1 {
      assert NumberOf(c', j) == NumberOf(c, j);
    }
  }

  lemma NumbersKept(c: Config, k: Key, n: nat)
    requires Kept(c) && NumberKey(k) && Range(k).0 <= n <= Range(k).1
    ensures Kept(WithNumber(c, k, n))
  {
    hide MapName, CleanText, Printable;
    var c' := WithNumber(c, k, n);
    forall j | TextKey(j) ensures TextKept(c', j) {
      assert TextKept(c, j) && RawText(c', j) == RawText(c, j);
    }
    forall j | NumberKey(j) ensures Range(j).0 <= NumberOf(c', j) <= Range(j).1 {
      assert NumberOf(c', j) == if j == k then n else NumberOf(c, j);
    }
  }

  /** The fields that are neither text nor number. */
  lemma OthersKept(c: Config, bind: Bind, bindIp: string, mode: nat, botSkill: nat, classes: bool, heroes: bool,
    scripted: bool)
    requires Kept(c) && mode < 3 && botSkill < 4 && Harmless(bindIp) && |bindIp| < BIND_IP
    ensures Kept(c.(bind := bind, bindIp := bindIp, mode := mode, botSkill := botSkill, classes := classes,
                    duplicateHeroes := heroes, scripted := scripted))
  {
    hide MapName, CleanText, Printable;
    var c' := c.(bind := bind, bindIp := bindIp, mode := mode, botSkill := botSkill, classes := classes,
      duplicateHeroes := heroes, scripted := scripted);
    forall k | TextKey(k) ensures TextKept(c', k) {
      assert TextKept(c, k) && RawText(c', k) == RawText(c, k);
    }
    forall k | NumberKey(k) ensures Range(k).0 <= NumberOf(c', k) <= Range(k).1 {
      assert NumberOf(c', k) == NumberOf(c, k);
    }
  }

  lemma SetKept(c: Config, k: Key, v: string, dotted: string -> bool)
    requires Kept(c) && CleanText(v)
    ensures Kept(Set(c, k, v, dotted))
  {
    hide Kept, Tokens, Printable, TakeMaps, ParseBool, ParseInt;
    KeptSlots(c);
    BadKept(c);
    if TextKey(k) {
      if |v| < TextCap(k) && Printable(v) { TextsKept(c, k, v); }
    } else if NumberKey(k) {
      NumberInRange(v, k);
      var n := ParseInt(v, Range(k).0, Range(k).1);
      if n.Some? { NumbersKept(c, k, n.value); }
    } else if k.BindTo? {
      var b := SetBind(c, v, dotted);
      OthersKept(c, b.bind, b.bindIp, c.mode, c.botSkill, c.classes, c.duplicateHeroes, c.scripted);
    } else if k.Maps? {
      TakeMapsKept(c, 0, Tokens(Capped(v, LIST_MAX)));
    } else {
      ChoiceKept(c, k, v, dotted);
    }
  }

  lemma ChoiceKept(c: Config, k: Key, v: string, dotted: string -> bool)
    requires Kept(c) && |c.maps| == MAX_MAPS && !TextKey(k) && !NumberKey(k) && !k.BindTo? && !k.Maps?
    ensures Kept(Set(c, k, v, dotted))
  {
    hide Kept, ParseBool, ParseInt, ParseSkill;
    KeptSlots(c);
    BadKept(c);
    SkillInRange(v);
    var d := Set(c, k, v, dotted);
    OthersKept(c, c.bind, c.bindIp, d.mode, d.botSkill, d.classes, d.duplicateHeroes, d.scripted);
  }

  lemma KeptSlots(c: Config)
    requires Kept(c)
    ensures |c.maps| == MAX_MAPS && 0 < c.mapCount <= MAX_MAPS && c.mode < 3 && c.botSkill < 4 && Harmless(c.bindIp) &&
      |c.bindIp| < BIND_IP
  {}

  lemma NumberInRange(v: string, k: Key)
    requires NumberKey(k)
    ensures var n := ParseInt(v, Range(k).0, Range(k).1); n.Some? ==> 0 <= Range(k).0 <= n.value <= Range(k).1
  {}

  lemma SkillInRange(v: string)
    ensures var n := ParseSkill(v); n.Some? ==> 0 <= n.value <= 3
  {}

  /** What a cleaned line is made of. */
  lemma CleanIsClean(raw: string)
    requires '\n' !in raw
    ensures CleanText(Clean(raw))
  {
    var capped := Capped(raw, LINE_MAX);
    var line := Before(capped, '\0');
    var code := Before(line, '#');
    BeforeIs(capped, '\0');
    BeforeIs(line, '#');
    TrimIsTrimmed(code);
    forall i | 0 <= i < |Trim(code)| ensures Trim(code)[i] != '#' && Trim(code)[i] != '\n' && Trim(code)[i] != '\0' {
      var j :| 0 <= j < |code| && code[j] == Trim(code)[i];
      assert code[j] == line[j] && line[j] == capped[j] && capped[j] == raw[j];
    }
  }

  lemma TrimClean(s: string, part: string)
    requires Harmless(s) && forall i :: 0 <= i < |part| ==> part[i] in s
    ensures CleanText(Trim(part))
  {
    TrimIsTrimmed(part);
    forall i | 0 <= i < |Trim(part)| ensures Trim(part)[i] != '#' && Trim(part)[i] != '\n' && Trim(part)[i] != '\0' {
      var j :| 0 <= j < |part| && part[j] == Trim(part)[i];
      var m :| 0 <= m < |s| && s[m] == part[j];
    }
  }

  lemma LineKept(c: Config, raw: string, dotted: string -> bool)
    requires Kept(c) && '\n' !in raw
    ensures Kept(Line(c, raw, dotted))
  {
    hide Kept, Set, Clean, Trim;
    KeptSlots(c);
    BadKept(c);
    var s := Clean(raw);
    var k := Before(s, '=');
    CleanIsClean(raw);
    BeforeIs(s, '=');
    if |k| < |s| && KeyOf(Trim(k)).Some? {
      var part := s[|k| + 1..];
      forall i | 0 <= i < |part| ensures part[i] in s { assert part[i] == s[|k| + 1 + i]; }
      TrimClean(s, part);
      SetKept(c, KeyOf(Trim(k)).value, Trim(part), dotted);
    }
  }

  lemma {:induction false} LinesKept(c: Config, lines: seq<string>, dotted: string -> bool)
    requires Kept(c) && forall i :: 0 <= i < |lines| ==> '\n' !in lines[i]
    ensures Kept(Lines(c, lines, dotted))
    decreases |lines|
  {
    hide Kept, Line;
    KeptSlots(c);
    if lines != [] {
      LineSlots(c, lines[0], dotted);
      LineKept(c, lines[0], dotted);
      LinesKept(Line(c, lines[0], dotted), lines[1..], dotted);
    }
  }

  /** Whatever the text, parsing keeps a configuration that can be printed and parsed again. */
  lemma ParsedKept(c: Config, text: string, dotted: string -> bool)
    requires Kept(c)
    ensures |c.maps| == MAX_MAPS && Kept(Parsed(c, text, dotted))
  {
    JoinOfSplit('\n', text);
    LinesKept(c, Split('\n', text), dotted);
  }

  // ----- the way back

  /** Lowercase letters and underscores. */
  predicate KeyChars(s: string) { 3 <= |s| <= 16 && forall i :: 0 <= i < |s| ==> 'a' <= s[i] <= 'z' || s[i] == '_' }

  lemma KeyCharsOf(k: Key)
    ensures KeyChars(KeyText(k))
  {
    hide KeyText, KeyChars;
    FewKeys(k);
    MoreKeys(k);
    LastKeys(k);
  }

  lemma FewKeys(k: Key)
    ensures k.Name? || k.Motd? || k.BindTo? || k.Port? || k.MaxPlayers? || k.Password? || k.Maps? ==>
      KeyChars(KeyText(k))
  {}

  lemma MoreKeys(k: Key)
    ensures k.MapDir? || k.TrialDir? || k.Mode? || k.ScoreLimit? || k.TimeLimit? || k.Respawn? || k.Bots? ==>
      KeyChars(KeyText(k))
  {}

  lemma LastKeys(k: Key)
    ensures
      k.BotSkill? || k.SpawnProtect? || k.Classes? || k.DuplicateHeroes? || k.TickRate? || k.StatusFile? || k.Sim? ==>
        KeyChars(KeyText(k))
  {}

  lemma KeyTextPlain(k: Key)
    ensures Harmless(KeyText(k)) && Trimmed(KeyText(k)) && '=' !in KeyText(k) && 3 <= |KeyText(k)| <= 16
  {
    hide KeyText;
    KeyCharsOf(k);
  }

  /** A printed line is read as its key and its value. */
  lemma LineOfPrinted(d: Config, k: Key, n: nat, v: string, dotted: string -> bool)
    requires |d.maps| == MAX_MAPS && n < |Keys()| && Keys()[n] == k && Harmless(v) && |v| <= 1100
    ensures Line(d, KeyText(k) + " = " + v, dotted) == Set(d, k, Trim(v), dotted)
  {
    hide Set, Harmless, Trimmed, KeyText, Trim, Before;
    var key := KeyText(k);
    var raw := key + " = " + v;
    KeyTextPlain(k);
    HarmlessJoined(key, v);
    UncutLine(raw);
    CleanOfPrinted(key, v);
    KeyBeforeEquals(key, v);
    KeyOfText(n);
  }

  lemma HarmlessJoined(a: string, b: string)
    requires Harmless(a) && Harmless(b)
    ensures Harmless(a + " = " + b)
  {}

  lemma UncutLine(raw: string)
    requires Harmless(raw) && |raw| <= LINE_MAX
    ensures Clean(raw) == Trim(raw)
  {
    BeforeIs(raw, '\0');
    BeforeIs(raw, '#');
  }

  /** Trimmed as a whole, the line keeps its key, and its value only loses the spaces around it. */
  lemma CleanOfPrinted(key: string, v: string)
    requires key != "" && Trimmed(key)
    ensures Trim(key + " = " + v) == if TrimRight(v) == "" then key + " =" else key + " = " + TrimRight(v)
  {
    var raw := key + " = " + v;
    assert TrimLeft(raw) == raw;
    assert raw == key + " = " + v;
    TrimRightOver(key + " = ", v);
    assert (key + " = ")[..|key| + 2] == key + " =";
    assert TrimRight(key + " =") == key + " =";
    assert TrimRight(key + " = ") == key + " =";
  }

  lemma {:induction false} TrimRightOver(a: string, v: string)
    ensures TrimRight(a + v) == if TrimRight(v) == "" then TrimRight(a) else a + TrimRight(v)
  {
    if v == "" {
      assert a + v == a;
    } else if IsSpace(v[|v| - 1]) {
      assert (a + v)[..|a + v| - 1] == a + v[..|v| - 1];
      TrimRightOver(a, v[..|v| - 1]);
    }
  }

  lemma KeyBeforeEquals(key: string, v: string)
    requires key != "" && Trimmed(key) && '=' !in key
    ensures var s := Trim(key + " = " + v);
      s != "" && Before(s, '=') == key + " " && |key| + 1 < |s| && Trim(key + " ") == key &&
        Trim(s[|key| + 2..]) == Trim(v)
  {
    hide Trim;
    CleanOfPrinted(key, v);
    var s := Trim(key + " = " + v);
    forall i | 0 <= i < |key| + 1 ensures s[i] != '=' {
      assert s[i] == (key + " ")[i];
      if i < |key| { assert key[i] in key; }
    }
    BeforeFirst(s, '=', |key| + 1);
    assert s[..|key| + 1] == key + " ";
    TrimKeepsTrimmed(key);
    assert s[|key| + 2..] == if TrimRight(v) == "" then "" else " " + TrimRight(v);
    ValueTrimmed(v);
  }

  lemma ValueTrimmed(v: string)
    ensures Trim(" " + TrimRight(v)) == Trim(v) && (TrimRight(v) == "" ==> Trim("") == Trim(v))
  {
    assert (" " + TrimRight(v))[1..] == TrimRight(v);
    assert TrimLeft(" " + TrimRight(v)) == TrimLeft(TrimRight(v));
    TrimTwice(v);
  }

  /** Either side first, the same is left. */
  lemma {:induction false} TrimTwice(v: string)
    ensures TrimRight(TrimLeft(TrimRight(v))) == TrimRight(TrimLeft(v))
    decreases |v|
  {
    if v != "" && IsSpace(v[|v| - 1]) {
      var w := v[..|v| - 1];
      TrimTwice(w);
      assert v == w + [v[|v| - 1]];
      LeftThenLast(w, v[|v| - 1]);
    } else {
      assert TrimRight(v) == v;
    }
  }

  lemma {:induction false} LeftThenLast(w: string, c: char)
    requires IsSpace(c)
    ensures TrimRight(TrimLeft(w + [c])) == TrimRight(TrimLeft(w))
  {
    if w == "" {
      assert w + [c] == [c] && [c][1..] == "";
    } else if IsSpace(w[0]) {
      assert (w + [c])[1..] == w[1..] + [c];
      LeftThenLast(w[1..], c);
    } else {
      assert (w + [c])[..|w|] == w;
    }
  }

  /** What setting a printed value makes of d: the field as c has it. */
  function Copied(d: Config, c: Config, k: Key, dotted: string -> bool): Config
    requires |d.maps| == |c.maps| == MAX_MAPS && c.mapCount <= MAX_MAPS
  {
    match k
    case Name => d.(name := c.name)
    case Motd => d.(motd := c.motd)
    case BindTo => SetBind(d, Trim(BindText(c)), dotted)
    case Port => d.(port := c.port)
    case MaxPlayers => d.(maxPlayers := c.maxPlayers)
    case Password => d.(password := TextOf(c, Password))
    case Maps => d.(maps := c.maps[..c.mapCount] + d.maps[c.mapCount..], mapCount := c.mapCount)
    case MapDir => d.(mapDir := c.mapDir)
    case TrialDir => d.(trialDir := c.trialDir)
    case Mode => d.(mode := c.mode)
    case ScoreLimit => d.(scoreLimit := c.scoreLimit)
    case TimeLimit => d.(timeLimit := c.timeLimit)
    case Respawn => d.(respawn := c.respawn)
    case Bots => d.(bots := c.bots)
    case BotSkill => d.(botSkill := c.botSkill)
    case SpawnProtect => d.(spawnProtect := c.spawnProtect)
    case Classes => d.(classes := c.classes)
    case DuplicateHeroes => d.(duplicateHeroes := c.duplicateHeroes)
    case TickRate => d.(tickRate := c.tickRate)
    case StatusFile => d.(statusFile := c.statusFile)
    case Sim => d.(scripted := c.scripted)
  }

  lemma TakeMapsBack(d: Config, names: seq<string>, count: nat)
    requires count < |names| <= MAX_MAPS == |d.maps| && d.maps[..count] == names[..count]
    requires forall i :: 0 <= i < |names| ==> MapName(names[i])
    ensures TakeMaps(d, count, names[count..]) == d.(maps := names + d.maps[|names|..], mapCount := |names|)
  {
    hide MapName, TakeMaps;
    var r, all := TakeMaps(d, count, names[count..]), names + d.maps[|names|..];
    MapsTaken(d, count, names[count..]);
    forall i | 0 <= i < MAX_MAPS ensures r.maps[i] == all[i] {
      if i < count {
        assert d.maps[i] == d.maps[..count][i] == names[..count][i];
      }
    }
    assert r.maps == all;
  }

  lemma MapNamePlain(t: string)
    requires MapName(t)
    ensures Plain(t) && Harmless(t) && Trimmed(t) && |t| < MAP_NAME
  {}

  lemma {:induction false} ListedFits(names: seq<string>)
    requires forall i :: 0 <= i < |names| ==> MapName(names[i])
    ensures Harmless(Listed(names)) && |Listed(names)| <= 49 * |names|
    ensures names != [] ==>
      Listed(names) != "" && !IsSpace(Listed(names)[0]) &&
      !IsSpace(Listed(names)[|Listed(names)| - 1])
  {
    if names != [] {
      MapNamePlain(names[0]);
      if |names| > 1 {
        ListedFits(names[1..]);
      }
    }
  }

  lemma MapsBack(d: Config, c: Config, dotted: string -> bool)
    requires Kept(c) && |d.maps| == MAX_MAPS
    ensures var v := Value(c, Maps); Harmless(v) && Trim(v) == v && |v| <= 1100
    ensures Set(d, Maps, Value(c, Maps), dotted) == Copied(d, c, Maps, dotted)
  {
    hide MapName, TextKept, Range, NumberOf;
    var names := c.maps[..c.mapCount];
    ListedFits(names);
    TrimKeepsTrimmed(Listed(names));
    forall i | 0 <= i < |names| ensures Plain(names[i]) { MapNamePlain(names[i]); }
    TokensOfListed(names);
    assert names[0..] == names;
    TakeMapsBack(d, names, 0);
  }

  lemma NumberBack(d: Config, c: Config, k: Key, dotted: string -> bool)
    requires Kept(c) && |d.maps| == MAX_MAPS && NumberKey(k)
    ensures var v := Value(c, k); Harmless(v) && Trim(v) == v && |v| <= 1100
    ensures Set(d, k, Value(c, k), dotted) == Copied(d, c, k, dotted)
  {
    hide Kept, ParseInt, Trim, SetBind, TakeMaps, Tokens, Listed, Decimal;
    KeptSlots(c);
    NumberKept(c, k);
    var n := NumberOf(c, k);
    DecimalBack(n);
    DecimalLength(n);
    ParseDecimal(n, Range(k).0, Range(k).1);
    TrimKeepsTrimmed(Decimal(n));
    DigitsHarmless(Decimal(n));
  }

  lemma NumberKept(c: Config, k: Key)
    requires Kept(c) && NumberKey(k)
    ensures Range(k).0 <= NumberOf(c, k) <= Range(k).1 <= 65535
  {}

  lemma DigitsHarmless(s: string)
    requires AllDigits(s)
    ensures Harmless(s)
  {}

  lemma TextBack(d: Config, c: Config, k: Key, dotted: string -> bool)
    requires Kept(c) && |d.maps| == MAX_MAPS && TextKey(k)
    ensures var v := Value(c, k); Harmless(v) && Trim(v) == v && |v| <= 1100
    ensures Set(d, k, Value(c, k), dotted) == Copied(d, c, k, dotted)
  {
    hide Kept, Trim, Printable, Harmless, TextKept, TextCap, Set, Copied, Trimmed, TextOf;
    KeptSlots(c);
    assert TextKept(c, k) by { TextIsKept(c, k); }
    ShownKept(c, k);
    TextIsSet(d, c, k, dotted);
    TrimKeepsTrimmed(Value(c, k));
  }

  lemma TextIsKept(c: Config, k: Key)
    requires Kept(c) && TextKey(k)
    ensures TextKept(c, k)
  {}

  /** A text as it is shown, the password in place of itself, keeps what the texts keep. */
  lemma ShownKept(c: Config, k: Key)
    requires TextKey(k) && TextKept(c, k)
    ensures var v := TextOf(c, k); CleanText(v) && Printable(v) && |v| < TextCap(k) <= 1100
  {}

  lemma TextIsSet(d: Config, c: Config, k: Key, dotted: string -> bool)
    requires |d.maps| == |c.maps| == MAX_MAPS && c.mapCount <= MAX_MAPS && TextKey(k)
    requires |TextOf(c, k)| < TextCap(k) && Printable(TextOf(c, k))
    ensures Set(d, k, TextOf(c, k), dotted) == Copied(d, c, k, dotted)
  {
    hide Printable, TextCap, ParseInt, Tokens, TakeMaps, SetBind, ParseBool, ParseMode, ParseSkill, Range;
  }

  lemma OtherBack(d: Config, c: Config, k: Key, dotted: string -> bool)
    requires Kept(c) && |d.maps| == MAX_MAPS && !TextKey(k) && !NumberKey(k) && !k.Maps? && !k.BindTo?
    ensures var v := Value(c, k); Harmless(v) && Trim(v) == v && |v| <= 1100
    ensures Set(d, k, Value(c, k), dotted) == Copied(d, c, k, dotted)
  {
    hide Kept, ParseInt, TakeMaps, SetBind, Listed, Decimal, Trim, ParseMode, ParseSkill, ParseBool, SkillName,
      ModeName, OnOff;
    KeptSlots(c);
    OtherValue(c, k);
    TrimKeepsTrimmed(Value(c, k));
    SkillBack(c.botSkill);
    ModeBack(c.mode);
    BoolBack(c.classes);
    BoolBack(c.duplicateHeroes);
  }

  lemma ModeBack(n: nat)
    requires n < 3
    ensures ParseMode(ModeName(n)) == Some(n)
  {
    assert |ModeName(n)| == if n == 0 then 6 else if n == 1 then 4 else 3;
  }

  lemma BoolBack(b: bool)
    ensures ParseBool(OnOff(b)) == Some(b)
  {
    assert |OnOff(b)| == if b then 2 else 3;
    assert OnOff(b)[0] == 'o';
  }

  lemma OtherValue(c: Config, k: Key)
    requires !TextKey(k) && !NumberKey(k) && !k.Maps? && !k.BindTo? && c.mapCount <= |c.maps|
    ensures var v := Value(c, k); Harmless(v) && Trimmed(v) && |v| <= 1100
  {
    hide Listed, Decimal;
  }

  lemma SkillBack(n: nat)
    requires n < 4
    ensures ParseSkill(SkillName(n)) == Some(n)
  {
    assert |SkillName(n)| == if n == 0 then 6 else if n == 1 then 8 else if n == 2 then 10 else 6;
    assert SkillName(3)[0] == 'b' && SkillName(0)[0] == 'c';
  }

  lemma BindHarmless(c: Config)
    requires Kept(c)
    ensures Harmless(BindText(c)) && |BindText(c)| <= 1100
  {
    hide MapName, TextKept, Range, NumberOf;
  }

  /** Each printed line sets its field to what it was. */
  lemma LineBack(d: Config, c: Config, n: nat, dotted: string -> bool)
    requires Kept(c) && |d.maps| == MAX_MAPS && n < |Keys()|
    ensures '\n' !in PrintedLine(c, Keys()[n])
    ensures Line(d, PrintedLine(c, Keys()[n]), dotted) == Copied(d, c, Keys()[n], dotted)
  {
    hide Kept, Set, Trim, Harmless, Line, KeyText;
    KeptSlots(c);
    var k := Keys()[n];
    if k.BindTo? {
      BindHarmless(c);
    } else if k.Maps? {
      MapsBack(d, c, dotted);
    } else if NumberKey(k) {
      NumberBack(d, c, k, dotted);
    } else if TextKey(k) {
      TextBack(d, c, k, dotted);
    } else {
      OtherBack(d, c, k, dotted);
    }
    LineOfPrinted(d, k, n, Value(c, k), dotted);
    KeyTextPlain(k);
    OneLine(KeyText(k), Value(c, k));
    BindIsSet(d, c, dotted);
  }

  lemma BindIsSet(d: Config, c: Config, dotted: string -> bool)
    requires |d.maps| == |c.maps| == MAX_MAPS && c.mapCount <= MAX_MAPS
    ensures Set(d, BindTo, Trim(Value(c, BindTo)), dotted) == Copied(d, c, BindTo, dotted)
  {}

  lemma OneLine(key: string, v: string)
    requires Harmless(key) && Harmless(v)
    ensures '\n' !in key + " = " + v
  {}

  function CopiedFrom(d: Config, c: Config, n: nat, dotted: string -> bool): Config
    requires |d.maps| == |c.maps| == MAX_MAPS && c.mapCount <= MAX_MAPS && n <= |Keys()|
    decreases |Keys()| - n
  {
    if n == |Keys()| then d
    else
      CopiedSlots(d, c, Keys()[n], dotted);
      CopiedFrom(Copied(d, c, Keys()[n], dotted), c, n + 1, dotted)
  }

  lemma CopiedSlots(d: Config, c: Config, k: Key, dotted: string -> bool)
    requires |d.maps| == |c.maps| == MAX_MAPS && c.mapCount <= MAX_MAPS
    ensures |Copied(d, c, k, dotted).maps| == MAX_MAPS
  {
    hide Trim, SetBind, TextOf;
  }

  lemma {:induction false} LinesBack(d: Config, c: Config, n: nat, dotted: string -> bool)
    requires Kept(c) && |d.maps| == |c.maps| == MAX_MAPS && c.mapCount <= MAX_MAPS && n <= |Keys()|
    ensures Lines(d, Split('\n', PrintedFrom(c, n)), dotted) == CopiedFrom(d, c, n, dotted)
    decreases |Keys()| - n
  {
    hide Kept, Copied, Line, PrintedLine;
    if n == |Keys()| {
      BlankLine(d, dotted);
    } else {
      var line, rest := PrintedLine(c, Keys()[n]), PrintedFrom(c, n + 1);
      LineBack(d, c, n, dotted);
      CopiedSlots(d, c, Keys()[n], dotted);
      SplitFirst('\n', line, rest);
      assert ([line] + Split('\n', rest))[1..] == Split('\n', rest);
      LinesBack(Copied(d, c, Keys()[n], dotted), c, n + 1, dotted);
    }
  }

  lemma BlankLine(d: Config, dotted: string -> bool)
    requires |d.maps| == MAX_MAPS
    ensures Line(d, "", dotted) == d && Split('\n', "") == [""] && Lines(d, [""], dotted) == d
  {
    assert Before("", '\0') == "" && Before("", '#') == "";
    assert [""][1..] == [];
  }

  /** What comes back: everything as it was, but the password as it is shown, the bind line as it reads, and d's error
      count. */
  function Returned(d: Config, c: Config, dotted: string -> bool): Config
    requires |d.maps| == |c.maps| == MAX_MAPS && c.mapCount <= MAX_MAPS
  {
    var b := SetBind(d, Trim(BindText(c)), dotted);
    c.(bind := b.bind, bindIp := b.bindIp, errors := b.errors, password := TextOf(c, Password),
       maps := c.maps[..c.mapCount] + d.maps[c.mapCount..])
  }

  lemma FirstKeys()
    ensures var k := Keys();
      k[0] == Name && k[1] == Motd && k[2] == BindTo && k[3] == Port && k[4] == MaxPlayers && k[5] == Password &&
        k[6] == Maps
  {}

  lemma MiddleKeys()
    ensures var k := Keys();
      k[7] == MapDir && k[8] == TrialDir && k[9] == Mode && k[10] == ScoreLimit && k[11] == TimeLimit &&
        k[12] == Respawn && k[13] == Bots
  {}

  lemma FinalKeys()
    ensures var k := Keys();
      k[14] == BotSkill && k[15] == SpawnProtect && k[16] == Classes && k[17] == DuplicateHeroes && k[18] == TickRate
      && k[19] == StatusFile && k[20] == Sim
  {}

  lemma CopiedStep(d: Config, c: Config, n: nat, dotted: string -> bool)
    requires |d.maps| == |c.maps| == MAX_MAPS && c.mapCount <= MAX_MAPS && n < |Keys()|
    ensures |Copied(d, c, Keys()[n], dotted).maps| == MAX_MAPS
    ensures CopiedFrom(d, c, n, dotted) == CopiedFrom(Copied(d, c, Keys()[n], dotted), c, n + 1, dotted)
  {
    hide Copied, Keys;
    CopiedSlots(d, c, Keys()[n], dotted);
  }

  lemma CopiedNone(d: Config, c: Config, dotted: string -> bool)
    requires |d.maps| == |c.maps| == MAX_MAPS && c.mapCount <= MAX_MAPS
    ensures CopiedFrom(d, c, |Keys()|, dotted) == d
  {}

  /** What a binding sets depends on no other field. */
  lemma BindFields(d: Config, d': Config, v: string, dotted: string -> bool)
    requires d'.bind == d.bind && d'.bindIp == d.bindIp && d'.errors == d.errors
    ensures var b := SetBind(d, v, dotted);
      SetBind(d', v, dotted) == d'.(bind := b.bind, bindIp := b.bindIp, errors := b.errors)
  {
    hide BindWord;
  }

  lemma FirstThree(d: Config, c: Config, dotted: string -> bool)
    requires |d.maps| == |c.maps| == MAX_MAPS && c.mapCount <= MAX_MAPS
    ensures var b := SetBind(d, Trim(BindText(c)), dotted);
      CopiedFrom(d, c, 0, dotted) == CopiedFrom(d.(name := c.name, motd := c.motd, bind := b.bind, bindIp := b.bindIp,
        errors := b.errors), c, 3, dotted)
  {
    hide Trim, Keys, CopiedFrom, TextOf, SetBind, BindText;
    FirstKeys();
    var d1 := Copied(d, c, Name, dotted);
    var d2 := Copied(d1, c, Motd, dotted);
    BindFields(d, d2, Trim(BindText(c)), dotted);
    CopiedStep(d, c, 0, dotted);
    CopiedStep(d1, c, 1, dotted);
    CopiedStep(d2, c, 2, dotted);
  }

  lemma NextFour(d: Config, c: Config, dotted: string -> bool)
    requires |d.maps| == |c.maps| == MAX_MAPS && c.mapCount <= MAX_MAPS
    ensures CopiedFrom(d, c, 3, dotted) == CopiedFrom(d.(port := c.port, maxPlayers := c.maxPlayers,
      password := TextOf(c, Password),
        maps := c.maps[..c.mapCount] + d.maps[c.mapCount..], mapCount := c.mapCount), c, 7, dotted)
  {
    hide Trim, Keys, CopiedFrom, TextOf, SetBind;
    FirstKeys();
    var d1 := Copied(d, c, Port, dotted);
    var d2 := Copied(d1, c, MaxPlayers, dotted);
    var d3 := Copied(d2, c, Password, dotted);
    CopiedStep(d, c, 3, dotted);
    CopiedStep(d1, c, 4, dotted);
    CopiedStep(d2, c, 5, dotted);
    CopiedStep(d3, c, 6, dotted);
  }

  lemma NextThree(d: Config, c: Config, dotted: string -> bool)
    requires |d.maps| == |c.maps| == MAX_MAPS && c.mapCount <= MAX_MAPS
    ensures CopiedFrom(d, c, 7, dotted) == CopiedFrom(d.(mapDir := c.mapDir, trialDir := c.trialDir, mode := c.mode),
      c, 10, dotted)
  {
    hide Trim, Keys, CopiedFrom, SetBind, TextOf;
    MiddleKeys();
    var d1 := Copied(d, c, MapDir, dotted);
    var d2 := Copied(d1, c, TrialDir, dotted);
    CopiedStep(d, c, 7, dotted);
    CopiedStep(d1, c, 8, dotted);
    CopiedStep(d2, c, 9, dotted);
  }

  lemma MiddleFour(d: Config, c: Config, dotted: string -> bool)
    requires |d.maps| == |c.maps| == MAX_MAPS && c.mapCount <= MAX_MAPS
    ensures CopiedFrom(d, c, 10, dotted) == CopiedFrom(d.(scoreLimit := c.scoreLimit, timeLimit := c.timeLimit,
      respawn := c.respawn, bots := c.bots), c, 14, dotted)
  {
    hide Trim, Keys, CopiedFrom, SetBind, TextOf;
    MiddleKeys();
    var d1 := Copied(d, c, ScoreLimit, dotted);
    var d2 := Copied(d1, c, TimeLimit, dotted);
    var d3 := Copied(d2, c, Respawn, dotted);
    CopiedStep(d, c, 10, dotted);
    CopiedStep(d1, c, 11, dotted);
    CopiedStep(d2, c, 12, dotted);
    CopiedStep(d3, c, 13, dotted);
  }

  lemma LaterFour(d: Config, c: Config, dotted: string -> bool)
    requires |d.maps| == |c.maps| == MAX_MAPS && c.mapCount <= MAX_MAPS
    ensures CopiedFrom(d, c, 14, dotted) == CopiedFrom(d.(botSkill := c.botSkill, spawnProtect := c.spawnProtect,
      classes := c.classes, duplicateHeroes := c.duplicateHeroes), c, 18, dotted)
  {
    hide Trim, Keys, CopiedFrom, SetBind, TextOf;
    FinalKeys();
    var d1 := Copied(d, c, BotSkill, dotted);
    var d2 := Copied(d1, c, SpawnProtect, dotted);
    var d3 := Copied(d2, c, Classes, dotted);
    CopiedStep(d, c, 14, dotted);
    CopiedStep(d1, c, 15, dotted);
    CopiedStep(d2, c, 16, dotted);
    CopiedStep(d3, c, 17, dotted);
  }

  lemma LastThree(d: Config, c: Config, dotted: string -> bool)
    requires |d.maps| == |c.maps| == MAX_MAPS && c.mapCount <= MAX_MAPS
    ensures CopiedFrom(d, c, 18, dotted) ==
      d.(tickRate := c.tickRate, statusFile := c.statusFile, scripted := c.scripted)
  {
    hide Trim, Keys, CopiedFrom, SetBind, TextOf;
    FinalKeys();
    var d1 := Copied(d, c, TickRate, dotted);
    var d2 := Copied(d1, c, StatusFile, dotted);
    var d3 := Copied(d2, c, Sim, dotted);
    CopiedStep(d, c, 18, dotted);
    CopiedStep(d1, c, 19, dotted);
    CopiedStep(d2, c, 20, dotted);
    CopiedNone(d3, c, dotted);
  }

  /** Printing and parsing again, over anything. */
  lemma ParsedPrinted(d: Config, c: Config, dotted: string -> bool)
    requires Kept(c) && |d.maps| == MAX_MAPS
    ensures Parsed(d, Printed(c), dotted) == Returned(d, c, dotted)
  {
    hide Kept, Trim, Keys, CopiedFrom, SetBind, TextOf;
    KeptSlots(c);
    LinesBack(d, c, 0, dotted);
    var b := SetBind(d, Trim(BindText(c)), dotted);
    var d3 := d.(name := c.name, motd := c.motd, bind := b.bind, bindIp := b.bindIp, errors := b.errors);
    var d7 := d3.(port := c.port, maxPlayers := c.maxPlayers, password := TextOf(c, Password),
      maps := c.maps[..c.mapCount] + d.maps[c.mapCount..], mapCount := c.mapCount);
    FirstThree(d, c, dotted);
    NextFour(d3, c, dotted);
    NextThree(d7, c, dotted);
    var d10 := d7.(mapDir := c.mapDir, trialDir := c.trialDir, mode := c.mode);
    MiddleFour(d10, c, dotted);
    var d14 := d10.(scoreLimit := c.scoreLimit, timeLimit := c.timeLimit, respawn := c.respawn, bots := c.bots);
    LaterFour(d14, c, dotted);
    var d18 := d14.(botSkill := c.botSkill, spawnProtect := c.spawnProtect, classes := c.classes,
      duplicateHeroes := c.duplicateHeroes);
    LastThree(d18, c, dotted);
  }

  /** An address that reads as itself: it was not cut to fifteen characters into something else. */
  predicate BindReads(c: Config, dotted: string -> bool) {
    c.bind.Address? ==> Trimmed(c.bindIp) && dotted(c.bindIp) && BindWord(c.bindIp).None?
  }

  /** No errors and the same binding come back exactly when the address reads as itself; then the file printed again is
      the same file. */
  lemma ReturnsExactlyWhen(c: Config, dotted: string -> bool)
    requires Kept(c)
    ensures |c.maps| == MAX_MAPS && 0 < c.mapCount <= MAX_MAPS
    ensures var r := Parsed(Defaults(), Printed(c), dotted);
      r.errors == 0 && r.bind == c.bind && (c.bind.Address? ==> r.bindIp == c.bindIp) <==> BindReads(c, dotted)
    ensures var r := Parsed(Defaults(), Printed(c), dotted);
      BindReads(c, dotted) ==>
        && r == c.(errors := 0, bindIp := r.bindIp, password := r.password, maps := r.maps) && Printed(r) == Printed(c)
        && r.maps[..c.mapCount] == c.maps[..c.mapCount] && (r.password == c.password <==> c.password in {"", "(set)"})
  {
    hide Kept, Parsed, Printed, Trim;
    KeptSlots(c);
    ParsedPrinted(Defaults(), c, dotted);
    var r := Returned(Defaults(), c, dotted);
    BindTrimmed(c);
    TrimShorter(c.bindIp);
    if BindReads(c, dotted) {
      SamePrinted(r, c);
    }
  }

  lemma TrimShorter(s: string)
    ensures |Trim(s)| <= |s|
  {
    TrimLeftKeeps(s);
    TrimRightKeeps(TrimLeft(s));
  }

  lemma BindTrimmed(c: Config)
    ensures Trimmed(BindText(c)) <==> Trim(BindText(c)) == BindText(c)
  {
    TrimIsTrimmed(BindText(c));
    if Trimmed(BindText(c)) {
      TrimKeepsTrimmed(BindText(c));
    }
  }

  lemma SamePrinted(r: Config, c: Config)
    requires r.mapCount == c.mapCount <= |c.maps| == |r.maps| && r.maps[..c.mapCount] == c.maps[..c.mapCount]
    requires r == c.(errors := r.errors, bindIp := r.bindIp, password := TextOf(c, Password), maps := r.maps)
    requires c.bind.Address? ==> r.bindIp == c.bindIp
    ensures Printed(r) == Printed(c)
  {
    hide Listed, Decimal;
    forall k ensures Value(r, k) == Value(c, k) {}
    SameFrom(r, c, 0);
  }

  lemma {:induction false} SameFrom(r: Config, c: Config, n: nat)
    requires r.mapCount <= |r.maps| && c.mapCount <= |c.maps| && n <= |Keys()|
    requires forall k :: Value(r, k) == Value(c, k)
    ensures PrintedFrom(r, n) == PrintedFrom(c, n)
    decreases |Keys()| - n
  {
    hide Value, KeyText;
    if n < |Keys()| {
      SameFrom(r, c, n + 1);
    }
  }

  // ----- the address a file gives

  /** An address is stored as it was given exactly when it has fifteen characters or fewer. */
  lemma AddressKeptExactlyWhen(d: Config, v: string, dotted: string -> bool)
    requires |d.maps| == MAX_MAPS && dotted(v) && BindWord(v).None?
    ensures var r := Set(d, BindTo, v, dotted);
      r.bind == Address && r.errors == d.errors && (r.bindIp == v <==> |v| < BIND_IP)
  {}

  /** The value of a line that sets the binding. */
  function BindValue(raw: string): Option<string> {
    var s := Clean(raw);
    var k := Before(s, '=');
    if |k| < |s| && Trim(k) == "bind" then Some(Trim(s[|k| + 1..])) else None
  }

  /** The last binding among the lines that was taken. */
  function LastBind(lines: seq<string>, dotted: string -> bool, last: Option<string>): Option<string>
    decreases |lines|
  {
    if lines == [] then last
    else
      var v := BindValue(lines[0]);
      LastBind(lines[1..], dotted, if v.Some? && Takes(BindTo, v.value, dotted) then v else last)
  }

  predicate IsAddress(last: Option<string>) { last.Some? && BindWord(last.value).None? }

  /** What the last binding taken makes of the configuration. */
  predicate BoundBy(c: Config, last: Option<string>, dotted: string -> bool) {
    && (c.bind.Address? <==> IsAddress(last))
    && (IsAddress(last) ==> c.bindIp == Capped(last.value, BIND_IP - 1) && dotted(last.value) && Trimmed(last.value))
  }

  lemma {:induction false} TakeMapsBind(c: Config, count: nat, names: seq<string>)
    requires count <= MAX_MAPS == |c.maps|
    ensures var r := TakeMaps(c, count, names); r.bind == c.bind && r.bindIp == c.bindIp
    decreases |names|
  {
    hide MapName;
    if names != [] && MapName(names[0]) && count < MAX_MAPS {
      TakeMapsBind(c.(maps := c.maps[count := names[0]]), count + 1, names[1..]);
    }
  }

  lemma SetBound(c: Config, k: Key, v: string, dotted: string -> bool)
    requires |c.maps| == MAX_MAPS && !k.BindTo?
    ensures var r := Set(c, k, v, dotted); r.bind == c.bind && r.bindIp == c.bindIp
  {
    hide ParseInt, Tokens, Printable, TakeMaps, Range, TextCap, ParseBool, ParseMode, ParseSkill;
    if TextKey(k) || NumberKey(k) {
      PlainBound(c, k, v, dotted);
    } else if k.Maps? {
      TakeMapsBind(c, 0, Tokens(Capped(v, LIST_MAX)));
    }
  }

  lemma PlainBound(c: Config, k: Key, v: string, dotted: string -> bool)
    requires |c.maps| == MAX_MAPS && (TextKey(k) || NumberKey(k))
    ensures var r := Set(c, k, v, dotted); r.bind == c.bind && r.bindIp == c.bindIp
  {
    hide ParseInt, Printable, Range, TextCap, SetBind, TakeMaps, Tokens, ParseBool, ParseMode, ParseSkill;
    WithBound(c, k, v);
  }

  lemma WithBound(c: Config, k: Key, v: string)
    ensures WithText(c, k, v).bind == c.bind && WithText(c, k, v).bindIp == c.bindIp
    ensures forall m: nat :: WithNumber(c, k, m).bind == c.bind && WithNumber(c, k, m).bindIp == c.bindIp
  {}

  lemma BindKey(k: string)
    ensures KeyOf(k) == Some(BindTo) <==> k == "bind"
  {
    KeyOfText(2);
    assert Keys()[2] == BindTo;
  }

  lemma LineBound(c: Config, raw: string, last: Option<string>, dotted: string -> bool)
    requires |c.maps| == MAX_MAPS && BoundBy(c, last, dotted)
    ensures var v := BindValue(raw);
      BoundBy(Line(c, raw, dotted), if v.Some? && Takes(BindTo, v.value, dotted) then v else last, dotted)
  {
    hide Clean, Before, Trim, KeyFrom, Set, KeyOf;
    var s := Clean(raw);
    var k := Before(s, '=');
    if |k| < |s| {
      BindKey(Trim(k));
      var v := Trim(s[|k| + 1..]);
      TrimIsTrimmed(s[|k| + 1..]);
      if Trim(k) == "bind" {
        BindSets(c, v, dotted);
      } else if KeyOf(Trim(k)).Some? {
        SetBound(c, KeyOf(Trim(k)).value, v, dotted);
      }
    }
  }

  lemma BindSets(c: Config, v: string, dotted: string -> bool)
    requires |c.maps| == MAX_MAPS
    ensures Set(c, BindTo, v, dotted) == SetBind(c, v, dotted)
  {}

  lemma {:induction false} LinesBound(c: Config, lines: seq<string>, last: Option<string>, dotted: string -> bool)
    requires |c.maps| == MAX_MAPS && BoundBy(c, last, dotted)
    ensures BoundBy(Lines(c, lines, dotted), LastBind(lines, dotted, last), dotted)
    decreases |lines|
  {
    hide Line, BindValue, BoundBy, Takes;
    if lines != [] {
      var v := BindValue(lines[0]);
      LineSlots(c, lines[0], dotted);
      LineBound(c, lines[0], last, dotted);
      LinesBound(Line(c, lines[0], dotted), lines[1..],
                 if v.Some? && Takes(BindTo, v.value, dotted) then v else last, dotted);
    }
  }

  /** A file parsed, printed and parsed again: the address it gave is bound without an error exactly when it has fifteen
      characters or fewer; then, or if it gave none, every printed field comes back. */
  lemma FileReturnsExactlyWhen(text: string, dotted: string -> bool)
    ensures |Parsed(Defaults(), text, dotted).maps| == MAX_MAPS
    ensures var c := Parsed(Defaults(), text, dotted); 0 < c.mapCount <= MAX_MAPS
    ensures var r := Parsed(Defaults(), Printed(Parsed(Defaults(), text, dotted)), dotted);
      var last := LastBind(Split('\n', text), dotted, None);
      IsAddress(last) ==> (r.errors == 0 && r.bind == Address && r.bindIp == last.value <==> |last.value| < BIND_IP)
    ensures var c := Parsed(Defaults(), text, dotted);
      var r := Parsed(Defaults(), Printed(c), dotted);
      var last := LastBind(Split('\n', text), dotted, None);
      !IsAddress(last) || |last.value| < BIND_IP ==>
        && r == c.(errors := 0, bindIp := r.bindIp, password := r.password, maps := r.maps) && Printed(r) == Printed(c)
        && r.maps[..c.mapCount] == c.maps[..c.mapCount] && (c.bind.Address? ==> r.bindIp == c.bindIp)
  {
    hide Kept, Lines, Printed, Split, LastBind;
    var c := Parsed(Defaults(), text, dotted);
    DefaultsKept();
    ParsedKept(Defaults(), text, dotted);
    KeptSlots(c);
    ReturnsExactlyWhen(c, dotted);
    LinesBound(Defaults(), Split('\n', text), None, dotted);
    ParsedKept(Defaults(), Printed(c), dotted);
    KeptSlots(Parsed(Defaults(), Printed(c), dotted));
  }

  /** Four numbers of at most 255 with a dot between. */
  ghost predicate Quad(v: string) {
    exists a, b, c, d :: v == Joined(a, b, c, d) && Octet(a) && Octet(b) && Octet(c) && Octet(d)
  }

  function Joined(a: string, b: string, c: string, d: string): string { a + "." + b + "." + c + "." + d }

  predicate Octet(s: string) { s != "" && AllDigits(s) && DigitsValue(s) <= 255 }

  lemma Octets()
    ensures Octet("0192") && Octet("168") && Octet("100") && Octet("10")
  {
    hide Octet;
    LongOctet();
    MiddleOctet();
    ShortOctets();
  }

  lemma LongOctet()
    ensures Octet("0192")
  {
    assert "0192"[..3] == "019" && "019"[..2] == "01" && "01"[..1] == "0" && "0"[..0] == "";
    assert DigitsValue("0192") == 192;
  }

  lemma MiddleOctet()
    ensures Octet("168")
  {
    assert "168"[..2] == "16" && "16"[..1] == "1" && "1"[..0] == "";
    assert DigitsValue("168") == 168;
  }

  lemma ShortOctets()
    ensures Octet("100") && Octet("10")
  {
    assert "100"[..2] == "10" && "10"[..1] == "1" && "1"[..0] == "";
    assert DigitsValue("100") == 100;
  }

  lemma JoinedCut()
    ensures Joined("0192", "168", "100", "100") == "0192.168.100.100"
    ensures Joined("0192", "168", "100", "10") == "0192.168.100.10"
  {}

  lemma CutQuads()
    ensures Quad("0192.168.100.100") && Quad("0192.168.100.10")
  {
    hide Octet;
    Octets();
    JoinedCut();
    hide Joined;
    assert Quad(Joined("0192", "168", "100", "100")) && Quad(Joined("0192", "168", "100", "10"));
  }

  /** A longer spelling is cut, and here the cut one is another address, which the printed file gives from then on: the
      server binds where nobody asked. */
  lemma LongAddressIsCut(d: Config, dotted: string -> bool)
    requires |d.maps| == MAX_MAPS && forall v :: Quad(v) ==> dotted(v)
    ensures Quad("0192.168.100.100") && Quad("0192.168.100.10")
    ensures var r := Set(d, BindTo, "0192.168.100.100", dotted);
      r.errors == d.errors && r.bind == Address && r.bindIp == "0192.168.100.10" && BindReads(r, dotted)
  {
    hide Quad, Set;
    var v, cut := "0192.168.100.100", "0192.168.100.10";
    CutQuads();
    BindSets(d, v, dotted);
    assert |v| == 16 && v[..15] == cut;
  }

  // ----- the parser and the printer

  lemma LineCases(c: Config, raw: string, s: string, dotted: string -> bool)
    requires |c.maps| == MAX_MAPS && s == Clean(raw)
    ensures s == "" ==> Line(c, raw, dotted) == c
    ensures s != "" && Before(s, '=') == s ==> Line(c, raw, dotted) == Bad(c)
    ensures forall eq :: 0 <= eq < |s| && Before(s, '=') == s[..eq] ==>
      Line(c, raw, dotted) == Applied(c, Trim(s[..eq]), Trim(s[eq + 1..]), dotted)
  {
    hide Applied, Trim, Before, Bad, Clean;
  }

  class Server {
    const dotted: string -> bool
    var c: Config

    /** The defaults, before any file. */
    constructor (dotted: string -> bool)
      ensures c == Defaults() && this.dotted == dotted
    {
      this.dotted := dotted;
      var d := Config("", "", All, "", 0, 0, "", seq(MAX_MAPS, _ => ""), 0, "", "", 0, 0, 0, 0, 0, 0, 0, false, false,
                      0, "", false, 0);
      d := d.(name := "Megamod Server", bind := All, port := 32270, maxPlayers := 8);
      d := d.(maps := d.maps[0 := "bloodgulch"], mapCount := 1, mode := 0, respawn := 5, bots := 3, botSkill := 1);
      d := d.(spawnProtect := 3, tickRate := 60, scripted := false);
      assert Defaults().maps == d.maps;
      c := d;
    }

    method TrimLine(line: string) returns (s: string)
      ensures s == Trim(line)
    {
      s := line;
      while s != "" && IsSpace(s[0])
        decreases |s|
        invariant TrimLeft(s) == TrimLeft(line)
      {
        s := s[1..];
      }
      while s != "" && IsSpace(s[|s| - 1])
        decreases |s|
        invariant TrimRight(s) == Trim(line)
      {
        s := s[..|s| - 1];
      }
    }

    method Apply(k: string, v: string)
      requires |c.maps| == MAX_MAPS
      modifies this
      ensures c == Applied(old(c), k, v, dotted)
      ensures var key := KeyOf(k);
        if key.Some? && !Takes(key.value, v, dotted) then OnlyError(old(c), c) else c.errors == old(c).errors
      ensures var key := KeyOf(k);
        if key.None? then c == old(c) else Takes(key.value, v, dotted) ==> Means(old(c), key.value, v, c)
    {
      hide Tokens, ParseInt, KeyFrom, Takes, Means, Known;
      if KeyOf(k).Some? {
        SetTakes(c, KeyOf(k).value, v, dotted);
        KeyMeans(c, KeyOf(k).value, v, dotted);
      }
      var key := KeyOf(k);
      if key.None? {
        return;
      }
      if key.value.Maps? {
        ReadMaps(Tokens(Capped(v, LIST_MAX)));
      } else {
        c := Set(c, key.value, v, dotted);
      }
    }

    /** Stores the names one by one; the count only when all were good. */
    method ReadMaps(tokens: seq<string>)
      requires |c.maps| == MAX_MAPS
      modifies this
      ensures c == TakeMaps(old(c), 0, tokens)
    {
      var count := 0;
      while count < |tokens|
        invariant count <= |tokens| && count <= MAX_MAPS == |c.maps|
        invariant TakeMaps(c, count, tokens[count..]) == TakeMaps(old(c), 0, tokens)
      {
        if !MapName(tokens[count]) || count >= MAX_MAPS {
          c := Bad(c);
          return;
        }
        assert tokens[count..][1..] == tokens[count + 1..];
        c := c.(maps := c.maps[count := tokens[count]]);
        count := count + 1;
      }
      c := if count == 0 then Bad(c) else c.(mapCount := count);
    }

    /** What is left of a line in its buffer, before a NUL or a #. */
    method CleanLine(raw: string) returns (s: string)
      ensures s == Clean(raw)
    {
      hide Trim, Before;
      var line := Capped(raw, LINE_MAX);
      var end := FirstOf(line, '\0', 0);
      CutThere(line, '\0', end);
      line := line[..end];
      var hash := FirstOf(line, '#', 0);
      CutThere(line, '#', hash);
      s := TrimLine(line[..hash]);
    }

    method ReadLine(raw: string)
      requires |c.maps| == MAX_MAPS
      modifies this
      ensures c == Line(old(c), raw, dotted)
    {
      hide Applied, Trim, Before, Bad, Clean, Line;
      var s := CleanLine(raw);
      LineCases(c, raw, s, dotted);
      if s == "" {
        return;
      }
      var eq := FirstOf(s, '=', 0);
      CutThere(s, '=', eq);
      if eq == |s| {
        assert s[..eq] == s;
        c := Bad(c);
        return;
      }
      var k := TrimLine(s[..eq]);
      var v := TrimLine(s[eq + 1..]);
      Apply(k, v);
    }

    /** Parses a text over what is set, line by line, and returns the error count: one more for each line refused. */
    method Parse(text: string) returns (errors: nat)
      requires |c.maps| == MAX_MAPS
      modifies this
      ensures c == Parsed(old(c), text, dotted)
      ensures errors == c.errors == old(c).errors + RefusedLines(Split('\n', text), dotted)
    {
      hide Line, Split;
      ghost var want := Parsed(c, text, dotted);
      LinesErrors(c, Split('\n', text), dotted);
      var at := 0;
      assert text[0..] == text;
      while at < |text|
        invariant |c.maps| == MAX_MAPS
        invariant if at <= |text| then Lines(c, Split('\n', text[at..]), dotted) == want else c == want
        decreases |text| - at
      {
        var end := FirstOf(text, '\n', at);
        NextLine(c, text, at, end, dotted);
        ReadLine(text[at..end]);
        at := end + 1;
      }
      if at == |text| {
        BlankLine(c, dotted);
        assert text[at..] == "";
      }
      errors := c.errors;
    }

    method FormatLines() returns (out: string)
      requires c.mapCount <= |c.maps|
      ensures out == Printed(c)
    {
      hide Value, KeyText;
      out := "";
      var keys := Keys();
      for n := 0 to |keys|
        invariant out + PrintedFrom(c, n) == Printed(c)
      {
        ghost var before := out;
        out := out + PrintedLine(c, keys[n]) + ['\n'];
        Regroup(before, PrintedLine(c, keys[n]), ['\n'], PrintedFrom(c, n + 1));
      }
    }

    /** The configuration as a file again, and its length; cut when the buffer is too small. A buffer of no bytes gets
        nothing, and its length less one is the largest there is. */
    method Format(cap: nat) returns (out: string, n: nat)
      requires c.mapCount <= |c.maps| && cap < SIZES
      ensures out ==
        if |Printed(c)| < cap then Printed(c) else if cap == 0 then "" else Printed(c)[..cap - 1]
      ensures n == if cap == 0 then SIZES - 1 else |out|
    {
      hide Printed;
      out := FormatLines();
      n := if |out| < cap then |out| else (cap - 1) % SIZES;
      if |out| >= cap {
        out := if cap == 0 then "" else out[..cap - 1];
      }
    }
  }

  lemma Regroup(a: string, b: string, c: string, d: string)
    ensures a + (b + c + d) == a + b + c + d
  {}

  lemma CutThere(s: string, c: char, n: nat)
    requires n <= |s| && c !in s[0..n] && (n < |s| ==> s[n] == c)
    ensures Before(s, c) == s[..n]
  {
    forall i | 0 <= i < n ensures s[i] != c {
      assert s[i] == s[0..n][i];
    }
    BeforeFirst(s, c, n);
  }

  lemma NextLine(c: Config, text: string, at: nat, end: nat, dotted: string -> bool)
    requires |c.maps| == MAX_MAPS && at <= end <= |text| && '\n' !in text[at..end] &&
      (end < |text| ==> text[end] == '\n')
    ensures |Line(c, text[at..end], dotted).maps| == MAX_MAPS
    ensures Lines(c, Split('\n', text[at..]), dotted) ==
      if end < |text| then Lines(Line(c, text[at..end], dotted), Split('\n', text[end + 1..]), dotted)
        else Line(c, text[at..end], dotted)
  {
    hide Line, Split;
    var line := text[at..end];
    LineSlots(c, line, dotted);
    if end < |text| {
      assert text[at..] == line + ['\n'] + text[end + 1..];
      SplitFirst('\n', line, text[end + 1..]);
      assert ([line] + Split('\n', text[end + 1..]))[1..] == Split('\n', text[end + 1..]);
    } else {
      assert text[at..] == line;
      SplitFirst('\n', line, "");
      assert [line][1..] == [];
    }
  }
}
