/** The publish-once identity file: any number of callers, any interleaving of their file-system calls.
    Writing a temporary file and opening or reading the published one take many steps; creating a
    temporary, link and unlink are atomic. */
module IdentityProtocol {
  import opened Bits

  type Pid = nat
  type Inode = nat

  datatype Name = Identity | Temp(n: nat)

  datatype Outcome = Linked | Exists | Error

  /** Where a caller is between two system calls. */
  datatype Pc =
    | Opening
    | Reading(inode: Inode, got: Bytes)
    | Drawing
    | Creating(id: Bytes)
    | Writing(id: Bytes, temp: nat, inode: Inode, written: nat)
    | Discarding(temp: nat, inode: Inode, retry: bool)
    | Linking(id: Bytes, temp: nat, inode: Inode)
    | Unlinking(id: Bytes, temp: nat, outcome: Outcome)
    | UnlinkingAgain(temp: nat, outcome: Outcome)
    | Failed
    | Done(id: Bytes)

  datatype State = State(
    names: map<Name, Inode>, data: map<Inode, Bytes>, next: Inode, used: set<nat>, callers: map<Pid, Pc>)

  /** What the environment may do: hand out a temporary name that was used before and is free again,
      or fail a link for another reason than the target existing. */
  datatype Config = Config(namesRepeat: bool, linkErrors: bool)

  datatype Event =
    | Open | OpenError
    | ReadSome(count: nat) | ReadEnd | ReadError
    | Draw(drawn: Bytes) | DrawError
    | Create(temp: nat) | CreateError(retry: bool)
    | Write(count: nat) | WriteError(retry: bool) | Close
    | Link | LinkError
    | Unlink

  ghost predicate Enabled(c: Config, s: State, p: Pid, e: Event) {
    p in s.callers &&
    match (s.callers[p], e)
    case (Opening, Open) => true
    case (Opening, OpenError) => true
    case (Reading(i, got), ReadSome(count)) => i in s.data && 0 < count && |got| + count <= 17 &&
      |got| + count <= |s.data[i]|
    case (Reading(i, got), ReadEnd) => i in s.data && (|got| == 17 || |got| == |s.data[i]|)
    case (Reading(i, got), ReadError) => true
    case (Drawing, Draw(id)) => |id| == 16
    case (Drawing, DrawError) => true
    case (Creating(id), Create(t)) => Temp(t) !in s.names && (c.namesRepeat || t !in s.used)
    case (Creating(id), CreateError(_)) => true
    case (Writing(id, t, i, written), Write(count)) => 0 < count && written + count <= |id| && i in s.data
    case (Writing(id, t, i, written), WriteError(_)) => true
    case (Writing(id, t, i, written), Close) => written == |id|
    case (Linking(id, t, i), Link) => true
    case (Linking(id, t, i), LinkError) => c.linkErrors
    case (Discarding(t, i, retry), Unlink) => true
    case (Unlinking(id, t, o), Unlink) => true
    case (UnlinkingAgain(t, o), Unlink) => true
    case _ => false
  }

  ghost function To(s: State, p: Pid, pc: Pc): State {
    s.(callers := s.callers[p := pc])
  }

  /** A failed caller starts over when errno says the file exists. */
  function GiveUp(retry: bool): Pc {
    if retry then Opening else Failed
  }

  ghost function Apply(c: Config, s: State, p: Pid, e: Event): State
    requires Enabled(c, s, p, e)
  {
    match (s.callers[p], e)
    case (Opening, Open) => To(s, p, if Identity in s.names then Reading(s.names[Identity], []) else Drawing)
    case (Reading(i, got), ReadSome(count)) => To(s, p, Reading(i, got + s.data[i][|got|..|got| + count]))
    case (Reading(i, got), ReadEnd) => To(s, p, if |got| == 16 then Done(got) else Failed)
    case (Drawing, Draw(id)) => To(s, p, Creating(id))
    case (Creating(id), Create(t)) =>
      To(s.(names := s.names[Temp(t) := s.next], data := s.data[s.next := []], next := s.next + 1,
        used := s.used + {t}),
         p, Writing(id, t, s.next, 0))
    case (Creating(id), CreateError(retry)) => To(s, p, GiveUp(retry))
    case (Writing(id, t, i, written), Write(count)) =>
      To(s.(data := s.data[i := s.data[i] + id[written..written + count]]), p, Writing(id, t, i, written + count))
    case (Writing(id, t, i, written), WriteError(retry)) => To(s, p, Discarding(t, i, retry))
    case (Discarding(t, i, retry), Unlink) => To(s.(names := s.names - {Temp(t)}), p, GiveUp(retry))
    case (Writing(id, t, i, written), Close) => To(s, p, Linking(id, t, i))
    case (Linking(id, t, i), Link) =>
      if Temp(t) !in s.names then To(s, p, Unlinking(id, t, Error))
      else if Identity in s.names then To(s, p, Unlinking(id, t, Exists))
      else To(s.(names := s.names[Identity := s.names[Temp(t)]]), p, Unlinking(id, t, Linked))
    case (Linking(id, t, i), LinkError) => To(s, p, Unlinking(id, t, Error))
    case (Unlinking(id, t, o), Unlink) =>
      To(s.(names := s.names - {Temp(t)}), p, if o.Linked? then Done(id) else UnlinkingAgain(t, o))
    case (UnlinkingAgain(t, o), Unlink) => To(s.(names := s.names - {Temp(t)}), p, GiveUp(o.Exists?))
    case _ => To(s, p, Failed)
  }

  ghost predicate Next(c: Config, s: State, s': State) {
    exists p, e :: Enabled(c, s, p, e) && s' == Apply(c, s, p, e)
  }

  /** Any directory to start from: a published identity of any content or none, and leftovers of crashed runs, even a
      temporary that is still another name of the identity. */
  ghost predicate Init(s: State) {
    && (forall n :: n in s.names ==> s.names[n] < s.next)
    && (forall i: Inode :: i in s.data <==> i < s.next)
    && (forall t :: Temp(t) in s.names ==> t in s.used)
    && (forall p :: p in s.callers ==> s.callers[p] == Opening)
  }

  ghost predicate Run(c: Config, run: seq<State>) {
    |run| > 0 && Init(run[0]) && forall k :: 0 <= k < |run| - 1 ==> Next(c, run[k], run[k + 1])
  }

  // ----- the invariant

  predicate Owns(pc: Pc) {
    pc.Writing? || pc.Discarding? || pc.Linking?
  }

  ghost predicate CallerOk(s: State, pc: Pc) {
    match pc
    case Reading(i, got) =>
      Identity in s.names && s.names[Identity] == i && i in s.data && |got| <= 17 && |got| <= |s.data[i]| &&
        got == s.data[i][..|got|]
    case Creating(id) => |id| == 16
    case Writing(id, t, i, written) =>
      |id| == 16 && written <= 16 && i < s.next && i in s.data && s.data[i] == id[..written] && t in s.used
    case Discarding(t, i, _) => i < s.next && i in s.data && t in s.used
    case Linking(id, t, i) => |id| == 16 && i < s.next && i in s.data && s.data[i] == id && t in s.used
    case Unlinking(id, t, o) => t in s.used && (o.Linked? ==> Published(s, id)) && (o.Exists? ==> Identity in s.names)
    case UnlinkingAgain(t, o) => t in s.used && (o.Exists? ==> Identity in s.names)
    case Done(id) => Published(s, id)
    case _ => true
  }

  ghost predicate Published(s: State, id: Bytes) {
    Identity in s.names && s.names[Identity] in s.data && s.data[s.names[Identity]] == id && |id| == 16
  }

  predicate HasTemp(pc: Pc) {
    Owns(pc) || pc.Unlinking? || pc.UnlinkingAgain?
  }

  /** Every unlinked-to-be temporary is its caller's own, as long as that can still matter. */
  ghost predicate TempsOwned(c: Config, s: State) {
    && (!c.namesRepeat || Identity !in s.names ==>
         forall p :: p in s.callers && Owns(s.callers[p]) ==>
           Temp(s.callers[p].temp) in s.names && s.names[Temp(s.callers[p].temp)] == s.callers[p].inode)
    && (!c.namesRepeat ==>
         forall p, q :: p in s.callers && q in s.callers && p != q && HasTemp(s.callers[p]) && HasTemp(s.callers[q]) ==>
           s.callers[p].temp != s.callers[q].temp)
    && (c.namesRepeat && Identity !in s.names ==>
         forall p :: p in s.callers ==> !s.callers[p].Unlinking? && !s.callers[p].UnlinkingAgain?)
  }

  ghost predicate Inv(c: Config, s: State) {
    && (forall n :: n in s.names ==> s.names[n] < s.next)
    && (forall i: Inode :: i in s.data <==> i < s.next)
    && (forall t :: Temp(t) in s.names ==> t in s.used)
    && (forall p :: p in s.callers ==> CallerOk(s, s.callers[p]))
    && (forall p, q :: p in s.callers && q in s.callers && p != q && Owns(s.callers[p]) && Owns(s.callers[q]) ==>
          s.callers[p].inode != s.callers[q].inode)
    && (forall p :: p in s.callers && s.callers[p].Writing? && Identity in s.names ==>
      s.names[Identity] != s.callers[p].inode)
    && TempsOwned(c, s)
  }

  /** The environments the code is right in. */
  predicate Safe(c: Config) {
    !(c.namesRepeat && c.linkErrors)
  }

  /** Once published, the identity's inode and bytes stay. */
  ghost predicate Keeps(s: State, s': State) {
    Identity in s.names && s.names[Identity] in s.data ==>
      && Identity in s'.names && s'.names[Identity] == s.names[Identity]
      && s'.names[Identity] in s'.data && s'.data[s'.names[Identity]] == s.data[s.names[Identity]]
  }

  lemma InitInv(c: Config, s: State)
    requires Init(s)
    ensures Inv(c, s)
  {}

  ghost predicate Sound(c: Config, s: State, p: Pid, e: Event) {
    Inv(c, s) && Safe(c) && Enabled(c, s, p, e)
  }

  /** A step that only moves its caller on, to a place that is in order. */
  lemma Move(c: Config, s: State, p: Pid, pc: Pc)
    requires Inv(c, s) && p in s.callers && CallerOk(s, pc)
    requires HasTemp(pc) ==> HasTemp(s.callers[p]) && s.callers[p].temp == pc.temp
    requires Owns(pc) ==> Owns(s.callers[p]) && s.callers[p].inode == pc.inode
    requires pc.Writing? ==> s.callers[p].Writing?
    requires c.namesRepeat && Identity !in s.names ==> !pc.Unlinking? && !pc.UnlinkingAgain?
    ensures Inv(c, To(s, p, pc)) && Keeps(s, To(s, p, pc))
  {
    var s' := To(s, p, pc);
    forall q | q in s'.callers ensures CallerOk(s', s'.callers[q]) {
      SameFiles(s, s', s'.callers[q]);
    }
  }

  /** Whether a caller is in order depends on the files only. */
  lemma SameFiles(s: State, s': State, pc: Pc)
    requires s'.names == s.names && s'.data == s.data && s'.next == s.next && s'.used == s.used
    ensures CallerOk(s, pc) == CallerOk(s', pc)
  {}

  lemma ReadStep(c: Config, s: State, p: Pid, e: Event)
    requires Sound(c, s, p, e) && (e.ReadSome? || e.ReadEnd? || e.ReadError?)
    ensures Inv(c, Apply(c, s, p, e)) && Keeps(s, Apply(c, s, p, e))
  {
    var i, got := s.callers[p].inode, s.callers[p].got;
    assert CallerOk(s, s.callers[p]);
    var pc := Apply(c, s, p, e).callers[p];
    assert Apply(c, s, p, e) == To(s, p, pc);
    ReadOk(s, i, got, pc, e);
    Move(c, s, p, pc);
  }

  lemma ReadOk(s: State, i: Inode, got: Bytes, pc: Pc, e: Event)
    requires CallerOk(s, Reading(i, got))
    requires e.ReadSome? ==> |got| + e.count <= 17 && |got| + e.count <= |s.data[i]|
                             && pc == Reading(i, got + s.data[i][|got|..|got| + e.count])
    requires e.ReadEnd? ==> (|got| == 17 || |got| == |s.data[i]|) && pc == if |got| == 16 then Done(got) else Failed
    requires e.ReadError? ==> pc == Failed
    requires e.ReadSome? || e.ReadEnd? || e.ReadError?
    ensures CallerOk(s, pc)
  {
    if e.ReadSome? {
      assert got + s.data[i][|got|..|got| + e.count] == s.data[i][..|got| + e.count];
    }
    assert s.data[i][..|s.data[i]|] == s.data[i];
  }

  lemma QuietStep(c: Config, s: State, p: Pid, e: Event)
    requires Sound(c, s, p, e)
    requires e.Open? || e.OpenError? || e.Draw? || e.DrawError? || e.CreateError? || e.Close?
    ensures Inv(c, Apply(c, s, p, e)) && Keeps(s, Apply(c, s, p, e))
  {
    assert CallerOk(s, s.callers[p]);
    var s' := Apply(c, s, p, e);
    assert s' == To(s, p, s'.callers[p]);
    Move(c, s, p, s'.callers[p]);
  }

  lemma CreateStep(c: Config, s: State, p: Pid, e: Event)
    requires Sound(c, s, p, e) && e.Create?
    ensures Inv(c, Apply(c, s, p, e)) && Keeps(s, Apply(c, s, p, e))
  {
    hide TempsOwned, CallerOk;
    CreateTemps(c, s, p, e);
    CreateCallers(c, s, p, e);
    CreateInodes(c, s, p, e);
  }

  lemma CreateCallers(c: Config, s: State, p: Pid, e: Event)
    requires Sound(c, s, p, e) && e.Create?
    ensures forall q :: q in Apply(c, s, p, e).callers ==> CallerOk(Apply(c, s, p, e), Apply(c, s, p, e).callers[q])
  {
    hide TempsOwned;
    var s' := Apply(c, s, p, e);
    assert CallerOk(s, s.callers[p]);
    forall q | q in s'.callers ensures CallerOk(s', s'.callers[q]) {
      if q != p {
        CreateFrame(s, s', s.callers[q]);
      }
    }
  }

  /** The new file's inode is nobody else's. */
  lemma CreateInodes(c: Config, s: State, p: Pid, e: Event)
    requires Sound(c, s, p, e) && e.Create?
    ensures var s' := Apply(c, s, p, e);
      && (forall q, r :: q in s'.callers && r in s'.callers && q != r && Owns(s'.callers[q]) && Owns(s'.callers[r]) ==>
            s'.callers[q].inode != s'.callers[r].inode)
      && (forall q :: q in s'.callers && s'.callers[q].Writing? && Identity in s'.names ==>
        s'.names[Identity] != s'.callers[q].inode)
  {
    hide TempsOwned;
    forall q | q in s.callers && Owns(s.callers[q]) ensures s.callers[q].inode < s.next {
      assert CallerOk(s, s.callers[q]);
    }
    hide CallerOk;
  }

  lemma CreateFrame(s: State, s': State, pc: Pc)
    requires CallerOk(s, pc) && s.used <= s'.used && s.next <= s'.next
    requires Identity in s.names ==> Identity in s'.names && s'.names[Identity] == s.names[Identity]
    requires forall i :: i in s.data ==> i in s'.data && s'.data[i] == s.data[i]
    ensures CallerOk(s', pc)
  {}

  lemma CreateTemps(c: Config, s: State, p: Pid, e: Event)
    requires Sound(c, s, p, e) && e.Create?
    ensures TempsOwned(c, Apply(c, s, p, e))
  {
    var s' := Apply(c, s, p, e);
    var t := e.temp;
    forall q | q in s'.callers && Owns(s'.callers[q]) && (!c.namesRepeat || Identity !in s'.names)
      ensures Temp(s'.callers[q].temp) in s'.names && s'.names[Temp(s'.callers[q].temp)] == s'.callers[q].inode
    {
      if q != p {
        assert Temp(s.callers[q].temp) in s.names;
      }
    }
    if !c.namesRepeat {
      forall q | q in s.callers && HasTemp(s.callers[q]) ensures s.callers[q].temp != t {
        assert CallerOk(s, s.callers[q]);
      }
    }
  }

  lemma WriteStep(c: Config, s: State, p: Pid, e: Event)
    requires Sound(c, s, p, e) && e.Write?
    ensures Inv(c, Apply(c, s, p, e)) && Keeps(s, Apply(c, s, p, e))
  {
    var s' := Apply(c, s, p, e);
    var pc := s.callers[p];
    assert CallerOk(s, pc);
    assert pc.id[..pc.written] + pc.id[pc.written..pc.written + e.count] == pc.id[..pc.written + e.count];
    forall q | q in s'.callers ensures CallerOk(s', s'.callers[q]) {
      if q != p {
        WriteFrame(s, s', pc.inode, s.callers[q]);
      }
    }
    OwnersKept(c, s, s', p);
  }

  /** A write touches one inode, which nobody else owns and which is not published. */
  lemma WriteFrame(s: State, s': State, i: Inode, pc: Pc)
    requires CallerOk(s, pc) && i in s.data && (Owns(pc) ==> pc.inode != i) &&
      (Identity in s.names ==> s.names[Identity] != i)
    requires s'.names == s.names && s'.next == s.next && s'.used == s.used
    requires s'.data.Keys == s.data.Keys && forall j :: j in s.data && j != i ==> s'.data[j] == s.data[j]
    ensures CallerOk(s', pc)
  {}

  lemma OwnersKept(c: Config, s: State, s': State, p: Pid)
    requires TempsOwned(c, s) && p in s.callers && s.callers[p].Writing? && s'.names == s.names
    requires p in s'.callers && s'.callers == s.callers[p := s'.callers[p]] && s'.callers[p].Writing?
    requires s'.callers[p].temp == s.callers[p].temp && s'.callers[p].inode == s.callers[p].inode
    ensures TempsOwned(c, s')
  {}

  lemma DropFrame(s: State, t: nat, pc: Pc)
    requires CallerOk(s, pc)
    ensures CallerOk(s.(names := s.names - {Temp(t)}), pc)
  {}

  /** Dropping a temporary name no writer still needs. */
  lemma Drop(c: Config, s: State, p: Pid, pc: Pc)
    requires Inv(c, s) && p in s.callers && HasTemp(s.callers[p]) && CallerOk(s, pc)
    requires c.namesRepeat && Identity !in s.names ==> Owns(s.callers[p])
    requires !Owns(pc) && (HasTemp(pc) ==> pc.temp == s.callers[p].temp)
    requires c.namesRepeat && Identity !in s.names ==> !pc.Unlinking? && !pc.UnlinkingAgain?
    ensures Inv(c, To(s.(names := s.names - {Temp(s.callers[p].temp)}), p, pc))
    ensures Keeps(s, To(s.(names := s.names - {Temp(s.callers[p].temp)}), p, pc))
  {
    var t := s.callers[p].temp;
    var r := s.(names := s.names - {Temp(t)});
    var s' := To(r, p, pc);
    DropFrame(s, t, pc);
    SameFiles(r, s', pc);
    forall q | q in s'.callers ensures CallerOk(s', s'.callers[q]) {
      if q != p {
        DropFrame(s, t, s.callers[q]);
        SameFiles(r, s', s.callers[q]);
      }
    }
    forall q | q in s'.callers && Owns(s'.callers[q]) && (!c.namesRepeat || Identity !in s'.names)
      ensures Temp(s'.callers[q].temp) in s'.names && s'.names[Temp(s'.callers[q].temp)] == s'.callers[q].inode
    {
      assert q != p && s'.callers[q] == s.callers[q];
      assert s.names[Temp(s.callers[q].temp)] == s.callers[q].inode;
      assert s.callers[q].temp != t;
    }
  }

  lemma WriteErrorStep(c: Config, s: State, p: Pid, e: Event)
    requires Sound(c, s, p, e) && e.WriteError?
    ensures Inv(c, Apply(c, s, p, e)) && Keeps(s, Apply(c, s, p, e))
  {
    var pc := s.callers[p];
    assert CallerOk(s, pc);
    Move(c, s, p, Discarding(pc.temp, pc.inode, e.retry));
  }

  lemma UnlinkStep(c: Config, s: State, p: Pid, e: Event)
    requires Sound(c, s, p, e) && e.Unlink?
    ensures Inv(c, Apply(c, s, p, e)) && Keeps(s, Apply(c, s, p, e))
  {
    assert CallerOk(s, s.callers[p]);
    var s' := Apply(c, s, p, e);
    Drop(c, s, p, s'.callers[p]);
  }

  lemma LinkStep(c: Config, s: State, p: Pid, e: Event)
    requires Sound(c, s, p, e) && (e.Link? || e.LinkError?)
    ensures Inv(c, Apply(c, s, p, e)) && Keeps(s, Apply(c, s, p, e))
  {
    var pc := s.callers[p];
    assert CallerOk(s, pc);
    if e.LinkError? || Temp(pc.temp) !in s.names {
      Move(c, s, p, Unlinking(pc.id, pc.temp, Error));
    } else if Identity in s.names {
      Move(c, s, p, Unlinking(pc.id, pc.temp, Exists));
    } else {
      PublishStep(c, s, p);
    }
  }

  lemma PublishStep(c: Config, s: State, p: Pid)
    requires Inv(c, s) && Safe(c) && p in s.callers && s.callers[p].Linking?
    requires Identity !in s.names && Temp(s.callers[p].temp) in s.names
    ensures Inv(c, Apply(c, s, p, Link)) && Published(Apply(c, s, p, Link), s.callers[p].id)
  {
    var pc := s.callers[p];
    var s' := Apply(c, s, p, Link);
    assert CallerOk(s, pc);
    assert s.names[Temp(pc.temp)] == pc.inode;
    forall q | q in s'.callers ensures CallerOk(s', s'.callers[q]) {
      if q != p {
        CreateFrame(s, s', s.callers[q]);
      }
    }
    hide CallerOk;
  }

  /** In a safe environment every step keeps the invariant, and the published identity. */
  lemma StepKeeps(c: Config, s: State, p: Pid, e: Event)
    requires Sound(c, s, p, e)
    ensures Inv(c, Apply(c, s, p, e)) && Keeps(s, Apply(c, s, p, e))
  {
    hide Inv, CallerOk, TempsOwned, Keeps, Safe, Apply;
    match e
    case Create(_) => CreateStep(c, s, p, e);
    case Write(_) => WriteStep(c, s, p, e);
    case WriteError(_) => WriteErrorStep(c, s, p, e);
    case ReadSome(_) => ReadStep(c, s, p, e);
    case ReadEnd => ReadStep(c, s, p, e);
    case ReadError => ReadStep(c, s, p, e);
    case Link => LinkStep(c, s, p, e);
    case LinkError => LinkStep(c, s, p, e);
    case Unlink => UnlinkStep(c, s, p, e);
    case _ => QuietStep(c, s, p, e);
  }

  // ----- over whole runs

  lemma {:induction false} RunKeepsInv(c: Config, run: seq<State>, k: nat)
    requires Run(c, run) && Safe(c) && k < |run|
    ensures Inv(c, run[k])
  {
    hide Inv, Enabled, Apply, Init;
    if k == 0 {
      InitInv(c, run[0]);
    } else {
      RunKeepsInv(c, run, k - 1);
      assert Next(c, run[k - 1], run[k - 1 + 1]);
      var p, e :| Enabled(c, run[k - 1], p, e) && run[k] == Apply(c, run[k - 1], p, e);
      StepKeeps(c, run[k - 1], p, e);
    }
  }

  /** What was published at some moment is published ever after. */
  lemma {:induction false} PublishedForGood(c: Config, run: seq<State>, j: nat, k: nat)
    requires Run(c, run) && Safe(c) && j <= k < |run|
    ensures Keeps(run[j], run[k])
  {
    hide Inv, Enabled, Apply, Init;
    if j < k {
      PublishedForGood(c, run, j, k - 1);
      RunKeepsInv(c, run, k - 1);
      assert Next(c, run[k - 1], run[k - 1 + 1]);
      var p, e :| Enabled(c, run[k - 1], p, e) && run[k] == Apply(c, run[k - 1], p, e);
      StepKeeps(c, run[k - 1], p, e);
    }
  }

  /** All callers that ever return true, in any interleaving, return the same 16 bytes. */
  lemma CallersAgree(c: Config, run: seq<State>, j: nat, k: nat, p: Pid, q: Pid)
    requires Run(c, run) && Safe(c) && j <= k < |run|
    requires p in run[j].callers && run[j].callers[p].Done?
    requires q in run[k].callers && run[k].callers[q].Done?
    ensures run[j].callers[p].id == run[k].callers[q].id && |run[k].callers[q].id| == 16
  {
    hide TempsOwned, Enabled, Apply, Init;
    RunKeepsInv(c, run, j);
    RunKeepsInv(c, run, k);
    assert CallerOk(run[j], run[j].callers[p]) && CallerOk(run[k], run[k].callers[q]);
    PublishedForGood(c, run, j, k);
  }

  /** An identity file that was not there before holds 16 bytes from its first moment. */
  lemma {:induction false} NeverPartial(c: Config, run: seq<State>, k: nat)
    requires Run(c, run) && Safe(c) && k < |run| && Identity !in run[0].names && Identity in run[k].names
    ensures run[k].names[Identity] in run[k].data && |run[k].data[run[k].names[Identity]]| == 16
  {
    hide Inv, Enabled, Apply, Init, Safe;
    RunKeepsInv(c, run, k - 1);
    assert Next(c, run[k - 1], run[k - 1 + 1]);
    var p, e :| Enabled(c, run[k - 1], p, e) && run[k] == Apply(c, run[k - 1], p, e);
    if Identity in run[k - 1].names {
      NeverPartial(c, run, k - 1);
      StepKeeps(c, run[k - 1], p, e);
    } else {
      FirstPublished(c, run[k - 1], p, e);
    }
  }

  /** Only a link gives the identity a name, to a file its caller has written whole. */
  lemma FirstPublished(c: Config, s: State, p: Pid, e: Event)
    requires Sound(c, s, p, e) && Identity !in s.names && Identity in Apply(c, s, p, e).names
    ensures var s' := Apply(c, s, p, e); s'.names[Identity] in s'.data && |s'.data[s'.names[Identity]]| == 16
  {
    hide Inv, CallerOk, TempsOwned;
    assert e.Link? && s.callers[p].Linking?;
    PublishStep(c, s, p);
  }

  // ----- why the environment matters: the failed link path unlinks its temporary twice

  lemma Extend(c: Config, run: seq<State>, p: Pid, e: Event) returns (longer: seq<State>, s: State)
    requires |run| > 0 && Run(c, run) && Enabled(c, run[|run| - 1], p, e)
    ensures s == Apply(c, run[|run| - 1], p, e) && Run(c, longer)
    ensures longer == run + [s] && |longer| > 1 && longer[|longer| - 1] == s && longer[0] == run[0]
  {
    s := Apply(c, run[|run| - 1], p, e);
    longer := run + [s];
    assert Next(c, run[|run| - 1], s);
    forall k | 0 <= k < |longer| - 1 ensures Next(c, longer[k], longer[k + 1]) {
      if k < |run| - 1 {
        assert Next(c, run[k], run[k + 1]);
      }
    }
  }

  /** One caller's steps up to its link, with a free temporary name. */
  lemma WriteAll(c: Config, run: seq<State>, p: Pid, id: Bytes, t: nat) returns (longer: seq<State>, s: State)
    requires |run| > 0 && Run(c, run) && |id| == 16 && c.namesRepeat
    requires var s0 := run[|run| - 1];
      p in s0.callers && s0.callers[p] == Opening && Identity !in s0.names && Temp(t) !in s0.names
    ensures var s0 := run[|run| - 1];
      s == State(s0.names[Temp(t) := s0.next], s0.data[s0.next := id], s0.next + 1, s0.used + {t},
                 s0.callers[p := Linking(id, t, s0.next)])
    ensures Run(c, longer) && |longer| > 1 && longer[|longer| - 1] == s && longer[0] == run[0]
  {
    hide Run, Next;
    var s0 := run[|run| - 1];
    longer, s := Extend(c, run, p, Open);
    longer, s := Extend(c, longer, p, Draw(id));
    longer, s := Extend(c, longer, p, Create(t));
    assert s == State(s0.names[Temp(t) := s0.next], s0.data[s0.next := []], s0.next + 1, s0.used + {t},
                      s0.callers[p := Writing(id, t, s0.next, 0)]);
    longer, s := Extend(c, longer, p, Write(16));
    assert [] + id[0..16] == id;
    assert s.data == s0.data[s0.next := id];
    longer, s := Extend(c, longer, p, Close);
    assert s.callers == s0.callers[p := Linking(id, t, s0.next)];
  }

  lemma InitOfEmpty(s: State)
    requires s.names == map[] && s.data == map[] && s.next == 0
    requires forall p :: p in s.callers ==> s.callers[p] == Opening
    ensures Init(s)
  {}

  /** If names can repeat and links can fail otherwise, a caller can publish another's empty temporary and return true:
      the first caller's second unlink removes the second caller's name, and the third caller takes it over. */
  lemma DoubleUnlinkRace(c: Config, a: Bytes, b: Bytes, d: Bytes) returns (run: seq<State>, s: State)
    requires !Safe(c) && |a| == |b| == |d| == 16
    ensures |run| > 0 && Run(c, run) && run[|run| - 1] == s && Identity !in run[0].names
    ensures s == State(map[Identity := 2], map[0 := a, 1 := b, 2 := []], 3, {0},
                       map[0 := Failed, 1 := Done(b), 2 := Writing(d, 0, 2, 0), 3 := Opening])
  {
    hide Run, Next;
    run, s := TwoWriters(c, a, b);
    run, s := Extend(c, run, 2, Open);
    run, s := Extend(c, run, 2, Draw(d));
    run, s := Extend(c, run, 2, Create(0));
    assert s == State(map[Temp(0) := 2], map[0 := a, 1 := b, 2 := []], 3, {0},
                      map[0 := Failed, 1 := Linking(b, 0, 1), 2 := Writing(d, 0, 2, 0), 3 := Opening]);
    run, s := Extend(c, run, 1, Link);
    assert s.names == map[Temp(0) := 2, Identity := 2];
    run, s := Extend(c, run, 1, Unlink);
    assert s.names == map[Identity := 2];
  }

  lemma TwoWriters(c: Config, a: Bytes, b: Bytes) returns (run: seq<State>, s: State)
    requires !Safe(c) && |a| == |b| == 16
    ensures |run| > 0 && Run(c, run) && run[|run| - 1] == s && Identity !in run[0].names
    ensures s == State(map[], map[0 := a, 1 := b], 2, {0},
                       map[0 := Failed, 1 := Linking(b, 0, 1), 2 := Opening, 3 := Opening])
  {
    hide Run, Next;
    run, s := FailedLink(c, a);
    run, s := WriteAll(c, run, 1, b, 0);
    run, s := Extend(c, run, 0, Unlink);
    assert s.names == map[];
  }

  lemma FailedLink(c: Config, a: Bytes) returns (run: seq<State>, s: State)
    requires !Safe(c) && |a| == 16
    ensures |run| > 0 && Run(c, run) && run[|run| - 1] == s && Identity !in run[0].names
    ensures s == State(map[], map[0 := a], 1, {0},
                       map[0 := UnlinkingAgain(0, Error), 1 := Opening, 2 := Opening, 3 := Opening])
  {
    s := State(map[], map[], 0, {}, map[0 := Opening, 1 := Opening, 2 := Opening, 3 := Opening]);
    InitOfEmpty(s);
    run := [s];
    hide Run, Next, Init;
    run, s := WriteAll(c, run, 0, a, 0);
    run, s := Extend(c, run, 0, LinkError);
    run, s := Extend(c, run, 0, Unlink);
    assert s.names == map[];
  }

  /** The race goes on: the third caller fills the published file, and a fourth reads other bytes than the second
      returned. At j the identity was published, empty. */
  lemma RaceDisagrees(c: Config, a: Bytes, b: Bytes, d: Bytes) returns (run: seq<State>, j: nat)
    requires !Safe(c) && |a| == |b| == |d| == 16
    ensures Run(c, run) && j < |run|
    ensures var s := run[|run| - 1];
      && 1 in s.callers && s.callers[1] == Done(b) && 3 in s.callers && s.callers[3] == Done(d)
      && Identity in s.names && s.names[Identity] in s.data && s.data[s.names[Identity]] == d
    ensures var s := run[j]; Identity in s.names && s.names[Identity] in s.data && s.data[s.names[Identity]] == []
  {
    hide Run, Next;
    var s;
    run, s := DoubleUnlinkRace(c, a, b, d);
    j := |run| - 1;
    run, s := Extend(c, run, 2, Write(16));
    assert [] + d[0..16] == d;
    run, s := Extend(c, run, 3, Open);
    run, s := Extend(c, run, 3, ReadSome(16));
    assert [] + d[0..16] == d;
    run, s := Extend(c, run, 3, ReadEnd);
  }

  // ----- so each promise holds exactly in the safe environments

  /** In no run does an identity that was not there before hold anything but 16 bytes. */
  ghost predicate NeverTorn(c: Config) {
    forall run: seq<State>, k: nat ::
      Run(c, run) && k < |run| && Identity !in run[0].names && Identity in run[k].names ==> HoldsSixteen(run[k])
  }

  ghost predicate HoldsSixteen(s: State) {
    Identity in s.names && s.names[Identity] in s.data && |s.data[s.names[Identity]]| == 16
  }

  /** In no run do two callers return different identities. */
  ghost predicate Agree(c: Config) {
    forall run: seq<State>, j: nat, k: nat :: Run(c, run) && j <= k < |run| ==> SameAnswers(run[j], run[k])
  }

  ghost predicate SameAnswers(s: State, s': State) {
    forall p, q :: p in s.callers && q in s'.callers && s.callers[p].Done? && s'.callers[q].Done? ==>
      s.callers[p] == s'.callers[q]
  }

  /** In no run does a published identity change or go away. */
  ghost predicate Permanent(c: Config) {
    forall run: seq<State>, j: nat, k: nat :: Run(c, run) && j <= k < |run| ==> Keeps(run[j], run[k])
  }

  /** Never torn, exactly when temporary names do not repeat or a link fails only because the name is taken. */
  lemma NeverTornExactlyWhen(c: Config)
    ensures NeverTorn(c) <==> Safe(c)
  {
    hide Run;
    if Safe(c) {
      forall run: seq<State>, k: nat | Run(c, run) && k < |run| && Identity !in run[0].names && Identity in run[k].names
        ensures HoldsSixteen(run[k])
      {
        NeverPartial(c, run, k);
      }
    } else {
      var id: Bytes := seq(16, _ => 0);
      var run, s := DoubleUnlinkRace(c, id, id, id);
      assert !HoldsSixteen(run[|run| - 1]);
    }
  }

  /** All callers agree exactly then, */
  lemma AgreeExactlyWhen(c: Config)
    ensures Agree(c) <==> Safe(c)
  {
    hide Run;
    if Safe(c) {
      forall run: seq<State>, j: nat, k: nat | Run(c, run) && j <= k < |run| ensures SameAnswers(run[j], run[k]) {
        forall p, q | p in run[j].callers && q in run[k].callers && run[j].callers[p].Done? && run[k].callers[q].Done?
          ensures run[j].callers[p] == run[k].callers[q]
        {
          CallersAgree(c, run, j, k, p, q);
        }
      }
    } else {
      var zeros: Bytes, ones: Bytes := seq(16, _ => 0), seq(16, _ => 1);
      var run, _ := RaceDisagrees(c, zeros, zeros, ones);
      assert zeros[0] != ones[0];
      var n := |run| - 1;
      assert !SameAnswers(run[n], run[n]);
    }
  }

  /** ... and exactly then does a published identity stay as it is. */
  lemma PermanentExactlyWhen(c: Config)
    ensures Permanent(c) <==> Safe(c)
  {
    hide Run;
    if Safe(c) {
      forall run: seq<State>, j: nat, k: nat | Run(c, run) && j <= k < |run| ensures Keeps(run[j], run[k]) {
        PublishedForGood(c, run, j, k);
      }
    } else {
      var id: Bytes := seq(16, _ => 0);
      var run, j := RaceDisagrees(c, id, id, id);
      assert !Keeps(run[j], run[|run| - 1]);
    }
  }
}
