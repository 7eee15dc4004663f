/** Transactions and reloads by any number of goroutines, interleaved step by step. saveMu is held
    across a whole transaction; each section under the inner lock is one step. */
module FleetTxn {
  import opened FleetTypes
  import opened FleetOps
  import opened FleetFile
  import ETag
  import Mac

  datatype Env = Env(base: string, digest: string -> string)

  /** A file is either the whole encoding of a configuration or a partly written one. */
  datatype Content = Whole(cfg: ConfigFile) | Torn

  datatype Phase =
    | Idle
    | Waiting(op: Op)                                                 // blocked on saveMu
    | Holding(op: Op)                                                 // has saveMu
    | Changed(op: Op, prior: Prior, result: Result)                   // map changed, not yet saved
    | Encoded(op: Op, prior: Prior, result: Result, cfg: ConfigFile)  // Save serialised the map
    | Writing(op: Op, prior: Prior, result: Result, cfg: ConfigFile)  // temporary file open
    | Written(op: Op, prior: Prior, result: Result)                   // temporary file closed
    | Undoing(op: Op, prior: Prior)                                   // Save failed
    | Reading(op: Op, raw: Content)                                   // reload read the file
    | Leaving(op: Op, result: Result)                                 // about to release saveMu

  datatype Commit = Commit(op: Op, result: Result)

  datatype Lock = Free | HeldBy(id: nat)

  datatype State = State(
    mem: Store,
    file: Content,
    tmp: map<nat, Content>,
    lock: Lock,
    phase: map<nat, Phase>,
    log: seq<Commit>)           // the transactions and reloads that took effect, in order

  datatype Event =
    | Call(req: Request, files: Files)
    | TakeLock
    | Mutate
    | Serialise
    | OpenTmp
    | CloseTmp
    | Rename
    | FailSave        // any step of Save returns an error
    | RollBack
    | ReadFile
    | FailRead
    | Swap
    | Release

  datatype Next = To(s: State) | Blocked

  function PhaseOf(s: State, t: nat): Phase {
    if t in s.phase then s.phase[t] else Idle
  }

  function Go(s: State, t: nat, p: Phase): State {
    s.(phase := s.phase[t := p])
  }

  /** One step of goroutine t; Blocked when the event is not its next step. */
  ghost function Step(env: Env, s: State, t: nat, e: Event): Next
    requires IsBase(env.base)
  {
    match (PhaseOf(s, t), e)
    case (Idle, Call(req, files)) =>
      (match Prepare(req, files)
       case Rejected(_) => To(s)
       case Ready(op) => To(Go(s, t, Waiting(op))))
    case (Waiting(op), TakeLock) =>
      if s.lock.Free? then To(Go(s, t, Holding(op)).(lock := HeldBy(t))) else Blocked
    case (Holding(op), Mutate) =>
      if op.Reload? then Blocked
      else (match Try(env.digest, s.mem.machines, op)
            case Refuse(r) => To(Go(s, t, Leaving(op, r)).(log := s.log + [Commit(op, r)]))
            case Change(ms, r) =>
              To(Go(s, t, Changed(op, PriorOf(s.mem.machines, op), r)).(mem := s.mem.(machines := ms))))
    case (Changed(op, prior, r), Serialise) => To(Go(s, t, Encoded(op, prior, r, Encode(env.base, s.mem))))
    case (Encoded(op, prior, r, cfg), OpenTmp) =>
      To(Go(s, t, Writing(op, prior, r, cfg)).(tmp := s.tmp[t := Torn]))
    case (Writing(op, prior, r, cfg), CloseTmp) =>
      To(Go(s, t, Written(op, prior, r)).(tmp := s.tmp[t := Whole(cfg)]))
    case (Written(op, prior, r), Rename) =>
      if t in s.tmp then
        To(Go(s, t, Leaving(op, r)).(file := s.tmp[t], tmp := s.tmp - {t}, log := s.log + [Commit(op, r)]))
      else Blocked
    case (Encoded(op, prior, _, _), FailSave) => To(Go(s, t, Undoing(op, prior)))
    case (Writing(op, prior, _, _), FailSave) => To(Go(s, t, Undoing(op, prior)).(tmp := s.tmp - {t}))
    case (Written(op, prior, _), FailSave) => To(Go(s, t, Undoing(op, prior)).(tmp := s.tmp - {t}))
    case (Undoing(op, prior), RollBack) =>
      if op.Reload? then Blocked
      else To(Go(s, t, Leaving(op, SaveFailed)).(mem := s.mem.(machines := Undo(s.mem.machines, op, prior)),
                                                 log := s.log + [Commit(op, SaveFailed)]))
    case (Holding(op), ReadFile) => if op.Reload? then To(Go(s, t, Reading(op, s.file))) else Blocked
    case (Holding(op), FailRead) =>
      if op.Reload? then To(Go(s, t, Leaving(op, ReloadFailed)).(log := s.log + [Commit(op, ReloadFailed)])) else Blocked
    case (Reading(op, raw), Swap) =>
      if op.Reload? && raw.Whole? && Decode(env.base, op.files, raw.cfg).Ok?
      then To(Go(s, t, Leaving(op, Reloaded)).(mem := Decode(env.base, op.files, raw.cfg).value,
                                               log := s.log + [Commit(op, Reloaded)]))
      else To(Go(s, t, Leaving(op, ReloadFailed)).(log := s.log + [Commit(op, ReloadFailed)]))
    case (Leaving(op, r), Release) => To(Go(s, t, Idle).(lock := Free))
    case _ => Blocked
  }

  type Schedule = seq<(nat, Event)>

  /** The state a schedule leads to, if every step of it is possible. */
  ghost function Run(env: Env, s: State, sched: Schedule): Next
    requires IsBase(env.base)
    decreases |sched|
  {
    if sched == [] then To(s)
    else
      var last := |sched| - 1;
      match Run(env, s, sched[..last])
      case Blocked => Blocked
      case To(s') => Step(env, s', sched[last].0, sched[last].1)
  }

  /** A store and the configuration its file holds. */
  datatype Committed = Committed(st: Store, cfg: ConfigFile)

  /** One operation, alone, on a store and its file: what it may return and leave behind. Reading may
      fail, and so may saving. */
  ghost function Serial(env: Env, d: Committed, c: Commit): Loaded<Committed>
    requires IsBase(env.base)
  {
    if c.op.Reload? then
      if c.result == Reloaded then
        match Decode(env.base, c.op.files, d.cfg)
        case Failed(why) => Failed(why)
        case Ok(st) => Ok(Committed(st, d.cfg))
      else if c.result == ReloadFailed then Ok(d)
      else Failed(BadProfile)
    else match Try(env.digest, d.st.machines, c.op)
      case Refuse(r) => if c.result == r then Ok(d) else Failed(BadProfile)
      case Change(ms, r) =>
        var st := d.st.(machines := ms);
        if c.result == r then Ok(Committed(st, Encode(env.base, st)))
        else if c.result == SaveFailed then Ok(d)
        else Failed(BadProfile)
  }

  /** A log replayed one operation at a time: Failed if some recorded result is not one the operation
      can return when it runs alone at that point. */
  ghost function Replay(env: Env, d: Committed, log: seq<Commit>): Loaded<Committed>
    requires IsBase(env.base)
    decreases |log|
  {
    if log == [] then Ok(d)
    else
      match Replay(env, d, log[..|log| - 1])
      case Failed(why) => Failed(why)
      case Ok(d') => Serial(env, d', log[|log| - 1])
  }

  predicate SavesNothing(log: seq<Commit>) {
    forall i | 0 <= i < |log| :: !Saves(log[i].result)
  }

  ghost predicate AdmittedOp(op: Op) {
    op.Create? || op.Update? ==> Mac.IsCanonical(op.mac) && Admitted(op.profile)
  }

  /** Profiles reach a transaction through the HTTP layer. */
  predicate AdmittedEvent(e: Event) {
    e.Call? ==>
      && (e.req.CreateRequest? ==> Admitted(e.req.m.profile))
      && (e.req.UpdateRequest? ==> Admitted(e.req.m.profile))
  }

  predicate AdmittedCalls(sched: Schedule) {
    forall i | 0 <= i < |sched| :: AdmittedEvent(sched[i].1)
  }

  /** Some earlier reading of the file gave this store. */
  ghost predicate WasLoaded(env: Env, d: Committed)
    requires IsBase(env.base)
  {
    exists files :: Decode(env.base, files, d.cfg) == Ok(d.st)
  }

  /** After Load: nobody is in a transaction, and memory is what was read from the file, whoever
      wrote that. */
  ghost predicate Quiet(env: Env, s: State)
    requires IsBase(env.base)
  {
    && s.lock == Free && s.log == [] && (forall t | t in s.phase :: s.phase[t] == Idle)
    && s.file.Whole? && WasLoaded(env, Committed(s.mem, s.file.cfg))
  }

  ghost function StartOf(s: State): Committed
    requires s.file.Whole?
  {
    Committed(s.mem, s.file.cfg)
  }

  predicate Inside(p: Phase) {
    !p.Idle? && !p.Waiting?
  }

  /** Memory, as seen by the goroutine inside, relative to the committed store. */
  ghost predicate Agrees(env: Env, s: State, c: Committed, t: nat)
    requires IsBase(env.base)
  {
    match PhaseOf(s, t)
    case Changed(op, prior, r) => Pending(env, s.mem, c.st, op, prior, r)
    case Encoded(op, prior, r, cfg) => Pending(env, s.mem, c.st, op, prior, r) && cfg == Encode(env.base, s.mem)
    case Writing(op, prior, r, cfg) => Pending(env, s.mem, c.st, op, prior, r) && cfg == Encode(env.base, s.mem)
    case Written(op, prior, r) =>
      Pending(env, s.mem, c.st, op, prior, r) && t in s.tmp && s.tmp[t] == Whole(Encode(env.base, s.mem))
    case Undoing(op, prior) => exists r :: Pending(env, s.mem, c.st, op, prior, r)
    case Reading(op, raw) => s.mem == c.st && op.Reload? && raw == Whole(c.cfg)
    case Holding(op) => s.mem == c.st && AdmittedOp(op)
    case Leaving(op, r) => s.mem == c.st && s.log != [] && s.log[|s.log| - 1] == Commit(op, r)
    case _ => true
  }

  ghost predicate Pending(env: Env, mem: Store, c: Store, op: Op, prior: Prior, r: Result)
    requires IsBase(env.base)
  {
    && !op.Reload? && AdmittedOp(op)
    && prior == PriorOf(c.machines, op)
    && Try(env.digest, c.machines, op) == Change(mem.machines, r)
    && mem.defaults == c.defaults
  }

  /** The file is the one the run started with until the first save, and from then on the encoding of
      the committed store. */
  ghost predicate Backed(env: Env, s0: Committed, log: seq<Commit>, c: Committed)
    requires IsBase(env.base)
  {
    if SavesNothing(log) then c == s0 else c.cfg == Encode(env.base, c.st)
  }

  /** What every step keeps: the log replays to a store c and its file, the file on disk is whole and
      is that file, and memory is c except for what the goroutine inside has changed. */
  ghost predicate Consistent(env: Env, s0: Committed, s: State, c: Committed)
    requires IsBase(env.base)
  {
    && Replay(env, s0, s.log) == Ok(c)
    && WasLoaded(env, s0) && Backed(env, s0, s.log, c)
    && AdmittedStore(c.st)
    && s.file == Whole(c.cfg)
    && (forall t :: Inside(PhaseOf(s, t)) <==> s.lock == HeldBy(t))
    && (forall t :: PhaseOf(s, t).Waiting? ==> AdmittedOp(PhaseOf(s, t).op))
    && (s.lock.Free? ==> s.mem == c.st)
    && (s.lock.HeldBy? ==> Agrees(env, s, c, s.lock.id))
  }

  lemma ReplaySnoc(env: Env, d: Committed, log: seq<Commit>, c: Commit)
    requires IsBase(env.base)
    ensures Replay(env, d, log + [c]) ==
      match Replay(env, d, log) case Failed(why) => Failed(why) case Ok(d') => Serial(env, d', c)
    ensures SavesNothing(log + [c]) <==> SavesNothing(log) && !Saves(c.result)
  {
    assert (log + [c])[..|log|] == log;
    assert forall i | 0 <= i < |log| :: (log + [c])[i] == log[i];
    assert (log + [c])[|log|] == c;
  }

  lemma ChangeStaysAdmitted(env: Env, c: Store, op: Op)
    requires AdmittedStore(c) && !op.Reload? && AdmittedOp(op)
    ensures var a := Try(env.digest, c.machines, op);
      a.Change? ==> AdmittedStore(c.(machines := a.machines))
  {
    hide ETag.Tag, Admitted, Mac.IsCanonical;
  }

  /** The committed store and file after a step: only a rename and a reload's swap change them. */
  ghost function CommittedAfter(env: Env, s: State, t: nat, e: Event, c: Committed): Committed
    requires IsBase(env.base)
  {
    if e.Rename? then Committed(s.mem, Encode(env.base, s.mem))
    else if e.Swap? && Step(env, s, t, e).To? then c.(st := Step(env, s, t, e).s.mem)
    else c
  }

  lemma {:induction false} StepKeepsConsistency(env: Env, s0: Committed, s: State, c: Committed, t: nat, e: Event)
    requires IsBase(env.base) && Consistent(env, s0, s, c) && AdmittedEvent(e)
    ensures var n := Step(env, s, t, e); n.To? ==> Consistent(env, s0, n.s, CommittedAfter(env, s, t, e, c))
  {
    hide ETag.Tag, Admitted, Mac.IsCanonical, Mac.CanonicalMac, ValidProfile, Encode, Decode, Try, Undo, Replay, Serial,
         AdmittedStore, IsBase, EncodeMachine;
    match (PhaseOf(s, t), e)
    case (Idle, Call(req, files)) => CallKeeps(env, s0, s, c, t, req, files);
    case (Holding(op), Mutate) => MutateKeeps(env, s0, s, c, t);
    case (Written(op, prior, r), Rename) => RenameKeeps(env, s0, s, c, t);
    case (Undoing(op, prior), RollBack) => RollBackKeeps(env, s0, s, c, t);
    case (Holding(op), FailRead) => FailedReadKeeps(env, s0, s, c, t);
    case (Reading(op, raw), Swap) => SwapKeeps(env, s0, s, c, t);
    case _ => if Step(env, s, t, e).To? { QuietStepKeeps(env, s0, s, c, t, e); }
  }

  /** The steps that neither change memory nor commit: locking, the stages of Save, reading. */
  lemma {:induction false} QuietStepKeeps(env: Env, s0: Committed, s: State, c: Committed, t: nat, e: Event)
    requires IsBase(env.base) && Consistent(env, s0, s, c)
    requires e.TakeLock? || e.Serialise? || e.OpenTmp? || e.CloseTmp? || e.FailSave? || e.ReadFile? || e.Release?
    ensures var n := Step(env, s, t, e); n.To? ==> Consistent(env, s0, n.s, c)
  {
    hide ETag.Tag, Admitted, Mac.IsCanonical, Mac.CanonicalMac, ValidProfile, Encode, Decode, Undo, Replay,
         AdmittedStore, IsBase, Try, Serial;
    var n := Step(env, s, t, e);
    if n.To? {
      OthersStay(s, n.s, t, n.s.phase[t]);
      if n.s.lock.HeldBy? {
        assert n.s.lock.id == t;
        if e.FailSave? { assert Pending(env, n.s.mem, c.st, PhaseOf(s, t).op, PhaseOf(s, t).prior, PhaseOf(s, t).result); }
        assert Agrees(env, n.s, c, t);
      }
    }
  }

  lemma OthersStay(s: State, s': State, t: nat, p: Phase)
    requires s'.phase == s.phase[t := p]
    ensures PhaseOf(s', t) == p
    ensures forall u :: u != t ==> PhaseOf(s', u) == PhaseOf(s, u)
  {
  }

  lemma CallKeeps(env: Env, s0: Committed, s: State, c: Committed, t: nat, req: Request, files: Files)
    requires IsBase(env.base) && Consistent(env, s0, s, c) && AdmittedEvent(Call(req, files))
    requires PhaseOf(s, t).Idle?
    ensures var n := Step(env, s, t, Call(req, files)); n.To? && Consistent(env, s0, n.s, c)
  {
    hide ETag.Tag, Admitted, Mac.IsCanonical, Mac.CanonicalMac, ValidProfile, Encode, Decode, Try, Undo, Replay,
         AdmittedStore, IsBase;
    PreparedIsAdmitted(env, req, files);
    var n := Step(env, s, t, Call(req, files));
    if Prepare(req, files).Ready? {
      OthersStay(s, n.s, t, Waiting(Prepare(req, files).op));
      if s.lock.HeldBy? { assert Agrees(env, n.s, c, s.lock.id) by { assert s.lock.id != t; } }
    }
  }

  lemma PreparedIsAdmitted(env: Env, req: Request, files: Files)
    requires IsBase(env.base) && AdmittedEvent(Call(req, files))
    ensures var p := Prepare(req, files); p.Ready? ==> AdmittedOp(p.op)
  {
    hide Admitted, Mac.IsCanonical, Mac.CanonicalMac, ValidProfile;
  }

  lemma MutateKeeps(env: Env, s0: Committed, s: State, c: Committed, t: nat)
    requires IsBase(env.base) && Consistent(env, s0, s, c) && PhaseOf(s, t).Holding?
    ensures var n := Step(env, s, t, Mutate); n.To? ==> Consistent(env, s0, n.s, c)
  {
    hide ETag.Tag, Admitted, Mac.IsCanonical, Mac.CanonicalMac, ValidProfile, Encode, Decode, Undo, Replay,
         AdmittedStore, IsBase, Try;
    var op := PhaseOf(s, t).op;
    if !op.Reload? {
      var s' := Step(env, s, t, Mutate).s;
      OthersStay(s, s', t, s'.phase[t]);
      match Try(env.digest, s.mem.machines, op)
      case Refuse(r) =>
        ReplaySnoc(env, s0, s.log, Commit(op, r));
        assert Serial(env, c, Commit(op, r)) == Ok(c);
      case Change(ms, r) =>
        assert Pending(env, s'.mem, c.st, op, PriorOf(c.st.machines, op), r);
    }
  }

  lemma RenameKeeps(env: Env, s0: Committed, s: State, c: Committed, t: nat)
    requires IsBase(env.base) && Consistent(env, s0, s, c)
    ensures PhaseOf(s, t).Written? ==>
              var n := Step(env, s, t, Rename); n.To? ==> Consistent(env, s0, n.s, Committed(s.mem, Encode(env.base, s.mem)))
  {
    hide ETag.Tag, Admitted, Mac.IsCanonical, Mac.CanonicalMac, ValidProfile, Encode, Decode, Undo, Replay,
         AdmittedStore, IsBase, Try;
    if !PhaseOf(s, t).Written? { return; }
    var op, r := PhaseOf(s, t).op, PhaseOf(s, t).result;
    ReplaySnoc(env, s0, s.log, Commit(op, r));
    ChangeStaysAdmitted(env, c.st, op);
    OthersStay(s, Step(env, s, t, Rename).s, t, Leaving(op, r));
    assert s.mem == c.st.(machines := s.mem.machines);
    assert Serial(env, c, Commit(op, r)) == Ok(Committed(s.mem, Encode(env.base, s.mem)));
  }

  lemma RollBackKeeps(env: Env, s0: Committed, s: State, c: Committed, t: nat)
    requires IsBase(env.base) && Consistent(env, s0, s, c)
    ensures PhaseOf(s, t).Undoing? ==>
              var n := Step(env, s, t, RollBack); n.To? ==> Consistent(env, s0, n.s, c)
  {
    hide ETag.Tag, Admitted, Mac.IsCanonical, Mac.CanonicalMac, ValidProfile, Encode, Decode, Undo, Replay,
         AdmittedStore, IsBase, Try;
    if !PhaseOf(s, t).Undoing? { return; }
    var op := PhaseOf(s, t).op;
    var r :| Pending(env, s.mem, c.st, op, PhaseOf(s, t).prior, r);
    ReplaySnoc(env, s0, s.log, Commit(op, SaveFailed));
    ChangeIsUndone(env.digest, c.st.machines, op);
    var s' := Step(env, s, t, RollBack).s;
    OthersStay(s, s', t, Leaving(op, SaveFailed));
    assert Serial(env, c, Commit(op, SaveFailed)) == Ok(c);
    assert s'.mem == c.st;
  }

  lemma FailedReadKeeps(env: Env, s0: Committed, s: State, c: Committed, t: nat)
    requires IsBase(env.base) && Consistent(env, s0, s, c) && PhaseOf(s, t).Holding?
    ensures var n := Step(env, s, t, FailRead); n.To? ==> Consistent(env, s0, n.s, c)
  {
    hide ETag.Tag, Admitted, Mac.IsCanonical, Mac.CanonicalMac, ValidProfile, Encode, Decode, Undo, Replay,
         AdmittedStore, IsBase, Try;
    var op, n := PhaseOf(s, t).op, Step(env, s, t, FailRead);
    if n.To? {
      ReplaySnoc(env, s0, s.log, Commit(op, ReloadFailed));
      OthersStay(s, n.s, t, n.s.phase[t]);
      assert Serial(env, c, Commit(op, ReloadFailed)) == Ok(c);
      assert n.s.mem == c.st;
    }
  }

  /** Reading the file of a consistent state gives a store that is backed by that file. */
  lemma ReloadIsBacked(env: Env, s0: Committed, log: seq<Commit>, c: Committed, files: Files)
    requires IsBase(env.base) && WasLoaded(env, s0) && Backed(env, s0, log, c) && AdmittedStore(c.st)
    ensures var d := Decode(env.base, files, c.cfg);
      d.Ok? ==> AdmittedStore(d.value) && Backed(env, s0, log, c.(st := d.value))
  {
    hide Encode, Decode, AdmittedStore, AllValid;
    DecodedIsAdmitted(env.base, files, c.cfg);
    if SavesNothing(log) {
      var loaded :| Decode(env.base, loaded, s0.cfg) == Ok(s0.st);
      ReadAgain(env.base, loaded, files, s0.cfg);
    } else {
      FileStands(env.base, files, c.st);
    }
  }

  lemma {:induction false} SwapKeeps(env: Env, s0: Committed, s: State, c: Committed, t: nat)
    requires IsBase(env.base) && Consistent(env, s0, s, c)
    ensures PhaseOf(s, t).Reading? ==>
              var n := Step(env, s, t, Swap); n.To? && Consistent(env, s0, n.s, c.(st := n.s.mem))
  {
    hide ETag.Tag, Admitted, Mac.IsCanonical, Mac.CanonicalMac, ValidProfile, Encode, Decode, Undo, Replay,
         AdmittedStore, IsBase, Try, SavesNothing, WasLoaded;
    if !PhaseOf(s, t).Reading? { return; }
    var op, n := PhaseOf(s, t).op, Step(env, s, t, Swap);
    assert s.lock == HeldBy(t) && Agrees(env, s, c, t);
    ReloadIsBacked(env, s0, s.log, c, op.files);
    ReplaySnoc(env, s0, s.log, Commit(op, Reloaded));
    ReplaySnoc(env, s0, s.log, Commit(op, ReloadFailed));
    OthersStay(s, n.s, t, n.s.phase[t]);
    assert Serial(env, c, Commit(op, n.s.phase[t].result)) == Ok(c.(st := n.s.mem));
  }

  lemma {:induction false} RunKeepsConsistency(env: Env, s: State, sched: Schedule) returns (c: Committed)
    requires IsBase(env.base) && Quiet(env, s) && AdmittedCalls(sched)
    ensures var n := Run(env, s, sched); n.To? ==> Consistent(env, StartOf(s), n.s, c)
    decreases |sched|
  {
    hide Encode, AdmittedStore, Admitted, IsBase, Step, Consistent, WasLoaded;
    if sched == [] {
      c := StartIsConsistent(env, s);
    } else {
      var last := |sched| - 1;
      c := RunKeepsConsistency(env, s, sched[..last]);
      var n := Run(env, s, sched[..last]);
      if n.To? {
        StepKeepsConsistency(env, StartOf(s), n.s, c, sched[last].0, sched[last].1);
        c := CommittedAfter(env, n.s, sched[last].0, sched[last].1, c);
      }
    }
  }

  lemma StartIsConsistent(env: Env, s: State) returns (c: Committed)
    requires IsBase(env.base) && Quiet(env, s)
    ensures c == StartOf(s) && Consistent(env, c, s, c)
  {
    hide Encode, Decode, AdmittedStore, IsBase;
    c := StartOf(s);
    var loaded :| Decode(env.base, loaded, c.cfg) == Ok(c.st);
    DecodedIsAdmitted(env.base, loaded, c.cfg);
  }

  /** In every interleaving of transactions and reloads from a loaded file, hand-written or not, with
      saves and reads that may fail at any step: the completed operations returned what they return
      when run one after another in the order of the log; the file on disk is at every moment whole
      and the one that order leads to, which is the initial file until the first save and the
      encoding of the committed store from then on; and whenever the save lock is free, memory is
      the committed store. Reading the file then gives just what memory holds exactly if the side
      files are in place and, once something was saved, every path survives the round trip. */
  lemma {:induction false} EveryInterleavingIsSerial(env: Env, s: State, sched: Schedule)
    requires IsBase(env.base) && AdmittedCalls(sched)
    ensures var n := Run(env, s, sched);
      Quiet(env, s) && n.To? ==>
        var serial := Replay(env, StartOf(s), n.s.log);
        && serial.Ok?
        && n.s.file == Whole(serial.value.cfg)
        && (if SavesNothing(n.s.log) then serial.value == StartOf(s)
            else serial.value.cfg == Encode(env.base, serial.value.st))
        && (n.s.lock.Free? ==>
              && n.s.mem == serial.value.st
              && (forall files :: Decode(env.base, files, n.s.file.cfg) == Ok(n.s.mem) <==>
                    AllValid(n.s.mem, files) && (SavesNothing(n.s.log) || StorableStore(env.base, n.s.mem))))
  {
    hide Encode, Decode, StorableStore, AdmittedStore, Admitted, AllValid, IsBase, Step, Run, Replay, AdmittedCalls,
         SavesNothing;
    var n := Run(env, s, sched);
    if Quiet(env, s) && n.To? {
      var c := RunKeepsConsistency(env, s, sched);
      forall files
        ensures Decode(env.base, files, c.cfg) == Ok(c.st) <==>
                AllValid(c.st, files) && (SavesNothing(n.s.log) || StorableStore(env.base, c.st))
      {
        if SavesNothing(n.s.log) {
          var loaded :| Decode(env.base, loaded, c.cfg) == Ok(c.st);
          ReadAgain(env.base, loaded, files, c.cfg);
        } else {
          SaveThenReload(env.base, files, c.st);
        }
      }
    }
  }

  /** A goroutine about to return holds the result of the newest entry of the log. */
  lemma {:induction false} ReturnedResultIsLogged(env: Env, s: State, sched: Schedule, t: nat)
    requires IsBase(env.base) && AdmittedCalls(sched)
    ensures var n := Run(env, s, sched);
      Quiet(env, s) && n.To? && PhaseOf(n.s, t).Leaving? ==>
        n.s.log != [] && n.s.log[|n.s.log| - 1] == Commit(PhaseOf(n.s, t).op, PhaseOf(n.s, t).result)
  {
    hide Encode, Decode, AdmittedStore, Admitted, IsBase, Step, Run, Replay, AdmittedCalls, WasLoaded, Backed, Pending;
    if Quiet(env, s) { var c := RunKeepsConsistency(env, s, sched); }
  }

  lemma {:induction false} ReplayPrefix(env: Env, d: Committed, log: seq<Commit>, i: nat)
    requires IsBase(env.base) && Replay(env, d, log).Ok? && i <= |log|
    ensures Replay(env, d, log[..i]).Ok?
    decreases |log|
  {
    hide Serial;
    if i < |log| {
      ReplayPrefix(env, d, log[..|log| - 1], i);
      assert log[..|log| - 1][..i] == log[..i];
    } else {
      assert log[..i] == log;
    }
  }

  /** Compare-and-swap over any run: an update that succeeded replaced a profile whose tag was the
      caller's If-Match; if that tag was taken from a profile q, the replaced profile equals q in
      every hashed field. No other machine, and no other machine's tag, changed. */
  lemma {:induction false} UpdateIsCompareAndSwap(env: Env, s: State, sched: Schedule, i: nat, q: Profile)
    requires IsBase(env.base) && Quiet(env, s) && AdmittedCalls(sched) && ETag.Injective(env.digest)
    requires Run(env, s, sched).To? && i < |Run(env, s, sched).s.log|
    requires Run(env, s, sched).s.log[i].op.Update? && Run(env, s, sched).s.log[i].result.Stored?
    ensures var log, op := Run(env, s, sched).s.log, Run(env, s, sched).s.log[i].op;
      var before, after := Replay(env, StartOf(s), log[..i]), Replay(env, StartOf(s), log[..i + 1]);
      && before.Ok? && after.Ok? && op.mac in before.value.st.machines
      && ETag.Tag(env.digest, op.mac, before.value.st.machines[op.mac]) == op.ifMatch
      && (op.ifMatch == ETag.Tag(env.digest, op.mac, q) && ETag.NulFreeEntry(op.mac, q)
          && ETag.NulFreeEntry(op.mac, before.value.st.machines[op.mac])
          ==> ETag.SameHashedFields(before.value.st.machines[op.mac], q))
      && after.value.st.machines == before.value.st.machines[op.mac := op.profile]
      && (forall k | k in before.value.st.machines && k != op.mac ::
            ETag.Tag(env.digest, k, after.value.st.machines[k]) == ETag.Tag(env.digest, k, before.value.st.machines[k]))
  {
    hide Encode, AdmittedStore, Admitted, IsBase, Step, Run, AdmittedCalls, WasLoaded, ETag.Tag, ETag.NulFreeEntry,
         ETag.SameHashedFields, ETag.Injective;
    var c := RunKeepsConsistency(env, s, sched);
    var log := Run(env, s, sched).s.log;
    ReplayPrefix(env, StartOf(s), log, i);
    ReplayPrefix(env, StartOf(s), log, i + 1);
    assert log[..i + 1] == log[..i] + [log[i]];
    ReplaySnoc(env, StartOf(s), log[..i], log[i]);
    var op := log[i].op;
    var before := Replay(env, StartOf(s), log[..i]).value.st;
    if op.ifMatch == ETag.Tag(env.digest, op.mac, q) && ETag.NulFreeEntry(op.mac, q)
       && ETag.NulFreeEntry(op.mac, before.machines[op.mac])
    {
      ETag.TagIdentifies(env.digest, op.mac, before.machines[op.mac], op.mac, q);
    }
  }

  /** In some run from s, operation c was the i-th to take effect, on the store and file b, and left a. */
  ghost predicate TookEffect(env: Env, s: State, sched: Schedule, i: nat, c: Commit, b: Committed, a: Committed)
    requires IsBase(env.base)
  {
    && Quiet(env, s) && AdmittedCalls(sched) && Run(env, s, sched).To?
    && i < |Run(env, s, sched).s.log| && Run(env, s, sched).s.log[i] == c
    && Replay(env, StartOf(s), Run(env, s, sched).s.log[..i]) == Ok(b)
    && Replay(env, StartOf(s), Run(env, s, sched).s.log[..i + 1]) == Ok(a)
  }

  lemma EffectIsSerial(env: Env, s: State, sched: Schedule, i: nat, c: Commit, b: Committed, a: Committed)
    requires IsBase(env.base) && TookEffect(env, s, sched, i, c, b, a)
    ensures Serial(env, b, c) == Ok(a)
  {
    hide Encode, Run, Replay, WasLoaded, AdmittedCalls, Serial;
    var log := Run(env, s, sched).s.log;
    assert log[..i + 1] == log[..i] + [log[i]];
    ReplaySnoc(env, StartOf(s), log[..i], log[i]);
  }

  /** Every logged operation of a run took effect on some store. */
  lemma LoggedTookEffect(env: Env, s: State, sched: Schedule, i: nat)
    requires IsBase(env.base)
    ensures Quiet(env, s) && AdmittedCalls(sched) && Run(env, s, sched).To? && i < |Run(env, s, sched).s.log| ==>
              exists b, a :: TookEffect(env, s, sched, i, Run(env, s, sched).s.log[i], b, a)
  {
    hide Encode, AdmittedStore, Admitted, IsBase, Step, Run, Replay, AdmittedCalls, WasLoaded;
    if !(Quiet(env, s) && AdmittedCalls(sched) && Run(env, s, sched).To? && i < |Run(env, s, sched).s.log|) { return; }
    var c := RunKeepsConsistency(env, s, sched);
    var log := Run(env, s, sched).s.log;
    ReplayPrefix(env, StartOf(s), log, i);
    ReplayPrefix(env, StartOf(s), log, i + 1);
    var b, a := Replay(env, StartOf(s), log[..i]).value, Replay(env, StartOf(s), log[..i + 1]).value;
    assert TookEffect(env, s, sched, i, log[i], b, a);
  }

  ghost predicate OthersSame(mac: string, b: map<string, Profile>, a: map<string, Profile>) {
    forall k | k != mac :: (k in a <==> k in b) && (k in a ==> a[k] == b[k])
  }

  /** What a create that took effect in any run met and left. */
  lemma CreateTakesFreeMac(env: Env, s: State, sched: Schedule, i: nat, c: Commit, b: Committed, a: Committed)
    requires IsBase(env.base) && c.op.Create?
    ensures TookEffect(env, s, sched, i, c, b, a) ==>
      && (c.result == MacExists <==> c.op.mac in b.st.machines)
      && (c.result.Stored? || c.result == SaveFailed <==> c.op.mac !in b.st.machines)
      && (c.result.Stored? ==>
            && c.op.mac in a.st.machines && a.st.machines[c.op.mac] == c.op.profile
            && OthersSame(c.op.mac, b.st.machines, a.st.machines)
            && c.result.etag == ETag.Tag(env.digest, c.op.mac, c.op.profile))
      && (!c.result.Stored? ==> a == b)
  {
    hide Encode, TookEffect, IsBase, ETag.Tag;
    if TookEffect(env, s, sched, i, c, b, a) { EffectIsSerial(env, s, sched, i, c, b, a); }
  }

  /** What an update that took effect in any run met and left. */
  lemma UpdateNeedsTheTag(env: Env, s: State, sched: Schedule, i: nat, c: Commit, b: Committed, a: Committed)
    requires IsBase(env.base) && c.op.Update?
    ensures TookEffect(env, s, sched, i, c, b, a) ==>
      && (c.result == MacAbsent <==> c.op.mac !in b.st.machines)
      && (c.result == PreconditionFailed <==>
              c.op.mac in b.st.machines && ETag.Tag(env.digest, c.op.mac, b.st.machines[c.op.mac]) != c.op.ifMatch)
      && (c.result.Stored? || c.result == SaveFailed <==>
              c.op.mac in b.st.machines && ETag.Tag(env.digest, c.op.mac, b.st.machines[c.op.mac]) == c.op.ifMatch)
      && (c.result.Stored? ==>
            && c.op.mac in a.st.machines && a.st.machines[c.op.mac] == c.op.profile
            && OthersSame(c.op.mac, b.st.machines, a.st.machines)
            && c.result.etag == ETag.Tag(env.digest, c.op.mac, c.op.profile))
      && (!c.result.Stored? ==> a == b)
  {
    hide Encode, TookEffect, IsBase, ETag.Tag;
    if TookEffect(env, s, sched, i, c, b, a) { EffectIsSerial(env, s, sched, i, c, b, a); }
  }

  /** What a delete that took effect in any run met and left. */
  lemma DeleteNeedsTheTag(env: Env, s: State, sched: Schedule, i: nat, c: Commit, b: Committed, a: Committed)
    requires IsBase(env.base) && c.op.Delete?
    ensures TookEffect(env, s, sched, i, c, b, a) ==>
      && (c.result == Deleted(false) <==> c.op.mac !in b.st.machines)
      && (c.result == PreconditionFailed <==>
            && c.op.mac in b.st.machines && c.op.ifMatch != ""
            && ETag.Tag(env.digest, c.op.mac, b.st.machines[c.op.mac]) != c.op.ifMatch)
      && (c.result == Deleted(true) || c.result == SaveFailed <==>
            && c.op.mac in b.st.machines
            && (c.op.ifMatch == "" || ETag.Tag(env.digest, c.op.mac, b.st.machines[c.op.mac]) == c.op.ifMatch))
      && (c.result == Deleted(true) ==> c.op.mac !in a.st.machines && OthersSame(c.op.mac, b.st.machines, a.st.machines))
      && (c.result != Deleted(true) ==> a == b)
  {
    hide Encode, TookEffect, IsBase, ETag.Tag;
    if TookEffect(env, s, sched, i, c, b, a) { EffectIsSerial(env, s, sched, i, c, b, a); }
  }

  lemma RunSnoc(env: Env, s: State, sched: Schedule, t: nat, e: Event)
    requires IsBase(env.base)
    ensures Run(env, s, sched + [(t, e)]) ==
      match Run(env, s, sched) case Blocked => Blocked case To(s') => Step(env, s', t, e)
  {
    assert (sched + [(t, e)])[..|sched|] == sched;
  }

  predicate Saving(p: Phase) {
    p.Writing? || p.Written?
  }

  /** At every point of every run there is a temporary file for exactly the goroutines that are in the
      middle of a save: a save that failed has taken its file away. */
  lemma {:induction false} TempsAreInUse(env: Env, s: State, sched: Schedule, t: nat)
    requires IsBase(env.base) && s.tmp == map[] && forall k | k in s.phase :: s.phase[k] == Idle
    ensures var n := Run(env, s, sched); n.To? ==> (t in n.s.tmp <==> Saving(PhaseOf(n.s, t)))
    decreases |sched|
  {
    hide Encode, Step, IsBase;
    if sched != [] {
      var last := |sched| - 1;
      TempsAreInUse(env, s, sched[..last], t);
      var m := Run(env, s, sched[..last]);
      if m.To? { TempStep(env, m.s, sched[last].0, sched[last].1, t); }
    }
  }

  lemma TempStep(env: Env, s: State, k: nat, e: Event, t: nat)
    requires IsBase(env.base) && (t in s.tmp <==> Saving(PhaseOf(s, t)))
    ensures var n := Step(env, s, k, e); n.To? ==> (t in n.s.tmp <==> Saving(PhaseOf(n.s, t)))
  {
    hide Encode, Decode, Try, Undo, Prepare, IsBase;
  }

  /** Serial order holds for writers and the disk only: a reader can see a machine whose creation
      is then rolled back, and it never was on disk. */
  lemma ReaderSeesRolledBackChange(env: Env, s: State, m: Machine, files: Files)
    requires IsBase(env.base) && s.lock.Free? && PhaseOf(s, 0).Idle?
    ensures var p := Prepare(CreateRequest(m), files);
      var seen := [(0, Call(CreateRequest(m), files)), (0, TakeLock), (0, Mutate)];
      var rest := [(0, Serialise), (0, FailSave), (0, RollBack), (0, Release)];
      var n, n' := Run(env, s, seen), Run(env, s, seen + rest);
      p.Ready? && p.op.mac !in s.mem.machines ==>
        && n.To? && n'.To? && p.op.mac in n.s.mem.machines
        && n.s.file == s.file && n'.s.mem == s.mem && n'.s.file == s.file
  {
    hide *;
    var p := Prepare(CreateRequest(m), files);
    if p.Rejected? || p.op.mac in s.mem.machines { return; }
    var op := p.op;
    SeenByReader(env, s, m, files, op);
    var seen: Schedule := [(0, Call(CreateRequest(m), files)), (0, TakeLock), (0, Mutate)];
    RolledBack(env, s, seen, Run(env, s, seen).s, op);
  }

  /** The first three steps of a create. */
  lemma SeenByReader(env: Env, s: State, m: Machine, files: Files, op: Op)
    requires IsBase(env.base) && s.lock.Free? && PhaseOf(s, 0).Idle?
    requires Prepare(CreateRequest(m), files) == Ready(op) && op.mac !in s.mem.machines
    ensures op.Create?
    ensures var n := Run(env, s, [(0, Call(CreateRequest(m), files)), (0, TakeLock), (0, Mutate)]);
      && n.To? && n.s.mem == s.mem.(machines := s.mem.machines[op.mac := op.profile])
      && PhaseOf(n.s, 0).Changed? && PhaseOf(n.s, 0).op == op && PhaseOf(n.s, 0).prior == NoPrior && n.s.file == s.file
  {
    hide Encode, Decode, IsBase, ETag.Tag, Mac.CanonicalMac, ValidProfile, Run;
    var call := Call(CreateRequest(m), files);
    EmptyRun(env, s);
    RunSnoc(env, s, [], 0, call);
    RunSnoc(env, s, [(0, call)], 0, TakeLock);
    RunSnoc(env, s, [(0, call), (0, TakeLock)], 0, Mutate);
    assert [] + [(0, call)] == [(0, call)];
    assert [(0, call)] + [(0, TakeLock)] == [(0, call), (0, TakeLock)];
    assert [(0, call), (0, TakeLock)] + [(0, Mutate)] == [(0, call), (0, TakeLock), (0, Mutate)];
  }

  lemma EmptyRun(env: Env, s: State)
    requires IsBase(env.base)
    ensures Run(env, s, []) == To(s)
  {
  }

  /** The remaining steps when the save fails. */
  lemma RolledBack(env: Env, s: State, seen: Schedule, n: State, op: Op)
    requires IsBase(env.base) && op.Create? && op.mac !in s.mem.machines && Run(env, s, seen) == To(n)
    requires n.mem == s.mem.(machines := s.mem.machines[op.mac := op.profile]) && n.file == s.file
    requires PhaseOf(n, 0).Changed? && PhaseOf(n, 0).op == op && PhaseOf(n, 0).prior == NoPrior
    ensures var n' := Run(env, s, seen + [(0, Serialise), (0, FailSave), (0, RollBack), (0, Release)]);
      n'.To? && n'.s.mem == s.mem && n'.s.file == s.file
  {
    hide Encode, IsBase, Run, Try;
    RunSnoc(env, s, seen, 0, Serialise);
    var d := seen + [(0, Serialise)];
    RunSnoc(env, s, d, 0, FailSave);
    var e := d + [(0, FailSave)];
    RunSnoc(env, s, e, 0, RollBack);
    var f := e + [(0, RollBack)];
    RunSnoc(env, s, f, 0, Release);
    assert seen + [(0, Serialise), (0, FailSave), (0, RollBack), (0, Release)] == f + [(0, Release)];
    assert s.mem.machines[op.mac := op.profile] - {op.mac} == s.mem.machines;
  }
}
