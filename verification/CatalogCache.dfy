/** The `/models` catalog cache as a protocol: callers, background refreshes and configuration writers
    interleave at every await and at every lock. */
module CatalogCache {
  import opened Wrappers

  /** A configuration: the fingerprint the cache compares, and everything else. */
  datatype Config = Config(fingerprint: int, contents: string)

  /** The cached response: the fingerprint it carries and the configuration its body was built from;
      `version` is the place of that configuration in the history of writes. */
  datatype Entry = Entry(fingerprint: int, source: Config, version: nat)

  /** Why `refresh_if_stale` runs: inside a `get`, or on its own after a reload. */
  datatype Caller = ForGet | Applier

  /** What a refresh is part of. */
  datatype Purpose = Cold | Stale(fingerprint: int, caller: Caller) | Background

  /** One refresh: what it is for, and whether it skips the fingerprint guard. */
  datatype Refresh = Refresh(purpose: Purpose, force: bool)

  /** Where a task stands. */
  datatype Pc =
    | GetStart
    | FirstLook(fingerprint: int)
    | Classify(fingerprint: int)
    | Serve
    | ColdWait
    | ColdCheck
    | StaleStart(caller: Caller)
    | StaleLook(fingerprint: int, caller: Caller)
    | StaleWait(fingerprint: int, caller: Caller)
    | StaleRecheck(fingerprint: int, caller: Caller)
    | LastLook
    | BackgroundStart
    | Snapshot(run: Refresh)
    | Guard(run: Refresh, config: Config, version: nat)
    | Store(run: Refresh, config: Config, version: nat)
    | Refreshed(run: Refresh)
    | Answered(entry: Entry, writes: nat)
    | Finished

  /** A task: `since` counts the configuration writes before its start, `found` says that its `get` met an
      entry, `refreshes` counts the refresh runs it has begun. */
  datatype Task = Task(pc: Pc, since: nat, found: bool, refreshes: nat) {
    function At(pc: Pc): Task {
      this.(pc := pc)
    }

    function Begin(purpose: Purpose, force: bool): Task {
      this.(pc := Snapshot(Refresh(purpose, force)), refreshes := refreshes + 1)
    }
  }

  /** What all tasks share: the configurations written so far, the entry, and the single-flight lock. */
  datatype Shared = Shared(history: seq<Config>, inner: Option<Entry>, lock: Option<nat>) {
    function Current(): Config
      requires history != []
    {
      history[|history| - 1]
    }

    /** `fast_hit`: `timely` says whether the template and the recheck interval leave the entry fresh. */
    predicate FastHit(fingerprint: int, timely: bool) {
      inner.Some? && inner.value.fingerprint == fingerprint && timely
    }
  }

  datatype System = System(shared: Shared, tasks: map<nat, Task>)

  /** What one move does: to its task, to the shared state, and whether it spawns a background refresh. */
  datatype Effect = Effect(task: Task, shared: Shared, spawns: bool)

  /** One step: a configuration write, a new caller, one move of a task, with the id of the task that the move may
      spawn, or the loss of a `get` whose client has gone. */
  datatype Label =
    | WriteConfig(config: Config)
    | Call(id: nat, reload: bool)
    | Move(id: nat, timely: bool, helper: nat)
    | Drop(id: nat)

  function Answering(s: Shared, t: Task): Option<Effect> {
    if s.inner.Some? then Some(Effect(t.At(Answered(s.inner.value, |s.history|)), s, false)) else None
  }

  /** `get`; none when it waits for the lock or an `expect` would fail. */
  function GetMove(s: Shared, id: nat, t: Task, timely: bool): Option<Effect>
    requires s.history != []
  {
    match t.pc
    case GetStart => Some(Effect(t.At(FirstLook(s.Current().fingerprint)), s, false))
    case FirstLook(fp) =>
      if s.FastHit(fp, timely) then Answering(s, t.(found := true)) else Some(Effect(t.At(Classify(fp)), s, false))
    case Classify(fp) =>
      if s.inner.None? then Some(Effect(t.At(ColdWait), s, false))
      else if s.inner.value.fingerprint != fp then Some(Effect(t.At(StaleStart(ForGet)).(found := true), s, false))
      else Some(Effect(t.At(Serve).(found := true), s, true))
    case Serve => Answering(s, t)
    case ColdWait => if s.lock.None? then Some(Effect(t.At(ColdCheck), s.(lock := Some(id)), false)) else None
    case ColdCheck =>
      if s.inner.Some? then Answering(s.(lock := None), t) else Some(Effect(t.Begin(Cold, false), s, false))
    case LastLook => Answering(s, t)
    case _ => None
  }

  /** Behind `refresh_if_stale`. */
  function StaleDone(s: Shared, t: Task, caller: Caller): Effect {
    Effect(t.At(if caller.ForGet? then LastLook else Finished), s, false)
  }

  /** `refresh_if_stale`, up to its first refresh, and the task that a stale `get` spawns. */
  function StaleMove(s: Shared, id: nat, t: Task, timely: bool): Option<Effect>
    requires s.history != []
  {
    match t.pc
    case StaleStart(caller) => Some(Effect(t.At(StaleLook(s.Current().fingerprint, caller)), s, false))
    case StaleLook(fp, caller) =>
      Some(if s.FastHit(fp, timely) then StaleDone(s, t, caller) else Effect(t.At(StaleWait(fp, caller)), s, false))
    case StaleWait(fp, caller) =>
      if s.lock.None? then Some(Effect(t.At(StaleRecheck(fp, caller)), s.(lock := Some(id)), false)) else None
    case StaleRecheck(fp, caller) =>
      Some(if s.FastHit(fp, timely) then StaleDone(s.(lock := None), t, caller)
           else Effect(t.Begin(Stale(fp, caller), false), s, false))
    case BackgroundStart =>
      Some(if s.lock.None? then Effect(t.Begin(Background, false), s.(lock := Some(id)), false)
           else Effect(t.At(Finished), s, false))
    case _ => None
  }

  /** Behind a refresh: the loops of the cold path and of `refresh_if_stale`, and the end of a background
      refresh. */
  function LoopMove(s: Shared, t: Task, run: Refresh, timely: bool): Option<Effect> {
    match run.purpose
    case Cold => if s.inner.Some? then Answering(s.(lock := None), t) else Some(Effect(t.Begin(Cold, true), s, false))
    case Stale(fp, caller) =>
      Some(if s.FastHit(fp, timely) || run.force then StaleDone(s.(lock := None), t, caller)
           else Effect(t.Begin(run.purpose, true), s, false))
    case Background => Some(Effect(t.At(Finished), s.(lock := None), false))
  }

  /** `refresh`: read the configuration, build the body, check the fingerprint again, store. */
  function RefreshMove(s: Shared, t: Task, timely: bool): Option<Effect>
    requires s.history != []
  {
    match t.pc
    case Snapshot(run) => Some(Effect(t.At(Guard(run, s.Current(), |s.history| - 1)), s, false))
    case Guard(run, config, version) =>
      var discard := !run.force && s.Current().fingerprint != config.fingerprint;
      Some(Effect(t.At(if discard then Refreshed(run) else Store(run, config, version)), s, false))
    case Store(run, config, version) =>
      var entry := Entry(config.fingerprint, config, version);
      Some(Effect(t.At(Refreshed(run)), s.(inner := Some(entry)), false))
    case Refreshed(run) => LoopMove(s, t, run, timely)
    case _ => None
  }

  predicate InRefresh(pc: Pc) {
    pc.Snapshot? || pc.Guard? || pc.Store? || pc.Refreshed?
  }

  predicate InStale(pc: Pc) {
    pc.StaleStart? || pc.StaleLook? || pc.StaleWait? || pc.StaleRecheck?
  }

  function Moved(s: Shared, id: nat, t: Task, timely: bool): Option<Effect>
    requires s.history != []
  {
    if InRefresh(t.pc) then RefreshMove(s, t, timely)
    else if InStale(t.pc) || t.pc.BackgroundStart? then StaleMove(s, id, t, timely)
    else GetMove(s, id, t, timely)
  }

  /** The refresh belongs to a `get`, and not to a task of its own. */
  predicate InGet(p: Purpose) {
    match p
    case Cold => true
    case Stale(_, caller) => caller.ForGet?
    case Background => false
  }

  /** A `get` stands at an await: its future may be dropped here. */
  predicate AtAwait(pc: Pc) {
    match pc
    case GetStart => true
    case ColdWait => true
    case StaleStart(caller) => caller.ForGet?
    case StaleWait(_, caller) => caller.ForGet?
    case Snapshot(run) => InGet(run.purpose)
    case Guard(run, _, _) => InGet(run.purpose)
    case _ => false
  }

  /** A dropped `get` lets the lock go if it holds it, and is over. */
  function Dropped(s: Shared, id: nat, t: Task): Option<Effect> {
    if AtAwait(t.pc) then Some(Effect(t.At(Finished), if s.lock == Some(id) then s.(lock := None) else s, false)) else None
  }

  function NewTask(s: Shared, pc: Pc): Task {
    Task(pc, |s.history|, false, 0)
  }

  function Apply(s: System, id: nat, e: Effect, helper: nat): System {
    var moved := s.tasks[id := e.task];
    System(e.shared, if e.spawns then moved[helper := NewTask(e.shared, BackgroundStart)] else moved)
  }

  function Next(s: System, l: Label): Option<System>
    requires s.shared.history != []
  {
    match l
    case WriteConfig(config) => Some(s.(shared := s.shared.(history := s.shared.history + [config])))
    case Call(id, reload) =>
      if id in s.tasks then None
      else Some(s.(tasks := s.tasks[id := NewTask(s.shared, if reload then StaleStart(Applier) else GetStart)]))
    case Move(id, timely, helper) =>
      if id !in s.tasks || helper in s.tasks then None
      else
        (match Moved(s.shared, id, s.tasks[id], timely)
         case None => None
         case Some(e) => Some(Apply(s, id, e, helper)))
    case Drop(id) =>
      if id !in s.tasks then None
      else
        match Dropped(s.shared, id, s.tasks[id])
        case None => None
        case Some(e) => Some(Apply(s, id, e, id))
  }

  // ---- what every step keeps ----

  predicate HoldsLock(pc: Pc) {
    pc.ColdCheck? || pc.StaleRecheck? || InRefresh(pc)
  }

  /** A refresh run, from its reading of the configuration to its store. */
  predicate Refreshing(pc: Pc) {
    pc.Snapshot? || pc.Guard? || pc.Store?
  }

  predicate ForStaleGet(p: Purpose) {
    p.Stale? && p.caller.ForGet?
  }

  /** From here the task counts on an entry being there. */
  predicate NeedsEntry(pc: Pc) {
    || pc.Serve? || pc.LastLook?
    || (InStale(pc) && pc.caller.ForGet?)
    || (InRefresh(pc) && ForStaleGet(pc.run.purpose))
    || (pc.Refreshed? && pc.run.force)
  }

  predicate Built(history: seq<Config>, e: Entry) {
    e.version < |history| && e.source == history[e.version] && e.fingerprint == e.source.fingerprint
  }

  predicate EntryIsBuilt(s: Shared) {
    s.inner.Some? ==> Built(s.history, s.inner.value)
  }

  /** A refresh works on a snapshot no older than what is cached. */
  predicate SnapshotIsRecent(s: Shared, pc: Pc) {
    (pc.Guard? || pc.Store?) ==>
      pc.version < |s.history| && pc.config == s.history[pc.version] &&
      (s.inner.Some? ==> s.inner.value.version <= pc.version)
  }

  predicate AnswerIsBuilt(s: Shared, pc: Pc) {
    pc.Answered? ==> pc.writes <= |s.history| && Built(s.history[..pc.writes], pc.entry)
  }

  /** How many refreshes the task has begun, by where it stands; a background refresh is never forced. */
  predicate RefreshCount(t: Task) {
    if InRefresh(t.pc) then
      t.refreshes == (if t.pc.run.force then 2 else 1) && (t.pc.run.purpose.Background? ==> !t.pc.run.force)
    else if t.pc.Answered? || t.pc.Finished? || t.pc.LastLook? then t.refreshes <= 2
    else t.refreshes == 0
  }

  predicate TaskOk(s: Shared, id: nat, t: Task) {
    && (HoldsLock(t.pc) <==> s.lock == Some(id))
    && (NeedsEntry(t.pc) ==> s.inner.Some?)
    && SnapshotIsRecent(s, t.pc) && AnswerIsBuilt(s, t.pc)
    && RefreshCount(t) && t.since <= |s.history|
  }

  ghost predicate Inv(s: System) {
    && s.shared.history != [] && EntryIsBuilt(s.shared)
    && (s.shared.lock.Some? ==> s.shared.lock.value in s.tasks)
    && forall id | id in s.tasks :: TaskOk(s.shared, id, s.tasks[id])
  }

  /** Entries appear and are replaced, never by an older version, and never disappear; configurations are only
      added. */
  predicate Advances(s: Shared, s': Shared) {
    && s.history <= s'.history
    && (s.inner.Some? ==> s'.inner.Some? && s.inner.value.version <= s'.inner.value.version)
  }

  /** What a move may do to the other tasks: nothing while they hold the lock, and otherwise only the entry may
      change. */
  predicate Respects(s: Shared, id: nat, s': Shared) {
    && s'.history == s.history && EntryIsBuilt(s') && Advances(s, s')
    && (s'.lock == s.lock || (s.lock != Some(id) && s.lock.None? && s'.lock == Some(id)) ||
        (s.lock == Some(id) && s'.lock.None?))
    && (s'.inner != s.inner ==> s.lock == Some(id))
  }

  lemma GetMoveOk(s: Shared, id: nat, t: Task, timely: bool)
    requires s.history != [] && EntryIsBuilt(s) && TaskOk(s, id, t)
    requires !InRefresh(t.pc) && !InStale(t.pc) && GetMove(s, id, t, timely).Some?
    ensures var e := GetMove(s, id, t, timely).value;
      TaskOk(e.shared, id, e.task) && Respects(s, id, e.shared)
  {
    assert s.history[..|s.history|] == s.history;
  }

  lemma StaleMoveOk(s: Shared, id: nat, t: Task, timely: bool)
    requires s.history != [] && EntryIsBuilt(s) && TaskOk(s, id, t)
    requires StaleMove(s, id, t, timely).Some?
    ensures var e := StaleMove(s, id, t, timely).value;
      TaskOk(e.shared, id, e.task) && Respects(s, id, e.shared)
  {
  }

  lemma LoopMoveOk(s: Shared, id: nat, t: Task, timely: bool)
    requires s.history != [] && EntryIsBuilt(s) && TaskOk(s, id, t) && t.pc.Refreshed?
    requires LoopMove(s, t, t.pc.run, timely).Some?
    ensures var e := LoopMove(s, t, t.pc.run, timely).value;
      TaskOk(e.shared, id, e.task) && Respects(s, id, e.shared)
  {
    assert s.history[..|s.history|] == s.history;
  }

  lemma RefreshMoveOk(s: Shared, id: nat, t: Task, timely: bool)
    requires s.history != [] && EntryIsBuilt(s) && TaskOk(s, id, t)
    requires RefreshMove(s, t, timely).Some?
    ensures var e := RefreshMove(s, t, timely).value;
      TaskOk(e.shared, id, e.task) && Respects(s, id, e.shared)
  {
    hide LoopMove;
    if t.pc.Refreshed? {
      LoopMoveOk(s, id, t, timely);
      hide TaskOk, Respects;
    }
  }

  lemma OthersStayOk(s: Shared, id: nat, s': Shared, other: nat, t: Task)
    requires other != id && TaskOk(s, other, t) && Respects(s, id, s')
    ensures TaskOk(s', other, t)
  {
  }

  lemma NewTaskOk(s: Shared, id: nat, pc: Pc)
    requires pc.GetStart? || pc.BackgroundStart? || pc == StaleStart(Applier)
    requires s.lock != Some(id)
    ensures TaskOk(s, id, NewTask(s, pc))
  {
  }

  lemma MoveKeepsInv(s: System, id: nat, timely: bool, helper: nat)
    requires Inv(s) && Next(s, Move(id, timely, helper)).Some?
    ensures Inv(Next(s, Move(id, timely, helper)).value)
    ensures Advances(s.shared, Next(s, Move(id, timely, helper)).value.shared)
  {
    var t := s.tasks[id];
    assert TaskOk(s.shared, id, t);
    var e := Moved(s.shared, id, t, timely).value;
    assert TaskOk(e.shared, id, e.task) && Respects(s.shared, id, e.shared) by {
      if InRefresh(t.pc) {
        RefreshMoveOk(s.shared, id, t, timely);
      } else if InStale(t.pc) || t.pc.BackgroundStart? {
        StaleMoveOk(s.shared, id, t, timely);
      } else {
        GetMoveOk(s.shared, id, t, timely);
      }
    }
    hide Moved;
    ApplyKeepsInv(s, id, e, helper);
  }

  /** An effect that keeps its task in order and respects the others. */
  lemma ApplyKeepsInv(s: System, id: nat, e: Effect, helper: nat)
    requires Inv(s) && id in s.tasks && (e.spawns ==> helper !in s.tasks)
    requires TaskOk(e.shared, id, e.task) && Respects(s.shared, id, e.shared)
    ensures Inv(Apply(s, id, e, helper)) && Advances(s.shared, Apply(s, id, e, helper).shared)
  {
    hide TaskOk;
    var s' := Apply(s, id, e, helper);
    forall other | other in s'.tasks
      ensures TaskOk(s'.shared, other, s'.tasks[other])
    {
      if other == id {
      } else if other in s.tasks {
        OthersStayOk(s.shared, id, e.shared, other, s.tasks[other]);
      } else {
        NewTaskOk(e.shared, other, BackgroundStart);
      }
    }
  }

  lemma DropOk(s: Shared, id: nat, t: Task)
    requires s.history != [] && EntryIsBuilt(s) && TaskOk(s, id, t) && Dropped(s, id, t).Some?
    ensures var e := Dropped(s, id, t).value;
      TaskOk(e.shared, id, e.task) && Respects(s, id, e.shared) && !e.spawns
  {
  }

  lemma DropKeepsInv(s: System, id: nat)
    requires Inv(s) && Next(s, Drop(id)).Some?
    ensures Inv(Next(s, Drop(id)).value) && Advances(s.shared, Next(s, Drop(id)).value.shared)
  {
    var t := s.tasks[id];
    assert TaskOk(s.shared, id, t);
    DropOk(s.shared, id, t);
    var e := Dropped(s.shared, id, t).value;
    hide Dropped, TaskOk, Respects;
    ApplyKeepsInv(s, id, e, id);
  }

  lemma WriteKeepsTaskOk(s: Shared, config: Config, id: nat, t: Task)
    requires s.history != [] && TaskOk(s, id, t)
    ensures TaskOk(s.(history := s.history + [config]), id, t)
  {
    var later := s.history + [config];
    if t.pc.Answered? {
      assert later[..t.pc.writes] == s.history[..t.pc.writes];
    }
  }

  /** Every step keeps the invariant, and the cache only moves forward. */
  lemma StepKeepsInv(s: System, l: Label)
    requires Inv(s) && Next(s, l).Some?
    ensures Inv(Next(s, l).value) && Advances(s.shared, Next(s, l).value.shared)
  {
    var s' := Next(s, l).value;
    match l
    case WriteConfig(config) =>
      forall id | id in s.tasks
        ensures TaskOk(s'.shared, id, s.tasks[id])
      {
        WriteKeepsTaskOk(s.shared, config, id, s.tasks[id]);
      }
    case Call(id, reload) =>
      hide TaskOk;
      forall other | other in s'.tasks
        ensures TaskOk(s'.shared, other, s'.tasks[other])
      {
        if other == id {
          NewTaskOk(s.shared, id, if reload then StaleStart(Applier) else GetStart);
        } else {
          assert TaskOk(s.shared, other, s.tasks[other]);
        }
      }
    case Move(id, timely, helper) => MoveKeepsInv(s, id, timely, helper);
    case Drop(id) => DropKeepsInv(s, id);
  }

  // ---- whole runs ----

  predicate Initial(s: System) {
    |s.shared.history| == 1 && s.shared.inner.None? && s.shared.lock.None? && s.tasks == map[]
  }

  /** A run: any interleaving of writes, calls and moves from an empty cache. */
  ghost predicate IsRun(run: seq<System>, labels: seq<Label>) {
    && |run| == |labels| + 1 && Initial(run[0])
    && forall i {:trigger labels[i]} | 0 <= i < |labels| ::
         run[i].shared.history != [] && Next(run[i], labels[i]) == Some(run[i + 1])
  }

  lemma {:induction false} RunKeepsInv(run: seq<System>, labels: seq<Label>, i: nat)
    requires IsRun(run, labels) && i < |run|
    ensures Inv(run[i])
  {
    if i > 0 {
      RunKeepsInv(run, labels, i - 1);
      var l := labels[i - 1];
      hide Inv, Next;
      StepKeepsInv(run[i - 1], l);
    }
  }

  /** Over every run: once stored, an entry is never removed, and the cached version never goes backwards. */
  lemma {:induction false} CacheOnlyAdvances(run: seq<System>, labels: seq<Label>, i: nat, j: nat)
    requires IsRun(run, labels) && i <= j < |run|
    ensures Advances(run[i].shared, run[j].shared)
    decreases j
  {
    if i < j {
      CacheOnlyAdvances(run, labels, i, j - 1);
      RunKeepsInv(run, labels, j - 1);
      var l := labels[j - 1];
      hide Inv, Next;
      StepKeepsInv(run[j - 1], l);
    }
  }

  /** Over every run: the cached body, and the body of every answer, was built from the configuration whose
      fingerprint it carries, one written before. */
  lemma EntriesAreBuilt(run: seq<System>, labels: seq<Label>, i: nat, id: nat)
    requires IsRun(run, labels) && i < |run|
    ensures run[i].shared.inner.Some? ==> Built(run[i].shared.history, run[i].shared.inner.value)
    ensures id in run[i].tasks && run[i].tasks[id].pc.Answered? ==>
              Built(run[i].shared.history, run[i].tasks[id].pc.entry)
  {
    RunKeepsInv(run, labels, i);
    var s := run[i];
    if id in s.tasks {
      assert TaskOk(s.shared, id, s.tasks[id]);
    }
  }

  /** Over every run: two refreshes never overlap. */
  lemma RefreshesNeverOverlap(run: seq<System>, labels: seq<Label>, i: nat, id: nat, other: nat)
    requires IsRun(run, labels) && i < |run|
    requires id in run[i].tasks && other in run[i].tasks
    requires Refreshing(run[i].tasks[id].pc) && Refreshing(run[i].tasks[other].pc)
    ensures id == other
  {
    RunKeepsInv(run, labels, i);
    assert TaskOk(run[i].shared, id, run[i].tasks[id]);
    assert TaskOk(run[i].shared, other, run[i].tasks[other]);
  }

  /** Over every run: a caller runs at most two refreshes. */
  lemma AtMostTwoRefreshes(run: seq<System>, labels: seq<Label>, i: nat, id: nat)
    requires IsRun(run, labels) && i < |run| && id in run[i].tasks
    ensures run[i].tasks[id].refreshes <= 2
  {
    RunKeepsInv(run, labels, i);
    assert TaskOk(run[i].shared, id, run[i].tasks[id]);
  }

  /** Over every run: a task fails to move exactly when it has ended or waits for a lock that another task
      holds.  In particular no `expect` ever fails. */
  lemma OnlyTheLockBlocks(run: seq<System>, labels: seq<Label>, i: nat, id: nat, timely: bool, helper: nat)
    requires IsRun(run, labels) && i < |run|
    requires id in run[i].tasks && helper !in run[i].tasks
    ensures run[i].shared.history != []
    ensures var s, pc := run[i], run[i].tasks[id].pc;
      (Next(s, Move(id, timely, helper)).None? <==>
        (pc.Answered? || pc.Finished? ||
         ((pc.ColdWait? || pc.StaleWait?) && s.shared.lock.Some? && s.shared.lock.value != id)))
  {
    RunKeepsInv(run, labels, i);
    assert TaskOk(run[i].shared, id, run[i].tasks[id]);
  }

  // ---- freshness ----

  /** No two configurations written share a fingerprint. */
  predicate Distinct(history: seq<Config>) {
    forall i, j | 0 <= i < j < |history| :: history[i].fingerprint != history[j].fingerprint
  }

  predicate Latest(s: Shared) {
    s.inner.Some? && s.inner.value.version == |s.history| - 1
  }

  /** What holds of a `get` while no configuration was written since its start. */
  predicate QuietOk(s: Shared, t: Task)
    requires s.history != []
  {
    var current := s.Current().fingerprint;
    match t.pc
    case FirstLook(fp) => fp == current
    case Classify(fp) => fp == current
    case Serve => Latest(s)
    case LastLook => Latest(s)
    case StaleLook(fp, caller) => fp == current
    case StaleWait(fp, caller) => fp == current
    case StaleRecheck(fp, caller) => fp == current
    case Guard(run, config, version) => config == s.Current() && version == |s.history| - 1
    case Store(run, config, version) => version == |s.history| - 1
    case Refreshed(run) => ForStaleGet(run.purpose) ==> Latest(s)
    case _ => true
  }

  /** A `get` that met an entry is on the stale path or has its answer. */
  predicate PastLook(pc: Pc) {
    || pc.Serve? || InStale(pc) || (InRefresh(pc) && pc.run.purpose.Stale?)
    || pc.LastLook? || pc.Answered? || pc.Finished?
  }

  predicate TaskFresh(s: Shared, t: Task)
    requires s.history != []
  {
    && (t.since == |s.history| ==> QuietOk(s, t))
    && (t.pc.Answered? && t.found && t.since == t.pc.writes ==> t.pc.entry.version == t.pc.writes - 1)
    && (t.found ==> PastLook(t.pc))
  }

  ghost predicate Fresh(s: System)
    requires s.shared.history != []
  {
    forall id | id in s.tasks :: TaskFresh(s.shared, s.tasks[id])
  }

  lemma SameFingerprintIsLatest(s: Shared, fingerprint: int)
    requires s.history != [] && EntryIsBuilt(s) && Distinct(s.history)
    requires s.inner.Some? && s.inner.value.fingerprint == fingerprint == s.Current().fingerprint
    ensures Latest(s)
  {
    assert s.history[s.inner.value.version].fingerprint == s.history[|s.history| - 1].fingerprint;
  }

  lemma GetMoveFresh(s: Shared, id: nat, t: Task, timely: bool)
    requires s.history != [] && EntryIsBuilt(s) && TaskOk(s, id, t) && Distinct(s.history) && TaskFresh(s, t)
    requires !InRefresh(t.pc) && !InStale(t.pc) && GetMove(s, id, t, timely).Some?
    ensures var e := GetMove(s, id, t, timely).value;
      e.shared.history != [] && TaskFresh(e.shared, e.task)
  {
    hide Built, Distinct, RefreshCount;
    if t.since == |s.history| && (t.pc.FirstLook? || t.pc.Classify?) && s.inner.Some? {
      if s.inner.value.fingerprint == t.pc.fingerprint {
        SameFingerprintIsLatest(s, t.pc.fingerprint);
      }
    }
  }

  lemma StaleMoveFresh(s: Shared, id: nat, t: Task, timely: bool)
    requires s.history != [] && EntryIsBuilt(s) && TaskOk(s, id, t) && Distinct(s.history) && TaskFresh(s, t)
    requires StaleMove(s, id, t, timely).Some?
    ensures var e := StaleMove(s, id, t, timely).value;
      e.shared.history != [] && TaskFresh(e.shared, e.task)
  {
    hide Built, Distinct, RefreshCount;
    if t.since == |s.history| && (t.pc.StaleLook? || t.pc.StaleRecheck?) && s.inner.Some? {
      if s.inner.value.fingerprint == t.pc.fingerprint {
        SameFingerprintIsLatest(s, t.pc.fingerprint);
      }
    }
  }

  lemma LoopMoveFresh(s: Shared, t: Task, timely: bool)
    requires s.history != [] && TaskFresh(s, t) && t.pc.Refreshed?
    requires LoopMove(s, t, t.pc.run, timely).Some?
    ensures var e := LoopMove(s, t, t.pc.run, timely).value;
      e.shared.history != [] && TaskFresh(e.shared, e.task)
  {
  }

  lemma RefreshMoveFresh(s: Shared, id: nat, t: Task, timely: bool)
    requires s.history != [] && TaskFresh(s, t)
    requires RefreshMove(s, t, timely).Some?
    ensures var e := RefreshMove(s, t, timely).value;
      e.shared.history != [] && TaskFresh(e.shared, e.task)
  {
    hide LoopMove;
    if t.pc.Refreshed? {
      LoopMoveFresh(s, t, timely);
      hide TaskFresh;
    }
  }

  lemma OthersStayFresh(s: Shared, id: nat, s': Shared, t: Task)
    requires s.history != [] && TaskFresh(s, t) && Respects(s, id, s')
    ensures TaskFresh(s', t)
  {
  }

  lemma MoveKeepsFresh(s: System, id: nat, timely: bool, helper: nat)
    requires Inv(s) && Next(s, Move(id, timely, helper)).Some? && Distinct(s.shared.history) && Fresh(s)
    ensures Next(s, Move(id, timely, helper)).value.shared.history != []
    ensures Fresh(Next(s, Move(id, timely, helper)).value)
  {
    var t := s.tasks[id];
    assert TaskOk(s.shared, id, t) && TaskFresh(s.shared, t);
    var e := Moved(s.shared, id, t, timely).value;
    assert Respects(s.shared, id, e.shared) && TaskFresh(e.shared, e.task) by {
      if InRefresh(t.pc) {
        RefreshMoveOk(s.shared, id, t, timely);
        RefreshMoveFresh(s.shared, id, t, timely);
      } else if InStale(t.pc) || t.pc.BackgroundStart? {
        StaleMoveOk(s.shared, id, t, timely);
        StaleMoveFresh(s.shared, id, t, timely);
      } else {
        GetMoveOk(s.shared, id, t, timely);
        GetMoveFresh(s.shared, id, t, timely);
      }
    }
    hide Moved, TaskOk;
    ApplyKeepsFresh(s, id, e, helper);
  }

  lemma ApplyKeepsFresh(s: System, id: nat, e: Effect, helper: nat)
    requires s.shared.history != [] && Fresh(s) && id in s.tasks && (e.spawns ==> helper !in s.tasks)
    requires Respects(s.shared, id, e.shared) && TaskFresh(e.shared, e.task)
    ensures Apply(s, id, e, helper).shared.history != [] && Fresh(Apply(s, id, e, helper))
  {
    hide TaskFresh;
    var s' := Apply(s, id, e, helper);
    forall other | other in s'.tasks
      ensures TaskFresh(s'.shared, s'.tasks[other])
    {
      if other == id {
      } else if other in s.tasks {
        OthersStayFresh(s.shared, id, e.shared, s.tasks[other]);
      } else {
        NewTaskFresh(e.shared, BackgroundStart);
      }
    }
  }

  lemma DropKeepsFresh(s: System, id: nat)
    requires Inv(s) && Next(s, Drop(id)).Some? && Fresh(s)
    ensures Next(s, Drop(id)).value.shared.history != [] && Fresh(Next(s, Drop(id)).value)
  {
    var t := s.tasks[id];
    assert TaskOk(s.shared, id, t) && TaskFresh(s.shared, t);
    DropOk(s.shared, id, t);
    var e := Dropped(s.shared, id, t).value;
    assert TaskFresh(e.shared, e.task);
    hide Dropped, TaskOk, TaskFresh, Respects;
    ApplyKeepsFresh(s, id, e, id);
  }

  lemma NewTaskFresh(s: Shared, pc: Pc)
    requires s.history != [] && (pc.GetStart? || pc.BackgroundStart? || pc == StaleStart(Applier))
    ensures TaskFresh(s, NewTask(s, pc))
  {
  }

  lemma StepKeepsFresh(s: System, l: Label)
    requires Inv(s) && Next(s, l).Some? && Distinct(s.shared.history) && Fresh(s)
    ensures Next(s, l).value.shared.history != [] && Fresh(Next(s, l).value)
  {
    var s' := Next(s, l).value;
    match l
    case WriteConfig(config) =>
      forall id | id in s.tasks
        ensures TaskFresh(s'.shared, s.tasks[id])
      {
        assert TaskOk(s.shared, id, s.tasks[id]) && TaskFresh(s.shared, s.tasks[id]);
      }
    case Call(id, reload) =>
      hide TaskFresh, TaskOk;
      forall other | other in s'.tasks
        ensures TaskFresh(s'.shared, s'.tasks[other])
      {
        if other == id {
          NewTaskFresh(s.shared, if reload then StaleStart(Applier) else GetStart);
        } else {
          assert TaskFresh(s.shared, s.tasks[other]);
        }
      }
    case Move(id, timely, helper) => MoveKeepsFresh(s, id, timely, helper);
    case Drop(id) => DropKeepsFresh(s, id);
  }

  lemma DistinctPrefix(history: seq<Config>, later: seq<Config>)
    requires history <= later && Distinct(later)
    ensures Distinct(history)
  {
    assert forall i | 0 <= i < |history| :: history[i] == later[i];
  }

  lemma {:induction false} RunStaysFresh(run: seq<System>, labels: seq<Label>, i: nat)
    requires IsRun(run, labels) && i < |run| && Distinct(run[i].shared.history)
    ensures run[i].shared.history != [] && Fresh(run[i])
  {
    RunKeepsInv(run, labels, i);
    if i > 0 {
      CacheOnlyAdvances(run, labels, i - 1, i);
      DistinctPrefix(run[i - 1].shared.history, run[i].shared.history);
      RunStaysFresh(run, labels, i - 1);
      RunKeepsInv(run, labels, i - 1);
      var l := labels[i - 1];
      hide Inv, Next, Fresh, Distinct;
      StepKeepsFresh(run[i - 1], l);
    }
  }

  /** Over every run, when no two configurations share a fingerprint: a `get` that met an entry, and during
      which no configuration was written, answers with a body built from the current configuration. */
  lemma QuietGetIsCurrent(run: seq<System>, labels: seq<Label>, i: nat, id: nat)
    requires IsRun(run, labels) && i < |run| && Distinct(run[i].shared.history)
    requires id in run[i].tasks && run[i].tasks[id].pc.Answered?
    requires run[i].tasks[id].found && run[i].tasks[id].since == run[i].tasks[id].pc.writes
    ensures var pc := run[i].tasks[id].pc;
      0 < pc.writes <= |run[i].shared.history| && pc.entry.source == run[i].shared.history[pc.writes - 1]
  {
    RunKeepsInv(run, labels, i);
    RunStaysFresh(run, labels, i);
    var t := run[i].tasks[id];
    assert TaskOk(run[i].shared, id, t) && TaskFresh(run[i].shared, t);
  }

  // ---- a refresh that a write overtakes ----

  /** Run on by one step. */
  lemma RunOn(run: seq<System>, labels: seq<Label>, l: Label) returns (run': seq<System>, labels': seq<Label>)
    requires IsRun(run, labels) && run[|run| - 1].shared.history != [] && Next(run[|run| - 1], l).Some?
    ensures IsRun(run', labels') && run'[|run'| - 1] == Next(run[|run| - 1], l).value
  {
    run', labels' := run + [Next(run[|run| - 1], l).value], labels + [l];
    forall i | 0 <= i < |labels'|
      ensures run'[i].shared.history != [] && Next(run'[i], labels'[i]) == Some(run'[i + 1])
    {
      if i < |labels| {
        assert labels'[i] == labels[i];
      }
    }
  }

  /** A refresh after a reload gets the lock. */
  lemma ReloadTakesLock(config: Config) returns (run: seq<System>, labels: seq<Label>)
    ensures IsRun(run, labels)
    ensures run[|run| - 1].shared == Shared([config], None, Some(0)) && run[|run| - 1].tasks.Keys == {0}
    ensures run[|run| - 1].tasks[0].pc == StaleRecheck(config.fingerprint, Applier)
  {
    var step := Move(0, true, 1);
    run, labels := [System(Shared([config], None, None), map[])], [];
    assert IsRun(run, labels);
    hide IsRun;
    run, labels := RunOn(run, labels, Call(0, true));
    run, labels := RunOn(run, labels, step);
    run, labels := RunOn(run, labels, step);
    run, labels := RunOn(run, labels, step);
  }

  /** It reads the configuration and passes the guard; a write then overtakes it. */
  lemma OvertakenRefresh(older: Config, newer: Config) returns (run: seq<System>, labels: seq<Label>)
    ensures IsRun(run, labels)
    ensures run[|run| - 1].shared == Shared([older, newer], None, Some(0)) && run[|run| - 1].tasks.Keys == {0}
    ensures run[|run| - 1].tasks[0].pc == Store(Refresh(Stale(older.fingerprint, Applier), false), older, 0)
  {
    hide IsRun;
    var step := Move(0, true, 1);
    run, labels := ReloadTakesLock(older);
    run, labels := RunOn(run, labels, step);
    run, labels := RunOn(run, labels, step);
    run, labels := RunOn(run, labels, step);
    run, labels := RunOn(run, labels, WriteConfig(newer));
  }
}
