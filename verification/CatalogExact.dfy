/** When a `get` answers with the current configuration, exactly; and that the cache never gets stuck. */
module CatalogExact {
  import opened Wrappers
  import opened CatalogCache

  /** Steps from any state on. */
  ghost predicate IsPath(path: seq<System>, labels: seq<Label>) {
    && |path| == |labels| + 1
    && forall i {:trigger labels[i]} | 0 <= i < |labels| ::
         path[i].shared.history != [] && Next(path[i], labels[i]) == Some(path[i + 1])
  }

  lemma PathOn(path: seq<System>, labels: seq<Label>, l: Label) returns (path': seq<System>, labels': seq<Label>)
    requires IsPath(path, labels) && path[|path| - 1].shared.history != [] && Next(path[|path| - 1], l).Some?
    ensures IsPath(path', labels') && path'[0] == path[0] && labels' == labels + [l]
    ensures path'[|path'| - 1] == Next(path[|path| - 1], l).value
  {
    path', labels' := path + [Next(path[|path| - 1], l).value], labels + [l];
    forall i | 0 <= i < |labels'|
      ensures path'[i].shared.history != [] && Next(path'[i], labels'[i]) == Some(path'[i + 1])
    {
      if i < |labels| {
        assert labels'[i] == labels[i];
      }
    }
  }

  // ---- exactly when a `get` is current ----

  /** The task holds an older snapshot that nothing keeps from being stored, and may let the lock go behind that
      store: a refresh within `refresh_if_stale` does so only if it is its second one, or if what it stores is
      what it was called for, or if it is part of a `get`, which may be dropped before it refreshes again. */
  predicate MayLeaveOlder(s: Shared, pc: Pc) {
    && (pc.Store? || (pc.Guard? && pc.run.force))
    && pc.version + 1 < |s.history|
    && (pc.run.purpose.Stale? ==>
          pc.run.force || pc.run.purpose.fingerprint == pc.config.fingerprint || pc.run.purpose.caller.ForGet?)
  }

  /** Nothing is cached, and some task may leave an older body in the cache. */
  ghost predicate Risky(s: System) {
    s.shared.inner.None? && exists k | k in s.tasks :: MayLeaveOlder(s.shared, s.tasks[k].pc)
  }

  /** Every continuation in which a `get` starts at once and nothing is written behind it. */
  ghost predicate IsQuietGet(s: System, id: nat, path: seq<System>, labels: seq<Label>) {
    && IsPath(path, labels) && path[0] == s
    && labels != [] && labels[0] == Call(id, false)
    && forall i | 0 <= i < |labels| :: !labels[i].WriteConfig?
  }

  predicate Answers(s: System, id: nat) {
    id in s.tasks && s.tasks[id].pc.Answered?
  }

  ghost predicate AlwaysCurrent(s: System, id: nat)
    requires s.shared.history != []
  {
    forall path: seq<System>, labels: seq<Label> | IsQuietGet(s, id, path, labels) && Answers(path[|path| - 1], id) ::
      path[|path| - 1].tasks[id].pc.entry.source == s.shared.Current()
  }

  /** The reload's own refresh, which nothing drops. */
  predicate ByReload(run: Refresh) {
    run.purpose.Stale? && run.purpose.caller.Applier?
  }

  /** The task stores again, from the latest configuration, before it lets the lock go. */
  predicate Mends(s: Shared, pc: Pc)
    requires s.history != []
  {
    match pc
    case Refreshed(run) =>
      ByReload(run) && !run.force && s.inner.Some? && run.purpose.fingerprint != s.inner.value.fingerprint
    case Snapshot(run) => ByReload(run) && run.force
    case Guard(run, config, version) => ByReload(run) && run.force && version == |s.history| - 1
    case Store(run, config, version) => ByReload(run) && run.force && version == |s.history| - 1
    case _ => false
  }

  /** An older body is in the cache only while the holder of the lock is about to replace it. */
  ghost predicate Mended(s: System)
    requires s.shared.history != []
  {
    && (forall k | k in s.tasks :: !MayLeaveOlder(s.shared, s.tasks[k].pc))
    && (s.shared.inner.Some? && s.shared.inner.value.version != |s.shared.history| - 1 ==>
          s.shared.lock.Some? && s.shared.lock.value in s.tasks &&
          Mends(s.shared, s.tasks[s.shared.lock.value].pc))
  }

  predicate Looking(pc: Pc) {
    pc.GetStart? || pc.FirstLook? || pc.Classify?
  }

  predicate OnColdPath(pc: Pc) {
    pc.ColdWait? || pc.ColdCheck? || (InRefresh(pc) && pc.run.purpose.Cold?)
  }

  /** A quiet `get`: it has met an entry, was dropped, is still looking, or is on the cold path, where its answer is
      the latest. */
  predicate QuietTask(s: Shared, t: Task, cold: bool) {
    && t.since == |s.history|
    && (t.pc.Answered? ==> t.pc.writes == |s.history|)
    && (t.found || t.pc.Finished? || Looking(t.pc) || (cold && OnColdPath(t.pc)) ||
        (cold && t.pc.Answered? && t.pc.entry.version == |s.history| - 1))
  }

  /** What holds along a quiet `get`; `cold` says that nothing was cached at its start. */
  ghost predicate QuietGet(s: System, id: nat, cold: bool) {
    && Inv(s) && Distinct(s.shared.history) && Fresh(s)
    && id in s.tasks && QuietTask(s.shared, s.tasks[id], cold)
    && (if cold then Mended(s) else s.shared.inner.Some?)
  }

  // ---- the two invariants, move by move ----

  /** What the move of one task does to a mended cache: the task itself leaves nothing older behind, and it is
      mending itself whenever an older body stays. */
  predicate MendedMove(s: Shared, id: nat, pc: Pc)
    requires s.history != []
  {
    && !MayLeaveOlder(s, pc)
    && (s.inner.Some? && s.inner.value.version != |s.history| - 1 ==>
          s.lock.Some? && (s.lock == Some(id) ==> Mends(s, pc)))
  }

  lemma OlderHasOtherFingerprint(s: Shared, version: nat)
    requires s.history != [] && Distinct(s.history) && version + 1 < |s.history|
    ensures s.history[version].fingerprint != s.Current().fingerprint
  {
  }

  lemma GetMoveMends(s: Shared, id: nat, t: Task, timely: bool)
    requires s.history != [] && MendedMove(s, id, t.pc) && TaskOk(s, id, t)
    requires !InRefresh(t.pc) && !InStale(t.pc) && GetMove(s, id, t, timely).Some?
    ensures var e := GetMove(s, id, t, timely).value;
      e.shared.history == s.history && MendedMove(e.shared, id, e.task.pc)
  {
    hide SnapshotIsRecent, AnswerIsBuilt, RefreshCount;
  }

  lemma StaleMoveMends(s: Shared, id: nat, t: Task, timely: bool)
    requires s.history != [] && MendedMove(s, id, t.pc) && TaskOk(s, id, t)
    requires StaleMove(s, id, t, timely).Some?
    ensures var e := StaleMove(s, id, t, timely).value;
      e.shared.history == s.history && MendedMove(e.shared, id, e.task.pc)
  {
    hide SnapshotIsRecent, AnswerIsBuilt, RefreshCount;
  }

  lemma LoopMoveMends(s: Shared, id: nat, t: Task, timely: bool)
    requires s.history != [] && MendedMove(s, id, t.pc) && TaskOk(s, id, t) && t.pc.Refreshed?
    requires LoopMove(s, t, t.pc.run, timely).Some?
    ensures var e := LoopMove(s, t, t.pc.run, timely).value;
      e.shared.history == s.history && MendedMove(e.shared, id, e.task.pc)
  {
    hide SnapshotIsRecent, AnswerIsBuilt, RefreshCount;
  }

  lemma RefreshMoveMends(s: Shared, id: nat, t: Task, timely: bool)
    requires s.history != [] && Distinct(s.history) && MendedMove(s, id, t.pc) && TaskOk(s, id, t)
    requires RefreshMove(s, t, timely).Some?
    ensures var e := RefreshMove(s, t, timely).value;
      e.shared.history == s.history && MendedMove(e.shared, id, e.task.pc)
  {
    hide AnswerIsBuilt, RefreshCount, LoopMove, Distinct;
    if t.pc.Refreshed? {
      LoopMoveMends(s, id, t, timely);
      hide MendedMove;
    } else if t.pc.Guard? && t.pc.version + 1 < |s.history| {
      OlderHasOtherFingerprint(s, t.pc.version);
    }
  }

  lemma MoveMends(s: Shared, id: nat, t: Task, timely: bool)
    requires s.history != [] && Distinct(s.history) && MendedMove(s, id, t.pc) && TaskOk(s, id, t)
    requires Moved(s, id, t, timely).Some?
    ensures var e := Moved(s, id, t, timely).value;
      e.shared.history == s.history && MendedMove(e.shared, id, e.task.pc)
  {
    hide GetMove, StaleMove, RefreshMove, MendedMove, TaskOk, Distinct;
    if InRefresh(t.pc) {
      RefreshMoveMends(s, id, t, timely);
    } else if InStale(t.pc) || t.pc.BackgroundStart? {
      StaleMoveMends(s, id, t, timely);
    } else {
      GetMoveMends(s, id, t, timely);
    }
  }

  lemma MoveRespects(s: Shared, id: nat, t: Task, timely: bool)
    requires s.history != [] && EntryIsBuilt(s) && TaskOk(s, id, t) && Moved(s, id, t, timely).Some?
    ensures Respects(s, id, Moved(s, id, t, timely).value.shared)
  {
    hide GetMove, StaleMove, RefreshMove, TaskOk, EntryIsBuilt, Respects;
    if InRefresh(t.pc) {
      RefreshMoveOk(s, id, t, timely);
    } else if InStale(t.pc) || t.pc.BackgroundStart? {
      StaleMoveOk(s, id, t, timely);
    } else {
      GetMoveOk(s, id, t, timely);
    }
  }

  lemma MoveKeepsMended(s: System, id: nat, timely: bool, helper: nat)
    requires Inv(s) && Distinct(s.shared.history) && Mended(s) && Next(s, Move(id, timely, helper)).Some?
    ensures var s' := Next(s, Move(id, timely, helper)).value;
      s'.shared.history == s.shared.history && Mended(s')
  {
    var t := s.tasks[id];
    assert TaskOk(s.shared, id, t);
    var e := Moved(s.shared, id, t, timely).value;
    MoveMends(s.shared, id, t, timely);
    MoveRespects(s.shared, id, t, timely);
    hide Moved, TaskOk, EntryIsBuilt;
    ApplyKeepsMended(s, id, e, helper);
  }

  lemma ApplyKeepsMended(s: System, id: nat, e: Effect, helper: nat)
    requires s.shared.history != [] && Mended(s) && id in s.tasks && (e.spawns ==> helper !in s.tasks)
    requires Respects(s.shared, id, e.shared) && MendedMove(e.shared, id, e.task.pc)
    ensures Apply(s, id, e, helper).shared.history == s.shared.history && Mended(Apply(s, id, e, helper))
  {
    hide EntryIsBuilt;
    var s' := Apply(s, id, e, helper);
    forall k | k in s'.tasks
      ensures !MayLeaveOlder(s'.shared, s'.tasks[k].pc)
    {
      if k != id && k in s.tasks {
        assert !MayLeaveOlder(s.shared, s.tasks[k].pc);
      }
    }
  }

  lemma DropMends(s: Shared, id: nat, t: Task)
    requires s.history != [] && MendedMove(s, id, t.pc) && Dropped(s, id, t).Some?
    ensures var e := Dropped(s, id, t).value;
      e.shared.history == s.history && MendedMove(e.shared, id, e.task.pc)
  {
  }

  lemma DropKeepsMended(s: System, id: nat)
    requires Inv(s) && Mended(s) && Next(s, Drop(id)).Some?
    ensures var s' := Next(s, Drop(id)).value;
      s'.shared.history == s.shared.history && Mended(s')
  {
    var t := s.tasks[id];
    assert TaskOk(s.shared, id, t);
    var e := Dropped(s.shared, id, t).value;
    DropMends(s.shared, id, t);
    DropOk(s.shared, id, t);
    hide Dropped, TaskOk, EntryIsBuilt;
    ApplyKeepsMended(s, id, e, id);
  }

  lemma CallKeepsMended(s: System, id: nat, reload: bool)
    requires Inv(s) && Mended(s) && Next(s, Call(id, reload)).Some?
    ensures var s' := Next(s, Call(id, reload)).value;
      s'.shared.history != [] && Mended(s')
  {
    hide TaskOk, EntryIsBuilt;
    var s' := Next(s, Call(id, reload)).value;
    forall k | k in s'.tasks
      ensures !MayLeaveOlder(s'.shared, s'.tasks[k].pc)
    {
      if k != id {
        assert !MayLeaveOlder(s.shared, s.tasks[k].pc);
      }
    }
  }

  lemma GetMoveQuiet(s: Shared, id: nat, t: Task, timely: bool, cold: bool)
    requires s.history != [] && TaskOk(s, id, t) && QuietTask(s, t, cold)
    requires if cold then MendedMove(s, id, t.pc) else s.inner.Some?
    requires !InRefresh(t.pc) && !InStale(t.pc) && GetMove(s, id, t, timely).Some?
    ensures var e := GetMove(s, id, t, timely).value; QuietTask(e.shared, e.task, cold)
  {
    hide SnapshotIsRecent, AnswerIsBuilt, RefreshCount;
  }

  lemma StaleMoveQuiet(s: Shared, id: nat, t: Task, timely: bool, cold: bool)
    requires s.history != [] && QuietTask(s, t, cold) && StaleMove(s, id, t, timely).Some?
    ensures var e := StaleMove(s, id, t, timely).value; QuietTask(e.shared, e.task, cold)
  {
  }

  lemma RefreshMoveQuiet(s: Shared, id: nat, t: Task, timely: bool, cold: bool)
    requires s.history != [] && TaskOk(s, id, t) && QuietTask(s, t, cold)
    requires if cold then MendedMove(s, id, t.pc) else s.inner.Some?
    requires InRefresh(t.pc) && RefreshMove(s, t, timely).Some?
    ensures var e := RefreshMove(s, t, timely).value; QuietTask(e.shared, e.task, cold)
  {
    hide SnapshotIsRecent, AnswerIsBuilt, RefreshCount;
  }

  lemma MoveQuiet(s: Shared, id: nat, t: Task, timely: bool, cold: bool)
    requires s.history != [] && TaskOk(s, id, t) && QuietTask(s, t, cold)
    requires if cold then MendedMove(s, id, t.pc) else s.inner.Some?
    requires Moved(s, id, t, timely).Some?
    ensures var e := Moved(s, id, t, timely).value; QuietTask(e.shared, e.task, cold)
  {
    hide GetMove, StaleMove, RefreshMove, TaskOk, QuietTask, MendedMove;
    if InRefresh(t.pc) {
      RefreshMoveQuiet(s, id, t, timely, cold);
    } else if InStale(t.pc) || t.pc.BackgroundStart? {
      StaleMoveQuiet(s, id, t, timely, cold);
    } else {
      GetMoveQuiet(s, id, t, timely, cold);
    }
  }

  /** The quiet `get` stays quiet, whoever moves. */
  lemma StepKeepsQuietTask(s: System, l: Label, id: nat, cold: bool)
    requires QuietGet(s, id, cold) && Next(s, l).Some? && !l.WriteConfig?
    ensures var s' := Next(s, l).value;
      id in s'.tasks && QuietTask(s'.shared, s'.tasks[id], cold) && s'.shared.history == s.shared.history
  {
    match l
    case Call(other, reload) =>
    case Move(other, timely, helper) =>
      var t := s.tasks[other];
      assert TaskOk(s.shared, other, t);
      hide TaskOk, Fresh, Distinct;
      MoveRespects(s.shared, other, t, timely);
      if other == id {
        MoveQuiet(s.shared, id, t, timely, cold);
      }
      hide Moved;
    case Drop(other) =>
  }

  lemma StepKeepsQuietGet(s: System, l: Label, id: nat, cold: bool)
    requires QuietGet(s, id, cold) && Next(s, l).Some? && !l.WriteConfig?
    ensures QuietGet(Next(s, l).value, id, cold) && Next(s, l).value.shared.history == s.shared.history
  {
    StepKeepsInv(s, l);
    StepKeepsFresh(s, l);
    StepKeepsQuietTask(s, l, id, cold);
    hide Inv, Fresh, Distinct, QuietTask;
    if cold {
      hide Next;
      match l
      case Call(other, reload) => CallKeepsMended(s, other, reload);
      case Move(other, timely, helper) => MoveKeepsMended(s, other, timely, helper);
      case Drop(other) => DropKeepsMended(s, other);
    } else {
      hide Next;
    }
  }

  lemma {:induction false} PathKeepsQuietGet(s: System, id: nat, path: seq<System>, labels: seq<Label>, i: nat)
    requires Inv(s) && Distinct(s.shared.history) && Fresh(s) && !Risky(s) && id !in s.tasks
    requires IsQuietGet(s, id, path, labels) && 0 < i < |path|
    ensures QuietGet(path[i], id, s.shared.inner.None?) && path[i].shared.history == s.shared.history
  {
    var l := labels[i - 1];
    if i == 1 {
      StepKeepsInv(s, l);
      StepKeepsFresh(s, l);
      hide Inv, Fresh, Distinct;
    } else {
      PathKeepsQuietGet(s, id, path, labels, i - 1);
      hide QuietGet, Next;
      StepKeepsQuietGet(path[i - 1], l, id, s.shared.inner.None?);
    }
  }

  lemma QuietAnswerIsCurrent(s: System, id: nat, cold: bool)
    requires QuietGet(s, id, cold) && s.tasks[id].pc.Answered?
    ensures s.shared.history != [] && s.tasks[id].pc.entry.source == s.shared.Current()
  {
    var t := s.tasks[id];
    assert TaskOk(s.shared, id, t) && TaskFresh(s.shared, t);
    assert s.shared.history[..|s.shared.history|] == s.shared.history;
    hide Mended, Fresh, Inv;
  }

  /** Ahead: without risk, a `get` during which nothing is written answers with the current configuration. */
  lemma UnriskedGetIsCurrent(s: System, id: nat)
    requires Inv(s) && Distinct(s.shared.history) && Fresh(s) && !Risky(s) && id !in s.tasks
    ensures AlwaysCurrent(s, id)
  {
    hide Inv, Fresh, Risky, QuietGet;
    forall path: seq<System>, labels: seq<Label> | IsQuietGet(s, id, path, labels) && Answers(path[|path| - 1], id)
      ensures path[|path| - 1].tasks[id].pc.entry.source == s.shared.Current()
    {
      PathKeepsQuietGet(s, id, path, labels, |path| - 1);
      QuietAnswerIsCurrent(path[|path| - 1], id, s.shared.inner.None?);
    }
  }

  // ---- with a risk, some quiet `get` is behind ----

  /** Some number above all of a set. */
  lemma {:induction false} Unused(ids: set<nat>) returns (n: nat)
    ensures forall k | k in ids :: k < n
    decreases |ids|
  {
    if ids == {} {
      n := 0;
    } else {
      var k :| k in ids;
      var m := Unused(ids - {k});
      n := if k < m then m else k + 1;
      assert forall j | j in ids :: j == k || j in ids - {k};
    }
  }

  /** Where the get `id` waits, task `k` is to store what it holds, and `helper` is a free id. */
  ghost predicate Overtaken(s: System, id: nat, k: nat, helper: nat, history: seq<Config>, older: nat) {
    && Inv(s) && s.shared.history == history && s.shared.inner.None?
    && id in s.tasks && s.tasks[id].pc.ColdWait?
    && k in s.tasks && k != id && helper !in s.tasks
    && MayLeaveOlder(s.shared, s.tasks[k].pc) && s.tasks[k].pc.version == older
  }

  /** The lock is free and an older entry is cached. */
  ghost predicate LeftOlder(s: System, id: nat, helper: nat, history: seq<Config>, older: nat) {
    && Inv(s) && s.shared.history == history && s.shared.lock.None?
    && s.shared.inner.Some? && s.shared.inner.value.version == older
    && id in s.tasks && s.tasks[id].pc.ColdWait? && helper !in s.tasks
  }

  /** The state with the `get` at `pc`. */
  function GetAt(s: System, id: nat, pc: Pc): System {
    s.(tasks := s.tasks[id := NewTask(s.shared, pc)])
  }

  lemma ColdStep(s: System, id: nat, helper: nat, pc: Pc, next: Pc)
    requires s.shared.history != [] && s.shared.inner.None? && helper !in s.tasks && id != helper
    requires
      var fp := s.shared.Current().fingerprint;
      (pc == GetStart && next == FirstLook(fp)) || (pc == FirstLook(fp) && next == Classify(fp)) ||
      (pc == Classify(fp) && next == ColdWait)
    ensures Next(GetAt(s, id, pc), Move(id, true, helper)) == Some(GetAt(s, id, next))
  {
    var at := GetAt(s, id, pc);
    assert at.tasks[id := NewTask(s.shared, next)] == GetAt(s, id, next).tasks;
  }

  lemma {:induction false} PathKeepsInv(path: seq<System>, labels: seq<Label>, i: nat)
    requires IsPath(path, labels) && Inv(path[0]) && i < |path|
    ensures Inv(path[i])
  {
    if i > 0 {
      PathKeepsInv(path, labels, i - 1);
      var l := labels[i - 1];
      hide Inv, Next;
      StepKeepsInv(path[i - 1], l);
    }
  }

  lemma InvHasHistory(s: System)
    requires Inv(s)
    ensures s.shared.history != []
  {
  }

  /** A quiet path, run on by one step. */
  lemma QuietOn(s: System, id: nat, path: seq<System>, labels: seq<Label>, l: Label)
    returns (path': seq<System>, labels': seq<Label>)
    requires IsQuietGet(s, id, path, labels) && !l.WriteConfig?
    requires path[|path| - 1].shared.history != [] && Next(path[|path| - 1], l).Some?
    ensures IsQuietGet(s, id, path', labels') && path'[|path'| - 1] == Next(path[|path| - 1], l).value
  {
    path', labels' := PathOn(path, labels, l);
    hide IsPath;
  }

  lemma QuietStart(s: System, id: nat) returns (path: seq<System>, labels: seq<Label>)
    requires s.shared.history != [] && id !in s.tasks
    ensures IsQuietGet(s, id, path, labels) && path[|path| - 1] == GetAt(s, id, GetStart)
  {
    path, labels := [s, GetAt(s, id, GetStart)], [Call(id, false)];
  }

  lemma QuietKeepsInv(s: System, id: nat, path: seq<System>, labels: seq<Label>)
    requires Inv(s) && IsQuietGet(s, id, path, labels)
    ensures Inv(path[|path| - 1])
  {
    hide Inv, Next;
    PathKeepsInv(path, labels, |path| - 1);
  }

  /** The `get` starts, meets nothing, and waits. */
  lemma GetComesToWait(s: System, id: nat, helper: nat) returns (path: seq<System>, labels: seq<Label>)
    requires Inv(s) && s.shared.inner.None? && id !in s.tasks && helper !in s.tasks && id != helper
    ensures IsQuietGet(s, id, path, labels) && Inv(path[|path| - 1])
    ensures path[|path| - 1] == GetAt(s, id, ColdWait)
  {
    var get := Move(id, true, helper);
    InvHasHistory(s);
    var fp := s.shared.Current().fingerprint;
    hide *;
    path, labels := QuietStart(s, id);
    ColdStep(s, id, helper, GetStart, FirstLook(fp));
    path, labels := QuietOn(s, id, path, labels, get);
    ColdStep(s, id, helper, FirstLook(fp), Classify(fp));
    path, labels := QuietOn(s, id, path, labels, get);
    ColdStep(s, id, helper, Classify(fp), ColdWait);
    path, labels := QuietOn(s, id, path, labels, get);
    QuietKeepsInv(s, id, path, labels);
  }

  /** The refresh passes its guard, if it stands before it. */
  lemma OlderPassesGuard(s: System, id: nat, k: nat, helper: nat, history: seq<Config>, older: nat)
    requires Overtaken(s, id, k, helper, history, older) && s.tasks[k].pc.Guard?
    ensures s.shared.history != [] && Next(s, Move(k, true, helper)).Some?
    ensures var s' := Next(s, Move(k, true, helper)).value;
      Overtaken(s', id, k, helper, history, older) && s'.tasks[k].pc.Store?
  {
    StepKeepsInv(s, Move(k, true, helper));
    hide TaskOk;
  }

  /** It stores the older body. */
  lemma OlderIsStored(s: System, id: nat, k: nat, helper: nat, history: seq<Config>, older: nat)
    requires Overtaken(s, id, k, helper, history, older) && s.tasks[k].pc.Store?
    ensures s.shared.history != [] && Next(s, Move(k, true, helper)).Some?
    ensures Stored(Next(s, Move(k, true, helper)).value, id, k, helper, history, older)
  {
    StepKeepsInv(s, Move(k, true, helper));
    hide TaskOk;
  }

  /** The older body is cached, and the refresh that stored it is done. */
  ghost predicate Stored(s: System, id: nat, k: nat, helper: nat, history: seq<Config>, older: nat) {
    && Inv(s) && s.shared.history == history
    && s.shared.inner.Some? && s.shared.inner.value.version == older
    && id in s.tasks && s.tasks[id].pc.ColdWait?
    && k in s.tasks && k != id && helper !in s.tasks && s.tasks[k].pc.Refreshed?
    && (var run := s.tasks[k].pc.run;
       run.purpose.Stale? ==>
         run.force || run.purpose.fingerprint == s.shared.inner.value.fingerprint || run.purpose.caller.ForGet?)
  }

  /** The refresh runs once more, unless it is dropped first. */
  ghost predicate WillRefresh(s: System, k: nat)
    requires k in s.tasks && s.tasks[k].pc.Refreshed?
  {
    var run := s.tasks[k].pc.run;
    run.purpose.Stale? && !run.force && s.shared.inner.Some? && run.purpose.fingerprint != s.shared.inner.value.fingerprint
  }

  /** The refresh lets the lock go. */
  lemma OlderIsLeft(s: System, id: nat, k: nat, helper: nat, history: seq<Config>, older: nat)
    requires Stored(s, id, k, helper, history, older) && !WillRefresh(s, k)
    ensures s.shared.history != [] && Next(s, Move(k, true, helper)).Some?
    ensures LeftOlder(Next(s, Move(k, true, helper)).value, id, helper, history, older)
  {
    StepKeepsInv(s, Move(k, true, helper));
    hide TaskOk;
  }

  /** The older body is cached, and the `get` whose refresh stored it is about to refresh again. */
  ghost predicate Retrying(s: System, id: nat, k: nat, helper: nat, history: seq<Config>, older: nat) {
    && Inv(s) && s.shared.history == history
    && s.shared.inner.Some? && s.shared.inner.value.version == older
    && id in s.tasks && s.tasks[id].pc.ColdWait?
    && k in s.tasks && k != id && helper !in s.tasks && s.tasks[k].pc.Snapshot? && InGet(s.tasks[k].pc.run.purpose)
  }

  lemma OlderIsRetried(s: System, id: nat, k: nat, helper: nat, history: seq<Config>, older: nat)
    requires Stored(s, id, k, helper, history, older) && WillRefresh(s, k)
    ensures s.shared.history != [] && Next(s, Move(k, true, helper)).Some?
    ensures Retrying(Next(s, Move(k, true, helper)).value, id, k, helper, history, older)
  {
    StepKeepsInv(s, Move(k, true, helper));
    hide TaskOk;
  }

  /** Its client goes, and the lock with it. */
  lemma OlderIsDropped(s: System, id: nat, k: nat, helper: nat, history: seq<Config>, older: nat)
    requires Retrying(s, id, k, helper, history, older)
    ensures s.shared.history != [] && Next(s, Drop(k)).Some?
    ensures LeftOlder(Next(s, Drop(k)).value, id, helper, history, older)
  {
    assert TaskOk(s.shared, k, s.tasks[k]);
    StepKeepsInv(s, Drop(k));
    hide RefreshCount, SnapshotIsRecent, AnswerIsBuilt;
  }

  /** The `get` takes the lock, meets the older entry, and answers with it. */
  lemma GetTakesLock(s: System, id: nat, helper: nat, history: seq<Config>, older: nat)
    requires LeftOlder(s, id, helper, history, older)
    ensures s.shared.history != [] && Next(s, Move(id, true, helper)).Some?
    ensures var s' := Next(s, Move(id, true, helper)).value;
      Inv(s') && s'.shared.history == history && s'.shared.inner == s.shared.inner &&
      id in s'.tasks && s'.tasks[id].pc.ColdCheck? && helper !in s'.tasks
  {
    StepKeepsInv(s, Move(id, true, helper));
    hide TaskOk;
  }

  lemma GetAnswersOlder(s: System, id: nat, helper: nat)
    requires Inv(s) && s.shared.inner.Some? && id in s.tasks && s.tasks[id].pc.ColdCheck? && helper !in s.tasks
    ensures s.shared.history != [] && Next(s, Move(id, true, helper)).Some?
    ensures var s' := Next(s, Move(id, true, helper)).value;
      Answers(s', id) && s'.tasks[id].pc.entry == s.shared.inner.value && s'.shared.history == s.shared.history
    ensures Built(s.shared.history, s.shared.inner.value)
  {
  }

  /** On from the waiting `get` to the older body in the cache. */
  lemma PathToStored(s: System, id: nat, k: nat, helper: nat) returns (path: seq<System>, labels: seq<Label>)
    requires Inv(s) && s.shared.inner.None? && id !in s.tasks && helper !in s.tasks && id != helper
    requires k in s.tasks && MayLeaveOlder(s.shared, s.tasks[k].pc)
    ensures IsQuietGet(s, id, path, labels)
    ensures Stored(path[|path| - 1], id, k, helper, s.shared.history, s.tasks[k].pc.version)
  {
    var history, older := s.shared.history, s.tasks[k].pc.version;
    path, labels := GetComesToWait(s, id, helper);
    hide Inv, Next, Stored, Built, IsQuietGet;
    assert Overtaken(path[|path| - 1], id, k, helper, history, older);
    hide Overtaken, MayLeaveOlder;
    var step := Move(k, true, helper);
    if path[|path| - 1].tasks[k].pc.Guard? {
      OlderPassesGuard(path[|path| - 1], id, k, helper, history, older);
      path, labels := QuietOn(s, id, path, labels, step);
    }
    OlderIsStored(path[|path| - 1], id, k, helper, history, older);
    path, labels := QuietOn(s, id, path, labels, step);
  }

  /** On to the free lock. */
  lemma PathToLeft(s: System, id: nat, k: nat, helper: nat, path: seq<System>, labels: seq<Label>)
    returns (path': seq<System>, labels': seq<Label>)
    requires IsQuietGet(s, id, path, labels) && k in s.tasks && MayLeaveOlder(s.shared, s.tasks[k].pc)
    requires Stored(path[|path| - 1], id, k, helper, s.shared.history, s.tasks[k].pc.version)
    ensures IsQuietGet(s, id, path', labels')
    ensures LeftOlder(path'[|path'| - 1], id, helper, s.shared.history, s.tasks[k].pc.version)
  {
    var history, older, last := s.shared.history, s.tasks[k].pc.version, path[|path| - 1];
    StoredTask(last, id, k, helper, history, older);
    hide Inv, Next, Stored, MayLeaveOlder, IsQuietGet, Retrying, LeftOlder, WillRefresh;
    path', labels' := path, labels;
    if WillRefresh(last, k) {
      OlderIsRetried(last, id, k, helper, history, older);
      path', labels' := QuietOn(s, id, path', labels', Move(k, true, helper));
      OlderIsDropped(path'[|path'| - 1], id, k, helper, history, older);
      path', labels' := QuietOn(s, id, path', labels', Drop(k));
    } else {
      OlderIsLeft(last, id, k, helper, history, older);
      path', labels' := QuietOn(s, id, path', labels', Move(k, true, helper));
    }
  }

  lemma StoredTask(s: System, id: nat, k: nat, helper: nat, history: seq<Config>, older: nat)
    requires Stored(s, id, k, helper, history, older)
    ensures k in s.tasks && s.tasks[k].pc.Refreshed?
  {
    hide Inv;
  }

  /** The `get` is answered with the configuration that `k` holds. */
  lemma GetIsBehind(s: System, id: nat, k: nat) returns (path: seq<System>, labels: seq<Label>)
    requires Inv(s) && s.shared.inner.None? && id !in s.tasks
    requires k in s.tasks && MayLeaveOlder(s.shared, s.tasks[k].pc)
    ensures IsQuietGet(s, id, path, labels) && Answers(path[|path| - 1], id)
    ensures var entry := path[|path| - 1].tasks[id].pc.entry;
      entry.version + 1 < |s.shared.history| && entry.source == s.shared.history[entry.version]
  {
    var helper := Unused(s.tasks.Keys + {id});
    var history, older := s.shared.history, s.tasks[k].pc.version;
    path, labels := PathToStored(s, id, k, helper);
    assert older + 1 < |history|;
    hide Inv, Next, Stored, MayLeaveOlder, IsQuietGet;
    path, labels := PathToLeft(s, id, k, helper, path, labels);
    GetTakesLock(path[|path| - 1], id, helper, history, older);
    path, labels := QuietOn(s, id, path, labels, Move(id, true, helper));
    GetAnswersOlder(path[|path| - 1], id, helper);
    path, labels := QuietOn(s, id, path, labels, Move(id, true, helper));
  }

  lemma {:induction false} RiskedGetMayBeBehind(s: System, id: nat)
    requires Inv(s) && Distinct(s.shared.history) && Risky(s) && id !in s.tasks
    ensures s.shared.history != [] && !AlwaysCurrent(s, id)
  {
    InvHasHistory(s);
    var k :| k in s.tasks && MayLeaveOlder(s.shared, s.tasks[k].pc);
    var path, labels := GetIsBehind(s, id, k);
    OlderHasOtherFingerprint(s.shared, path[|path| - 1].tasks[id].pc.entry.version);
    hide Inv, IsQuietGet, Distinct, Risky;
    assert IsQuietGet(s, id, path, labels) && Answers(path[|path| - 1], id);
  }

  /** Over every run, when no two configurations share a fingerprint: a `get` during which nothing is written
      answers with the current configuration on every continuation, if and only if it does not start while
      nothing is cached and some task may still leave an older body behind. */
  lemma QuietGetIsCurrentExactly(run: seq<System>, labels: seq<Label>, id: nat)
    requires IsRun(run, labels) && Distinct(run[|run| - 1].shared.history) && id !in run[|run| - 1].tasks
    ensures run[|run| - 1].shared.history != []
    ensures AlwaysCurrent(run[|run| - 1], id) <==> !Risky(run[|run| - 1])
  {
    var s := run[|run| - 1];
    RunKeepsInv(run, labels, |run| - 1);
    RunStaysFresh(run, labels, |run| - 1);
    hide Inv, Fresh, Distinct, Risky, AlwaysCurrent, IsRun;
    if Risky(s) {
      RiskedGetMayBeBehind(s, id);
    } else {
      UnriskedGetIsCurrent(s, id);
    }
  }

  /** The risk is real: a reload's refresh that a write overtakes may leave the older body to a `get` that starts
      behind the write. */
  lemma ColdGetMayBeBehind(older: Config, newer: Config)
    returns (run: seq<System>, labels: seq<Label>, path: seq<System>, get: seq<Label>)
    requires older.fingerprint != newer.fingerprint
    ensures IsRun(run, labels) && run[|run| - 1].shared.history == [older, newer] && Risky(run[|run| - 1])
    ensures IsQuietGet(run[|run| - 1], 1, path, get) && Answers(path[|path| - 1], 1)
    ensures path[|path| - 1].tasks[1].pc.entry.source == older
  {
    run, labels := OvertakenRefresh(older, newer);
    var s := run[|run| - 1];
    assert 0 in s.tasks && MayLeaveOlder(s.shared, s.tasks[0].pc);
    RunKeepsInv(run, labels, |run| - 1);
    hide IsRun, Inv, IsQuietGet;
    path, get := GetIsBehind(s, 1, 0);
  }

  // ---- nothing gets stuck ----

  /** How many moves a task can still make. */
  function Rank(pc: Pc): nat {
    match pc
    case GetStart => 16
    case FirstLook(_) => 15
    case Classify(_) => 14
    case Serve => 1
    case ColdWait => 11
    case ColdCheck => 10
    case StaleStart(_) => 13
    case StaleLook(_, _) => 12
    case StaleWait(_, _) => 11
    case StaleRecheck(_, _) => 10
    case LastLook => 1
    case BackgroundStart => 10
    case Snapshot(run) => if run.force then 5 else 9
    case Guard(run, _, _) => if run.force then 4 else 8
    case Store(run, _, _) => if run.force then 3 else 7
    case Refreshed(run) => if run.force then 2 else 6
    case Answered(_, _) => 0
    case Finished => 0
  }

  /** The same for all tasks together. */
  ghost function Total(tasks: map<nat, Task>): nat
    decreases |tasks|
  {
    if tasks == map[] then 0
    else
      var k :| k in tasks;
      Rank(tasks[k].pc) + Total(tasks - {k})
  }

  lemma {:induction false} TotalWithout(tasks: map<nat, Task>, k: nat)
    requires k in tasks
    ensures Total(tasks) == Rank(tasks[k].pc) + Total(tasks - {k})
    decreases |tasks|
  {
    hide Rank;
    var j :| j in tasks && Total(tasks) == Rank(tasks[j].pc) + Total(tasks - {j});
    if j != k {
      TotalWithout(tasks - {j}, k);
      TotalWithout(tasks - {k}, j);
      assert tasks - {j} - {k} == tasks - {k} - {j};
    }
  }

  lemma TotalWith(tasks: map<nat, Task>, k: nat, t: Task)
    ensures Total(tasks[k := t]) == Rank(t.pc) + Total(tasks - {k})
  {
    TotalWithout(tasks[k := t], k);
    assert tasks[k := t] - {k} == tasks - {k};
  }

  predicate Lowers(e: Effect, t: Task) {
    Rank(e.task.pc) + (if e.spawns then Rank(BackgroundStart) else 0) < Rank(t.pc)
  }

  lemma GetMoveLowersRank(s: Shared, id: nat, t: Task, timely: bool)
    requires s.history != [] && GetMove(s, id, t, timely).Some?
    ensures Lowers(GetMove(s, id, t, timely).value, t)
  {
  }

  lemma StaleMoveLowersRank(s: Shared, id: nat, t: Task, timely: bool)
    requires s.history != [] && StaleMove(s, id, t, timely).Some?
    ensures Lowers(StaleMove(s, id, t, timely).value, t)
  {
  }

  lemma RefreshMoveLowersRank(s: Shared, id: nat, t: Task, timely: bool)
    requires s.history != [] && TaskOk(s, id, t) && RefreshMove(s, t, timely).Some?
    ensures Lowers(RefreshMove(s, t, timely).value, t)
  {
    hide SnapshotIsRecent, AnswerIsBuilt;
  }

  /** A task's own moves bring it closer to its end, the refresh it may spawn included. */
  lemma MoveLowersRank(s: Shared, id: nat, t: Task, timely: bool)
    requires s.history != [] && TaskOk(s, id, t) && Moved(s, id, t, timely).Some?
    ensures Lowers(Moved(s, id, t, timely).value, t)
  {
    hide GetMove, StaleMove, RefreshMove, TaskOk, Lowers;
    if InRefresh(t.pc) {
      RefreshMoveLowersRank(s, id, t, timely);
    } else if InStale(t.pc) || t.pc.BackgroundStart? {
      StaleMoveLowersRank(s, id, t, timely);
    } else {
      GetMoveLowersRank(s, id, t, timely);
    }
  }

  lemma DropLowersTotal(s: System, id: nat)
    requires Inv(s) && Next(s, Drop(id)).Some?
    ensures Total(Next(s, Drop(id)).value.tasks) < Total(s.tasks)
  {
    var t := s.tasks[id];
    var e := Dropped(s.shared, id, t).value;
    assert Rank(e.task.pc) < Rank(t.pc);
    hide Dropped, Rank, Inv, Total;
    TotalWithout(s.tasks, id);
    TotalWith(s.tasks, id, e.task);
  }

  lemma StepLowersTotal(s: System, id: nat, timely: bool, helper: nat)
    requires Inv(s) && Next(s, Move(id, timely, helper)).Some?
    ensures Total(Next(s, Move(id, timely, helper)).value.tasks) < Total(s.tasks)
  {
    var t := s.tasks[id];
    assert TaskOk(s.shared, id, t);
    var e := Moved(s.shared, id, t, timely).value;
    MoveLowersRank(s.shared, id, t, timely);
    hide Moved, Rank, TaskOk, Inv, Total;
    TotalWithout(s.tasks, id);
    TotalWith(s.tasks, id, e.task);
    var moved := s.tasks[id := e.task];
    TotalWith(moved, helper, NewTask(e.shared, BackgroundStart));
    assert moved - {helper} == moved;
  }

  /** Tasks move or are dropped, and nothing new comes. */
  predicate OnlyMoves(labels: seq<Label>) {
    forall i | 0 <= i < |labels| :: labels[i].Move? || labels[i].Drop?
  }

  /** From every reachable state, every way to move and drop the tasks ends: there are at most as many steps as the
      tasks have left. */
  lemma {:induction false} MovesAreBounded(path: seq<System>, labels: seq<Label>)
    requires IsPath(path, labels) && Inv(path[0])
    requires OnlyMoves(labels)
    ensures |labels| + Total(path[|path| - 1].tasks) <= Total(path[0].tasks)
  {
    if labels != [] {
      var n := |labels| - 1;
      var before, l := path[..n + 1], labels[n];
      assert IsPath(before, labels[..n]) by {
        forall i | 0 <= i < n
          ensures before[i].shared.history != [] && Next(before[i], labels[..n][i]) == Some(before[i + 1])
        {
          assert labels[..n][i] == labels[i];
        }
      }
      PathKeepsInv(path, labels, n);
      MovesAreBounded(before, labels[..n]);
      hide Inv, Total, Next;
      if l.Move? {
        StepLowersTotal(path[n], l.id, l.timely, l.helper);
      } else {
        DropLowersTotal(path[n], l.id);
      }
    }
  }

  predicate Ended(pc: Pc) {
    pc.Answered? || pc.Finished?
  }

  /** Over every run: a task that waits for the lock waits for a task that can move. */
  lemma HolderCanMove(run: seq<System>, labels: seq<Label>, i: nat, id: nat, timely: bool, helper: nat)
    requires IsRun(run, labels) && i < |run| && helper !in run[i].tasks
    requires id in run[i].tasks && (run[i].tasks[id].pc.ColdWait? || run[i].tasks[id].pc.StaleWait?)
    requires run[i].shared.lock.Some?
    ensures var s, holder := run[i], run[i].shared.lock.value;
      holder in s.tasks && holder != id && s.shared.history != [] &&
      Next(s, Move(holder, timely, helper)).Some?
  {
    RunKeepsInv(run, labels, i);
    var s, holder := run[i], run[i].shared.lock.value;
    assert TaskOk(s.shared, holder, s.tasks[holder]) && TaskOk(s.shared, id, s.tasks[id]);
    OnlyTheLockBlocks(run, labels, i, holder, timely, helper);
    hide Inv, IsRun, Next;
  }

  /** Over every run: no deadlock.  While some task has not ended, some task can move, and after finitely many
      steps none is left. */
  lemma NeverStuck(run: seq<System>, labels: seq<Label>, timely: bool, helper: nat)
    requires IsRun(run, labels) && helper !in run[|run| - 1].tasks
    ensures var s := run[|run| - 1];
      s.shared.history != [] &&
      ((exists id :: id in s.tasks && Next(s, Move(id, timely, helper)).Some?) <==>
       (exists id :: id in s.tasks && !Ended(s.tasks[id].pc)))
    ensures var s := run[|run| - 1];
      forall path: seq<System>, moves: seq<Label> | IsPath(path, moves) && path[0] == s && OnlyMoves(moves) ::
        |moves| <= Total(s.tasks)
  {
    var n, s := |run| - 1, run[|run| - 1];
    RunKeepsInv(run, labels, n);
    forall path: seq<System>, moves: seq<Label> | IsPath(path, moves) && path[0] == s && OnlyMoves(moves)
      ensures |moves| <= Total(s.tasks)
    {
      MovesAreBounded(path, moves);
    }
    InvHasHistory(s);
    hide Inv, IsPath, Total;
    forall id | id in s.tasks
      ensures Next(s, Move(id, timely, helper)).Some? ==> !Ended(s.tasks[id].pc)
      ensures !Ended(s.tasks[id].pc) ==> exists j :: j in s.tasks && Next(s, Move(j, timely, helper)).Some?
    {
      OnlyTheLockBlocks(run, labels, n, id, timely, helper);
      hide Next;
      if (s.tasks[id].pc.ColdWait? || s.tasks[id].pc.StaleWait?) && s.shared.lock.Some? {
        HolderCanMove(run, labels, n, id, timely, helper);
      }
    }
    hide Next;
  }
}
