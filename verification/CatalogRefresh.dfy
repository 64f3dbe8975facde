/** Revalidation: an entry that is stale by time alone is served, and replaced behind the answer. */
module CatalogRefresh {
  import opened Wrappers
  import opened CatalogCache
  import opened CatalogExact

  /** A background refresh is spawned by a move exactly when the move's `get` is to be served the entry it met, which has
      the fingerprint the `get` read and has gone stale by time. */
  lemma StaleGetSpawnsRefresh(s: System, id: nat, timely: bool, helper: nat)
    requires Inv(s) && Next(s, Move(id, timely, helper)).Some?
    ensures var s' := Next(s, Move(id, timely, helper)).value;
      var pc := s.tasks[id].pc;
      (helper in s'.tasks <==> s'.tasks[id].pc == Serve) &&
      (s'.tasks[id].pc == Serve <==>
        pc.Classify? && s.shared.inner.Some? && s.shared.inner.value.fingerprint == pc.fingerprint) &&
      (helper in s'.tasks ==> s'.tasks[helper].pc == BackgroundStart && s'.tasks[helper].refreshes == 0)
  {
    assert TaskOk(s.shared, id, s.tasks[id]);
  }

  /** The entry is what a refresh for this fingerprint is to bring about: it carries it, and is timely. */
  predicate IsFresh(s: Shared, fingerprint: int, timely: bool) {
    match s.inner
    case Some(entry) => entry.fingerprint == fingerprint && timely
    case None => false
  }

  /** A fresh entry needs nothing: a `get` that finds it answers with it at once, a refresh for its fingerprint that finds
      it is over, with the lock given back, and neither spawns anything. */
  lemma FreshEntryNeedsNothing(s: System, id: nat, timely: bool, helper: nat, fingerprint: int)
    requires Inv(s) && Next(s, Move(id, timely, helper)).Some? && IsFresh(s.shared, fingerprint, timely)
    ensures var pc, s' := s.tasks[id].pc, Next(s, Move(id, timely, helper)).value;
      (pc == FirstLook(fingerprint) ==>
        s'.tasks[id].pc == Answered(s.shared.inner.value, |s.shared.history|) && s'.shared == s.shared && helper !in s'.tasks) &&
      (pc == StaleLook(fingerprint, Applier) || pc == StaleRecheck(fingerprint, Applier) ==>
        s'.tasks[id].pc == Finished && s'.shared.lock != Some(id) && helper !in s'.tasks) &&
      (pc == StaleLook(fingerprint, ForGet) || pc == StaleRecheck(fingerprint, ForGet) ==>
        s'.tasks[id].pc == LastLook && s'.shared.lock != Some(id) && helper !in s'.tasks)
  {
    assert TaskOk(s.shared, id, s.tasks[id]);
  }

  /** A refresh begins only when it is needed: a cold one with nothing cached, a waiting one while the entry is not fresh,
      so that whoever waited for another's refresh does not repeat it, and a background one under a free lock.  It skips
      the fingerprint guard exactly when it is the caller's second. */
  lemma RefreshesOnlyWhenNeeded(s: System, id: nat, timely: bool, helper: nat)
    requires Inv(s) && Next(s, Move(id, timely, helper)).Some?
    ensures var t, t' := s.tasks[id], Next(s, Move(id, timely, helper)).value.tasks[id];
      t'.refreshes != t.refreshes ==>
        t'.refreshes == t.refreshes + 1 && t'.pc.Snapshot? && (t'.pc.run.force <==> t'.refreshes == 2) &&
        match t'.pc.run.purpose
        case Cold => s.shared.inner.None?
        case Stale(fingerprint, _) => !IsFresh(s.shared, fingerprint, timely)
        case Background => s.shared.lock.None?
  {
    assert TaskOk(s.shared, id, s.tasks[id]);
    var t := s.tasks[id];
    var e := Moved(s.shared, id, t, timely).value;
    EffectNeeded(s.shared, id, t, timely);
    hide Moved, TaskOk;
  }

  lemma EffectNeeded(s: Shared, id: nat, t: Task, timely: bool)
    requires s.history != [] && TaskOk(s, id, t) && Moved(s, id, t, timely).Some?
    ensures var t' := Moved(s, id, t, timely).value.task;
      t'.refreshes != t.refreshes ==>
        t'.refreshes == t.refreshes + 1 && t'.pc.Snapshot? && (t'.pc.run.force <==> t'.refreshes == 2) &&
        match t'.pc.run.purpose
        case Cold => s.inner.None?
        case Stale(fingerprint, _) => !IsFresh(s, fingerprint, timely)
        case Background => s.lock.None?
  {
  }

  /** `s` is `start` but for the `get`, its helper, the entry and the lock. */
  ghost predicate Stands(s: System, start: System, id: nat, get: Pc, helper: nat, help: Option<Pc>, inner: Option<Entry>,
                         lock: Option<nat>) {
    && s.shared == Shared(start.shared.history, inner, lock)
    && id != helper && id in s.tasks && s.tasks[id].pc == get
    && (if help.Some? then helper in s.tasks && s.tasks[helper].pc == help.value else helper !in s.tasks)
    && forall k | k in s.tasks :: k == id || k == helper || k in start.tasks
  }

  /** A move of the `get`. */
  lemma GetMoves(s: System, start: System, id: nat, get: Pc, helper: nat, help: Option<Pc>, inner: Option<Entry>,
                 lock: Option<nat>, free: nat, next: Pc)
    requires Stands(s, start, id, get, helper, help, inner, lock) && free !in s.tasks && start.shared.history != []
    requires var e := Moved(s.shared, id, s.tasks[id], false);
      e.Some? && e.value.task.pc == next && e.value.shared == s.shared && (e.value.spawns ==> help.None? && free == helper)
    ensures var s' := Next(s, Move(id, false, free));
      s'.Some? &&
      Stands(s'.value, start, id, next, helper,
             if Moved(s.shared, id, s.tasks[id], false).value.spawns then Some(BackgroundStart) else help, inner, lock)
  {
    hide Moved;
  }

  /** A move of the helper. */
  lemma HelperMoves(s: System, start: System, id: nat, get: Pc, helper: nat, help: Pc, inner: Option<Entry>,
                    lock: Option<nat>, free: nat, next: Pc, inner': Option<Entry>, lock': Option<nat>)
    requires Stands(s, start, id, get, helper, Some(help), inner, lock) && free !in s.tasks && start.shared.history != []
    requires var e := Moved(s.shared, helper, s.tasks[helper], false);
      e.Some? && e.value.task.pc == next && e.value.shared == Shared(start.shared.history, inner', lock') && !e.value.spawns
    ensures var s' := Next(s, Move(helper, false, free));
      s'.Some? && Stands(s'.value, start, id, get, helper, Some(next), inner', lock')
  {
    hide Moved;
  }

  /** Where the `get` stands after a move, and after the next three. */
  predicate Follows(start: System, pc: Pc, next: Pc)
    requires start.shared.history != [] && start.shared.inner.Some?
  {
    var fp := start.shared.Current().fingerprint;
    || (pc == GetStart && next == FirstLook(fp))
    || (pc == FirstLook(fp) && next == Classify(fp))
    || (pc == Classify(fp) && next == Serve)
    || (pc == Serve && next == Answered(start.shared.inner.value, |start.shared.history|))
  }

  ghost predicate MeetsStaleEntry(start: System) {
    && start.shared.history != [] && start.shared.inner.Some?
    && start.shared.inner.value.fingerprint == start.shared.Current().fingerprint
  }

  /** One more move of the `get` on a path. */
  lemma GetOn(path: seq<System>, labels: seq<Label>, start: System, id: nat, get: Pc, helper: nat, help: Option<Pc>,
              free: nat, next: Pc)
    returns (path': seq<System>, labels': seq<Label>)
    requires MeetsStaleEntry(start) && IsPath(path, labels)
    requires var s := path[|path| - 1];
      Stands(s, start, id, get, helper, help, start.shared.inner, start.shared.lock) && free !in s.tasks
    requires Follows(start, get, next) && (get.Classify? ==> help.None? && free == helper)
    ensures IsPath(path', labels') && path'[0] == path[0] && labels' == labels + [Move(id, false, free)]
    ensures Stands(path'[|path'| - 1], start, id, next, helper, if get.Classify? then Some(BackgroundStart) else help,
                   start.shared.inner, start.shared.lock)
  {
    var s := path[|path| - 1];
    hide IsPath, Next, Stands;
    StandsAt(s, start, id, get, helper, help, start.shared.inner, start.shared.lock);
    GetMoves(s, start, id, get, helper, help, start.shared.inner, start.shared.lock, free, next);
    path', labels' := PathOn(path, labels, Move(id, false, free));
  }

  lemma StandsAt(s: System, start: System, id: nat, get: Pc, helper: nat, help: Option<Pc>, inner: Option<Entry>,
                 lock: Option<nat>)
    requires Stands(s, start, id, get, helper, help, inner, lock)
    ensures s.shared == Shared(start.shared.history, inner, lock) && id in s.tasks && s.tasks[id].pc == get
    ensures if help.Some? then helper in s.tasks && s.tasks[helper].pc == help.value else helper !in s.tasks
    ensures forall free | free !in start.tasks && free != id && free != helper :: free !in s.tasks
  {
  }

  /** The four moves of a `get` that meets an entry with the current fingerprint, stale by time. */
  lemma GetIsServed(start: System, id: nat, helper: nat, free: nat) returns (path: seq<System>, labels: seq<Label>)
    requires MeetsStaleEntry(start) && id in start.tasks && start.tasks[id].pc == GetStart
    requires helper !in start.tasks && free !in start.tasks && helper != free
    ensures IsPath(path, labels) && path[0] == start
    ensures Stands(path[|path| - 1], start, id, Answered(start.shared.inner.value, |start.shared.history|), helper,
                   Some(BackgroundStart), start.shared.inner, start.shared.lock)
    ensures labels == [Move(id, false, helper), Move(id, false, helper), Move(id, false, helper), Move(id, false, free)]
  {
    var inner, lock, fp := start.shared.inner, start.shared.lock, start.shared.Current().fingerprint;
    path, labels := [start], [];
    assert Stands(start, start, id, GetStart, helper, None, inner, lock);
    assert Follows(start, GetStart, FirstLook(fp)) && Follows(start, FirstLook(fp), Classify(fp));
    assert Follows(start, Classify(fp), Serve) && Follows(start, Serve, Answered(inner.value, |start.shared.history|));
    hide *;
    hide Stands, MeetsStaleEntry;
    path, labels := GetOn(path, labels, start, id, GetStart, helper, None, helper, FirstLook(fp));
    StandsAt(path[|path| - 1], start, id, FirstLook(fp), helper, None, inner, lock);
    path, labels := GetOn(path, labels, start, id, FirstLook(fp), helper, None, helper, Classify(fp));
    StandsAt(path[|path| - 1], start, id, Classify(fp), helper, None, inner, lock);
    path, labels := GetOn(path, labels, start, id, Classify(fp), helper, None, helper, Serve);
    StandsAt(path[|path| - 1], start, id, Serve, helper, Some(BackgroundStart), inner, lock);
    path, labels := GetOn(path, labels, start, id, Serve, helper, Some(BackgroundStart), free,
                          Answered(inner.value, |start.shared.history|));
  }

  /** What a move of the helper makes of its place, of the entry, and of the lock. */
  predicate Refreshes(start: System, helper: nat, pc: Pc, inner: Option<Entry>, lock: Option<nat>, next: Pc,
                      inner': Option<Entry>, lock': Option<nat>)
    requires start.shared.history != []
  {
    var c, v := start.shared.Current(), |start.shared.history| - 1;
    var run := Refresh(Background, false);
    || (pc == BackgroundStart && lock.None? && next == Snapshot(run) && inner' == inner && lock' == Some(helper))
    || (pc == Snapshot(run) && next == Guard(run, c, v) && inner' == inner && lock' == lock)
    || (pc == Guard(run, c, v) && next == Store(run, c, v) && inner' == inner && lock' == lock)
    || (pc == Store(run, c, v) && next == Refreshed(run) && inner' == Some(Entry(c.fingerprint, c, v)) && lock' == lock)
    || (pc == Refreshed(run) && next == Finished && inner' == inner && lock'.None?)
  }

  /** One more move of the helper on a path. */
  lemma HelperOn(path: seq<System>, labels: seq<Label>, start: System, id: nat, get: Pc, helper: nat, help: Pc,
                 inner: Option<Entry>, lock: Option<nat>, free: nat, next: Pc, inner': Option<Entry>, lock': Option<nat>)
    returns (path': seq<System>, labels': seq<Label>)
    requires start.shared.history != [] && IsPath(path, labels) && free !in start.tasks && free != id && free != helper
    requires Stands(path[|path| - 1], start, id, get, helper, Some(help), inner, lock)
    requires Refreshes(start, helper, help, inner, lock, next, inner', lock')
    ensures IsPath(path', labels') && path'[0] == path[0] && labels' == labels + [Move(helper, false, free)]
    ensures Stands(path'[|path'| - 1], start, id, get, helper, Some(next), inner', lock')
  {
    var s := path[|path| - 1];
    hide IsPath, Next, Stands;
    StandsAt(s, start, id, get, helper, Some(help), inner, lock);
    HelperMoves(s, start, id, get, helper, help, inner, lock, free, next, inner', lock');
    path', labels' := PathOn(path, labels, Move(helper, false, free));
  }

  /** The five moves of the helper when the lock is free. */
  lemma HelperRefreshes(start: System, s: System, id: nat, get: Pc, helper: nat, free: nat)
    returns (path: seq<System>, labels: seq<Label>)
    requires start.shared.history != [] && free !in start.tasks && free != id && free != helper
    requires Stands(s, start, id, get, helper, Some(BackgroundStart), start.shared.inner, None)
    ensures IsPath(path, labels) && path[0] == s
    ensures var current := start.shared.Current();
      Stands(path[|path| - 1], start, id, get, helper, Some(Finished),
             Some(Entry(current.fingerprint, current, |start.shared.history| - 1)), None)
    ensures |labels| == 5 && forall l | l in labels :: l == Move(helper, false, free)
  {
    var inner, c, v := start.shared.inner, start.shared.Current(), |start.shared.history| - 1;
    var run := Refresh(Background, false);
    var entry, held := Some(Entry(c.fingerprint, c, v)), Some(helper);
    assert Refreshes(start, helper, BackgroundStart, inner, None, Snapshot(run), inner, held);
    assert Refreshes(start, helper, Snapshot(run), inner, held, Guard(run, c, v), inner, held);
    assert Refreshes(start, helper, Guard(run, c, v), inner, held, Store(run, c, v), inner, held);
    assert Refreshes(start, helper, Store(run, c, v), inner, held, Refreshed(run), entry, held);
    assert Refreshes(start, helper, Refreshed(run), entry, held, Finished, entry, None);
    path, labels := [s], [];
    hide *;
    hide Stands;
    path, labels := HelperOn(path, labels, start, id, get, helper, BackgroundStart, inner, None, free, Snapshot(run), inner, held);
    path, labels := HelperOn(path, labels, start, id, get, helper, Snapshot(run), inner, held, free, Guard(run, c, v), inner, held);
    path, labels := HelperOn(path, labels, start, id, get, helper, Guard(run, c, v), inner, held, free, Store(run, c, v), inner, held);
    path, labels := HelperOn(path, labels, start, id, get, helper, Store(run, c, v), inner, held, free, Refreshed(run), entry, held);
    path, labels := HelperOn(path, labels, start, id, get, helper, Refreshed(run), entry, held, free, Finished, entry, None);
  }

  /** An entry with the current fingerprint that has gone stale by time: the `get` answers with it at once, and the
      refresh that it spawned, run to its end, leaves the current configuration in the cache and the lock free. */
  lemma StaleEntryIsRevalidated(start: System, id: nat, helper: nat, free: nat)
    returns (path: seq<System>, labels: seq<Label>, path': seq<System>, labels': seq<Label>)
    requires start.shared.history != [] && start.shared.inner.Some? && start.shared.lock.None?
    requires start.shared.inner.value.fingerprint == start.shared.Current().fingerprint
    requires id in start.tasks && start.tasks[id].pc == GetStart
    requires helper !in start.tasks && free !in start.tasks && helper != free
    ensures IsPath(path, labels) && path[0] == start && IsPath(path', labels') && path'[0] == path[|path| - 1]
    ensures |labels| == 4 && forall l | l in labels :: l.Move? && l.id == id && !l.timely
    ensures |labels'| == 5 && forall l | l in labels' :: l.Move? && l.id == helper
    ensures var answered := path[|path| - 1];
      id in answered.tasks && answered.tasks[id].pc == Answered(start.shared.inner.value, |start.shared.history|)
    ensures var end, current := path'[|path'| - 1], start.shared.Current();
      end.shared.lock.None? && end.shared.history == start.shared.history &&
      end.shared.inner == Some(Entry(current.fingerprint, current, |start.shared.history| - 1))
  {
    path, labels := GetIsServed(start, id, helper, free);
    path', labels' := HelperRefreshes(start, path[|path| - 1], id, Answered(start.shared.inner.value, |start.shared.history|),
                                      helper, free);
    hide IsPath;
  }
}
