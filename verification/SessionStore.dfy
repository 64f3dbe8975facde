/** The in-memory conversation store: sliding expiry, a count cap and a byte budget, both enforced by
    evicting the least recently used session.  The clock readings of each call are its parameters. */
module SessionStore {
  import opened Wrappers
  import Text

  /** A stored conversation; each item stands as its serialized text. */
  datatype Entry = Entry(items: seq<string>, lastUsedAt: int, estimatedBytes: nat)

  type Sessions = map<string, Entry>

  /** The rough size of a conversation: the serialized lengths of its items. */
  function EstimatedBytes(items: seq<string>): nat {
    if items == [] then 0 else |items[0]| + EstimatedBytes(items[1..])
  }

  /** The size counts every character once. */
  lemma {:induction false} EstimatedBytesIsLength(items: seq<string>)
    ensures EstimatedBytes(items) == |Text.Concat(items)|
  {
    if items != [] {
      EstimatedBytesIsLength(items[1..]);
    }
  }

  function SaturatingSub(a: nat, b: nat): nat {
    if b <= a then a - b else 0
  }

  ghost function StoredBytes(m: Sessions): nat
    decreases |m|
  {
    if m == map[] then 0
    else
      var k :| k in m;
      m[k].estimatedBytes + StoredBytes(m - {k})
  }

  lemma {:induction false} StoredBytesWithout(m: Sessions, k: string)
    requires k in m
    ensures StoredBytes(m) == m[k].estimatedBytes + StoredBytes(m - {k})
    decreases |m|
  {
    var j :| j in m && StoredBytes(m) == m[j].estimatedBytes + StoredBytes(m - {j});
    if j != k {
      StoredBytesWithout(m - {j}, k);
      StoredBytesWithout(m - {k}, j);
      assert m - {j} - {k} == m - {k} - {j};
    }
  }

  lemma StoredBytesAdded(m: Sessions, k: string, e: Entry)
    ensures StoredBytes(m[k := e]) == StoredBytes(m - {k}) + e.estimatedBytes
  {
    StoredBytesWithout(m[k := e], k);
    assert m[k := e] - {k} == m - {k};
  }

  ghost predicate SubMap(a: Sessions, b: Sessions) {
    forall k | k in a :: k in b && a[k] == b[k]
  }

  ghost predicate IsOldest(m: Sessions, id: string) {
    id in m && forall k | k in m :: m[id].lastUsedAt <= m[k].lastUsedAt
  }

  lemma {:induction false} OldestExists(m: Sessions)
    requires m != map[]
    ensures exists id :: IsOldest(m, id)
    decreases |m|
  {
    var k :| k in m;
    var rest := m - {k};
    if rest == map[] {
      assert forall j | j in m :: j == k || j in rest;
      assert IsOldest(m, k);
    } else {
      OldestExists(rest);
      var id :| IsOldest(rest, id);
      assert forall j | j in m :: j == k || j in rest;
      assert IsOldest(m, if m[k].lastUsedAt <= m[id].lastUsedAt then k else id);
    }
  }

  // ---- what one operation does to the sessions ----

  ghost predicate Expired(e: Entry, cutoff: int) {
    e.lastUsedAt < cutoff
  }

  /** Exactly the sessions last used before `cutoff` are gone. */
  ghost predicate DropsExpired(before: Sessions, after: Sessions, cutoff: int) {
    SubMap(after, before) && forall k | k in before :: k in after <==> !Expired(before[k], cutoff)
  }

  /** Whatever was evicted is no more recently used than anything that survived. */
  ghost predicate EvictsOldest(before: Sessions, after: Sessions) {
    forall k, j | k in before && k !in after && j in after :: before[k].lastUsedAt <= after[j].lastUsedAt
  }

  /** Nothing is evicted needlessly: when a live session is, the cap is reached, or some evicted session
      would not fit into the budget any more. */
  ghost predicate EvictsOnlyIfNeeded(before: Sessions, after: Sessions, cutoff: int, maxSessions: nat, maxBytes: nat) {
    (exists k :: k in before && k !in after && !Expired(before[k], cutoff)) ==>
      || |after| == maxSessions
      || exists k :: k in before && k !in after && StoredBytes(after) + before[k].estimatedBytes > maxBytes
  }

  ghost predicate Enforced(before: Sessions, after: Sessions, cutoff: int, maxSessions: nat, maxBytes: nat) {
    && SubMap(after, before)
    && (forall k | k in after :: !Expired(after[k], cutoff))
    && EvictsOldest(before, after)
    && EvictsOnlyIfNeeded(before, after, cutoff, maxSessions, maxBytes)
    && |after| <= maxSessions && (|after| <= 1 || StoredBytes(after) <= maxBytes)
  }

  class SessionState {
    var sessions: Sessions
    var totalBytes: nat
    const ttl: nat
    const maxSessions: nat
    const maxMemoryBytes: nat

    ghost predicate Consistent()
      reads this
    {
      totalBytes == StoredBytes(sessions)
    }

    /** No stored session exceeds the whole budget. */
    ghost predicate Valid()
      reads this
    {
      Consistent() && EachFits(sessions, maxMemoryBytes)
    }

    constructor (ttlHours: nat, maxSessions: nat, maxMemoryMb: nat)
      ensures Valid() && sessions == map[] && totalBytes == 0
      ensures ttl == ttlHours * 3600 && this.maxSessions == maxSessions && maxMemoryBytes == maxMemoryMb * 1024 * 1024
    {
      sessions, totalBytes, ttl, this.maxSessions, maxMemoryBytes :=
        map[], 0, ttlHours * 3600, maxSessions, maxMemoryMb * 1024 * 1024;
    }

    /** The one way out of the store; subtraction saturates at zero. */
    method RemoveEntry(id: string)
      requires Consistent()
      modifies this
      ensures Consistent() && sessions == old(sessions) - {id}
    {
      if id in sessions {
        StoredBytesWithout(sessions, id);
        var entry := sessions[id];
        sessions := sessions - {id};
        totalBytes := SaturatingSub(totalBytes, entry.estimatedBytes);
      } else {
        assert sessions - {id} == sessions;
      }
    }

    method RemoveOldest()
      requires Consistent()
      modifies this
      ensures Consistent()
      ensures old(sessions) == map[] ==> sessions == map[]
      ensures old(sessions) != map[] ==> exists id :: IsOldest(old(sessions), id) && sessions == old(sessions) - {id}
    {
      if sessions != map[] {
        OldestExists(sessions);
        var id :| id in sessions && forall k | k in sessions :: sessions[id].lastUsedAt <= sessions[k].lastUsedAt;
        assert IsOldest(sessions, id);
        RemoveEntry(id);
      }
    }

    method RemoveExpired(now: int)
      requires Consistent()
      modifies this
      ensures Consistent() && DropsExpired(old(sessions), sessions, now - ttl)
    {
      var cutoff := now - ttl;
      var expired := set k | k in sessions && sessions[k].lastUsedAt < cutoff;
      ghost var before := sessions;
      while expired != {}
        invariant Consistent() && SubMap(sessions, before)
        invariant forall k | k in before :: k in sessions <==> !Expired(before[k], cutoff) || k in expired
        decreases expired
      {
        var id :| id in expired;
        RemoveEntry(id);
        expired := expired - {id};
      }
    }

    method EnforceLimits(now: int)
      requires Consistent()
      modifies this
      ensures Consistent() && Enforced(old(sessions), sessions, now - ttl, maxSessions, maxMemoryBytes)
    {
      ghost var before, cutoff := sessions, now - ttl;
      RemoveExpired(now);
      while |sessions| > maxSessions
        invariant Consistent() && SubMap(sessions, before) && EvictsOldest(before, sessions)
        invariant forall k | k in sessions :: !Expired(sessions[k], cutoff)
        invariant |sessions| >= maxSessions || forall k | k in before && k !in sessions :: Expired(before[k], cutoff)
        decreases |sessions|
      {
        ghost var was := sessions;
        RemoveOldest();
        RemovalShrinks(was, sessions);
        RemovalEvictsOldest(before, was, sessions);
      }
      ghost var byBytes := false;
      while totalBytes > maxMemoryBytes && |sessions| > 1
        invariant Consistent() && SubMap(sessions, before) && EvictsOldest(before, sessions)
        invariant forall k | k in sessions :: !Expired(sessions[k], cutoff)
        invariant |sessions| <= maxSessions
        invariant !byBytes ==> |sessions| == maxSessions || forall k | k in before && k !in sessions :: Expired(before[k], cutoff)
        invariant byBytes ==> exists k :: k in before && k !in sessions && StoredBytes(sessions) + before[k].estimatedBytes > maxMemoryBytes
        decreases |sessions|
      {
        ghost var was := sessions;
        RemoveOldest();
        RemovalShrinks(was, sessions);
        RemovalEvictsOldest(before, was, sessions);
        ghost var id :| IsOldest(was, id) && sessions == was - {id};
        StoredBytesWithout(was, id);
        byBytes := true;
      }
    }

    /** Store a conversation: unless it alone exceeds the budget, it replaces the entry of the same id and
        the limits are enforced. */
    method Save(id: string, items: seq<string>, inserted: int, checked: int)
      requires Valid()
      modifies this
      ensures Valid()
      ensures Saved(old(sessions), sessions, id, items, inserted, checked - ttl, maxSessions, maxMemoryBytes)
    {
      var estimatedBytes := EstimatedBytes(items);
      if estimatedBytes > maxMemoryBytes {
        return;
      }
      ghost var before := sessions;
      var entry := Entry(items, inserted, estimatedBytes);
      StoredBytesAdded(sessions, id, entry);
      if id in sessions {
        StoredBytesWithout(sessions, id);
        var replaced := sessions[id].estimatedBytes;
        totalBytes := SaturatingSub(totalBytes, replaced);
      } else {
        assert sessions - {id} == sessions;
      }
      sessions := sessions[id := entry];
      totalBytes := totalBytes + estimatedBytes;
      EnforceLimits(checked);
    }

    /** Look a conversation up; a hit renews its recency before expired sessions are pruned. */
    method Get(id: string, used: int, checked: int) returns (items: Option<seq<string>>)
      requires Valid()
      modifies this
      ensures Valid()
      ensures items == if id in old(sessions) then Some(old(sessions)[id].items) else None
      ensures Looked(old(sessions), sessions, id, used, checked - ttl)
    {
      if id in sessions {
        var entry := sessions[id];
        ghost var before := sessions;
        var renewed := entry.(lastUsedAt := used);
        StoredBytesWithout(sessions, id);
        StoredBytesAdded(sessions, id, renewed);
        sessions := sessions[id := renewed];
        items := Some(entry.items);
        RemoveExpired(checked);
      } else {
        items := None;
      }
    }

    method Cleanup(now: int)
      requires Valid()
      modifies this
      ensures Valid() && DropsExpired(old(sessions), sessions, now - ttl)
    {
      RemoveExpired(now);
    }
  }

  ghost predicate EachFits(m: Sessions, maxBytes: nat) {
    forall k | k in m :: m[k].estimatedBytes <= maxBytes
  }

  ghost predicate Saved(before: Sessions, after: Sessions, id: string, items: seq<string>, inserted: int, cutoff: int,
                        maxSessions: nat, maxBytes: nat)
  {
    var size := EstimatedBytes(items);
    if size > maxBytes then after == before
    else Enforced(before[id := Entry(items, inserted, size)], after, cutoff, maxSessions, maxBytes)
  }

  ghost predicate Looked(before: Sessions, after: Sessions, id: string, used: int, cutoff: int) {
    if id in before then DropsExpired(before[id := before[id].(lastUsedAt := used)], after, cutoff) else after == before
  }

  lemma RemovalShrinks(was: Sessions, after: Sessions)
    requires exists id :: IsOldest(was, id) && after == was - {id}
    ensures |after| == |was| - 1
  {
    var id :| IsOldest(was, id) && after == was - {id};
    assert after.Keys == was.Keys - {id};
  }

  lemma RemovalEvictsOldest(before: Sessions, was: Sessions, after: Sessions)
    requires SubMap(was, before) && EvictsOldest(before, was) && exists id :: IsOldest(was, id) && after == was - {id}
    ensures SubMap(after, before) && EvictsOldest(before, after)
  {
  }

  // ---- single saves ----

  lemma {:induction false} FewFit(m: Sessions, maxBytes: nat)
    requires EachFits(m, maxBytes) && |m| <= 1
    ensures StoredBytes(m) <= maxBytes
  {
    if m != map[] {
      var k :| k in m;
      StoredBytesWithout(m, k);
      assert (m - {k}).Keys == m.Keys - {k};
      assert |m - {k}| == 0;
    }
  }

  /** After a save that is not skipped, the store is within both caps. */
  lemma SaveStaysWithinLimits(before: Sessions, after: Sessions, id: string, items: seq<string>, inserted: int, cutoff: int,
                              maxSessions: nat, maxBytes: nat)
    requires EachFits(before, maxBytes) && Saved(before, after, id, items, inserted, cutoff, maxSessions, maxBytes)
    requires |before| <= maxSessions && StoredBytes(before) <= maxBytes
    ensures |after| <= maxSessions && StoredBytes(after) <= maxBytes && EachFits(after, maxBytes)
  {
    if |after| <= 1 && EstimatedBytes(items) <= maxBytes {
      FewFit(after, maxBytes);
    }
  }

  /** With a clock that moves on, but by no more than the ttl while the save runs, the saved session is
      there afterwards as long as the cap leaves room for one. */
  lemma SavedSurvives(before: Sessions, after: Sessions, id: string, items: seq<string>, inserted: int, cutoff: int,
                      maxSessions: nat, maxBytes: nat)
    requires Saved(before, after, id, items, inserted, cutoff, maxSessions, maxBytes)
    requires EstimatedBytes(items) <= maxBytes && maxSessions >= 1 && cutoff <= inserted
    requires EachFits(before, maxBytes) && forall k | k in before && k != id :: before[k].lastUsedAt < inserted
    ensures id in after && after[id] == Entry(items, inserted, EstimatedBytes(items))
  {
    var size := EstimatedBytes(items);
    var m := before[id := Entry(items, inserted, size)];
    assert forall j | j in after && j != id :: after[j].lastUsedAt < m[id].lastUsedAt;
    assert after == map[] ==> StoredBytes(after) == 0;
    assert after != map[] ==> exists j :: j in after;
    assert !Expired(m[id], cutoff);
  }

  // ---- whole runs ----

  datatype Op =
    | SaveOp(id: string, items: seq<string>, inserted: int, checked: int)
    | GetOp(id: string, used: int, checked: int)
    | CleanupOp(now: int)

  datatype Limits = Limits(ttl: nat, maxSessions: nat, maxBytes: nat)

  ghost predicate Step(l: Limits, before: Sessions, op: Op, after: Sessions) {
    match op
    case SaveOp(id, items, inserted, checked) => Saved(before, after, id, items, inserted, checked - l.ttl, l.maxSessions, l.maxBytes)
    case GetOp(id, used, checked) => Looked(before, after, id, used, checked - l.ttl)
    case CleanupOp(now) => DropsExpired(before, after, now - l.ttl)
  }

  /** `states[i + 1]` is what `ops[i]` may leave of `states[i]`; the store starts empty. */
  ghost predicate IsRun(l: Limits, ops: seq<Op>, states: seq<Sessions>) {
    && |states| == |ops| + 1 && states[0] == map[]
    && forall i | 0 <= i < |ops| :: Step(l, states[i], ops[i], states[i + 1])
  }

  /** The items of the last save under `id` that was not too large to keep. */
  function LastKept(maxBytes: nat, ops: seq<Op>, id: string): Option<seq<string>> {
    if ops == [] then None
    else
      var op := ops[|ops| - 1];
      if op.SaveOp? && op.id == id && EstimatedBytes(op.items) <= maxBytes then Some(op.items)
      else LastKept(maxBytes, ops[..|ops| - 1], id)
  }

  /** Everything stored is what was last kept under its id, at its true size. */
  ghost predicate Faithful(l: Limits, ops: seq<Op>, m: Sessions) {
    forall id | id in m :: LastKept(l.maxBytes, ops, id) == Some(m[id].items) && m[id].estimatedBytes == EstimatedBytes(m[id].items)
  }

  lemma LimitsAfterStep(l: Limits, before: Sessions, op: Op, after: Sessions)
    requires Step(l, before, op, after) && EachFits(before, l.maxBytes)
    requires |before| <= l.maxSessions && StoredBytes(before) <= l.maxBytes
    ensures |after| <= l.maxSessions && StoredBytes(after) <= l.maxBytes && EachFits(after, l.maxBytes)
  {
    match op
    case SaveOp(id, items, inserted, checked) =>
      SaveStaysWithinLimits(before, after, id, items, inserted, checked - l.ttl, l.maxSessions, l.maxBytes);
    case GetOp(id, used, checked) =>
      if id in before {
        var m := before[id := before[id].(lastUsedAt := used)];
        StoredBytesAdded(before, id, m[id]);
        StoredBytesWithout(before, id);
        assert m.Keys == before.Keys;
        SubMapIsSmaller(after, m);
      }
    case CleanupOp(now) =>
      SubMapIsSmaller(after, before);
  }

  lemma {:induction false} SubMapIsSmaller(a: Sessions, b: Sessions)
    requires SubMap(a, b)
    ensures |a| <= |b| && StoredBytes(a) <= StoredBytes(b)
    decreases |b|
  {
    if a != map[] {
      var k :| k in a;
      StoredBytesWithout(a, k);
      StoredBytesWithout(b, k);
      assert (a - {k}).Keys == a.Keys - {k} && (b - {k}).Keys == b.Keys - {k};
      SubMapIsSmaller(a - {k}, b - {k});
    }
  }

  lemma FaithfulAfterStep(l: Limits, ops: seq<Op>, before: Sessions, op: Op, after: Sessions)
    requires Step(l, before, op, after) && Faithful(l, ops, before)
    ensures Faithful(l, ops + [op], after)
  {
    assert (ops + [op])[..|ops|] == ops;
    forall id | id in after
      ensures LastKept(l.maxBytes, ops + [op], id) == Some(after[id].items) && after[id].estimatedBytes == EstimatedBytes(after[id].items)
    {
    }
  }

  /** Over every run of saves, lookups and cleanups the caps hold throughout, and whatever is found under an
      id is exactly what was last kept under it: no stale and no foreign conversation is ever replayed. */
  lemma {:induction false} RunsStayFaithful(l: Limits, ops: seq<Op>, states: seq<Sessions>)
    requires IsRun(l, ops, states)
    ensures var m := states[|ops|];
            && |m| <= l.maxSessions && StoredBytes(m) <= l.maxBytes && EachFits(m, l.maxBytes)
            && Faithful(l, ops, m)
    decreases |ops|
  {
    var n := |ops| - 1;
    if ops != [] {
      RunsStayFaithful(l, ops[..n], states[..n + 1]);
      assert Step(l, states[n], ops[n], states[n + 1]);
      LimitsAfterStep(l, states[n], ops[n], states[n + 1]);
      FaithfulAfterStep(l, ops[..n], states[n], ops[n], states[n + 1]);
      assert ops[..n] + [ops[n]] == ops;
    }
  }
}
