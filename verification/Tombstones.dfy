/** Recorded prompt cancellations: a store bounded in size and age, against the log of all calls. */
module Tombstones {
  import opened Wrappers
  import opened Prompts
  import opened BoundaryTypes

  const TTL: real := 7200.0
  const MAX_TOMBSTONES := 4096

  /** One call, with the clock reading it made. Threads may take the lock in another order than they read the clock. */
  datatype Event = Recorded(id: string, now: real) | Consumed(id: string, now: real) | Asked(id: string, now: real)

  /** The unbounded log's view: when each id was last recorded, if not consumed since. */
  function Ideal(log: seq<Event>): map<string, real> {
    if log == [] then map[] else IdealAfter(Ideal(log[..|log| - 1]), log[|log| - 1])
  }

  function IdealAfter(before: map<string, real>, e: Event): map<string, real> {
    match e
    case Recorded(id, now) => before[id := now]
    case Consumed(id, _) => before - {id}
    case Asked(_, _) => before
  }

  ghost predicate Expired(log: seq<Event>, at: real) {
    exists k :: 0 <= k < |log| && at < log[k].now - TTL
  }

  ghost predicate RecordedSince(log: seq<Event>, id: string, at: real) {
    exists k :: 0 <= k < |log| && log[k].Recorded? && log[k].id == id && log[k].now >= at
  }

  /** Call j recorded the id, and no later call recorded or consumed it. */
  ghost predicate LastRecord(log: seq<Event>, id: string, at: real, j: nat) {
    && j < |log| && log[j] == Recorded(id, at)
    && forall i :: j < i < |log| && log[i].id == id ==> log[i].Asked?
  }

  /** The log has a record of the id from `at` or later that is not too old at `now`. */
  ghost predicate LiveSince(log: seq<Event>, id: string, at: real, now: real) {
    id in Ideal(log) && Ideal(log)[id] >= at && Ideal(log)[id] >= now - TTL
  }

  /** When `e` records its id, the others that are live and no older than `at` fill the store together with `id`. */
  ghost predicate FullOf(log: seq<Event>, id: string, at: real, e: Event, others: set<string>) {
    && id !in others && e.id !in others && |others| == MAX_TOMBSTONES - 1
    && forall o <- others :: LiveSince(log, o, at, e.now)
  }

  /** Call k recorded another id while the store was full without it, and no record was older than `at`. */
  ghost predicate CrowdedAt(log: seq<Event>, id: string, at: real, k: nat, others: set<string>) {
    && k < |log| && log[k].Recorded? && log[k].id != id
    && (exists j: nat :: j < k && LastRecord(log, id, at, j))
    && FullOf(log[..k], id, at, log[k], others)
  }

  ghost predicate CrowdedOut(log: seq<Event>, id: string, at: real) {
    exists k: nat, others :: CrowdedAt(log, id, at, k, others)
  }

  class Store {
    var tombstones: map<string, real>
    ghost var log: seq<Event>

    /** The store holds the ideal log, less what is too old or was crowded out: exactly so, if the clock rises. */
    ghost predicate Valid()
      reads this
    {
      && |tombstones| <= MAX_TOMBSTONES
      && Refines(tombstones, log) && Exact(tombstones, log)
    }

    constructor ()
      ensures Valid() && tombstones == map[] && log == []
    {
      tombstones, log := map[], [];
    }

    /** Drops the records older than the time to live. */
    method Prune(now: real)
      modifies this`tombstones
      ensures tombstones == Fresh(old(tombstones), now)
    {
      var was := tombstones;
      var expired := ExpiredIds(was, now);
      for i := 0 to |expired|
        invariant tombstones == was - (set id | id in expired[..i])
      {
        tombstones := tombstones - {expired[i]};
        assert expired[..i + 1] == expired[..i] + [expired[i]];
      }
      assert expired[..|expired|] == expired;
    }

    method Oldest() returns (oldest: string)
      requires tombstones != map[]
      ensures oldest in tombstones && forall id <- tombstones :: tombstones[oldest] <= tombstones[id]
    {
      var ids := Enumerate(tombstones.Keys);
      assert ids != [] by { var id :| id in tombstones; assert id in ids; }
      oldest := ids[0];
      assert ids[0] in ids;
      for i := 1 to |ids|
        invariant oldest in tombstones && forall k :: 0 <= k < i ==>
                                            ids[k] in tombstones && tombstones[oldest] <= tombstones[ids[k]]
      {
        assert ids[i] in ids;
        if tombstones[ids[i]] < tombstones[oldest] { oldest := ids[i]; }
      }
      forall id <- tombstones ensures tombstones[oldest] <= tombstones[id] { assert id in ids; }
    }

    method Record(promptId: string, now: real) returns (r: Result<string, string>)
      requires Valid()
      modifies this
      ensures Valid()
      ensures Strip(promptId) == "" ==> r.Failure? && tombstones == old(tombstones) && log == old(log)
      ensures Strip(promptId) != "" ==>
                && r == Success(Strip(promptId)) && log == old(log) + [Recorded(r.value, now)]
                && r.value in tombstones && tombstones[r.value] == now
    {
      var id := Strip(promptId);
      if id == "" { return Failure("prompt_id is required."); }
      Prune(now);
      ghost var kept := tombstones;
      PrunedRefines(old(tombstones), old(log), now);
      PrunedExact(old(tombstones), old(log), Recorded(id, now));
      hide Refines, Exact, Pending, Pruned;
      if id !in tombstones && |tombstones| >= MAX_TOMBSTONES {
        var oldest := Oldest();
        tombstones := tombstones - {oldest};
        EvictedRefines(kept, old(log), oldest, id, now);
        EvictedExact(kept, old(log), oldest, id, now);
      } else {
        RecordRefines(kept, old(log), id, now);
        RecordExact(kept, old(log), id, now);
      }
      tombstones := tombstones[id := now];
      log := log + [Recorded(id, now)];
      r := Success(id);
    }

    method Consume(promptId: string, now: real) returns (r: Result<bool, string>)
      requires Valid()
      modifies this
      ensures Valid()
      ensures Strip(promptId) == "" ==> r.Failure? && tombstones == old(tombstones) && log == old(log)
      ensures Strip(promptId) != "" ==>
                && r.Success? && log == old(log) + [Consumed(Strip(promptId), now)]
                && Found(old(log), log, Strip(promptId), now, r.value)
                && Strip(promptId) !in tombstones
    {
      var id := Strip(promptId);
      if id == "" { return Failure("prompt_id is required."); }
      Prune(now);
      PrunedRefines(old(tombstones), old(log), now);
      PrunedExact(old(tombstones), old(log), Consumed(id, now));
      log := log + [Consumed(id, now)];
      FoundExactly(tombstones, old(log), log, id, now);
      DroppedRefines(tombstones, old(log), id, now);
      DroppedExact(tombstones, old(log), id, now);
      r := Success(id in tombstones);
      tombstones := tombstones - {id};
    }

    method IsRecorded(promptId: string, now: real) returns (r: Result<bool, string>)
      requires Valid()
      modifies this
      ensures Valid()
      ensures Strip(promptId) == "" ==> r.Failure? && tombstones == old(tombstones) && log == old(log)
      ensures Strip(promptId) != "" ==>
                && r.Success? && log == old(log) + [Asked(Strip(promptId), now)]
                && Found(old(log), log, Strip(promptId), now, r.value)
                && tombstones == Fresh(old(tombstones), now)
    {
      var id := Strip(promptId);
      if id == "" { return Failure("prompt_id is required."); }
      Prune(now);
      PrunedRefines(old(tombstones), old(log), now);
      PrunedExact(old(tombstones), old(log), Asked(id, now));
      log := log + [Asked(id, now)];
      FoundExactly(tombstones, old(log), log, id, now);
      AskedRefines(tombstones, old(log), id, now);
      AskedExact(tombstones, old(log), id, now);
      r := Success(id in tombstones);
    }
  }

  method ExpiredIds(m: map<string, real>, now: real) returns (expired: seq<string>)
    ensures forall id :: id in expired <==> id in m && m[id] < now - TTL
  {
    expired := [];
    var ids := Enumerate(m.Keys);
    for i := 0 to |ids|
      invariant forall id :: id in expired <==> id in ids[..i] && id in m && m[id] < now - TTL
    {
      assert ids[i] in ids && ids[..i + 1] == ids[..i] + [ids[i]];
      if m[ids[i]] < now - TTL { expired := expired + [ids[i]]; }
    }
    assert ids[..|ids|] == ids;
  }

  function Fresh(m: map<string, real>, now: real): map<string, real> {
    map id | id in m && m[id] >= now - TTL :: m[id]
  }

  ghost predicate Refines(m: map<string, real>, log: seq<Event>) {
    && (forall id <- m :: id in Ideal(log) && m[id] == Ideal(log)[id])
    && forall id <- Ideal(log) :: id in m || Expired(log, Ideal(log)[id]) || CrowdedOut(log, id, Ideal(log)[id])
  }

  /** The answer to a call: exactly the records that are neither too old nor crowded out are found. */
  ghost predicate Found(before: seq<Event>, log: seq<Event>, id: string, now: real, found: bool) {
    && (found ==> id in Ideal(before) && Ideal(before)[id] >= now - TTL)
    && (!found ==> id in Ideal(before) ==> Expired(log, Ideal(before)[id]) || CrowdedOut(before, id, Ideal(before)[id]))
    && (Rises(log) && found ==> !CrowdedOut(before, id, Ideal(before)[id]))
  }

  /** Every call is logged with a later clock reading than those before. */
  ghost predicate Rises(log: seq<Event>) {
    forall i, j :: 0 <= i < j < |log| ==> log[i].now < log[j].now
  }

  /** Nothing in the store was crowded out. */
  ghost predicate NoneCrowded(m: map<string, real>, log: seq<Event>) {
    forall id <- m :: !CrowdedOut(log, id, m[id])
  }

  /** Nothing in the store is older than a live record that is missing from it. */
  ghost predicate OldestGone(m: map<string, real>, log: seq<Event>, now: real) {
    forall o, id :: o in Ideal(log) && o !in m && Ideal(log)[o] >= now - TTL && id in m ==> Ideal(log)[o] <= m[id]
  }

  ghost predicate Exact(m: map<string, real>, log: seq<Event>) {
    Rises(log) ==> NoneCrowded(m, log) && (log != [] ==> OldestGone(m, log, log[|log| - 1].now))
  }

  // ---- the log grows by one call ----

  lemma IdealGrows(log: seq<Event>, e: Event)
    ensures Ideal(log + [e]) == IdealAfter(Ideal(log), e)
  {
    assert (log + [e])[..|log|] == log;
  }

  lemma {:induction false} IdealRecorded(log: seq<Event>, id: string) returns (j: nat)
    requires id in Ideal(log)
    ensures LastRecord(log, id, Ideal(log)[id], j)
    decreases |log|
  {
    var last := |log| - 1;
    if log[last].Recorded? && log[last].id == id {
      j := last;
    } else {
      j := IdealRecorded(log[..last], id);
    }
  }

  lemma ExcusesLast(log: seq<Event>, e: Event, id: string, at: real)
    requires e.id == id ==> e.Asked?
    ensures Expired(log, at) ==> Expired(log + [e], at)
    ensures CrowdedOut(log, id, at) ==> CrowdedOut(log + [e], id, at)
    ensures at < e.now - TTL ==> Expired(log + [e], at)
  {
    var longer := log + [e];
    if Expired(log, at) {
      var k :| 0 <= k < |log| && at < log[k].now - TTL;
      assert longer[k] == log[k];
    }
    if at < e.now - TTL { assert longer[|log|].now == e.now; }
    if CrowdedOut(log, id, at) {
      var k: nat, others :| CrowdedAt(log, id, at, k, others);
      var j: nat :| j < k && LastRecord(log, id, at, j);
      assert LastRecord(longer, id, at, j);
      assert longer[..k] == log[..k];
      assert CrowdedAt(longer, id, at, k, others);
    }
  }

  /** The store right after pruning for a call that is not logged yet. */
  ghost predicate Pending(m: map<string, real>, log: seq<Event>, now: real) {
    && (forall id <- m :: id in Ideal(log) && m[id] == Ideal(log)[id] && m[id] >= now - TTL)
    && forall id <- Ideal(log) ::
         id in m || Ideal(log)[id] < now - TTL || Expired(log, Ideal(log)[id]) || CrowdedOut(log, id, Ideal(log)[id])
  }

  lemma PrunedRefines(m: map<string, real>, log: seq<Event>, now: real)
    requires Refines(m, log)
    ensures Pending(Fresh(m, now), log, now) && |Fresh(m, now)| <= |m|
  {
    hide Expired, CrowdedOut, Ideal;
    SubmapSize(Fresh(m, now), m);
  }

  lemma SubmapSize(few: map<string, real>, many: map<string, real>)
    requires few.Keys <= many.Keys
    ensures |few| <= |many|
  {
    SubsetSize(few.Keys, many.Keys);
  }

  lemma SubsetSize(few: set<string>, many: set<string>)
    requires few <= many
    ensures |few| <= |many|
  {
    if few != {} {
      var x :| x in few;
      SubsetSize(few - {x}, many - {x});
    }
  }

  /** Who is still missing from the store after a call has an excuse in the longer log. */
  lemma ExcusesCarryOver(m: map<string, real>, log: seq<Event>, e: Event)
    requires Pending(m, log, e.now)
    ensures forall id <- Ideal(log) :: (e.id == id ==> e.Asked?) && id !in m ==>
              Expired(log + [e], Ideal(log)[id]) || CrowdedOut(log + [e], id, Ideal(log)[id])
  {
    hide Expired, CrowdedOut, Ideal;
    forall id <- Ideal(log) | (e.id == id ==> e.Asked?) && id !in m
      ensures Expired(log + [e], Ideal(log)[id]) || CrowdedOut(log + [e], id, Ideal(log)[id])
    {
      ExcusesLast(log, e, id, Ideal(log)[id]);
    }
  }

  lemma RecordRefines(m: map<string, real>, log: seq<Event>, id: string, now: real)
    requires Pending(m, log, now)
    ensures Refines(m[id := now], log + [Recorded(id, now)])
    ensures |m[id := now]| <= |m| + (if id in m then 0 else 1)
  {
    hide Expired, CrowdedOut, Ideal;
    IdealGrows(log, Recorded(id, now));
    ExcusesCarryOver(m, log, Recorded(id, now));
    assert m[id := now].Keys == m.Keys + {id};
  }

  lemma EvictedCrowded(m: map<string, real>, log: seq<Event>, oldest: string, id: string, now: real)
    requires Pending(m, log, now) && |m| == MAX_TOMBSTONES && oldest in m && id !in m
    requires forall o <- m :: m[oldest] <= m[o]
    ensures CrowdedOut(log + [Recorded(id, now)], oldest, m[oldest])
  {
    hide Expired, CrowdedOut, Ideal;
    var longer, others := log + [Recorded(id, now)], m.Keys - {oldest};
    assert longer[..|log|] == log;
    var j := IdealRecorded(log, oldest);
    assert LastRecord(longer, oldest, m[oldest], j);
    assert |others| == |m.Keys| - 1 && |m.Keys| == |m|;
    assert FullOf(log, oldest, m[oldest], Recorded(id, now), others);
    assert CrowdedAt(longer, oldest, m[oldest], |log|, others);
    CrowdedWitness(longer, oldest, m[oldest], |log|, others);
  }

  lemma CrowdedWitness(log: seq<Event>, id: string, at: real, k: nat, others: set<string>)
    requires CrowdedAt(log, id, at, k, others)
    ensures CrowdedOut(log, id, at)
  {
  }

  lemma EvictedRefines(m: map<string, real>, log: seq<Event>, oldest: string, id: string, now: real)
    requires Pending(m, log, now) && |m| == MAX_TOMBSTONES && oldest in m && id !in m
    requires forall o <- m :: m[oldest] <= m[o]
    ensures Refines((m - {oldest})[id := now], log + [Recorded(id, now)])
    ensures |(m - {oldest})[id := now]| <= MAX_TOMBSTONES
  {
    hide Expired, CrowdedOut, Ideal;
    IdealGrows(log, Recorded(id, now));
    ExcusesCarryOver(m, log, Recorded(id, now));
    EvictedCrowded(m, log, oldest, id, now);
    assert (m - {oldest})[id := now].Keys == (m.Keys - {oldest}) + {id};
    assert |m.Keys - {oldest}| == |m.Keys| - 1;
  }

  lemma DroppedRefines(m: map<string, real>, log: seq<Event>, id: string, now: real)
    requires Pending(m, log, now)
    ensures Refines(m - {id}, log + [Consumed(id, now)]) && |m - {id}| <= |m|
  {
    hide Expired, CrowdedOut, Ideal;
    IdealGrows(log, Consumed(id, now));
    ExcusesCarryOver(m, log, Consumed(id, now));
    SubmapSize(m - {id}, m);
  }

  lemma AskedRefines(m: map<string, real>, log: seq<Event>, id: string, now: real)
    requires Pending(m, log, now)
    ensures Refines(m, log + [Asked(id, now)])
  {
    hide Expired, CrowdedOut, Ideal;
    IdealGrows(log, Asked(id, now));
    ExcusesCarryOver(m, log, Asked(id, now));
  }

  lemma FoundExactly(m: map<string, real>, before: seq<Event>, log: seq<Event>, id: string, now: real)
    requires Pending(m, before, now) && (log == before + [Consumed(id, now)] || log == before + [Asked(id, now)])
    requires Rises(log) ==> NoneCrowded(m, before)
    ensures Found(before, log, id, now, id in m)
  {
    hide Ideal;
    if id in Ideal(before) && id !in m {
      ExcusesLast(before, Asked(id, now), id, Ideal(before)[id]);
      ExpiredByTimes(before + [Asked(id, now)], log, Ideal(before)[id]);
    }
  }

  lemma ExpiredByTimes(log: seq<Event>, other: seq<Event>, at: real)
    requires |log| == |other| && forall k :: 0 <= k < |log| ==> log[k].now == other[k].now
    ensures Expired(log, at) ==> Expired(other, at)
  {
  }

  // ---- what the store holds, exactly, when the clock rises ----

  /** The store right after pruning for a call that is not logged yet. */
  ghost predicate Pruned(m: map<string, real>, log: seq<Event>, e: Event) {
    Rises(log + [e]) ==> NoneCrowded(m, log) && OldestGone(m, log, e.now)
  }

  lemma RoseBefore(log: seq<Event>, e: Event)
    requires Rises(log + [e])
    ensures Rises(log) && forall k :: 0 <= k < |log| ==> log[k].now < e.now
  {
    var longer := log + [e];
    assert forall k :: 0 <= k < |log| ==> longer[k] == log[k];
    assert longer[|log|] == e;
  }

  lemma TimesDiffer(log: seq<Event>, a: string, b: string)
    requires Rises(log) && a in Ideal(log) && b in Ideal(log) && a != b
    ensures Ideal(log)[a] != Ideal(log)[b]
  {
    var i := IdealRecorded(log, a);
    var j := IdealRecorded(log, b);
  }

  lemma PrunedExact(m: map<string, real>, log: seq<Event>, e: Event)
    requires Refines(m, log) && Exact(m, log)
    ensures Pruned(Fresh(m, e.now), log, e)
  {
    if Rises(log + [e]) {
      RoseBefore(log, e);
      hide CrowdedOut, Expired;
      if log != [] {
        assert log[|log| - 1].now < e.now;
        hide Ideal;
      }
    }
  }

  /** A record is crowded out by the last call, or was before. */
  lemma CrowdedByLast(log: seq<Event>, e: Event, id: string, at: real)
    requires CrowdedOut(log + [e], id, at)
    ensures CrowdedOut(log, id, at) || (e.Recorded? && e.id != id && exists others :: FullOf(log, id, at, e, others))
  {
    var longer := log + [e];
    var k: nat, others :| CrowdedAt(longer, id, at, k, others);
    var j: nat :| j < k && LastRecord(longer, id, at, j);
    if k == |log| {
      assert longer[..k] == log;
    } else {
      assert longer[..k] == log[..k] && longer[k] == log[k];
      assert forall i :: 0 <= i < |log| ==> longer[i] == log[i];
      assert LastRecord(log, id, at, j);
      assert CrowdedAt(log, id, at, k, others);
      CrowdedWitness(log, id, at, k, others);
    }
  }

  /** If the others fill the store together with `id`, and that is in the store, then they are the store. */
  lemma FullStore(m: map<string, real>, log: seq<Event>, e: Event, id: string, others: set<string>)
    requires Pending(m, log, e.now) && OldestGone(m, log, e.now) && Rises(log) && |m| <= MAX_TOMBSTONES
    requires id in m && FullOf(log, id, m[id], e, others)
    ensures m.Keys == others + {id} && |m| == MAX_TOMBSTONES
  {
    hide Expired, CrowdedOut, Ideal;
    forall o <- others ensures o in m {
      if o !in m { TimesDiffer(log, o, id); }
    }
    assert |others + {id}| == MAX_TOMBSTONES;
    SameSize(others + {id}, m.Keys);
    assert |m| == |m.Keys|;
  }

  lemma SameSize(few: set<string>, many: set<string>)
    requires few <= many && |many| <= |few|
    ensures few == many
  {
    SubsetSize(few, many);
    if x :| x in many && x !in few { SubsetSize(few, many - {x}); }
  }

  /** The records that stay in the store are not crowded out by a call that does not fill it. */
  lemma NoneCrowdedMore(m: map<string, real>, log: seq<Event>, e: Event, left: map<string, real>)
    requires NoneCrowded(m, log) && forall id <- left :: id in m && left[id] == m[id]
    requires forall id, others :: id in left && e.Recorded? && e.id != id ==> !FullOf(log, id, m[id], e, others)
    ensures NoneCrowded(left, log + [e])
  {
    hide CrowdedOut, FullOf;
    forall id <- left ensures !CrowdedOut(log + [e], id, left[id]) {
      if CrowdedOut(log + [e], id, left[id]) { CrowdedByLast(log, e, id, left[id]); }
    }
  }

  /** A call leaves what is gone older than what is left, if it takes out nothing live but an oldest record. */
  lemma OldestGoneMore(m: map<string, real>, log: seq<Event>, e: Event, left: map<string, real>)
    requires OldestGone(m, log, e.now) && !e.Recorded?
    requires left == if e.Consumed? then m - {e.id} else m
    ensures OldestGone(left, log + [e], e.now)
  {
    hide Ideal;
    IdealGrows(log, e);
  }

  lemma ExactAtLast(m: map<string, real>, log: seq<Event>, e: Event)
    requires NoneCrowded(m, log + [e]) && OldestGone(m, log + [e], e.now)
    ensures Exact(m, log + [e])
  {
    assert (log + [e])[|log + [e]| - 1] == e;
  }

  lemma DroppedExact(m: map<string, real>, log: seq<Event>, id: string, now: real)
    requires Pruned(m, log, Consumed(id, now))
    ensures Exact(m - {id}, log + [Consumed(id, now)])
  {
    if Rises(log + [Consumed(id, now)]) {
      NoneCrowdedMore(m, log, Consumed(id, now), m - {id});
      OldestGoneMore(m, log, Consumed(id, now), m - {id});
      ExactAtLast(m - {id}, log, Consumed(id, now));
    }
  }

  lemma AskedExact(m: map<string, real>, log: seq<Event>, id: string, now: real)
    requires Pruned(m, log, Asked(id, now))
    ensures Exact(m, log + [Asked(id, now)])
  {
    if Rises(log + [Asked(id, now)]) {
      NoneCrowdedMore(m, log, Asked(id, now), m);
      OldestGoneMore(m, log, Asked(id, now), m);
      ExactAtLast(m, log, Asked(id, now));
    }
  }

  /** A record just made is not crowded out. */
  lemma NewIsNotCrowded(log: seq<Event>, id: string, now: real)
    ensures !CrowdedOut(log + [Recorded(id, now)], id, now)
  {
    var longer := log + [Recorded(id, now)];
    assert longer[|log|] == Recorded(id, now);
    forall j | LastRecord(longer, id, now, j) ensures j == |log| { }
  }

  lemma RecordedExact(m: map<string, real>, log: seq<Event>, left: map<string, real>, id: string, now: real)
    requires Pending(m, log, now) && NoneCrowded(m, log) && OldestGone(m, log, now) && Rises(log + [Recorded(id, now)])
    requires forall o <- left :: o in m && left[o] == m[o]
    requires forall o <- m, k <- left :: o !in left && o != id ==> m[o] <= m[k]
    requires forall k, others :: k in left && id != k ==> !FullOf(log, k, m[k], Recorded(id, now), others)
    ensures Exact(left[id := now], log + [Recorded(id, now)])
  {
    var e := Recorded(id, now);
    RoseBefore(log, e);
    NoneCrowdedMore(m, log, e, left);
    NewIsNotCrowded(log, id, now);
    IdealGrows(log, e);
    forall o | o in Ideal(log) ensures Ideal(log)[o] < now { var j := IdealRecorded(log, o); }
    hide CrowdedOut, FullOf, Ideal, Expired;
    ExactAtLast(left[id := now], log, e);
  }

  lemma RecordExact(m: map<string, real>, log: seq<Event>, id: string, now: real)
    requires Pending(m, log, now) && Pruned(m, log, Recorded(id, now)) && |m| <= MAX_TOMBSTONES
    requires id in m || |m| < MAX_TOMBSTONES
    ensures Exact(m[id := now], log + [Recorded(id, now)])
  {
    var e := Recorded(id, now);
    if Rises(log + [e]) {
      RoseBefore(log, e);
      hide NoneCrowded, OldestGone, Pending;
      forall k, others | k in m && id != k ensures !FullOf(log, k, m[k], e, others) {
        if FullOf(log, k, m[k], e, others) {
          FullStore(m, log, e, k, others);
        }
      }
      RecordedExact(m, log, m, id, now);
    }
  }

  lemma EvictedExact(m: map<string, real>, log: seq<Event>, oldest: string, id: string, now: real)
    requires Pending(m, log, now) && Pruned(m, log, Recorded(id, now)) && |m| == MAX_TOMBSTONES
    requires oldest in m && id !in m && forall o <- m :: m[oldest] <= m[o]
    ensures Exact((m - {oldest})[id := now], log + [Recorded(id, now)])
  {
    var e := Recorded(id, now);
    if Rises(log + [e]) {
      RoseBefore(log, e);
      forall k, others | k in m - {oldest} && id != k ensures !FullOf(log, k, m[k], e, others) {
        if FullOf(log, k, m[k], e, others) {
          FullStore(m, log, e, k, others);
          TimesDiffer(log, oldest, k);
        }
      }
      hide NoneCrowded, OldestGone, Pending, FullOf;
      RecordedExact(m, log, m - {oldest}, id, now);
    }
  }

  // ---- what the log says ----

  /** A record is consumed at most once: after a call that consumed it, nothing is found until it is recorded again. */
  lemma {:induction false} ConsumedOnce(before: seq<Event>, id: string, now: real, rest: seq<Event>)
    requires forall e <- rest :: !(e.Recorded? && e.id == id)
    ensures id !in Ideal(before + [Consumed(id, now)] + rest)
    decreases |rest|
  {
    var log := before + [Consumed(id, now)] + rest;
    if rest == [] {
      assert log == before + [Consumed(id, now)];
      IdealGrows(before, Consumed(id, now));
    } else {
      var shorter, e := rest[..|rest| - 1], rest[|rest| - 1];
      ConsumedOnce(before, id, now, shorter);
      assert log == before + [Consumed(id, now)] + shorter + [e];
      IdealGrows(before + [Consumed(id, now)] + shorter, e);
    }
  }

  ghost predicate ClockRises(log: seq<Event>) {
    forall i, j :: 0 <= i <= j < |log| ==> log[i].now <= log[j].now
  }

  /** A full 4096 other ids were recorded, every one at a clock time no earlier than `at`. */
  ghost predicate Outnumbered(log: seq<Event>, id: string, at: real) {
    exists others: set<string> ::
      |others| == MAX_TOMBSTONES && id !in others && forall o <- others :: RecordedSince(log, o, at)
  }

  /** When calls are logged in the order of their clock readings, a record is crowded out only if it is outnumbered. */
  lemma CrowdingNeedsFullStore(log: seq<Event>, id: string, at: real)
    requires CrowdedOut(log, id, at) && ClockRises(log)
    ensures Outnumbered(log, id, at)
  {
    var k: nat, few :| CrowdedAt(log, id, at, k, few);
    var j: nat :| j < k && LastRecord(log, id, at, j);
    assert log[j].now == at;
    hide LastRecord, CrowdedOut, Ideal;
    forall o <- few ensures RecordedSince(log, o, at) {
      var i := IdealRecorded(log[..k], o);
      assert log[i] == log[..k][i];
    }
    assert log[k].now >= log[j].now && RecordedSince(log, log[k].id, at);
    assert |few + {log[k].id}| == MAX_TOMBSTONES;
  }

  /**
   * What an answer says when the clock rises: a record that is found was not consumed and is not older than the time to
   * live; one that is not found was never made, was consumed, is older, or is outnumbered. Unless it is outnumbered,
   * the answer is exactly that of the unbounded log.
   */
  lemma AnswerSaysWhy(before: seq<Event>, log: seq<Event>, id: string, now: real, found: bool)
    requires log == before + [Consumed(id, now)] || log == before + [Asked(id, now)]
    requires Found(before, log, id, now, found) && ClockRises(log)
    ensures found ==> id in Ideal(before) && Ideal(before)[id] >= now - TTL
    ensures !found ==>
              id !in Ideal(before) || Ideal(before)[id] < now - TTL || Outnumbered(before, id, Ideal(before)[id])
    ensures (id in Ideal(before) ==> !Outnumbered(before, id, Ideal(before)[id])) ==>
              (found <==> id in Ideal(before) && Ideal(before)[id] >= now - TTL)
  {
    hide Ideal, Outnumbered, CrowdedOut;
    assert log[..|before|] == before && log[|before|].now == now;
    if id in Ideal(before) && Expired(log, Ideal(before)[id]) {
      var k :| 0 <= k < |log| && Ideal(before)[id] < log[k].now - TTL;
      assert log[k].now <= log[|before|].now;
    }
    if id in Ideal(before) && CrowdedOut(before, id, Ideal(before)[id]) {
      assert ClockRises(before) by {
        forall i, j | 0 <= i <= j < |before| ensures before[i].now <= before[j].now {
          assert before[i] == log[i] && before[j] == log[j];
        }
      }
      CrowdingNeedsFullStore(before, id, Ideal(before)[id]);
    }
  }

  /**
   * When every call reads a later time, an answer is exact: a record is found if and only if it was made, not consumed
   * since, is not older than the time to live, and no other id was recorded while the store was full of newer records.
   */
  lemma AnswerExactly(before: seq<Event>, log: seq<Event>, id: string, now: real, found: bool)
    requires log == before + [Consumed(id, now)] || log == before + [Asked(id, now)]
    requires Found(before, log, id, now, found) && Rises(log)
    ensures found <==> && id in Ideal(before) && Ideal(before)[id] >= now - TTL
                       && !CrowdedOut(before, id, Ideal(before)[id])
  {
    RoseBefore(before, log[|before|]);
    hide Ideal, CrowdedOut;
    assert log[|before|].now == now;
    if id in Ideal(before) && Expired(log, Ideal(before)[id]) {
      var k :| 0 <= k < |log| && Ideal(before)[id] < log[k].now - TTL;
      assert log[k].now <= log[|before|].now;
    }
  }
}
