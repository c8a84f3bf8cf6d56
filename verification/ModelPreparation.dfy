/** Asking a target which models it has, checking its answer, and transferring what is missing. */
module ModelPreparation {
  import opened Wrappers
  import opened Transfers
  import opened Manifest
  import BoundaryTypes

  datatype LocalModel = LocalModel(path: string, identity: Identity)

  /** A record of the answer. `content` is its size and hash, if they are well formed; so is `present`. */
  datatype Record =
    | Malformed
    | Record(category: string, name: string, present: Option<bool>, content: Option<(nat, Option<string>)>)
  {
    function Key(): (string, string)
      requires Record?
    {
      (category, BoundaryTypes.Lower(name))
    }
  }

  datatype Response = Response(ok: bool, records: Option<seq<Record>>)

  datatype Resolution = Resolution(identity: Identity, present: bool)

  // ---- the answer ----

  /** The last requested model for a destination. */
  function Expected(requested: seq<Identity>, key: (string, string)): (m: Option<Identity>)
    ensures m.Some? ==> m.value in requested && m.value.DestinationKey() == key
    ensures m.None? <==> forall x <- requested :: x.DestinationKey() != key
  {
    if requested == [] then None
    else if requested[|requested| - 1].DestinationKey() == key then Some(requested[|requested| - 1])
    else Expected(requested[..|requested| - 1], key)
  }

  /** A record that answers for a requested model without contradicting it. */
  predicate Answers(requested: seq<Identity>, r: Record) {
    && r.Record? && r.present.Some? && Expected(requested, r.Key()).Some?
    && var expected := Expected(requested, r.Key()).value;
       r.present.value ==>
         && r.content.Some? && r.content.value.0 == expected.size
         && (expected.sha256.Some? && r.content.value.1.Some? ==> expected.sha256 == r.content.value.1)
  }

  function ResolutionOf(requested: seq<Identity>, r: Record): Resolution
    requires Answers(requested, r)
  {
    if r.present.value then Resolution(Identity(r.category, r.name, r.content.value.0, r.content.value.1), true)
    else Resolution(Expected(requested, r.Key()).value, false)
  }

  ghost predicate OnePerKey(records: seq<Record>) {
    forall i, j :: 0 <= i < j < |records| && records[i].Record? && records[j].Record? ==>
      records[i].Key() != records[j].Key()
  }

  ghost predicate Answered(records: seq<Record>, key: (string, string)) {
    exists r :: r in records && r.Record? && r.Key() == key
  }

  /** An answer with exactly one fitting record for each requested destination, and no other. */
  ghost predicate Acceptable(requested: seq<Identity>, records: seq<Record>) {
    && (forall r <- records :: Answers(requested, r))
    && OnePerKey(records)
    && forall m <- requested :: Answered(records, m.DestinationKey())
  }

  ghost predicate ResolvedBy(requested: seq<Identity>, records: seq<Record>, key: (string, string), out: Resolution) {
    exists r :: r in records && r.Record? && r.Key() == key && Answers(requested, r)
      && out == ResolutionOf(requested, r)
  }

  /** The resolutions bind every requested model, in the order of the request, to its record. */
  ghost predicate AreResolutions(requested: seq<Identity>, records: seq<Record>, out: seq<Resolution>) {
    |out| == |requested| && forall i :: 0 <= i < |out| ==>
                              ResolvedBy(requested, records, requested[i].DestinationKey(), out[i])
  }

  /** What has been resolved by the first i records. */
  ghost predicate Resolved(requested: seq<Identity>, records: seq<Record>, i: nat,
                           resolved: map<(string, string), Resolution>)
    requires i <= |records|
  {
    && (forall k :: 0 <= k < i ==> Answers(requested, records[k]) && records[k].Key() in resolved)
    && OnePerKey(records[..i])
    && forall key <- resolved :: ResolvedBy(requested, records[..i], key, resolved[key])
  }

  lemma ResolvedMore(requested: seq<Identity>, records: seq<Record>, i: nat,
                     resolved: map<(string, string), Resolution>)
    requires i < |records| && Resolved(requested, records, i, resolved) && Answers(requested, records[i])
             && records[i].Key() !in resolved
    ensures Resolved(requested, records, i + 1, resolved[records[i].Key() := ResolutionOf(requested, records[i])])
  {
    hide Answers, ResolutionOf, Record.Key;
    var few, more := records[..i], records[..i + 1];
    assert more == few + [records[i]];
    AnswersAreRecords(requested, records[i]);
    var key, out := records[i].Key(), ResolutionOf(requested, records[i]);
    assert ResolvedBy(requested, more, key, out) by { assert records[i] in more; }
    forall k <- resolved ensures ResolvedBy(requested, more, k, resolved[k]) {
      assert ResolvedBy(requested, few, k, resolved[k]);
      var r :| r in few && r.Record? && r.Key() == k && Answers(requested, r)
        && resolved[k] == ResolutionOf(requested, r);
      assert r in more;
    }
  }

  lemma AnswersAreRecords(requested: seq<Identity>, r: Record)
    requires Answers(requested, r)
    ensures r.Record?
  {
  }

  lemma TwiceAnswered(requested: seq<Identity>, records: seq<Record>, i: nat,
                      resolved: map<(string, string), Resolution>)
    requires i < |records| && Resolved(requested, records, i, resolved) && records[i].Record?
             && records[i].Key() in resolved
    ensures !Acceptable(requested, records)
  {
    hide Answers, ResolutionOf, Record.Key;
    var key := records[i].Key();
    assert ResolvedBy(requested, records[..i], key, resolved[key]);
    var r :| r in records[..i] && r.Record? && r.Key() == key;
    var k :| 0 <= k < i && records[..i][k] == r;
    assert records[k] == r;
  }

  /** Checks every record of the answer; `None` is a refusal. */
  method ResolveRecords(requested: seq<Identity>, records: seq<Record>)
    returns (resolved: Option<map<(string, string), Resolution>>)
    ensures resolved.Some? ==> Resolved(requested, records, |records|, resolved.value)
    ensures resolved.None? ==> !Acceptable(requested, records)
  {
    var found: map<(string, string), Resolution> := map[];
    assert Resolved(requested, records, 0, found);
    hide Resolved, Record.Key;
    for i := 0 to |records|
      invariant Resolved(requested, records, i, found)
    {
      var r := records[i];
      assert r in records;
      if r.Malformed? { return None; }
      var key := r.Key();
      var expected := Expected(requested, key);
      if expected.None? { return None; }
      if key in found {
        TwiceAnswered(requested, records, i, found);
        return None;
      }
      if r.present.None? { return None; }
      if r.present.value {
        if r.content.None? { return None; }
        if r.content.value.0 != expected.value.size { return None; }
        if expected.value.sha256.Some? && r.content.value.1.Some? && expected.value.sha256 != r.content.value.1 {
          return None;
        }
      }
      ResolvedMore(requested, records, i, found);
      found := found[key := ResolutionOf(requested, r)];
    }
    resolved := Some(found);
  }

  /** `validate_model_resolution_response`: succeeds exactly on acceptable answers to requests without conflict. */
  method ValidateResponse(requested: seq<Identity>, response: Response) returns (out: Option<seq<Resolution>>)
    ensures out.Some? <==>
              NoConflict(requested) && response.ok && response.records.Some?
                && Acceptable(requested, response.records.value)
    ensures out.Some? ==> AreResolutions(requested, response.records.value, out.value)
  {
    hide Acceptable, Resolved, NoConflict, IsManifest;
    var checked := ValidateModelConflicts(requested);
    if checked.None? { return None; }
    if !response.ok || response.records.None? { return None; }
    var records := response.records.value;
    var resolved := ResolveRecords(requested, records);
    if resolved.None? { return None; }
    if m :| m in requested && m.DestinationKey() !in resolved.value {
      Unanswered(requested, records, resolved.value, m);
      return None;
    }
    AllAnswered(requested, records, resolved.value);
    out := Some(seq(|requested|, i requires 0 <= i < |requested| && requested[i].DestinationKey() in resolved.value =>
      resolved.value[requested[i].DestinationKey()]));
  }

  lemma Unanswered(requested: seq<Identity>, records: seq<Record>, resolved: map<(string, string), Resolution>,
                   m: Identity)
    requires Resolved(requested, records, |records|, resolved) && m in requested && m.DestinationKey() !in resolved
    ensures !Acceptable(requested, records)
  {
    hide Answers, ResolutionOf, Record.Key, Identity.DestinationKey;
    assert forall r <- records :: r.Record? ==> r.Key() in resolved;
    assert !Answered(records, m.DestinationKey());
  }

  lemma AllAnswered(requested: seq<Identity>, records: seq<Record>, resolved: map<(string, string), Resolution>)
    requires Resolved(requested, records, |records|, resolved) && forall m <- requested ::
                                                                    m.DestinationKey() in resolved
    ensures Acceptable(requested, records)
    ensures forall m <- requested :: ResolvedBy(requested, records, m.DestinationKey(), resolved[m.DestinationKey()])
  {
    hide Answers, ResolutionOf, Record.Key, Identity.DestinationKey;
    assert records[..|records|] == records;
    forall m <- requested ensures Answered(records, m.DestinationKey()) {
      assert ResolvedBy(requested, records, m.DestinationKey(), resolved[m.DestinationKey()]);
    }
  }

  /** A resolution is that of the record: present with the size and hash it names, or the request unchanged. */
  ghost predicate Tells(requested: seq<Identity>, r: Record, out: Resolution) {
    && r.Record? && r.present == Some(out.present)
    && if out.present then
         && (out.identity.category, out.identity.name) == (r.category, r.name)
         && r.content == Some((out.identity.size, out.identity.sha256))
         && exists m :: m in requested && m.DestinationKey() == r.Key() && m.size == out.identity.size
                        && (m.sha256.Some? && out.identity.sha256.Some? ==> m.sha256 == out.identity.sha256)
       else out.identity in requested
  }

  /** Every requested model is told of by a record for its destination. */
  lemma BoundToRecord(requested: seq<Identity>, records: seq<Record>, out: seq<Resolution>, i: nat)
    requires AreResolutions(requested, records, out) && i < |out|
    ensures exists r :: r in records && Tells(requested, r, out[i]) && r.Key() == requested[i].DestinationKey()
                        && out[i].identity.DestinationKey() == requested[i].DestinationKey()
  {
    assert ResolvedBy(requested, records, requested[i].DestinationKey(), out[i]);
    var r :| r in records && r.Record? && r.Key() == requested[i].DestinationKey() && Answers(requested, r)
      && out[i] == ResolutionOf(requested, r);
    assert Tells(requested, r, out[i]);
  }

  // ---- the order of the records does not matter ----

  lemma {:induction false} Twice(records: seq<Record>, r: Record)
    requires multiset(records)[r] >= 2
    ensures exists i, j :: 0 <= i < j < |records| && records[i] == r && records[j] == r
    decreases |records|
  {
    var n := |records| - 1;
    var front := records[..n];
    assert records == front + [records[n]];
    if records[n] == r {
      assert r in multiset(front);
      var i :| 0 <= i < n && front[i] == r;
      assert records[i] == r && records[n] == r;
    } else {
      Twice(front, r);
      var i, j :| 0 <= i < j < n && front[i] == r && front[j] == r;
      assert records[i] == r && records[j] == r;
    }
  }

  lemma TwoInMultiset(records: seq<Record>, i: nat, j: nat)
    requires i < j < |records| && records[i] == records[j]
    ensures multiset(records)[records[i]] >= 2
  {
    var r := records[i];
    assert records == records[..i] + [r] + records[i + 1..j] + [r] + records[j + 1..];
  }

  lemma KeysStayApart(records: seq<Record>, others: seq<Record>)
    requires multiset(records) == multiset(others) && OnePerKey(records)
    ensures OnePerKey(others)
  {
    hide Record.Key;
    forall i, j | 0 <= i < j < |others| && others[i].Record? && others[j].Record?
      ensures others[i].Key() != others[j].Key()
    {
      if others[i] == others[j] {
        TwoInMultiset(others, i, j);
        Twice(records, others[i]);
      } else {
        assert others[i] in multiset(others) && others[j] in multiset(others);
        var a :| 0 <= a < |records| && records[a] == others[i];
        var b :| 0 <= b < |records| && records[b] == others[j];
      }
    }
  }

  /** Answers with the same records in any order are accepted alike and give the same resolutions. */
  lemma ResolutionsIgnoreOrder(requested: seq<Identity>, records: seq<Record>, others: seq<Record>,
                               out: seq<Resolution>, more: seq<Resolution>)
    requires multiset(records) == multiset(others)
    ensures Acceptable(requested, records) <==> Acceptable(requested, others)
    ensures Acceptable(requested, records) && AreResolutions(requested, records, out)
            && AreResolutions(requested, others, more)
            ==> out == more
  {
    hide Acceptable;
    if Acceptable(requested, records) { AcceptedAlike(requested, records, others); }
    if Acceptable(requested, others) { AcceptedAlike(requested, others, records); }
    if && Acceptable(requested, records) && AreResolutions(requested, records, out)
       && AreResolutions(requested, others, more)
    {
      forall i | 0 <= i < |out| ensures out[i] == more[i] {
        AcceptableKeys(requested, records);
        SameRecord(requested, records, others, requested[i].DestinationKey(), out[i], more[i]);
      }
    }
  }

  lemma SameMembers(records: seq<Record>, others: seq<Record>)
    requires multiset(records) == multiset(others)
    ensures forall r :: r in records <==> r in others
  {
    forall r ensures r in records <==> r in others {
      assert r in records <==> r in multiset(records);
      assert r in others <==> r in multiset(others);
    }
  }

  lemma AcceptableKeys(requested: seq<Identity>, records: seq<Record>)
    requires Acceptable(requested, records)
    ensures OnePerKey(records)
  {
  }

  lemma AcceptedAlike(requested: seq<Identity>, records: seq<Record>, others: seq<Record>)
    requires multiset(records) == multiset(others) && Acceptable(requested, records)
    ensures Acceptable(requested, others)
  {
    hide Answers, Record.Key, Identity.DestinationKey;
    SameMembers(records, others);
    KeysStayApart(records, others);
    forall m <- requested ensures Answered(others, m.DestinationKey()) {
      assert Answered(records, m.DestinationKey());
    }
  }

  lemma SameRecord(requested: seq<Identity>, records: seq<Record>, others: seq<Record>, key: (string, string),
                   a: Resolution, b: Resolution)
    requires multiset(records) == multiset(others) && OnePerKey(records)
    requires ResolvedBy(requested, records, key, a) && ResolvedBy(requested, others, key, b)
    ensures a == b
  {
    hide Answers, ResolutionOf, Record.Key;
    SameMembers(records, others);
    var r :| r in records && r.Record? && r.Key() == key && Answers(requested, r) && a == ResolutionOf(requested, r);
    var q :| q in others && q.Record? && q.Key() == key && Answers(requested, q) && b == ResolutionOf(requested, q);
    var i :| 0 <= i < |records| && records[i] == r;
    var j :| 0 <= j < |records| && records[j] == q;
  }

  // ---- preparing a target ----

  /** The transfer coordinator, seen by one caller: what it was asked to transfer, and what comes of each call. */
  class Coordinator {
    const outcomes: nat -> Option<int>
    var calls: seq<LocalModel>

    constructor (outcomes: nat -> Option<int>)
      ensures this.outcomes == outcomes && calls == []
    {
      this.outcomes, calls := outcomes, [];
    }

    /** `None` is an error; without a hash there is no transfer key, and nothing is called. */
    method Transfer(model: LocalModel) returns (result: Option<int>)
      modifies this
      ensures model.identity.sha256.None? ==> result == None && calls == old(calls)
      ensures model.identity.sha256.Some? ==> calls == old(calls) + [model] && result == outcomes(|old(calls)|)
    {
      if model.identity.sha256.None? { return None; }
      result := outcomes(|calls|);
      calls := calls + [model];
    }
  }

  datatype Prepared = Prepared(identity: Identity, present: bool, result: Option<int>)

  function Identities(models: seq<LocalModel>): (ids: seq<Identity>)
    ensures |ids| == |models| && forall i :: 0 <= i < |ids| ==> ids[i] == models[i].identity
  {
    seq(|models|, i requires 0 <= i < |models| => models[i].identity)
  }

  /** The last local model for a destination. */
  function LocalFor(models: seq<LocalModel>, key: (string, string)): (m: Option<LocalModel>)
    ensures m.Some? ==> m.value in models && m.value.identity.DestinationKey() == key
    ensures m.None? <==> forall x <- models :: x.identity.DestinationKey() != key
  {
    if models == [] then None
    else if models[|models| - 1].identity.DestinationKey() == key then Some(models[|models| - 1])
    else LocalFor(models[..|models| - 1], key)
  }

  /** The models that the first i resolutions found absent, in their order. */
  function Absent(models: seq<LocalModel>, resolutions: seq<Resolution>, i: nat): seq<LocalModel>
    requires i <= |resolutions|
  {
    if i == 0 then []
    else Absent(models, resolutions, i - 1) + CallsOf(models, resolutions[i - 1])
  }

  /** The calls are those for the absent models of the first steps. */
  ghost predicate CalledUpTo(models: seq<LocalModel>, resolutions: seq<Resolution>, calls: seq<LocalModel>) {
    exists i: nat :: i <= |resolutions| && calls == Absent(models, resolutions, i)
  }

  /** The coordinator call that a resolution leads to, if any. */
  function CallsOf(models: seq<LocalModel>, r: Resolution): seq<LocalModel> {
    var local := LocalFor(models, r.identity.DestinationKey());
    if r.present || local.None? then [] else [local.value]
  }

  /** What comes of the call that step i makes for an absent model; `base` calls were made before the first step. */
  function OutcomeAt(models: seq<LocalModel>, resolutions: seq<Resolution>, outcomes: nat -> Option<int>, base: nat,
                     i: nat): Option<int>
    requires i <= |resolutions|
  {
    outcomes(base + |Absent(models, resolutions, i)|)
  }

  /** Step i of the preparation goes well. */
  ghost predicate StepGoesWell(models: seq<LocalModel>, resolutions: seq<Resolution>, outcomes: nat -> Option<int>,
                               base: nat, cancelled: nat -> bool, i: nat)
    requires i < |resolutions|
  {
    var local := LocalFor(models, resolutions[i].identity.DestinationKey());
    && !cancelled(i) && local.Some?
    && if resolutions[i].present then local.value.identity.sha256.Some? ==> resolutions[i].identity.sha256.Some?
       else local.value.identity.sha256.Some? && OutcomeAt(models, resolutions, outcomes, base, i).Some?
  }

  /** The record of step i: verified to be there, or transferred by its own call of the coordinator. */
  ghost predicate IsPrepared(models: seq<LocalModel>, resolutions: seq<Resolution>, outcomes: nat -> Option<int>,
                             base: nat, i: nat, done: Prepared)
    requires i < |resolutions|
  {
    var local := LocalFor(models, resolutions[i].identity.DestinationKey());
    && local.Some? && done.identity == local.value.identity && done.present == resolutions[i].present
    && if done.present then done.result == None && (done.identity.sha256.Some? ==> resolutions[i].identity.sha256.Some?)
       else done.result.Some? && done.result == OutcomeAt(models, resolutions, outcomes, base, i)
  }

  method PrepareResolved(models: seq<LocalModel>, resolutions: seq<Resolution>, coordinator: Coordinator,
                         cancelled: nat -> bool)
    returns (done: Option<seq<Prepared>>)
    requires forall r <- resolutions :: LocalFor(models, r.identity.DestinationKey()).Some?
    modifies coordinator
    ensures done.Some? <==> forall i :: 0 <= i < |resolutions| ==>
              StepGoesWell(models, resolutions, coordinator.outcomes, |old(coordinator.calls)|, cancelled, i)
    ensures done.Some? ==>
              && coordinator.calls == old(coordinator.calls) + Absent(models, resolutions, |resolutions|)
              && |done.value| == |resolutions|
              && forall i :: 0 <= i < |resolutions| ==>
                   IsPrepared(models, resolutions, coordinator.outcomes, |old(coordinator.calls)|, i, done.value[i])
    ensures old(coordinator.calls) <= coordinator.calls
    ensures CalledUpTo(models, resolutions, coordinator.calls[|old(coordinator.calls)|..])
  {
    var results: seq<Prepared> := [];
    ghost var before, base := coordinator.calls, |coordinator.calls|;
    hide Identity.DestinationKey, StepGoesWell, IsPrepared, Absent, LocalFor, CallsOf, CalledUpTo;
    NothingAbsent(models, resolutions);
    assert PreparedSoFar(models, resolutions, coordinator.outcomes, base, cancelled, results);
    hide PreparedSoFar;
    for i := 0 to |resolutions|
      invariant |results| == i && PreparedSoFar(models, resolutions, coordinator.outcomes, base, cancelled, results)
      invariant coordinator.calls == before + Absent(models, resolutions, i)
    {
      assert resolutions[i] in resolutions;
      var one := PrepareOne(models, resolutions, coordinator, cancelled, i, base);
      if one.None? {
        CalledSoFar(models, resolutions, before, coordinator.calls, i);
        CalledSoFar(models, resolutions, before, coordinator.calls, i + 1);
        CallsAdd(before, Absent(models, resolutions, i), CallsOf(models, resolutions[i]));
        return None;
      }
      CallsAdd(before, Absent(models, resolutions, i), CallsOf(models, resolutions[i]));
      PreparedMore(models, resolutions, coordinator.outcomes, base, cancelled, results, one.value);
      results := results + [one.value];
    }
    AllPrepared(models, resolutions, coordinator.outcomes, base, cancelled, results);
    CalledSoFar(models, resolutions, before, coordinator.calls, |resolutions|);
    done := Some(results);
  }

  method PrepareOne(models: seq<LocalModel>, resolutions: seq<Resolution>, coordinator: Coordinator,
                    cancelled: nat -> bool, i: nat, ghost base: nat)
    returns (done: Option<Prepared>)
    requires i < |resolutions| && LocalFor(models, resolutions[i].identity.DestinationKey()).Some?
    requires |coordinator.calls| == base + |Absent(models, resolutions, i)|
    modifies coordinator
    ensures done.Some? <==> StepGoesWell(models, resolutions, coordinator.outcomes, base, cancelled, i)
    ensures done.Some? ==>
              && IsPrepared(models, resolutions, coordinator.outcomes, base, i, done.value)
              && coordinator.calls == old(coordinator.calls) + CallsOf(models, resolutions[i])
    ensures coordinator.calls == old(coordinator.calls)
            || coordinator.calls == old(coordinator.calls) + CallsOf(models, resolutions[i])
    ensures Absent(models, resolutions, i + 1) == Absent(models, resolutions, i) + CallsOf(models, resolutions[i])
  {
    OneStep(models, resolutions, coordinator.outcomes, base, cancelled, i);
    assert coordinator.outcomes(|coordinator.calls|) == OutcomeAt(models, resolutions, coordinator.outcomes, base, i);
    hide Identity.DestinationKey, StepGoesWell, IsPrepared, Absent, LocalFor, OutcomeAt;
    var r := resolutions[i];
    if cancelled(i) { return None; }
    var local := LocalFor(models, r.identity.DestinationKey()).value;
    if r.present {
      PresentStep(models, resolutions, coordinator.outcomes, base, cancelled, i);
      if local.identity.sha256.Some? && r.identity.sha256.None? { return None; }
      done := Some(Prepared(local.identity, true, None));
    } else {
      AbsentStep(models, resolutions, coordinator.outcomes, base, cancelled, i);
      var result := coordinator.Transfer(local);
      if result.None? { return None; }
      done := Some(Prepared(local.identity, false, result));
    }
  }

  lemma CallsAdd(before: seq<LocalModel>, some: seq<LocalModel>, more: seq<LocalModel>)
    ensures before + some + more == before + (some + more)
  {
  }

  lemma CalledSoFar(models: seq<LocalModel>, resolutions: seq<Resolution>, before: seq<LocalModel>,
                    now: seq<LocalModel>, i: nat)
    requires i <= |resolutions|
    ensures now == before + Absent(models, resolutions, i) ==>
              before <= now && CalledUpTo(models, resolutions, now[|before|..])
  {
    if now == before + Absent(models, resolutions, i) {
      assert now[|before|..] == Absent(models, resolutions, i);
    }
  }

  /** The first steps have gone well and left these records. */
  ghost predicate PreparedSoFar(models: seq<LocalModel>, resolutions: seq<Resolution>, outcomes: nat -> Option<int>,
                                base: nat, cancelled: nat -> bool, results: seq<Prepared>)
  {
    && |results| <= |resolutions|
    && forall k :: 0 <= k < |results| ==>
         StepGoesWell(models, resolutions, outcomes, base, cancelled, k)
           && IsPrepared(models, resolutions, outcomes, base, k, results[k])
  }

  lemma PreparedMore(models: seq<LocalModel>, resolutions: seq<Resolution>, outcomes: nat -> Option<int>, base: nat,
                     cancelled: nat -> bool, results: seq<Prepared>, one: Prepared)
    requires PreparedSoFar(models, resolutions, outcomes, base, cancelled, results) && |results| < |resolutions|
    requires StepGoesWell(models, resolutions, outcomes, base, cancelled, |results|)
    requires IsPrepared(models, resolutions, outcomes, base, |results|, one)
    ensures PreparedSoFar(models, resolutions, outcomes, base, cancelled, results + [one])
  {
    hide StepGoesWell, IsPrepared;
  }

  lemma AllPrepared(models: seq<LocalModel>, resolutions: seq<Resolution>, outcomes: nat -> Option<int>, base: nat,
                    cancelled: nat -> bool, results: seq<Prepared>)
    requires PreparedSoFar(models, resolutions, outcomes, base, cancelled, results) && |results| == |resolutions|
    ensures forall k :: 0 <= k < |results| ==>
              StepGoesWell(models, resolutions, outcomes, base, cancelled, k)
                && IsPrepared(models, resolutions, outcomes, base, k, results[k])
  {
    hide StepGoesWell, IsPrepared;
  }

  lemma NothingAbsent(models: seq<LocalModel>, resolutions: seq<Resolution>)
    ensures Absent(models, resolutions, 0) == []
  {
  }

  lemma OneStep(models: seq<LocalModel>, resolutions: seq<Resolution>, outcomes: nat -> Option<int>, base: nat,
                cancelled: nat -> bool, i: nat)
    requires i < |resolutions| && LocalFor(models, resolutions[i].identity.DestinationKey()).Some?
    ensures cancelled(i) ==> !StepGoesWell(models, resolutions, outcomes, base, cancelled, i)
    ensures Absent(models, resolutions, i + 1) == Absent(models, resolutions, i) + CallsOf(models, resolutions[i])
  {
    hide Identity.DestinationKey;
  }

  /** A model that is there must be verifiable. */
  lemma PresentStep(models: seq<LocalModel>, resolutions: seq<Resolution>, outcomes: nat -> Option<int>, base: nat,
                    cancelled: nat -> bool, i: nat)
    requires i < |resolutions| && LocalFor(models, resolutions[i].identity.DestinationKey()).Some?
    requires !cancelled(i) && resolutions[i].present
    ensures var id, r := LocalFor(models, resolutions[i].identity.DestinationKey()).value.identity, resolutions[i];
            if id.sha256.Some? && r.identity.sha256.None? then
              !StepGoesWell(models, resolutions, outcomes, base, cancelled, i)
            else StepGoesWell(models, resolutions, outcomes, base, cancelled, i)
                 && IsPrepared(models, resolutions, outcomes, base, i, Prepared(id, true, None))
  {
    hide Identity.DestinationKey;
  }

  /** A model that is not there must be transferred. */
  lemma AbsentStep(models: seq<LocalModel>, resolutions: seq<Resolution>, outcomes: nat -> Option<int>, base: nat,
                   cancelled: nat -> bool, i: nat)
    requires i < |resolutions| && LocalFor(models, resolutions[i].identity.DestinationKey()).Some?
    requires !cancelled(i) && !resolutions[i].present
    ensures var id := LocalFor(models, resolutions[i].identity.DestinationKey()).value.identity;
            var outcome := OutcomeAt(models, resolutions, outcomes, base, i);
            if id.sha256.None? || outcome.None? then !StepGoesWell(models, resolutions, outcomes, base, cancelled, i)
            else StepGoesWell(models, resolutions, outcomes, base, cancelled, i)
                 && IsPrepared(models, resolutions, outcomes, base, i, Prepared(id, false, outcome))
  {
    hide Identity.DestinationKey, OutcomeAt;
  }

  /** The preparation of a target: the manifest, the answer to it, and a record for each of its models. */
  ghost predicate IsPreparation(models: seq<LocalModel>, records: seq<Identity>, answer: seq<Record>,
                                resolutions: seq<Resolution>, outcomes: nat -> Option<int>, base: nat,
                                calls: seq<LocalModel>, done: seq<Prepared>)
  {
    && NoConflict(Identities(models)) && IsManifest(Identities(models), records)
    && AreResolutions(records, answer, resolutions) && Acceptable(records, answer)
    && calls == Absent(models, resolutions, |resolutions|)
    && |done| == |resolutions|
    && forall i :: 0 <= i < |done| ==> IsPrepared(models, resolutions, outcomes, base, i, done[i])
  }

  /** All that a preparation needs: no conflict, an acceptable answer to the manifest, and steps that go well. */
  ghost predicate GoesWell(models: seq<LocalModel>, resolve: seq<Identity> -> Response, outcomes: nat -> Option<int>,
                           base: nat, cancelled: nat -> bool, records: seq<Identity>, resolutions: seq<Resolution>)
  {
    && NoConflict(Identities(models))
    && Asked(models, resolve, records, resolutions)
    && forall i :: 0 <= i < |resolutions| ==> StepGoesWell(models, resolutions, outcomes, base, cancelled, i)
  }

  /** The manifest of the models was answered acceptably, with these resolutions. */
  ghost predicate Asked(models: seq<LocalModel>, resolve: seq<Identity> -> Response,
                        records: seq<Identity>, resolutions: seq<Resolution>)
  {
    && IsManifest(Identities(models), records)
    && resolve(records).ok && resolve(records).records.Some?
    && Acceptable(records, resolve(records).records.value)
    && AreResolutions(records, resolve(records).records.value, resolutions)
  }

  /** The manifest and the resolutions are determined by the models and the answer. */
  lemma AskedOnce(models: seq<LocalModel>, resolve: seq<Identity> -> Response, records: seq<Identity>,
                  resolutions: seq<Resolution>, others: seq<Identity>, more: seq<Resolution>)
    requires Asked(models, resolve, records, resolutions) && IsManifest(Identities(models), others)
    ensures records == others
    ensures Asked(models, resolve, others, more) ==> resolutions == more
  {
    ManifestsAreOne(models, records, others);
    hide IsManifest, Acceptable, AreResolutions;
    if Asked(models, resolve, others, more) {
      var answer := resolve(records).records.value;
      ResolutionsIgnoreOrder(records, answer, answer, resolutions, more);
    }
  }

  lemma ManifestsAreOne(models: seq<LocalModel>, records: seq<Identity>, others: seq<Identity>)
    requires IsManifest(Identities(models), records) && IsManifest(Identities(models), others)
    ensures records == others
  {
    hide IsFirst, KeyLess;
    SortedOnce(records, others);
  }

  /**
   * `prepare_models_for_target`. When it fails, it has called for the absent models up to some step and for no other.
   */
  method PrepareModels(models: seq<LocalModel>, resolve: seq<Identity> -> Response, coordinator: Coordinator,
                       cancelled: nat -> bool)
    returns (done: Option<seq<Prepared>>)
    modifies coordinator
    ensures done.Some? <==> exists records, resolutions ::
              GoesWell(models, resolve, coordinator.outcomes, |old(coordinator.calls)|, cancelled, records, resolutions)
    ensures old(coordinator.calls) <= coordinator.calls
    ensures done.Some? ==> exists records, resolutions ::
              Asked(models, resolve, records, resolutions)
              && IsPreparation(models, records, resolve(records).records.value, resolutions, coordinator.outcomes,
                               |old(coordinator.calls)|, coordinator.calls[|old(coordinator.calls)|..], done.value)
    ensures done.None? && coordinator.calls != old(coordinator.calls) ==> exists records, resolutions ::
              Asked(models, resolve, records, resolutions)
              && CalledUpTo(models, resolutions, coordinator.calls[|old(coordinator.calls)|..])
  {
    hide IsManifest, Acceptable, AreResolutions, StepGoesWell, IsPrepared, NoConflict, Identity.DestinationKey;
    var checked := ValidateModelConflicts(Identities(models));
    if checked.None? { return None; }
    ManifestOfRecords(Identities(models), checked.value);
    var again := ValidateModelConflicts(checked.value);
    ManifestIgnoresOrder(checked.value, checked.value, checked.value, again.value);
    var request := again.value;
    var response := resolve(request);
    var validated := ValidateResponse(request, response);
    if validated.None? {
      NotAsked(models, resolve, request);
      return None;
    }
    ghost var base := |coordinator.calls|;
    assert Asked(models, resolve, request, validated.value);
    ResolutionsAreLocal(models, request, response.records.value, validated.value);
    done := PrepareResolved(models, validated.value, coordinator, cancelled);
    hide Absent, CallsOf;
    if done.Some? {
      assert GoesWell(models, resolve, coordinator.outcomes, base, cancelled, request, validated.value);
      assert coordinator.calls[base..] == Absent(models, validated.value, |validated.value|);
    } else {
      OnlyAsked(models, resolve, coordinator.outcomes, base, cancelled, request, validated.value);
    }
  }

  /** Without an acceptable answer to the manifest, nothing goes well. */
  lemma NotAsked(models: seq<LocalModel>, resolve: seq<Identity> -> Response, request: seq<Identity>)
    requires IsManifest(Identities(models), request)
    requires !(resolve(request).ok && resolve(request).records.Some?
               && Acceptable(request, resolve(request).records.value))
    ensures forall records, resolutions :: !Asked(models, resolve, records, resolutions)
  {
    forall records, resolutions ensures !Asked(models, resolve, records, resolutions) {
      if Asked(models, resolve, records, resolutions) { ManifestsAreOne(models, records, request); }
    }
  }

  /** If a step does not go well with the resolutions there are, nothing does. */
  lemma OnlyAsked(models: seq<LocalModel>, resolve: seq<Identity> -> Response, outcomes: nat -> Option<int>, base: nat,
                  cancelled: nat -> bool, request: seq<Identity>, validated: seq<Resolution>)
    requires Asked(models, resolve, request, validated)
    requires !forall i :: 0 <= i < |validated| ==> StepGoesWell(models, validated, outcomes, base, cancelled, i)
    ensures forall records, resolutions :: !GoesWell(models, resolve, outcomes, base, cancelled, records, resolutions)
  {
    hide StepGoesWell, NoConflict, Asked;
    forall records, resolutions ensures !GoesWell(models, resolve, outcomes, base, cancelled, records, resolutions) {
      if GoesWell(models, resolve, outcomes, base, cancelled, records, resolutions) {
        ManifestAsked(models, resolve, records, resolutions);
        AskedOnce(models, resolve, request, validated, records, resolutions);
      }
    }
  }

  lemma ManifestAsked(models: seq<LocalModel>, resolve: seq<Identity> -> Response, records: seq<Identity>,
                      resolutions: seq<Resolution>)
    requires Asked(models, resolve, records, resolutions)
    ensures IsManifest(Identities(models), records)
  {
  }

  /** Every resolution is for a destination of the request, in its order. */
  lemma ResolutionKey(requested: seq<Identity>, records: seq<Record>, out: seq<Resolution>, i: nat)
    requires AreResolutions(requested, records, out) && i < |out|
    ensures out[i].identity.DestinationKey() == requested[i].DestinationKey()
  {
    assert ResolvedBy(requested, records, requested[i].DestinationKey(), out[i]);
    var r :| r in records && r.Record? && r.Key() == requested[i].DestinationKey() && Answers(requested, r)
             && out[i] == ResolutionOf(requested, r);
  }

  lemma ResolutionsAreLocal(models: seq<LocalModel>, requested: seq<Identity>, records: seq<Record>,
                            out: seq<Resolution>)
    requires IsManifest(Identities(models), requested) && AreResolutions(requested, records, out)
    ensures forall r <- out :: LocalFor(models, r.identity.DestinationKey()).Some?
  {
    hide Identity.DestinationKey, KeyLess;
    forall i | 0 <= i < |out| ensures LocalFor(models, out[i].identity.DestinationKey()).Some? {
      ResolutionKey(requested, records, out, i);
      assert requested[i] in requested;
      assert IsFirst(Identities(models), requested[i]);
      var k :| 0 <= k < |models| && Identities(models)[k] == requested[i];
      assert models[k] in models;
    }
  }

  // ---- what a preparation is worth ----

  /** The answer has a record that shows a model of this destination, size and, if it has one, hash. */
  ghost predicate Shown(answer: seq<Record>, id: Identity) {
    exists r :: r in answer && r.Record? && r.Key() == id.DestinationKey() && r.present == Some(true)
                && r.content.Some? && r.content.value.0 == id.size
                  && (id.sha256.Some? ==> r.content.value.1 == id.sha256)
  }

  lemma PreparedFacts(models: seq<LocalModel>, records: seq<Identity>, answer: seq<Record>,
                      resolutions: seq<Resolution>, outcomes: nat -> Option<int>, base: nat, calls: seq<LocalModel>,
                      done: seq<Prepared>, i: nat)
    requires IsPreparation(models, records, answer, resolutions, outcomes, base, calls, done) && i < |done|
    ensures |done| == |records| && done[i].identity.DestinationKey() == records[i].DestinationKey()
    ensures done[i].identity.size == records[i].size && done[i].identity.sha256 == records[i].sha256
    ensures done[i].present == resolutions[i].present && (!done[i].present ==> done[i].result.Some?)
    ensures done[i].present && done[i].identity.sha256.Some? ==> resolutions[i].identity.sha256.Some?
  {
    hide Identity.DestinationKey, Acceptable, KeyLess, OutcomeAt, Absent;
    ResolutionKey(records, answer, resolutions, i);
    assert IsPrepared(models, resolutions, outcomes, base, i, done[i]);
    var ids := Identities(models);
    assert records[i] in records && IsFirst(ids, records[i]);
    var k :| 0 <= k < |ids| && ids[k] == records[i];
    var local := LocalFor(models, resolutions[i].identity.DestinationKey()).value;
    var m :| 0 <= m < |models| && models[m] == local;
    assert ids[m] == local.identity;
  }

  /** A model reported present has been shown to be there with the local size and hash. */
  lemma PresentIsVerified(models: seq<LocalModel>, records: seq<Identity>, answer: seq<Record>,
                          resolutions: seq<Resolution>, outcomes: nat -> Option<int>, base: nat,
                          calls: seq<LocalModel>, done: seq<Prepared>, i: nat)
    requires IsPreparation(models, records, answer, resolutions, outcomes, base, calls, done) && i < |done|
             && done[i].present
    ensures Shown(answer, done[i].identity)
  {
    PreparedFacts(models, records, answer, resolutions, outcomes, base, calls, done, i);
    assert ResolvedBy(records, answer, records[i].DestinationKey(), resolutions[i]);
    assert IsPrepared(models, resolutions, outcomes, base, i, done[i]);
    ManifestOfRecords(Identities(models), records);
    hide Identity.DestinationKey, Record.Key, IsManifest, NoConflict, Acceptable, IsPreparation, IsPrepared,
      AreResolutions;
    var r :| r in answer && r.Record? && r.Key() == records[i].DestinationKey() && Answers(records, r)
             && resolutions[i] == ResolutionOf(records, r);
    var expected := Expected(records, r.Key()).value;
    var k :| 0 <= k < |records| && records[k] == expected;
    assert k == i;
  }

  /** The results are in bijection with the distinct destinations of the local models. */
  lemma ResultsMatchDestinations(models: seq<LocalModel>, records: seq<Identity>, answer: seq<Record>,
                                 resolutions: seq<Resolution>, outcomes: nat -> Option<int>, base: nat,
                                 calls: seq<LocalModel>, done: seq<Prepared>)
    requires IsPreparation(models, records, answer, resolutions, outcomes, base, calls, done)
    ensures forall i, j :: 0 <= i < j < |done| ==>
              done[i].identity.DestinationKey() != done[j].identity.DestinationKey()
    ensures forall m <- models :: exists i :: 0 <= i < |done|
                                    && done[i].identity.DestinationKey() == m.identity.DestinationKey()
  {
    hide Identity.DestinationKey, Acceptable, KeyLess, IsPrepared, Absent;
    ManifestOfRecords(Identities(models), records);
    forall i, j | 0 <= i < j < |done| ensures done[i].identity.DestinationKey() != done[j].identity.DestinationKey() {
      PreparedFacts(models, records, answer, resolutions, outcomes, base, calls, done, i);
      PreparedFacts(models, records, answer, resolutions, outcomes, base, calls, done, j);
    }
    forall m <- models
      ensures exists i :: 0 <= i < |done| && done[i].identity.DestinationKey() == m.identity.DestinationKey()
    {
      var k :| 0 <= k < |models| && models[k] == m;
      var j := FirstFor(Identities(models), k);
      assert Identities(models)[j] in records;
      var i :| 0 <= i < |records| && records[i] == Identities(models)[j];
      PreparedFacts(models, records, answer, resolutions, outcomes, base, calls, done, i);
    }
  }

  ghost predicate ForAbsent(resolutions: seq<Resolution>, n: nat, c: LocalModel)
    requires n <= |resolutions|
  {
    exists i :: 0 <= i < n && !resolutions[i].present
      && c.identity.DestinationKey() == resolutions[i].identity.DestinationKey()
  }

  ghost predicate OneCallEach(calls: seq<LocalModel>) {
    forall a, b :: 0 <= a < b < |calls| ==> calls[a].identity.DestinationKey() != calls[b].identity.DestinationKey()
  }

  ghost predicate OnePerDestination(resolutions: seq<Resolution>) {
    forall i, j :: 0 <= i < j < |resolutions| ==>
      resolutions[i].identity.DestinationKey() != resolutions[j].identity.DestinationKey()
  }

  /** The calls are for different destinations, those of the absent models. */
  lemma {:induction false} AbsentAre(models: seq<LocalModel>, resolutions: seq<Resolution>, n: nat)
    requires n <= |resolutions| && OnePerDestination(resolutions)
    ensures var calls := Absent(models, resolutions, n);
            OneCallEach(calls) && forall c <- calls :: ForAbsent(resolutions, n, c)
    decreases n
  {
    hide Identity.DestinationKey, LocalFor;
    if n > 0 {
      AbsentAre(models, resolutions, n - 1);
      var before, more := Absent(models, resolutions, n - 1), CallsOf(models, resolutions[n - 1]);
      forall c <- before + more ensures ForAbsent(resolutions, n, c) {
        if c in before { assert ForAbsent(resolutions, n - 1, c); }
      }
      if more != [] {
        var last := more[0].identity.DestinationKey();
        assert more == [more[0]] && last == resolutions[n - 1].identity.DestinationKey();
        forall a | 0 <= a < |before| ensures before[a].identity.DestinationKey() != last {
          assert before[a] in before && ForAbsent(resolutions, n - 1, before[a]);
        }
      }
    }
  }

  lemma {:induction false} AbsentAreCalled(models: seq<LocalModel>, resolutions: seq<Resolution>, n: nat, i: nat)
    requires i < n <= |resolutions| && !resolutions[i].present
    requires LocalFor(models, resolutions[i].identity.DestinationKey()).Some?
    ensures LocalFor(models, resolutions[i].identity.DestinationKey()).value in Absent(models, resolutions, n)
    decreases n
  {
    hide Identity.DestinationKey, LocalFor;
    if i < n - 1 { AbsentAreCalled(models, resolutions, n - 1, i); }
  }

  /** Every absent model went through exactly one call of the coordinator, and no other model did. */
  lemma OneCallPerAbsent(models: seq<LocalModel>, records: seq<Identity>, answer: seq<Record>,
                         resolutions: seq<Resolution>, outcomes: nat -> Option<int>, base: nat,
                         calls: seq<LocalModel>, done: seq<Prepared>)
    requires IsPreparation(models, records, answer, resolutions, outcomes, base, calls, done)
    ensures OneCallEach(calls)
    ensures forall i :: 0 <= i < |done| && !done[i].present ==>
              exists c :: c in calls && c.identity.DestinationKey() == done[i].identity.DestinationKey()
    ensures |done| == |resolutions| && forall i :: 0 <= i < |done| ==>
              done[i].present == resolutions[i].present
              && resolutions[i].identity.DestinationKey() == done[i].identity.DestinationKey()
    ensures forall c <- calls :: ForAbsent(resolutions, |done|, c)
  {
    hide Identity.DestinationKey, Acceptable, KeyLess, IsPrepared, Absent, LocalFor;
    ManifestOfRecords(Identities(models), records);
    ResolutionsAreLocal(models, records, answer, resolutions);
    forall i | 0 <= i < |done|
      ensures resolutions[i].identity.DestinationKey() == records[i].DestinationKey()
              == done[i].identity.DestinationKey()
      ensures resolutions[i].present == done[i].present
    {
      ResolutionKey(records, answer, resolutions, i);
      PreparedFacts(models, records, answer, resolutions, outcomes, base, calls, done, i);
    }
    assert OnePerDestination(resolutions);
    AbsentAre(models, resolutions, |resolutions|);
    assert calls == Absent(models, resolutions, |resolutions|);
    forall i | 0 <= i < |resolutions| ensures LocalFor(models, resolutions[i].identity.DestinationKey()).Some? {
      assert resolutions[i] in resolutions;
    }
    forall i | 0 <= i < |done| && !done[i].present
      ensures exists c :: c in calls && c.identity.DestinationKey() == done[i].identity.DestinationKey()
    {
      AbsentAreCalled(models, resolutions, |resolutions|, i);
    }
  }
}
