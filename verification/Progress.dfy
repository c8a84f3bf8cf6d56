/** The progress mirror: throttled, coalesced updates of the true sum of peer and local progress. */
module Progress {
  import opened Wrappers
  import opened Prompts

  datatype Problem = Closed | BadNumbers | BadSequence | NoPrompt | NoNode | ForeignPrompt | UnknownNode | OutOfOrder

  datatype NodeIdentity = NodeIdentity(api: string, visible: bool)

  /** A payload's fields; `None` is a value, maximum or sequence that is not a finite number, or not an integer. */
  datatype Payload = Payload(prompt: string, node: string, value: Option<real>, max: Option<real>,
                             sequence: Option<Option<int>>)

  datatype Event = Event(prompt: string, node: string, value: real, max: real, sequence: Option<int>)

  predicate InRange(value: real, max: real) { 0.0 < max && 0.0 <= value <= max }

  function ProgressValues(value: Option<real>, max: Option<real>): (r: Result<(real, real), Problem>)
    ensures r.Success? <==> value.Some? && max.Some? && InRange(value.value, max.value)
    ensures r.Success? ==> r.value == (value.value, max.value)
  {
    if value.None? || max.None? then Failure(BadNumbers)
    else if max.value <= 0.0 then Failure(BadNumbers)
    else if value.value < 0.0 || value.value > max.value then Failure(BadNumbers)
    else Success((value.value, max.value))
  }

  function ParseEvent(p: Payload): (r: Result<Event, Problem>)
    ensures r.Success? ==>
            InRange(r.value.value, r.value.max) && r.value.prompt != "" && r.value.node != "" && r.value.node == p.node
  {
    match ProgressValues(p.value, p.max)
    case Failure(problem) => Failure(problem)
    case Success((value, max)) =>
      if p.sequence.Some? && (p.sequence.value.None? || p.sequence.value.value < 0) then Failure(BadSequence)
      else if p.prompt == "" then Failure(NoPrompt)
      else if p.node == "" then Failure(NoNode)
      else Success(Event(p.prompt, p.node, value, max, if p.sequence.Some? then p.sequence.value else None))
  }

  datatype Update = Update(node: string, value: real, max: real, first: bool, terminal: bool)

  datatype Cause = First | Terminal | Due | Forced

  /** One call of the emitter: why, when the clock was asked whether it was due, and when it was over. */
  datatype Sent = Sent(update: Update, cause: Cause, asked: real, stamp: real)

  /** What the mirror holds: contributions, and what it has told of them. */
  datatype View = View(peers: seq<string>, remote: map<string, Event>, local: map<string, (real, real)>,
                       pending: set<string>, emitted: set<string>, lastEmit: map<string, real>, sent: seq<Sent>)

  type Mapping = map<string, NodeIdentity>

  // ---- the true sum ----

  function Share(mapping: Mapping, remote: map<string, Event>, peer: string, api: string): (real, real) {
    if peer in mapping && mapping[peer].api == api && peer in remote then (remote[peer].value, remote[peer].max)
      else (0.0, 0.0)
  }

  function Plus(a: (real, real), b: (real, real)): (real, real) { (a.0 + b.0, a.1 + b.1) }

  function PeerSum(mapping: Mapping, peers: seq<string>, remote: map<string, Event>, api: string): (real, real) {
    if peers == [] then (0.0, 0.0)
    else Plus(PeerSum(mapping, peers[..|peers| - 1], remote, api), Share(mapping, remote, peers[|peers| - 1], api))
  }

  function LocalShare(local: map<string, (real, real)>, api: string): (real, real) {
    if api in local then local[api] else (0.0, 0.0)
  }

  /** What an API node's peers and its local work have contributed together. */
  function Aggregate(mapping: Mapping, v: View, api: string): (real, real) {
    Plus(PeerSum(mapping, v.peers, v.remote, api), LocalShare(v.local, api))
  }

  ghost predicate Contributes(mapping: Mapping, v: View, api: string) {
    api in v.local || exists peer :: peer in v.remote && peer in mapping && mapping[peer].api == api
  }

  // ---- what has been told ----

  function LastSent(sent: seq<Sent>, api: string): Option<Sent> {
    if sent == [] then None
    else if sent[|sent| - 1].update.node == api then Some(sent[|sent| - 1])
    else LastSent(sent[..|sent| - 1], api)
  }

  ghost predicate LessOrEqual(a: (real, real), b: (real, real)) { a.0 <= b.0 && a.1 <= b.1 }

  /** Two updates of one node: neither number falls, and one sent because it was due came a full interval later. */
  ghost predicate Follows(interval: real, a: Sent, b: Sent) {
    && a.update.value <= b.update.value && a.update.max <= b.update.max && a.stamp <= b.stamp
    && !b.update.first
    && (b.cause.Due? ==> b.asked - a.stamp >= interval)
  }

  ghost predicate History(interval: real, sent: seq<Sent>) {
    && (forall i :: 0 <= i < |sent| ==> Honest(sent[i]))
    && forall i, j :: 0 <= i < j < |sent| && sent[i].update.node == sent[j].update.node ==>
         Follows(interval, sent[i], sent[j])
  }

  ghost predicate Honest(s: Sent) {
    && InRange(s.update.value, s.update.max)
    && (s.update.terminal <==> s.update.value == s.update.max)
    && s.asked <= s.stamp
    && (s.cause.First? ==> s.update.first) && (s.cause.Terminal? ==> s.update.terminal)
  }

  /** The contributions are in range and belong to visible nodes. */
  ghost predicate Shape(mapping: Mapping, v: View) {
    && Enumerates(v.peers, v.remote.Keys)
    && (forall peer <- v.remote :: peer in mapping && InRange(v.remote[peer].value, v.remote[peer].max))
    && forall api <- v.local :: InRange(v.local[api].0, v.local[api].1)
  }

  /** The books agree with what was sent. */
  ghost predicate Booked(mapping: Mapping, v: View, api: string) {
    match LastSent(v.sent, api)
    case None => api !in v.emitted && api !in v.lastEmit && api !in v.pending
    case Some(s) =>
      && api in v.emitted && api in v.lastEmit && v.lastEmit[api] == s.stamp && Contributes(mapping, v, api)
      && LessOrEqual((s.update.value, s.update.max), Aggregate(mapping, v, api))
  }

  /** A node that contributes has been told of, and is told of again later unless the last update still holds. */
  ghost predicate Told(mapping: Mapping, v: View, api: string) {
    Contributes(mapping, v, api) ==>
      && api in v.emitted
      && (api in v.pending
          || (&& LastSent(v.sent, api).Some?
              && (LastSent(v.sent, api).value.update.value, LastSent(v.sent, api).value.update.max)
                 == Aggregate(mapping, v, api)))
  }

  ghost predicate Good(mapping: Mapping, interval: real, v: View, now: real) {
    && Shape(mapping, v) && History(interval, v.sent)
    && (forall api :: Booked(mapping, v, api))
    && (forall api :: Told(mapping, v, api))
    && forall i :: 0 <= i < |v.sent| ==> v.sent[i].stamp <= now
  }

  // ---- lemmas on sums ----

  lemma {:induction false} SumsInRange(mapping: Mapping, peers: seq<string>, remote: map<string, Event>, api: string)
    requires forall peer <- remote :: InRange(remote[peer].value, remote[peer].max)
    ensures 0.0 <= PeerSum(mapping, peers, remote, api).0 <= PeerSum(mapping, peers, remote, api).1
    ensures (exists peer :: peer in peers && peer in remote && peer in mapping && mapping[peer].api == api) ==>
              0.0 < PeerSum(mapping, peers, remote, api).1
    decreases |peers|
  {
    if peers != [] {
      SumsInRange(mapping, peers[..|peers| - 1], remote, api);
      if peer :| peer in peers && peer in remote && peer in mapping && mapping[peer].api == api {
        assert peer in peers[..|peers| - 1] || peer == peers[|peers| - 1];
      }
    }
  }

  /** A node that contributes has a positive maximum. */
  lemma AggregateInRange(mapping: Mapping, v: View, api: string)
    requires Shape(mapping, v) && Contributes(mapping, v, api)
    ensures InRange(Aggregate(mapping, v, api).0, Aggregate(mapping, v, api).1)
  {
    SumsInRange(mapping, v.peers, v.remote, api);
  }

  lemma {:induction false} SumsGrow(mapping: Mapping, peers: seq<string>, few: map<string, Event>,
                                    many: map<string, Event>, api: string)
    requires few.Keys <= many.Keys
    requires forall peer <- few :: few[peer].value <= many[peer].value && few[peer].max <= many[peer].max
    requires forall peer <- many :: peer !in few ==> InRange(many[peer].value, many[peer].max)
    ensures LessOrEqual(PeerSum(mapping, peers, few, api), PeerSum(mapping, peers, many, api))
    ensures (forall peer <- many :: (peer in few && few[peer] == many[peer])
               || !(peer in mapping && mapping[peer].api == api)) ==>
              PeerSum(mapping, peers, few, api) == PeerSum(mapping, peers, many, api)
    decreases |peers|
  {
    if peers != [] { SumsGrow(mapping, peers[..|peers| - 1], few, many, api); }
  }

  lemma PeerAppended(mapping: Mapping, peers: seq<string>, peer: string, remote: map<string, Event>, api: string)
    ensures PeerSum(mapping, peers + [peer], remote, api) ==
            Plus(PeerSum(mapping, peers, remote, api), Share(mapping, remote, peer, api))
  {
    assert (peers + [peer])[..|peers|] == peers;
  }

  /** What a peer has contributed, if anything. */
  function Given(remote: map<string, Event>, peer: string): (real, real) {
    if peer in remote then (remote[peer].value, remote[peer].max) else (0.0, 0.0)
  }

  function Minus(a: (real, real), b: (real, real)): (real, real) { (a.0 - b.0, a.1 - b.1) }

  lemma {:induction false} SumReplaces(mapping: Mapping, peers: seq<string>, remote: map<string, Event>, e: Event,
                                       api: string)
    requires forall i, j :: 0 <= i < j < |peers| ==> peers[i] != peers[j]
    ensures PeerSum(mapping, peers, remote[e.node := e], api) ==
            if e.node in peers && e.node in mapping && mapping[e.node].api == api then
              Plus(Minus(PeerSum(mapping, peers, remote, api), Given(remote, e.node)), (e.value, e.max))
            else PeerSum(mapping, peers, remote, api)
    decreases |peers|
  {
    if peers != [] {
      hide Plus, Minus, Share, Given;
      var front, last := peers[..|peers| - 1], peers[|peers| - 1];
      assert peers == front + [last];
      SumReplaces(mapping, front, remote, e, api);
      ShareReplaced(mapping, remote, last, e, api);
      PlusMinus(PeerSum(mapping, front, remote, api), Share(mapping, remote, last, api), Given(remote, e.node),
                (e.value, e.max));
    }
  }

  lemma ShareReplaced(mapping: Mapping, remote: map<string, Event>, peer: string, e: Event, api: string)
    ensures Share(mapping, remote[e.node := e], peer, api) ==
            if peer == e.node && peer in mapping && mapping[peer].api == api then (e.value, e.max)
            else Share(mapping, remote, peer, api)
    ensures peer in mapping && mapping[peer].api == api ==> Share(mapping, remote, peer, api) == Given(remote, peer)
  {
  }

  lemma PlusMinus(sum: (real, real), own: (real, real), was: (real, real), now: (real, real))
    ensures Plus(Plus(Minus(sum, was), now), own) == Plus(Minus(Plus(sum, own), was), now)
    ensures Plus(Plus(sum, now), own) == Plus(Minus(Plus(sum, own), (0.0, 0.0)), now)
    ensures Plus(sum, (0.0, 0.0)) == sum && Minus(Plus(sum, own), own) == sum
  {
  }

  lemma PeersReplace(mapping: Mapping, v: View, e: Event, api: string)
    requires Shape(mapping, v) && e.node in mapping
    ensures var w := WithPeer(v, e);
            PeerSum(mapping, w.peers, w.remote, api) ==
            if mapping[e.node].api == api then
              Plus(Minus(PeerSum(mapping, v.peers, v.remote, api), Given(v.remote, e.node)), (e.value, e.max))
            else PeerSum(mapping, v.peers, v.remote, api)
  {
    PeersDiffer(mapping, v);
    hide PeerSum, Shape, Plus, Minus;
    SumReplaces(mapping, v.peers, v.remote, e, api);
    if e.node !in v.remote {
      var sum := PeerSum(mapping, v.peers, v.remote, api);
      PeerAppended(mapping, v.peers, e.node, v.remote[e.node := e], api);
      PlusMinus(sum, (0.0, 0.0), (0.0, 0.0), (e.value, e.max));
    }
  }

  /** An event puts its numbers in the place of its peer's earlier ones, in the sum of that peer's node alone. */
  lemma EventCounts(mapping: Mapping, v: View, e: Event, api: string)
    requires Shape(mapping, v) && e.node in mapping
    ensures Aggregate(mapping, WithPeer(v, e), api) ==
            if mapping[e.node].api == api then
              Plus(Minus(Aggregate(mapping, v, api), Given(v.remote, e.node)), (e.value, e.max))
            else Aggregate(mapping, v, api)
  {
    hide PeerSum, Shape, LocalShare, Plus, Minus, Given;
    PeersReplace(mapping, v, e, api);
    PlusMinus(PeerSum(mapping, v.peers, v.remote, api), LocalShare(v.local, api), Given(v.remote, e.node),
              (e.value, e.max));
  }

  lemma PeersDiffer(mapping: Mapping, v: View)
    requires Shape(mapping, v)
    ensures forall peer :: peer in v.peers <==> peer in v.remote
    ensures forall i, j :: 0 <= i < j < |v.peers| ==> v.peers[i] != v.peers[j]
  {
  }

  /** So does local work, in the sum of its node alone. */
  lemma LocalCounts(mapping: Mapping, v: View, api: string, value: real, max: real, other: string)
    ensures var w := v.(local := v.local[api := (value, max)]);
            Aggregate(mapping, w, other) ==
            if other == api then
              Plus(Minus(Aggregate(mapping, v, api), LocalShare(v.local, api)), (value, max))
            else Aggregate(mapping, v, other)
  {
  }

  /** Without contributions the sum is nothing. */
  lemma NothingCounts(mapping: Mapping, v: View, api: string)
    requires v.peers == [] && v.local == map[]
    ensures Aggregate(mapping, v, api) == (0.0, 0.0)
  {
  }

  // ---- what the steps of the mirror do to the books ----

  /** After the contributions of `api` grew: everything is in order but for telling of it. */
  ghost predicate Owes(mapping: Mapping, interval: real, v: View, api: string, now: real) {
    && Shape(mapping, v) && History(interval, v.sent) && Contributes(mapping, v, api)
    && (forall other :: Booked(mapping, v, other))
    && (forall other :: other != api ==> Told(mapping, v, other))
    && forall i :: 0 <= i < |v.sent| ==> v.sent[i].stamp <= now
  }

  /** The contributions to one node grew, and nothing else changed. */
  ghost predicate Grew(mapping: Mapping, v: View, w: View, api: string) {
    && w == v.(peers := w.peers, remote := w.remote, local := w.local)
    && (forall other :: Contributes(mapping, v, other) ==> Contributes(mapping, w, other))
    && (forall other :: other != api && Contributes(mapping, w, other) ==> Contributes(mapping, v, other))
    && (forall other :: LessOrEqual(Aggregate(mapping, v, other), Aggregate(mapping, w, other)))
    && forall other :: other != api ==> Aggregate(mapping, v, other) == Aggregate(mapping, w, other)
  }

  lemma GrowthOwes(mapping: Mapping, interval: real, v: View, w: View, api: string, now: real)
    requires Good(mapping, interval, v, now) && Grew(mapping, v, w, api) && Shape(mapping, w)
             && Contributes(mapping, w, api)
    ensures Owes(mapping, interval, w, api, now)
  {
    hide Shape, History, Contributes, Aggregate;
    forall other ensures Booked(mapping, w, other) && (other != api ==> Told(mapping, w, other)) {
      assert Booked(mapping, v, other) && Told(mapping, v, other);
    }
  }

  function WithPeer(v: View, e: Event): View {
    v.(peers := if e.node in v.remote then v.peers else v.peers + [e.node], remote := v.remote[e.node := e])
  }

  lemma PeerGrows(mapping: Mapping, v: View, e: Event)
    requires Shape(mapping, v) && e.node in mapping && InRange(e.value, e.max)
    requires e.node in v.remote ==> v.remote[e.node].value <= e.value && v.remote[e.node].max <= e.max
    ensures Shape(mapping, WithPeer(v, e)) && Grew(mapping, v, WithPeer(v, e), mapping[e.node].api)
    ensures Contributes(mapping, WithPeer(v, e), mapping[e.node].api)
  {
    var w, api := WithPeer(v, e), mapping[e.node].api;
    forall other
      ensures LessOrEqual(Aggregate(mapping, v, other), Aggregate(mapping, w, other))
      ensures other != api ==> Aggregate(mapping, v, other) == Aggregate(mapping, w, other)
    {
      PeerSumWith(mapping, v, e, other);
    }
    assert e.node in w.remote;
    hide PeerSum, Aggregate, InRange;
    forall other | Contributes(mapping, v, other) ensures Contributes(mapping, w, other) {
      if other !in v.local {
        var peer :| peer in v.remote && peer in mapping && mapping[peer].api == other;
        assert peer in w.remote;
      }
    }
    forall other | other != api && Contributes(mapping, w, other) ensures Contributes(mapping, v, other) {
      if other !in w.local {
        var peer :| peer in w.remote && peer in mapping && mapping[peer].api == other;
        assert peer in v.remote;
      }
    }
  }

  lemma PeerSumWith(mapping: Mapping, v: View, e: Event, other: string)
    requires Shape(mapping, v) && e.node in mapping && InRange(e.value, e.max)
    requires e.node in v.remote ==> v.remote[e.node].value <= e.value && v.remote[e.node].max <= e.max
    ensures LessOrEqual(Aggregate(mapping, v, other), Aggregate(mapping, WithPeer(v, e), other))
    ensures other != mapping[e.node].api ==> Aggregate(mapping, v, other) == Aggregate(mapping, WithPeer(v, e), other)
  {
    hide PeerSum, InRange, Shape;
    var w := WithPeer(v, e);
    SumsWith(mapping, v.peers, v.remote, e, other);
    PeerAppended(mapping, v.peers, e.node, w.remote, other);
    ShareOf(mapping, v.remote, e, other);
  }

  lemma ShareOf(mapping: Mapping, remote: map<string, Event>, e: Event, other: string)
    requires e.node in mapping && InRange(e.value, e.max)
    ensures LessOrEqual((0.0, 0.0), Share(mapping, remote[e.node := e], e.node, other))
    ensures other != mapping[e.node].api ==> Share(mapping, remote[e.node := e], e.node, other) == (0.0, 0.0)
  {
  }

  lemma SumsWith(mapping: Mapping, peers: seq<string>, remote: map<string, Event>, e: Event, other: string)
    requires e.node in mapping && InRange(e.value, e.max)
    requires e.node in remote ==> remote[e.node].value <= e.value && remote[e.node].max <= e.max
    ensures LessOrEqual(PeerSum(mapping, peers, remote, other), PeerSum(mapping, peers, remote[e.node := e], other))
    ensures other != mapping[e.node].api ==>
            PeerSum(mapping, peers, remote, other) == PeerSum(mapping, peers, remote[e.node := e], other)
  {
    hide PeerSum;
    SumsGrow(mapping, peers, remote, remote[e.node := e], other);
  }

  lemma LocalGrows(mapping: Mapping, v: View, api: string, value: real, max: real)
    requires Shape(mapping, v) && InRange(value, max)
    requires api in v.local ==> v.local[api].0 <= value && v.local[api].1 <= max
    ensures var w := v.(local := v.local[api := (value, max)]);
            Shape(mapping, w) && Grew(mapping, v, w, api) && Contributes(mapping, w, api)
  {
    hide PeerSum;
  }

  lemma LastSentGrows(sent: seq<Sent>, s: Sent, api: string)
    ensures LastSent(sent + [s], api) == if s.update.node == api then Some(s) else LastSent(sent, api)
  {
    assert (sent + [s])[..|sent|] == sent;
  }

  lemma {:induction false} LastSentAt(sent: seq<Sent>, api: string) returns (k: nat)
    requires exists i :: 0 <= i < |sent| && sent[i].update.node == api
    ensures k < |sent| && sent[k].update.node == api && LastSent(sent, api) == Some(sent[k])
    ensures forall i :: 0 <= i < |sent| && sent[i].update.node == api ==> i <= k
    decreases |sent|
  {
    if sent[|sent| - 1].update.node == api {
      k := |sent| - 1;
    } else {
      var i :| 0 <= i < |sent| && sent[i].update.node == api;
      assert sent[..|sent| - 1][i] == sent[i];
      k := LastSentAt(sent[..|sent| - 1], api);
      forall j | 0 <= j < |sent| && sent[j].update.node == api ensures j <= k {
        assert sent[..|sent| - 1][j] == sent[j];
      }
    }
  }

  /** What follows the last update of its node follows all of them. */
  lemma HistoryGrows(interval: real, sent: seq<Sent>, s: Sent)
    requires History(interval, sent) && Honest(s)
    requires LastSent(sent, s.update.node).Some? ==> Follows(interval, LastSent(sent, s.update.node).value, s)
    ensures History(interval, sent + [s])
  {
    hide Honest;
    forall i | 0 <= i < |sent| && sent[i].update.node == s.update.node ensures Follows(interval, sent[i], s) {
      var k := LastSentAt(sent, s.update.node);
      if i < k { assert Follows(interval, sent[i], sent[k]); }
    }
  }

  /** The update that tells the present sum of a node. */
  function Telling(mapping: Mapping, v: View, api: string): Update {
    var sum := Aggregate(mapping, v, api);
    Update(api, sum.0, sum.1, api !in v.emitted, sum.0 == sum.1)
  }

  /** Why an update is told without being forced. */
  function CauseOf(u: Update): Cause { if u.first then First else if u.terminal then Terminal else Due }

  function WithSent(v: View, s: Sent): View {
    var api := s.update.node;
    v.(sent := v.sent + [s], lastEmit := v.lastEmit[api := s.stamp], emitted := v.emitted + {api},
       pending := v.pending - {api})
  }

  /** The emission tells the present sum of its node. */
  ghost predicate Tells(mapping: Mapping, interval: real, v: View, s: Sent, now: real) {
    var api := s.update.node;
    && (s.update.value, s.update.max) == Aggregate(mapping, v, api)
    && (s.update.terminal <==> s.update.value == s.update.max) && (s.update.first <==> api !in v.emitted)
    && (s.cause.First? ==> s.update.first) && (s.cause.Terminal? ==> s.update.terminal)
    && now <= s.asked <= s.stamp
    && (s.cause.Due? && api in v.lastEmit ==> s.asked - v.lastEmit[api] >= interval)
  }

  lemma EmissionGood(mapping: Mapping, interval: real, v: View, s: Sent, now: real)
    requires Owes(mapping, interval, v, s.update.node, now) && Tells(mapping, interval, v, s, now)
    ensures Good(mapping, interval, WithSent(v, s), s.stamp)
  {
    var w, api := WithSent(v, s), s.update.node;
    AggregateInRange(mapping, v, api);
    assert Booked(mapping, v, api);
    if LastSent(v.sent, api).Some? { LastIsBooked(mapping, interval, v, api, now); }
    hide Aggregate, Shape, Contributes, History, LastSent;
    HistoryGrows(interval, v.sent, s);
    forall other ensures Booked(mapping, w, other) && Told(mapping, w, other) {
      LastSentGrows(v.sent, s, other);
      SameContributions(mapping, v, w, other);
      assert Booked(mapping, v, other) && (other != api ==> Told(mapping, v, other));
    }
    SameShape(mapping, v, w);
  }

  lemma LastIsBooked(mapping: Mapping, interval: real, v: View, api: string, now: real)
    requires Owes(mapping, interval, v, api, now) && LastSent(v.sent, api).Some?
    ensures LastSent(v.sent, api).value.stamp <= now
  {
    LastSentIsSent(v.sent, api);
  }

  lemma {:induction false} LastSentIsSent(sent: seq<Sent>, api: string)
    requires LastSent(sent, api).Some?
    ensures exists i :: 0 <= i < |sent| && sent[i] == LastSent(sent, api).value && sent[i].update.node == api
    decreases |sent|
  {
    if sent[|sent| - 1].update.node != api { LastSentIsSent(sent[..|sent| - 1], api); }
  }

  lemma SameContributions(mapping: Mapping, v: View, w: View, api: string)
    requires w.peers == v.peers && w.remote == v.remote && w.local == v.local
    ensures Aggregate(mapping, v, api) == Aggregate(mapping, w, api)
    ensures Contributes(mapping, v, api) <==> Contributes(mapping, w, api)
  {
  }

  lemma SameShape(mapping: Mapping, v: View, w: View)
    requires w.peers == v.peers && w.remote == v.remote && w.local == v.local && Shape(mapping, v)
    ensures Shape(mapping, w)
  {
  }

  lemma PendingGood(mapping: Mapping, interval: real, v: View, api: string, now: real)
    requires Owes(mapping, interval, v, api, now) && api in v.emitted
    ensures Good(mapping, interval, v.(pending := v.pending + {api}), now)
  {
    var w := v.(pending := v.pending + {api});
    hide Aggregate, Shape, Contributes, History, LastSent;
    SameShape(mapping, v, w);
    forall other ensures Booked(mapping, w, other) && Told(mapping, w, other) {
      SameContributions(mapping, v, w, other);
      assert Booked(mapping, v, other) && (other != api ==> Told(mapping, v, other));
    }
  }

  /** A pending node contributes, so it can be told of. */
  lemma PendingOwes(mapping: Mapping, interval: real, v: View, api: string, now: real)
    requires Good(mapping, interval, v, now) && api in v.pending
    ensures Owes(mapping, interval, v, api, now)
  {
    hide Aggregate, Shape, History;
    assert Booked(mapping, v, api);
  }

  lemma LaterIsGood(mapping: Mapping, interval: real, v: View, now: real, later: real)
    requires now <= later
    ensures Good(mapping, interval, v, now) ==> Good(mapping, interval, v, later)
    ensures forall api :: Owes(mapping, interval, v, api, now) ==> Owes(mapping, interval, v, api, later)
  {
    hide Shape, History, Booked, Told, Contributes;
  }

  // ---- the mirror ----

  /** The emitter was called with these updates, in this order. */
  ghost predicate Sends(before: seq<Sent>, after: seq<Sent>, updates: seq<Update>) {
    && |after| == |before| + |updates| && after[..|before|] == before
    && forall k :: 0 <= k < |updates| ==> after[|before| + k].update == updates[k]
  }

  /** The clock was asked during the call, and an interval had passed since the node's last emission. */
  ghost predicate WasDue(lastEmit: map<string, real>, interval: real, s: Sent, from: real, to: real) {
    from <= s.asked <= to && s.update.node in lastEmit && s.asked - lastEmit[s.update.node] >= interval
  }

  /**
   * What a change of a node leads to, whatever the emission is called: an update exactly if it is the first, if the
   * contributions are complete, or if an interval has passed; it tells the new sum. Otherwise the node is pending.
   */
  ghost predicate Throttled(mapping: Mapping, interval: real, before: View, after: View, api: string, now: real,
                            update: Option<Update>)
  {
    var sum := Aggregate(mapping, after, api);
    && (update.Some? <==>
          || api !in before.emitted
          || sum.0 == sum.1
          || !(api in before.lastEmit && now - before.lastEmit[api] < interval))
    && (update.Some? ==>
          && update.value == Update(api, sum.0, sum.1, api !in before.emitted, sum.0 == sum.1)
          && |after.sent| == |before.sent| + 1 && after.sent[|before.sent|].cause == CauseOf(update.value))
    && (update.None? ==> api in after.pending)
  }

  lemma SameThrottled(mapping: Mapping, interval: real, before: View, grown: View, after: View, api: string, now: real,
                      update: Option<Update>)
    requires Throttled(mapping, interval, grown, after, api, now, update)
    requires before.emitted == grown.emitted && before.lastEmit == grown.lastEmit && before.sent == grown.sent
    ensures Throttled(mapping, interval, before, after, api, now, update)
  {
    hide Aggregate;
  }

  /** The emissions of a flush: all forced, or each of a node for which an interval had passed. */
  ghost predicate Flushed(lastEmit: map<string, real>, interval: real, force: bool, sent: seq<Sent>, since: nat,
                          from: real, to: real)
  {
    forall k :: since <= k < |sent| ==>
      if force then sent[k].cause == Forced else sent[k].cause == Due && WasDue(lastEmit, interval, sent[k], from, to)
  }

  lemma FlushedMore(lastEmit: map<string, real>, interval: real, force: bool, sent: seq<Sent>, more: seq<Sent>,
                    since: nat, from: real, to: real, later: real)
    requires Flushed(lastEmit, interval, force, sent, since, from, to) && to <= later && sent <= more
             && |more| <= |sent| + 1
    requires |more| == |sent| + 1 ==>
               if force then more[|sent|].cause == Forced
               else more[|sent|].cause == Due && WasDue(lastEmit, interval, more[|sent|], from, later)
    ensures Flushed(lastEmit, interval, force, more, since, from, later)
  {
  }

  function Listed(update: Option<Update>): seq<Update> { if update.Some? then [update.value] else [] }

  lemma SendsOn(first: seq<Sent>, second: seq<Sent>, third: seq<Sent>, some: seq<Update>, more: seq<Update>)
    requires Sends(first, second, some) && Sends(second, third, more)
    ensures Sends(first, third, some + more)
  {
    assert third[..|first|] == second[..|first|];
    forall k | 0 <= k < |some + more| ensures third[|first| + k].update == (some + more)[k] {
      if k < |some| {
        assert third[|first| + k] == second[|first| + k];
      } else {
        assert third[|second| + (k - |some|)].update == more[k - |some|];
      }
    }
  }

  function NodesOf(updates: seq<Update>): set<string> { set u | u in updates :: u.node }

  lemma NodesAppended(updates: seq<Update>, u: Update)
    ensures NodesOf(updates + [u]) == NodesOf(updates) + {u.node}
  {
  }

  lemma OneSent(sent: seq<Sent>, s: Sent)
    ensures Sends(sent, sent + [s], [s.update])
  {
  }

  lemma NodesListed(updates: seq<Update>, update: Option<Update>)
    ensures NodesOf(updates + Listed(update)) == NodesOf(updates) + if update.Some? then {update.value.node} else {}
  {
    if update.Some? { NodesAppended(updates, update.value); } else { assert updates + [] == updates; }
  }

  lemma NothingFlushed(lastEmit: map<string, real>, interval: real, force: bool, sent: seq<Sent>, now: real)
    ensures Flushed(lastEmit, interval, force, sent, |sent|, now, now)
  {
  }

  predicate SameEmit(now: map<string, real>, before: map<string, real>, api: string) {
    (api in now <==> api in before) && (api in now ==> now[api] == before[api])
  }

  lemma NothingSent(sent: seq<Sent>)
    ensures Sends(sent, sent, []) && NodesOf([]) == {}
  {
  }

  /** A monotonic clock. */
  class Clock {
    const readings: nat -> real
    var next: nat

    ghost predicate Rises() { forall i: nat, j: nat :: i <= j ==> readings(i) <= readings(j) }

    /** No later reading is earlier than this. */
    function Now(): real reads this { readings(next) }

    constructor (readings: nat -> real)
      ensures this.readings == readings
    {
      this.readings, next := readings, 0;
    }

    method Read() returns (now: real)
      requires Rises()
      modifies this
      ensures now == old(Now()) && now <= Now() && next == old(next) + 1
    {
      now := readings(next);
      next := next + 1;
    }
  }

  class Mirror {
    const remotePrompt: string
    const mapping: Mapping
    const interval: real
    const clock: Clock
    var peers: seq<string>
    var remote: map<string, Event>
    var local: map<string, (real, real)>
    var lastSequence: map<string, int>
    var pending: set<string>
    var emitted: set<string>
    var lastEmit: map<string, real>
    var closed: bool
    var sent: seq<Sent>         // the calls of the emitter

    function Board(): View
      reads this
    {
      View(peers, remote, local, pending, emitted, lastEmit, sent)
    }

    ghost predicate Valid()
      reads this, clock
    {
      clock.Rises() && (!closed ==> Good(mapping, interval, Board(), clock.Now()))
    }

    constructor (remotePrompt: string, mapping: Mapping, updatesPerSecond: real, clock: Clock)
      requires clock.Rises() && 0.0 < updatesPerSecond
      ensures Valid() && !closed && sent == [] && this.mapping == mapping && this.clock == clock
      ensures interval == 1.0 / updatesPerSecond
    {
      this.remotePrompt, this.mapping, this.clock := remotePrompt, mapping, clock;
      interval := 1.0 / updatesPerSecond;
      peers, remote, local, lastSequence := [], map[], map[], map[];
      pending, emitted, lastEmit, closed, sent := {}, {}, map[], false, [];
    }

    predicate Stale(e: Event)
      reads this
    {
      || (e.sequence.Some? && e.node in lastSequence && e.sequence.value <= lastSequence[e.node])
      || (e.node in remote && (e.value < remote[e.node].value || e.max < remote[e.node].max))
    }

    /** Why a payload is refused, if it is. */
    function Refusal(payload: Payload): Option<Problem>
      reads this
    {
      if closed then Some(Closed)
      else
        match ParseEvent(payload)
        case Failure(problem) => Some(problem)
        case Success(e) =>
          if e.prompt != remotePrompt then Some(ForeignPrompt)
          else if e.node !in mapping then Some(UnknownNode)
          else if mapping[e.node].visible && Stale(e) then Some(OutOfOrder)
          else None
    }

    /** At time `now` the last emission for a node is less than an interval ago. */
    predicate TooSoon(api: string, now: real)
      reads this
    {
      api in lastEmit && now - lastEmit[api] < interval
    }

    /** Adds up what the peers and the local work have contributed to a node. */
    method Aggregated(api: string) returns (value: real, max: real)
      requires forall peer <- peers :: peer in remote && peer in mapping
      ensures (value, max) == Aggregate(mapping, Board(), api)
    {
      value, max := 0.0, 0.0;
      for i := 0 to |peers|
        invariant (value, max) == PeerSum(mapping, peers[..i], remote, api)
      {
        var peer := peers[i];
        assert peers[..i + 1][..i] == peers[..i];
        if mapping[peer].api == api {
          value, max := value + remote[peer].value, max + remote[peer].max;
        }
      }
      assert peers[..|peers|] == peers;
      if api in local { value, max := value + local[api].0, max + local[api].1; }
    }

    /** Whether a minimum interval has passed since the last emission, and when the clock was asked. */
    method IsDue(api: string) returns (due: bool, asked: Option<real>)
      requires clock.Rises()
      modifies clock
      ensures old(clock.Now()) <= clock.Now()
      ensures due && api in lastEmit ==>
                && asked.Some? && old(clock.Now()) <= asked.value <= clock.Now()
                  && asked.value - lastEmit[api] >= interval
      ensures api !in lastEmit ==> asked.None?
      ensures due <==> !TooSoon(api, old(clock.Now()))
    {
      if api !in lastEmit { return true, None; }
      var now := clock.Read();
      due, asked := now - lastEmit[api] >= interval, Some(now);
    }

    /** Emits the present sum of a node. */
    method Emit(api: string, cause: Cause, asked: Option<real>, ghost since: real) returns (update: Option<Update>)
      requires clock.Rises() && Owes(mapping, interval, Board(), api, since) && since <= clock.Now()
      requires cause.First? ==> api !in emitted
      requires cause.Terminal? ==> Aggregate(mapping, Board(), api).0 == Aggregate(mapping, Board(), api).1
      requires asked.Some? ==> since <= asked.value <= clock.Now()
      requires cause.Due? && api in lastEmit ==> asked.Some? && asked.value - lastEmit[api] >= interval
      modifies this`sent, this`lastEmit, this`emitted, this`pending, clock
      ensures Good(mapping, interval, Board(), clock.Now()) && old(clock.Now()) <= clock.Now()
      ensures update.Some? && update.value.node == api && Sends(old(sent), sent, [update.value])
      ensures update.value == Telling(mapping, old(Board()), api)
      ensures |sent| == |old(sent)| + 1 && old(sent) <= sent
      ensures var s := sent[|old(sent)|];
              s.update == update.value && s.cause == cause && (asked.Some? ==> s.asked == asked.value)
                && old(clock.Now()) <= s.stamp <= clock.Now()
      ensures emitted == old(emitted) + {api} && pending == old(pending) - {api}
      ensures api in lastEmit && lastEmit == old(lastEmit)[api := lastEmit[api]]
    {
      hide Good, Owes, Aggregate, Sends;
      PeersKnown(mapping, interval, Board(), api, since);
      var value, max := Aggregated(api);
      if max <= 0.0 { return None; }
      var u := Update(api, value, max, api !in emitted, value == max);
      var stamp := clock.Read();
      var s := Sent(u, cause, if asked.Some? then asked.value else stamp, stamp);
      ghost var before := Board();
      EmissionGood(mapping, interval, before, s, since);
      sent := sent + [s];
      lastEmit := lastEmit[api := stamp];
      emitted := emitted + {api};
      pending := pending - {api};
      assert Board() == WithSent(before, s);
      OneSent(before.sent, s);
      LaterIsGood(mapping, interval, Board(), stamp, clock.Now());
      update := Some(u);
    }

    /** Emits what changed at once if it is the first, the last, or due; otherwise keeps it for later. */
    method ConsiderEmit(api: string) returns (update: Option<Update>)
      requires clock.Rises() && Owes(mapping, interval, Board(), api, clock.Now())
      modifies this`sent, this`lastEmit, this`emitted, this`pending, clock
      ensures Good(mapping, interval, Board(), clock.Now())
      ensures Sends(old(sent), sent, Listed(update)) && (update.None? ==> api in pending)
      ensures Throttled(mapping, interval, old(Board()), Board(), api, old(clock.Now()), update)
    {
      hide Good, Owes, Aggregate, Sends;
      NothingSent(sent);
      ghost var before := Board();
      ghost var since := clock.Now();
      PeersKnown(mapping, interval, Board(), api, since);
      var value, max := Aggregated(api);
      if api !in emitted {
        update := Emit(api, First, None, since);
      } else if value == max {
        update := Emit(api, Terminal, None, since);
      } else {
        var due, asked := IsDue(api);
        LaterIsGood(mapping, interval, Board(), since, clock.Now());
        if due {
          update := Emit(api, Due, asked, since);
        } else {
          PendingGood(mapping, interval, Board(), api, clock.Now());
          pending := pending + {api};
          update := None;
        }
      }
      SameContributions(mapping, before, Board(), api);
    }

    /** Mirrors one remote event, or refuses it and changes nothing. */
    method Ingest(payload: Payload) returns (r: Result<Option<Update>, Problem>)
      requires Valid()
      modifies this`peers, this`remote, this`lastSequence, this`sent, this`lastEmit, this`emitted, this`pending, clock
      ensures Valid() && closed == old(closed)
      ensures r.Success? <==>
                && !closed && payload.prompt == remotePrompt && payload.prompt != ""
                && payload.node in mapping && payload.node != ""
                && payload.value.Some? && payload.max.Some? && 0.0 <= payload.value.value <= payload.max.value
                && 0.0 < payload.max.value
                && (payload.sequence.Some? ==> payload.sequence.value.Some? && 0 <= payload.sequence.value.value)
                && (mapping[payload.node].visible ==>
                      && (payload.sequence.Some? && payload.node in old(lastSequence) ==>
                            old(lastSequence)[payload.node] < payload.sequence.value.value)
                      && (payload.node in old(remote) ==>
                            && old(remote)[payload.node].value <= payload.value.value
                            && old(remote)[payload.node].max <= payload.max.value))
      ensures r.Failure? <==> old(Refusal(payload)).Some?
      ensures r.Failure? ==>
              old(Refusal(payload)) == Some(r.error) && Board() == old(Board()) && lastSequence == old(lastSequence)
      ensures forall node <- old(lastSequence) ::
                node in lastSequence && old(lastSequence)[node] <= lastSequence[node]
      ensures r.Success? ==>
                var e := Event(payload.prompt, payload.node, payload.value.value, payload.max.value,
                               if payload.sequence.Some? then payload.sequence.value else None);
                if mapping[e.node].visible then
                  && remote == old(remote)[e.node := e] && local == old(local)
                  && lastSequence == (if e.sequence.Some? then old(lastSequence)[e.node := e.sequence.value]
                                      else old(lastSequence))
                else Board() == old(Board()) && lastSequence == old(lastSequence)
      ensures r.Success? ==> Sends(old(sent), sent, Listed(r.value))
      ensures r.Success? && mapping[payload.node].visible ==>
                Throttled(mapping, interval, old(Board()), Board(), mapping[payload.node].api, old(clock.Now()),
                          r.value)
    {
      hide Good, Owes, Grew, Shape, Contributes, Aggregate, InRange, Sends, Throttled;
      NothingSent(sent);
      if closed { return Failure(Closed); }
      var parsed := ParseEvent(payload);
      if parsed.Failure? { return Failure(parsed.error); }
      var e := parsed.value;
      if e.prompt != remotePrompt { return Failure(ForeignPrompt); }
      if e.node !in mapping { return Failure(UnknownNode); }
      if !mapping[e.node].visible { return Success(None); }
      if Stale(e) { return Failure(OutOfOrder); }
      ghost var before := Board();
      GoodShape(mapping, interval, before, clock.Now());
      PeerGrows(mapping, before, e);
      GrowthOwes(mapping, interval, before, WithPeer(before, e), mapping[e.node].api, clock.Now());
      if e.node !in remote { peers := peers + [e.node]; }
      remote := remote[e.node := e];
      if e.sequence.Some? { lastSequence := lastSequence[e.node := e.sequence.value]; }
      assert Board() == WithPeer(before, e);
      ghost var now := clock.Now();
      var update := ConsiderEmit(mapping[e.node].api);
      SameThrottled(mapping, interval, before, WithPeer(before, e), Board(), mapping[e.node].api, now, update);
      r := Success(update);
    }

    /** Adds local work to the same sum, or refuses it and changes nothing. */
    method SetLocalProgress(api: string, value: Option<real>, max: Option<real>)
      returns (r: Result<Option<Update>, Problem>)
      requires Valid()
      modifies this`local, this`sent, this`lastEmit, this`emitted, this`pending, clock
      ensures Valid() && closed == old(closed)
      ensures r.Success? <==>
                && !closed && api != "" && (exists peer :: peer in mapping && mapping[peer].api == api)
                && value.Some? && max.Some? && InRange(value.value, max.value)
                && (api in old(local) ==> old(local)[api].0 <= value.value && old(local)[api].1 <= max.value)
      ensures r.Failure? ==> Board() == old(Board())
      ensures r.Success? ==> local == old(local)[api := (value.value, max.value)] && remote == old(remote)
      ensures r.Success? ==> Sends(old(sent), sent, Listed(r.value))
      ensures r.Success? ==> Throttled(mapping, interval, old(Board()), Board(), api, old(clock.Now()), r.value)
    {
      hide Good, Owes, Grew, Shape, Contributes, Aggregate, Sends, Throttled;
      if closed { return Failure(Closed); }
      if api == "" { return Failure(NoNode); }
      if !(exists peer :: peer in mapping && mapping[peer].api == api) { return Failure(UnknownNode); }
      var values := ProgressValues(value, max);
      if values.Failure? { return Failure(values.error); }
      if api in local && (value.value < local[api].0 || max.value < local[api].1) { return Failure(OutOfOrder); }
      ghost var before := Board();
      GoodShape(mapping, interval, before, clock.Now());
      LocalGrows(mapping, before, api, value.value, max.value);
      ghost var grown := before.(local := before.local[api := (value.value, max.value)]);
      GrowthOwes(mapping, interval, before, grown, api, clock.Now());
      local := local[api := (value.value, max.value)];
      assert Board() == grown;
      ghost var now := clock.Now();
      var update := ConsiderEmit(api);
      SameThrottled(mapping, interval, before, grown, Board(), api, now, update);
      r := Success(update);
    }

    /** Emits the pending nodes that are due, or all of them. */
    method Flush(force: bool) returns (r: Result<seq<Update>, Problem>)
      requires Valid()
      modifies this`sent, this`lastEmit, this`emitted, this`pending, clock
      ensures Valid() && closed == old(closed)
      ensures r.Failure? <==> closed
      ensures r.Failure? ==> Board() == old(Board())
      ensures r.Success? ==> Sends(old(sent), sent, r.value) && pending == old(pending) - NodesOf(r.value)
      ensures r.Success? ==> forall api <- pending :: !force && TooSoon(api, old(clock.Now()))
      ensures r.Success? ==>
                Flushed(old(lastEmit), interval, force, sent, |old(sent)|, old(clock.Now()), clock.Now())
    {
      hide Good, Owes, Aggregate, Sends, NodesOf, Flushed;
      if closed { return Failure(Closed); }
      NothingSent(sent);
      NothingFlushed(lastEmit, interval, force, sent, clock.Now());
      var ids := Enumerate(pending);
      var updates: seq<Update> := [];
      for i := 0 to |ids|
        invariant Good(mapping, interval, Board(), clock.Now())
        invariant Sends(old(sent), sent, updates) && pending == old(pending) - NodesOf(updates)
        invariant forall k :: i <= k < |ids| ==> ids[k] in pending && SameEmit(lastEmit, old(lastEmit), ids[k])
        invariant old(clock.Now()) <= clock.Now()
        invariant Flushed(old(lastEmit), interval, force, sent, |old(sent)|, old(clock.Now()), clock.Now())
        invariant forall id <- pending :: id in ids[i..] || (!force && TooSoon(id, old(clock.Now())))
      {
        assert ids[i..] == [ids[i]] + ids[i + 1..];
        ghost var was, began, mid := sent, clock.Now(), lastEmit;
        var update := FlushOne(ids[i], force);
        forall k | i < k < |ids| ensures SameEmit(lastEmit, old(lastEmit), ids[k]) {
          assert ids[k] != ids[i] && SameEmit(lastEmit, mid, ids[k]) && SameEmit(mid, old(lastEmit), ids[k]);
        }
        assert SameEmit(mid, old(lastEmit), ids[i]);
        forall id <- pending ensures id in ids[i + 1..] || (!force && TooSoon(id, old(clock.Now()))) {
          assert SameEmit(lastEmit, mid, id);
        }
        FlushedMore(old(lastEmit), interval, force, was, sent, |old(sent)|, old(clock.Now()), began, clock.Now());
        SendsOn(old(sent), was, sent, updates, Listed(update));
        NodesListed(updates, update);
        updates := updates + Listed(update);
      }
      r := Success(updates);
    }

    /** Emits a pending node if that is forced or due. */
    method FlushOne(api: string, force: bool) returns (update: Option<Update>)
      requires clock.Rises() && Good(mapping, interval, Board(), clock.Now()) && api in pending
      modifies this`sent, this`lastEmit, this`emitted, this`pending, clock
      ensures Good(mapping, interval, Board(), clock.Now()) && old(clock.Now()) <= clock.Now()
      ensures Sends(old(sent), sent, Listed(update)) && (update.Some? ==> update.value.node == api)
      ensures old(sent) <= sent && |sent| == |old(sent)| + |Listed(update)|
      ensures update.Some? <==> force || !old(TooSoon(api, clock.Now()))
      ensures update.Some? ==>
                && sent[|old(sent)|].update.node == api
                && if force then sent[|old(sent)|].cause == Forced
                else sent[|old(sent)|].cause == Due
                     && WasDue(old(lastEmit), interval, sent[|old(sent)|], old(clock.Now()), clock.Now())
      ensures pending == old(pending) - (if update.Some? then {api} else {})
      ensures forall other :: other != api || update.None? ==> SameEmit(lastEmit, old(lastEmit), other)
    {
      BookedLast(mapping, interval, Board(), clock.Now(), api);
      hide Good, Owes, Aggregate, Booked, Told;
      PendingOwes(mapping, interval, Board(), api, clock.Now());
      ghost var since := clock.Now();
      var due, asked := true, None;
      if !force {
        due, asked := IsDue(api);
        LaterIsGood(mapping, interval, Board(), since, clock.Now());
      }
      if due {
        update := Emit(api, if force then Forced else Due, asked, since);
      } else {
        NothingSent(sent);
        update := None;
      }
    }

    /** `succeed`, `fail` and `cancel` all forget everything. */
    method Clear()
      modifies this
      ensures closed && View([], map[], map[], {}, {}, map[], sent) == Board() && lastSequence == map[]
              && sent == old(sent)
    {
      peers, remote, local, lastSequence, lastEmit := [], map[], map[], map[], map[];
      pending, emitted, closed := {}, {}, true;
    }
  }

  lemma PeersKnown(mapping: Mapping, interval: real, v: View, api: string, now: real)
    requires Owes(mapping, interval, v, api, now)
    ensures forall peer <- v.peers :: peer in v.remote && peer in mapping
    ensures InRange(Aggregate(mapping, v, api).0, Aggregate(mapping, v, api).1)
  {
    AggregateInRange(mapping, v, api);
  }

  lemma BookedLast(mapping: Mapping, interval: real, v: View, now: real, api: string)
    requires Good(mapping, interval, v, now) && api in v.pending
    ensures api in v.lastEmit
  {
    hide Aggregate, Shape, History, Contributes;
    assert Booked(mapping, v, api);
  }

  lemma GoodShape(mapping: Mapping, interval: real, v: View, now: real)
    requires Good(mapping, interval, v, now)
    ensures Shape(mapping, v)
  {
  }

  // ---- what a good mirror guarantees ----

  /**
   * Coalescing loses nothing: a contributing node has been told of, and unless it is pending its last update is the
   * true sum.
   */
  lemma NothingIsLost(mapping: Mapping, interval: real, v: View, now: real, api: string)
    requires Good(mapping, interval, v, now) && Contributes(mapping, v, api)
    ensures api in v.emitted && LastSent(v.sent, api).Some?
    ensures InRange(Aggregate(mapping, v, api).0, Aggregate(mapping, v, api).1)
    ensures api !in v.pending ==>
              (LastSent(v.sent, api).value.update.value, LastSent(v.sent, api).value.update.max) ==
              Aggregate(mapping, v, api)
  {
    assert Booked(mapping, v, api) && Told(mapping, v, api);
    AggregateInRange(mapping, v, api);
  }

  /**
   * Updates of one node never fall, only its first is called first, and one neither terminal nor forced comes an
   * interval later.
   */
  lemma UpdatesRiseAndKeepDistance(mapping: Mapping, interval: real, v: View, now: real, i: nat, j: nat)
    requires Good(mapping, interval, v, now) && i < j < |v.sent| && v.sent[i].update.node == v.sent[j].update.node
    ensures v.sent[i].update.value <= v.sent[j].update.value <= v.sent[j].update.max
    ensures v.sent[i].update.max <= v.sent[j].update.max && 0.0 < v.sent[i].update.max
    ensures !v.sent[j].update.first && !v.sent[j].cause.First?
    ensures !v.sent[j].update.terminal && !v.sent[j].cause.Forced? ==> v.sent[j].stamp - v.sent[i].stamp >= interval
    ensures v.sent[j].update.terminal <==> v.sent[j].update.value == v.sent[j].update.max
  {
    assert Follows(interval, v.sent[i], v.sent[j]) && Honest(v.sent[i]) && Honest(v.sent[j]);
  }
}
