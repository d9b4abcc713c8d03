/** Whole runs of the command server: every accepted command is completed exactly once, at
    most one acknowledgement each, and duplicates only repeat what was published. */
module MqttRuns {
  import opened Wrappers
  import opened MqttServerModel

  // ---------------- counting what was published ----------------

  predicate IsAck(p: Pub, id: Id) {
    p.original && p.cmdId == id && p.payload.AckPayload?
  }

  predicate IsDone(p: Pub, id: Id) {
    p.original && p.cmdId == id && p.payload.DonePayload?
  }

  /** Original acknowledgements of a command. */
  function Acks(log: seq<Pub>, id: Id): nat {
    if log == [] then 0
    else Acks(log[..|log| - 1], id) + (if IsAck(log[|log| - 1], id) then 1 else 0)
  }

  /** Original completions of a command. */
  function Dones(log: seq<Pub>, id: Id): nat {
    if log == [] then 0
    else Dones(log[..|log| - 1], id) + (if IsDone(log[|log| - 1], id) then 1 else 0)
  }

  lemma CountsAppend(log: seq<Pub>, p: Pub)
    ensures forall id :: Acks(log + [p], id) == Acks(log, id) + (if IsAck(p, id) then 1 else 0)
    ensures forall id :: Dones(log + [p], id) == Dones(log, id) + (if IsDone(p, id) then 1 else 0)
  {
    assert (log + [p])[..|log|] == log;
  }

  predicate Known(log: seq<Pub>, id: Id, payload: Payload) {
    exists i :: 0 <= i < |log| && log[i].cmdId == id && log[i].payload == payload
  }

  predicate KnownOption(log: seq<Pub>, id: Id, payload: Option<Payload>) {
    payload.Some? ==> Known(log, id, payload.value)
  }

  lemma KnownGrows(log: seq<Pub>, p: Pub)
    ensures forall id, payload :: Known(log, id, payload) ==> Known(log + [p], id, payload)
    ensures Known(log + [p], p.cmdId, p.payload)
  {
    forall id, payload | Known(log, id, payload)
      ensures Known(log + [p], id, payload)
    {
      var i :| 0 <= i < |log| && log[i].cmdId == id && log[i].payload == payload;
      assert (log + [p])[i] == log[i];
    }
    assert (log + [p])[|log|] == p;
  }

  // ---------------- the invariant, with at most one stream in hand ----------------

  /** The stream that a method is working on, if any; the map's own copy of it is stale. */
  type Hand = Option<Stream>

  predicate InHand(hand: Hand, id: Id) {
    hand.Some? && hand.value.cmdId == id
  }

  /** The command was taken up and its completion is still to come. */
  predicate Outstanding(streams: map<Id, Stream>, pending: seq<Pending>, hand: Hand, id: Id) {
    if InHand(hand, id) then !hand.value.donePublished else id in streams || HasPending(pending, id)
  }

  predicate AckDue(streams: map<Id, Stream>, hand: Hand, id: Id) {
    if InHand(hand, id) then !hand.value.ackPublished else id in streams && !streams[id].ackPublished
  }

  /** A stream in the map is unfinished, and what it caches was published. */
  predicate StreamOk(log: seq<Pub>, recent: seq<Cached>, pending: seq<Pending>, key: Id, st: Stream) {
    && st.cmdId == key && !st.donePublished
    && (st.ackPublished <==> st.ackPayload.Some?) && KnownOption(log, key, st.ackPayload)
    && !HasRecent(recent, key) && !HasPending(pending, key)
  }

  ghost predicate StreamsOk(streams: map<Id, Stream>, log: seq<Pub>, recent: seq<Cached>, pending: seq<Pending>, hand: Hand) {
    forall key :: key in streams && !InHand(hand, key) ==> StreamOk(log, recent, pending, key, streams[key])
  }

  /** Streams are bound to different internal ids. */
  ghost predicate BindingsOk(streams: map<Id, Stream>, hand: Hand) {
    && (forall j, k :: j in streams && k in streams && j != k && !InHand(hand, j) && !InHand(hand, k) ==>
          streams[j].msgId == "" || streams[j].msgId != streams[k].msgId)
    && (hand.Some? && hand.value.msgId != "" ==>
          forall key :: key in streams && !InHand(hand, key) ==> streams[key].msgId != hand.value.msgId)
  }

  ghost predicate HandOk(log: seq<Pub>, recent: seq<Cached>, pending: seq<Pending>, hand: Hand, capacity: nat) {
    hand.Some? ==>
      var st := hand.value;
      && (st.ackPublished <==> st.ackPayload.Some?) && KnownOption(log, st.cmdId, st.ackPayload)
      && (HasRecent(recent, st.cmdId) <==> st.donePublished && capacity >= 1)
      && !HasPending(pending, st.cmdId)
  }

  ghost predicate PendingOk(pending: seq<Pending>, log: seq<Pub>, recent: seq<Cached>) {
    && (forall i :: 0 <= i < |pending| ==>
          pending[i].ackPayload.Some? && Known(log, pending[i].cmdId, pending[i].ackPayload.value) && !HasRecent(recent, pending[i].cmdId))
    && (forall i, j :: 0 <= i < j < |pending| ==> pending[i].cmdId != pending[j].cmdId)
  }

  predicate CachedKnown(log: seq<Pub>, c: Cached) {
    KnownOption(log, c.cmdId, c.ackPayload) && Known(log, c.cmdId, c.completionPayload)
  }

  /** The cache holds the newest completions, each command once. */
  ghost predicate RecentOk(recent: seq<Cached>, records: seq<Id>, capacity: nat) {
    && |recent| == (if |records| <= capacity then |records| else capacity)
    && (forall i :: 0 <= i < |recent| ==> recent[i].cmdId == records[|records| - |recent| + i])
    && (forall i, j :: 0 <= i < j < |recent| ==> recent[i].cmdId != recent[j].cmdId)
  }

  ghost predicate CacheKnown(recent: seq<Cached>, log: seq<Pub>) {
    forall i :: 0 <= i < |recent| ==> CachedKnown(log, recent[i])
  }

  ghost predicate Distinct(ids: seq<Id>) {
    forall i, j :: 0 <= i < j < |ids| ==> ids[i] != ids[j]
  }

  /** At most four commands have buffered events, listed in order of arrival. */
  ghost predicate OrphansOk(orphans: map<Id, seq<Event>>, order: seq<Id>) {
    && |order| <= MAX_ORPHAN_COMMANDS
    && Distinct(order)
    && (forall id :: id in orphans <==> id in order)
    && (forall id :: id in orphans ==> orphans[id] != [])
  }

  /** Conservation: what was accepted is either recorded as completed or outstanding. */
  ghost predicate Conserved(accepted: seq<Id>, records: seq<Id>, streams: map<Id, Stream>, pending: seq<Pending>, hand: Hand) {
    forall id :: multiset(accepted)[id] == multiset(records)[id] + (if Outstanding(streams, pending, hand, id) then 1 else 0)
  }

  /** No command gets more original acknowledgements than it was accepted. */
  ghost predicate AcksOk(log: seq<Pub>, accepted: seq<Id>, streams: map<Id, Stream>, hand: Hand) {
    forall id :: Acks(log, id) + (if AckDue(streams, hand, id) then 1 else 0) <= multiset(accepted)[id]
  }

  /** Original completions are exactly the recorded ones. */
  ghost predicate DonesOk(log: seq<Pub>, records: seq<Id>) {
    forall id :: Dones(log, id) == multiset(records)[id]
  }

  ghost predicate ExecutedOk(executed: seq<Id>, accepted: seq<Id>) {
    forall id :: multiset(executed)[id] <= multiset(accepted)[id]
  }

  ghost predicate InvHand(s: Server, hand: Hand) {
    && StreamsOk(s.streams, s.log, s.recent, s.pending, hand) && BindingsOk(s.streams, hand)
    && HandOk(s.log, s.recent, s.pending, hand, s.capacity)
    && PendingOk(s.pending, s.log, s.recent)
    && RecentOk(s.recent, s.records, s.capacity) && CacheKnown(s.recent, s.log)
    && OrphansOk(s.orphans, s.order)
    && Conserved(s.accepted, s.records, s.streams, s.pending, hand)
    && AcksOk(s.log, s.accepted, s.streams, hand)
    && DonesOk(s.log, s.records) && ExecutedOk(s.executed, s.accepted)
  }

  ghost predicate Inv(s: Server) {
    InvHand(s, None)
  }

  lemma {:induction false} InitialInv(capacity: nat)
    ensures Inv(Server(map[], [], [], map[], [], capacity, [], [], [], []))
  {
  }

  // ---------------- taking a stream in hand and putting it back ----------------

  lemma {:induction false} PickUp(s: Server, key: Id)
    requires Inv(s) && key in s.streams
    ensures InvHand(s, Some(s.streams[key]))
  {
    hide KnownOption;
    hide HasRecent;
    hide HasPending;
    hide CacheKnown;
    hide OrphansOk;
    hide RecentOk;
    hide Acks;
  }

  lemma {:induction false} PutBack(s: Server, st: Stream)
    requires InvHand(s, Some(st)) && !st.donePublished
    ensures Inv(s.(streams := s.streams[st.cmdId := st]))
  {
    hide KnownOption;
    hide HasRecent;
    hide HasPending;
    hide CacheKnown;
    hide OrphansOk;
    hide RecentOk;
    hide Acks;
  }

  lemma {:induction false} LetGo(s: Server, st: Stream)
    requires InvHand(s, Some(st)) && st.donePublished
    ensures Inv(s.(streams := s.streams - {st.cmdId}))
  {
    hide KnownOption;
    hide HasRecent;
    hide HasPending;
    hide CacheKnown;
    hide OrphansOk;
    hide RecentOk;
    hide Acks;
  }

  lemma {:induction false} Erase(s: Server, st: Stream)
    requires InvHand(s, Some(st))
    ensures InvHand(s.(streams := s.streams - {st.cmdId}), Some(st))
  {
    hide KnownOption;
    hide HasRecent;
    hide HasPending;
    hide CacheKnown;
    hide OrphansOk;
    hide RecentOk;
    hide Acks;
  }

  // ---------------- publishing ----------------

  /** Everything that was known stays known. */
  lemma {:induction false} KnownCarries(s: Server, hand: Hand, p: Pub)
    requires InvHand(s, hand)
    ensures StreamsOk(s.streams, s.log + [p], s.recent, s.pending, hand)
    ensures HandOk(s.log + [p], s.recent, s.pending, hand, s.capacity)
    ensures PendingOk(s.pending, s.log + [p], s.recent)
    ensures CacheKnown(s.recent, s.log + [p])
  {
    hide Known;
    hide HasRecent;
    hide HasPending;
    hide Conserved;
    hide AcksOk;
    KnownGrows(s.log, p);
  }

  /** Anything may be published again. */
  lemma {:induction false} ReplayKeeps(s: Server, hand: Hand, id: Id, payload: Payload)
    requires InvHand(s, hand)
    ensures InvHand(Publish(s, id, false, payload), hand)
  {
    KnownCarries(s, hand, Pub(id, false, payload));
    CountsAppend(s.log, Pub(id, false, payload));
    hide StreamsOk;
    hide HandOk;
    hide PendingOk;
    hide CacheKnown;
    hide RecentOk;
    hide OrphansOk;
  }

  /** The acknowledgement that was due for the command in hand. */
  lemma {:induction false} AckKeeps(s: Server, st: Stream, payload: Payload)
    requires InvHand(s, Some(st)) && !st.ackPublished && payload.AckPayload?
    ensures InvHand(Publish(s, st.cmdId, true, payload), Some(st.(ackPublished := true, ackPayload := Some(payload))))
  {
    KnownCarries(s, Some(st), Pub(st.cmdId, true, payload));
    CountsAppend(s.log, Pub(st.cmdId, true, payload));
    KnownGrows(s.log, Pub(st.cmdId, true, payload));
    hide PendingOk;
    hide CacheKnown;
    hide RecentOk;
    hide OrphansOk;
    hide Known;
    hide HasRecent;
    hide HasPending;
  }

  lemma {:induction false} RecentAfterRecord(s: Server, c: Cached)
    requires RecentOk(s.recent, s.records, s.capacity) && CacheKnown(s.recent, s.log)
    requires !HasRecent(s.recent, c.cmdId) && CachedKnown(s.log, c)
    ensures var recent := Newest(s.recent + [c], s.capacity);
      && RecentOk(recent, s.records + [c.cmdId], s.capacity) && CacheKnown(recent, s.log)
      && (HasRecent(recent, c.cmdId) <==> s.capacity >= 1)
      && (forall k :: HasRecent(recent, k) ==> k == c.cmdId || HasRecent(s.recent, k))
  {
    hide CachedKnown;
    hide HasRecent;
    RecentMembers(s.recent, c, s.capacity);
    RecentAligned(s.recent, s.records, c, s.capacity);
    var drop := |s.recent| + 1 - |Newest(s.recent + [c], s.capacity)|;
    RecentStaysDistinct(s.recent, c, drop);
    assert Newest(s.recent + [c], s.capacity) == (s.recent + [c])[drop..];
  }

  lemma {:induction false} RecentAligned(recent: seq<Cached>, records: seq<Id>, c: Cached, capacity: nat)
    requires |recent| == (if |records| <= capacity then |records| else capacity)
    requires forall i :: 0 <= i < |recent| ==> recent[i].cmdId == records[|records| - |recent| + i]
    ensures var r, all := Newest(recent + [c], capacity), records + [c.cmdId];
      && |r| == (if |all| <= capacity then |all| else capacity)
      && forall i :: 0 <= i < |r| ==> r[i].cmdId == all[|all| - |r| + i]
  {
    var r, all := Newest(recent + [c], capacity), records + [c.cmdId];
    var drop := |recent| + 1 - |r|;
    forall i | 0 <= i < |r|
      ensures r[i].cmdId == all[|all| - |r| + i]
    {
      assert r[i] == (recent + [c])[drop + i];
    }
  }

  lemma {:induction false} RecentMembers(recent: seq<Cached>, c: Cached, capacity: nat)
    ensures HasRecent(Newest(recent + [c], capacity), c.cmdId) <==> capacity >= 1
    ensures forall k :: HasRecent(Newest(recent + [c], capacity), k) ==> k == c.cmdId || HasRecent(recent, k)
  {
    var all, r := recent + [c], Newest(recent + [c], capacity);
    if capacity >= 1 { assert r[|r| - 1] == c; }
    forall k | HasRecent(r, k)
      ensures k == c.cmdId || HasRecent(recent, k)
    {
      var i :| 0 <= i < |r| && r[i].cmdId == k;
      assert r[i] == all[|all| - |r| + i];
    }
  }

  lemma {:induction false} RecentStaysDistinct(recent: seq<Cached>, c: Cached, drop: nat)
    requires forall i, j :: 0 <= i < j < |recent| ==> recent[i].cmdId != recent[j].cmdId
    requires !HasRecent(recent, c.cmdId) && drop <= |recent| + 1
    ensures var r := (recent + [c])[drop..]; forall i, j :: 0 <= i < j < |r| ==> r[i].cmdId != r[j].cmdId
  {
  }

  /** Completing the command in hand. */
  lemma {:induction false} RecordKeeps(s: Server, st: Stream, ack: Option<Payload>, completion: Payload)
    requires InvHand(s, Some(st)) && !st.donePublished && completion.DonePayload? && KnownOption(s.log, st.cmdId, ack)
    ensures InvHand(PublishAndRecord(s, st.cmdId, ack, completion), Some(st.(donePublished := true)))
  {
    var p := Pub(st.cmdId, true, completion);
    var published := Publish(s, st.cmdId, true, completion);
    KnownCarries(s, Some(st), p);
    KnownGrows(s.log, p);
    RecentAfterRecord(published, Cached(st.cmdId, ack, completion));
    RecordParts(s, st, p, published.log, PublishAndRecord(s, st.cmdId, ack, completion).recent);
    RecordCounts(s, st, completion);
  }

  /** The entries that a new completion must not collide with. */
  lemma {:induction false} RecordParts(s: Server, st: Stream, p: Pub, log: seq<Pub>, recent: seq<Cached>)
    requires InvHand(s, Some(st)) && log == s.log + [p]
    requires HasRecent(recent, st.cmdId) <==> s.capacity >= 1
    requires forall k :: HasRecent(recent, k) ==> k == st.cmdId || HasRecent(s.recent, k)
    ensures var hand := Some(st.(donePublished := true));
      && StreamsOk(s.streams, log, recent, s.pending, hand) && BindingsOk(s.streams, hand)
      && HandOk(log, recent, s.pending, hand, s.capacity) && PendingOk(s.pending, log, recent)
  {
    KnownCarries(s, Some(st), p);
    hide Known;
    hide HasRecent;
    hide Conserved;
    hide AcksOk;
    hide RecentOk;
  }

  lemma {:induction false} RecordCounts(s: Server, st: Stream, completion: Payload)
    requires InvHand(s, Some(st)) && !st.donePublished && completion.DonePayload?
    ensures var log, records, hand := s.log + [Pub(st.cmdId, true, completion)], s.records + [st.cmdId], Some(st.(donePublished := true));
      && Conserved(s.accepted, records, s.streams, s.pending, hand)
      && AcksOk(log, s.accepted, s.streams, hand) && DonesOk(log, records)
  {
    hide StreamsOk;
    hide PendingOk;
    hide CacheKnown;
    hide RecentOk;
    hide HandOk;
    hide HasPending;
    CountsAppend(s.log, Pub(st.cmdId, true, completion));
    assert multiset(s.records + [st.cmdId]) == multiset(s.records) + multiset{st.cmdId};
  }

  /** Fields of the stream in hand that no count depends on. */
  lemma {:induction false} HandDetails(s: Server, st: Stream, rt: Stream)
    requires InvHand(s, Some(st))
    requires rt.cmdId == st.cmdId && rt.msgId == st.msgId && rt.ackPublished == st.ackPublished
    requires rt.ackPayload == st.ackPayload && rt.donePublished == st.donePublished
    ensures InvHand(s, Some(rt))
  {
    hide Known;
    hide HasRecent;
    hide HasPending;
    hide PendingOk;
    hide CacheKnown;
    hide RecentOk;
    hide Acks;
  }

  lemma {:induction false} PublishAckKeeps(s: Server, st: Stream)
    requires InvHand(s, Some(st))
    ensures var (r, rt) := PublishAckFromStream(s, st);
      InvHand(r, Some(rt)) && SameButOutput(s, r) && rt.cmdId == st.cmdId && rt.donePublished == st.donePublished
  {
    hide InvHand;
    if !st.ackPublished && Has(st.lines, Ack) {
      AckKeeps(s, st, AckPayload(st.cmdId, NameOf(st.action), st.lines));
    }
  }

  /** An acknowledgement is only published after some event was seen. */
  predicate AckSeen(st: Stream) {
    st.ackPublished ==> st.sawEvent
  }

  predicate SameButOutput(s: Server, r: Server) {
    && r.streams == s.streams && r.pending == s.pending && r.orphans == s.orphans && r.order == s.order
    && r.capacity == s.capacity && r.accepted == s.accepted && r.executed == s.executed
    && s.records <= r.records && s.log <= r.log
  }

  lemma {:induction false} ProcessEventKeeps(s: Server, st: Stream, e: Event)
    requires InvHand(s, Some(st))
    ensures var (r, rt) := ProcessEvent(s, st, e);
      InvHand(r, Some(rt)) && SameButOutput(s, r) && rt.cmdId == st.cmdId && rt.msgId == st.msgId
      && rt.donePublished == (st.donePublished || e.kind == Done) && rt.sawEvent
  {
    hide InvHand;
    var noted := Noted(st, e);
    HandDetails(s, st, noted);
    if e.kind == Ack {
      PublishAckKeeps(s, noted);
    } else if e.kind == Done && !noted.donePublished {
      HandAckKnown(s, noted);
      RecordKeeps(s, noted, noted.ackPayload, DonePayload(noted.cmdId, NameOf(noted.action), noted.lines, Ok, noted.mask, noted.startedMs));
    }
  }

  lemma HandAckKnown(s: Server, st: Stream)
    requires InvHand(s, Some(st))
    ensures KnownOption(s.log, st.cmdId, st.ackPayload)
  {
  }

  lemma {:induction false} ProcessAllKeeps(s: Server, st: Stream, es: seq<Event>)
    requires InvHand(s, Some(st))
    ensures var (r, rt) := ProcessAll(s, st, es);
      InvHand(r, Some(rt)) && SameButOutput(s, r) && rt.cmdId == st.cmdId && rt.msgId == st.msgId
      && (st.donePublished ==> rt.donePublished) && (AckSeen(st) ==> AckSeen(rt)) && (st.sawEvent ==> rt.sawEvent)
    decreases |es|
  {
    hide InvHand;
    hide ProcessEvent;
    if es != [] {
      ProcessEventKeeps(s, st, es[0]);
      var (s1, st1) := ProcessEvent(s, st, es[0]);
      ProcessAllKeeps(s1, st1, es[1..]);
    }
  }

  // ---------------- orphans ----------------

  lemma {:induction false} WithoutIs(order: seq<Id>, id: Id)
    requires Distinct(order)
    ensures Distinct(Without(order, id)) && |Without(order, id)| <= |order|
    ensures forall k :: k in Without(order, id) <==> k in order && k != id
  {
    if order != [] {
      assert Distinct(order[1..]);
      WithoutIs(order[1..], id);
      assert forall k :: k in order <==> k == order[0] || k in order[1..];
      assert order[0] !in order[1..];
    }
  }

  /** Only the buffer changes. */
  lemma {:induction false} OrphansChange(s: Server, hand: Hand, orphans: map<Id, seq<Event>>, order: seq<Id>)
    requires InvHand(s, hand) && OrphansOk(orphans, order)
    ensures InvHand(s.(orphans := orphans, order := order), hand)
  {
    hide StreamsOk;
    hide BindingsOk;
    hide HandOk;
    hide PendingOk;
    hide CacheKnown;
    hide RecentOk;
    hide Conserved;
    hide AcksOk;
    hide DonesOk;
    hide OrphansOk;
  }

  lemma {:induction false} BufferOrphansOk(s: Server, e: Event)
    requires OrphansOk(s.orphans, s.order)
    ensures OrphansOk(Buffer(s, e).orphans, Buffer(s, e).order) && e.cmdId in Buffer(s, e).orphans
  {
    if e.cmdId !in s.orphans {
      var order := s.order + [e.cmdId];
      assert Distinct(order);
      if |order| > MAX_ORPHAN_COMMANDS {
        assert forall k :: k in order <==> k == order[0] || k in order[1..];
        assert Distinct(order[1..]) && order[0] !in order[1..];
        assert order[1..][|order| - 2] == e.cmdId;
      }
    }
  }

  lemma {:induction false} BufferKeeps(s: Server, hand: Hand, e: Event)
    requires InvHand(s, hand)
    ensures InvHand(Buffer(s, e), hand) && Buffer(s, e).streams == s.streams
  {
    BufferOrphansOk(s, e);
    hide OrphansOk;
    hide StreamsOk;
    hide BindingsOk;
    hide HandOk;
    hide PendingOk;
    hide Conserved;
    hide AcksOk;
    OrphansChange(s, hand, Buffer(s, e).orphans, Buffer(s, e).order);
  }

  /** No stream other than the one in hand is bound to this id. */
  ghost predicate Unclaimed(s: Server, st: Stream, id: Id) {
    forall key :: key in s.streams && key != st.cmdId ==> s.streams[key].msgId != id
  }

  lemma {:induction false} NameHand(s: Server, st: Stream, id: Id)
    requires InvHand(s, Some(st)) && Unclaimed(s, st, id)
    ensures InvHand(s, Some(st.(msgId := id)))
  {
    hide Known;
    hide HasRecent;
    hide HasPending;
    hide PendingOk;
    hide CacheKnown;
    hide RecentOk;
    hide Acks;
  }

  lemma {:induction false} BindKeeps(s: Server, st: Stream, id: Id)
    requires InvHand(s, Some(st)) && (id == "" || Unclaimed(s, st, id))
    requires st.cmdId in s.streams <==> !st.donePublished
    ensures var (r, rt) := Bind(s, st, id);
      && InvHand(r, Some(rt)) && rt.cmdId == st.cmdId
      && (rt.cmdId in r.streams <==> !rt.donePublished)
      && (forall key :: key in r.streams ==> key in s.streams && r.streams[key] == s.streams[key])
      && r.accepted == s.accepted && (AckSeen(st) ==> AckSeen(rt)) && r.capacity == s.capacity
      && (!st.donePublished && rt.donePublished ==> rt.sawEvent) && (st.sawEvent ==> rt.sawEvent)
  {
    hide InvHand;
    if id != "" {
      var bound := st.(msgId := id);
      NameHand(s, st, id);
      if id in s.orphans {
        var (s1, st1) := ProcessAll(s, bound, s.orphans[id]);
        ProcessAllKeeps(s, bound, s.orphans[id]);
        var st2 := st1.(sawEvent := true);
        HandDetails(s1, st1, st2);
        UnbufferKeeps(s1, st2, id);
        var s2 := s1.(orphans := s1.orphans - {id}, order := Without(s1.order, id));
        Erase(s2, st2);
      }
    }
  }

  lemma {:induction false} UnbufferKeeps(s: Server, st: Stream, id: Id)
    requires InvHand(s, Some(st))
    ensures InvHand(s.(orphans := s.orphans - {id}, order := Without(s.order, id)), Some(st))
  {
    WithoutIs(s.order, id);
    OrphansChange(s, Some(st), s.orphans - {id}, Without(s.order, id));
  }

  // ---------------- a command from its arrival to its answer ----------------

  /** The command is taken up: it becomes outstanding, with its stream in hand. */
  lemma {:induction false} AcceptKeeps(s: Server, st: Stream)
    requires Inv(s) && !IsDuplicate(s, st.cmdId)
    requires !st.ackPublished && !st.donePublished && st.ackPayload == None && st.msgId == ""
    ensures InvHand(s.(accepted := s.accepted + [st.cmdId]), Some(st))
  {
    hide Known;
    hide PendingOk;
    hide CacheKnown;
    hide RecentOk;
    hide HasRecent;
    hide HasPending;
    var r := s.(accepted := s.accepted + [st.cmdId]);
    assert multiset(r.accepted) == multiset(s.accepted) + multiset{st.cmdId};
  }

  lemma {:induction false} CountExecution(s: Server, st: Stream)
    requires InvHand(s, Some(st)) && multiset(s.executed)[st.cmdId] < multiset(s.accepted)[st.cmdId]
    ensures InvHand(s.(executed := s.executed + [st.cmdId]), Some(st))
  {
    hide StreamsOk;
    hide BindingsOk;
    hide HandOk;
    hide PendingOk;
    hide CacheKnown;
    hide RecentOk;
    hide Conserved;
    hide AcksOk;
    hide DonesOk;
    assert multiset(s.executed + [st.cmdId]) == multiset(s.executed) + multiset{st.cmdId};
  }

  function NewStream(cmdId: Id, action: string, mask: set<nat>, now: nat): Stream {
    Stream(cmdId, "", action, [], mask, now, false, false, false, None)
  }

  /** An answer at once, without a stream. */
  lemma {:induction false} AnswerAtOnce(s: Server, cmdId: Id, completion: Payload)
    requires Inv(s) && !IsDuplicate(s, cmdId) && completion.DonePayload?
    ensures Inv(PublishAndRecord(s.(accepted := s.accepted + [cmdId]), cmdId, None, completion))
  {
    hide InvHand;
    var st := NewStream(cmdId, "", {}, 0);
    AcceptKeeps(s, st);
    var a := s.(accepted := s.accepted + [cmdId]);
    RecordKeeps(a, st, None, completion);
    var r := PublishAndRecord(a, cmdId, None, completion);
    LetGo(r, st.(donePublished := true));
    assert r.streams - {cmdId} == r.streams;
  }

  /** An internal id that nothing in the server refers to yet. */
  ghost predicate Fresh(s: Server, id: Id) {
    id !in s.streams && forall key :: key in s.streams ==> s.streams[key].msgId != id
  }

  /** Every id that executing the command hands out is new. */
  ghost predicate FreshOutcome(s: Server, cmdId: Id, out: Outcome) {
    && (forall i :: 0 <= i < |out.events| && out.events[i].cmdId != "" ==>
          Fresh(s, out.events[i].cmdId) && out.events[i].cmdId != cmdId)
    && (forall i :: 0 <= i < |out.lines| && out.lines[i].msgId != "" ==>
          Fresh(s, out.lines[i].msgId) && out.lines[i].msgId != cmdId)
  }

  /** Events with new ids are all buffered. */
  lemma {:induction false} FreshEventsBuffered(s: Server, es: seq<Event>)
    requires Inv(s) && forall i :: 0 <= i < |es| && es[i].cmdId != "" ==> Fresh(s, es[i].cmdId)
    ensures var r := HandleEvents(s, es);
      && Inv(r) && r.streams == s.streams && r.log == s.log && r.accepted == s.accepted
      && r.recent == s.recent && r.pending == s.pending && r.executed == s.executed && r.records == s.records
      && r.capacity == s.capacity
    decreases |es|
  {
    hide InvHand;
    if es != [] {
      var r := HandleEvent(s, es[0]);
      if es[0].cmdId != "" {
        assert forall key :: !Matches(s, es[0].cmdId, key);
        BufferKeeps(s, None, es[0]);
      }
      FreshEventsBuffered(r, es[1..]);
    }
  }

  lemma LastAckIdIn(lines: seq<Line>)
    ensures LastAckId(lines) != "" ==> exists i :: 0 <= i < |lines| && lines[i].msgId == LastAckId(lines)
  {
    if lines != [] && LastAckId(lines) != "" && lines[|lines| - 1].msgId != LastAckId(lines) {
      LastAckIdIn(lines[..|lines| - 1]);
      var i :| 0 <= i < |lines| - 1 && lines[..|lines| - 1][i].msgId == LastAckId(lines);
      assert lines[i].msgId == LastAckId(lines);
    }
  }

  lemma FirstIdIn(lines: seq<Line>)
    ensures FirstId(lines) != "" ==> exists i :: 0 <= i < |lines| && lines[i].msgId == FirstId(lines)
  {
    if lines != [] && lines[0].msgId == "" && FirstId(lines) != "" {
      FirstIdIn(lines[1..]);
      var i :| 0 <= i < |lines[1..]| && lines[1..][i].msgId == FirstId(lines);
      assert lines[i + 1].msgId == FirstId(lines);
    }
  }

  ghost predicate LinesUnclaimed(s: Server, st: Stream, lines: seq<Line>) {
    forall i :: 0 <= i < |lines| && lines[i].msgId != "" ==> Unclaimed(s, st, lines[i].msgId)
  }

  lemma {:induction false} ContractIdUnclaimed(s: Server, st: Stream, lines: seq<Line>)
    requires LinesUnclaimed(s, st, lines)
    ensures ContractId(lines) == "" || Unclaimed(s, st, ContractId(lines))
  {
    LastAckIdIn(lines);
    FirstIdIn(lines);
  }

  /** Binding and publishing keep every other stream, so ids stay unclaimed. */
  predicate StreamsFrom(s: Server, r: Server) {
    r.accepted == s.accepted && forall key :: key in r.streams ==> key in s.streams && r.streams[key] == s.streams[key]
  }

  /** The stream in hand is in the map exactly while it is not done. */
  predicate Listed(s: Server, st: Stream) {
    st.cmdId in s.streams <==> !st.donePublished
  }

  lemma {:induction false} BindBothKeeps(s: Server, st: Stream, lines: seq<Line>)
    requires InvHand(s, Some(st)) && Listed(s, st) && LinesUnclaimed(s, st, lines)
    ensures var (r, rt) := BindBoth(s, st, lines);
      InvHand(r, Some(rt)) && Listed(r, rt) && rt.cmdId == st.cmdId && StreamsFrom(s, r)
      && (AckSeen(st) ==> AckSeen(rt)) && (!st.donePublished && rt.donePublished ==> rt.sawEvent) && r.capacity == s.capacity
  {
    hide InvHand;
    hide Bind;
    hide ContractId;
    var ack, done := FirstOf(lines, Ack), FirstOf(lines, Done);
    ContractIdUnclaimed(s, st, lines);
    if ack < |lines| {
      BindKeeps(s, st, lines[ack].msgId);
    }
    BindKeeps(s, st, ContractId(lines));
    var (s1, st1) := if ack < |lines| && lines[ack].msgId != "" && st.msgId == "" then Bind(s, st, lines[ack].msgId)
                     else if st.msgId == "" && ContractId(lines) != "" then Bind(s, st, ContractId(lines))
                     else (s, st);
    if done < |lines| {
      BindKeeps(s1, st1, lines[done].msgId);
    }
  }

  lemma {:induction false} ShareKeeps(s: Server, st: Stream)
    requires InvHand(s, Some(st)) && Listed(s, st)
    ensures Inv(Share(s, st)) && Listed(Share(s, st), st)
    ensures !st.donePublished ==> Share(s, st).streams[st.cmdId] == st
    ensures HasRecent(Share(s, st).recent, st.cmdId) <==> st.donePublished && s.capacity >= 1
    ensures Share(s, st).accepted == s.accepted && Share(s, st).capacity == s.capacity
  {
    HandDone(s, st);
    hide InvHand;
    if st.donePublished {
      LetGo(s, st);
      assert s.streams - {st.cmdId} == s.streams;
    } else {
      PutBack(s, st);
    }
  }

  lemma HandDone(s: Server, st: Stream)
    requires InvHand(s, Some(st))
    ensures HasRecent(s.recent, st.cmdId) <==> st.donePublished && s.capacity >= 1
  {
  }

  /** Binding completed the command, but its response says it failed and not that it is done:
      the server then relies on its cache to see that it has answered. */
  predicate DoneByBinding(s: Server, st: Stream, lines: seq<Line>) {
    BindBoth(s, st, lines).1.donePublished && !Has(lines, Done) && Has(lines, Error)
  }

  /** The id that a response is bound to: the one on its first ACK, or else its own. */
  function BoundId(lines: seq<Line>): Id {
    var ack := FirstOf(lines, Ack);
    if ack < |lines| && lines[ack].msgId != "" then lines[ack].msgId else ContractId(lines)
  }

  predicate DoneBuffered(s: Server, id: Id) {
    id in s.orphans && exists i :: 0 <= i < |s.orphans[id]| && s.orphans[id][i].kind == Done
  }

  /** An event that says done is buffered under the id of a response that has an error line and
      no line that says done; the stream is not bound yet. */
  predicate LateDone(s: Server, st: Stream, lines: seq<Line>) {
    && st.msgId == "" && BoundId(lines) != "" && DoneBuffered(s, BoundId(lines))
    && !Has(lines, Done) && Has(lines, Error)
  }

  lemma {:induction false} ReplayDoneIff(s: Server, st: Stream, es: seq<Event>)
    ensures ProcessAll(s, st, es).1.donePublished
       <==> st.donePublished || exists i :: 0 <= i < |es| && es[i].kind == Done
    decreases |es|
  {
    if es != [] {
      var (s1, st1) := ProcessEvent(s, st, es[0]);
      ReplayDoneIff(s1, st1, es[1..]);
      assert forall i :: 0 < i < |es| ==> es[i] == es[1..][i - 1];
    }
  }

  /** That is exactly when binding completes such a command. */
  lemma {:induction false} LateDoneIff(s: Server, st: Stream, lines: seq<Line>)
    requires !st.donePublished
    ensures LateDone(s, st, lines) <==> DoneByBinding(s, st, lines)
  {
    var id := BoundId(lines);
    assert FirstOf(lines, Done) < |lines| ==> Has(lines, Done);
    if id in s.orphans { ReplayDoneIff(s, st.(msgId := id), s.orphans[id]); }
    hide ContractId, ProcessAll;
  }

  lemma {:induction false} StreamConsumesKeeps(s: Server, st: Stream, lines: seq<Line>)
    requires InvHand(s, Some(st)) && Listed(s, st) && LinesUnclaimed(s, st, lines) && AckSeen(st) && !st.donePublished
    ensures var (r, rt, handled) := StreamConsumes(s, st, lines);
      && Inv(r) && Listed(r, rt) && rt.cmdId == st.cmdId && r.accepted == s.accepted
      && (!rt.donePublished ==> r.streams[rt.cmdId] == rt)
      && (HasRecent(r.recent, rt.cmdId) <==> rt.donePublished && r.capacity >= 1) && r.capacity == s.capacity
      && (rt.donePublished ==> handled || DoneByBinding(s, st, lines))
      && (!handled && !Has(lines, Error) ==> !rt.ackPublished)
  {
    hide InvHand;
    hide BindBoth;
    hide Share;
    hide PublishAckFromStream;
    BindBothKeeps(s, st, lines);
    var (s2, st2) := BindBoth(s, st, lines);
    var done := FirstOf(lines, Done);
    if done < |lines| {
      var named := st2.(lines := lines);
      HandDetails(s2, st2, named);
      PublishAckKeeps(s2, named);
      var (s3, st3) := PublishAckFromStream(s2, named);
      ShareKeeps(s3, st3);
    } else if !Has(lines, Error) && st2.sawEvent {
      PublishAckKeeps(s2, st2);
      var (s3, st3) := PublishAckFromStream(s2, st2);
      ShareKeeps(s3, st3);
    } else {
      ShareKeeps(s2, st2);
    }
  }

  /** The command in hand, no longer in the map, waits for its motors. */
  lemma {:induction false} PendKeeps(s: Server, st: Stream, p: Pending)
    requires InvHand(s, Some(st)) && !st.donePublished && st.cmdId !in s.streams
    requires p.cmdId == st.cmdId && p.ackPayload.Some? && Known(s.log, p.cmdId, p.ackPayload.value)
    ensures Inv(s.(pending := s.pending + [p]))
  {
    hide Known, HasRecent, CacheKnown, RecentOk, Acks;
    var pending := s.pending + [p];
    assert pending[|s.pending|] == p;
    forall id
      ensures HasPending(pending, id) <==> id == p.cmdId || HasPending(s.pending, id)
    {
      if i :| 0 <= i < |s.pending| && s.pending[i].cmdId == id {
        assert pending[i] == s.pending[i];
      }
    }
  }

  /** A waiting command is taken in hand again. */
  lemma {:induction false} TakePending(s: Server, i: nat)
    requires Inv(s) && i < |s.pending|
    ensures var p := s.pending[i];
      InvHand(s.(pending := s.pending[..i] + s.pending[i + 1..]), Some(PendingStream(p)))
  {
    hide Known;
    hide HasRecent;
    hide CacheKnown;
    hide RecentOk;
    hide Acks;
    var p, rest := s.pending[i], s.pending[..i] + s.pending[i + 1..];
    forall id
      ensures HasPending(s.pending, id) <==> id == p.cmdId || HasPending(rest, id)
      ensures !HasPending(rest, p.cmdId)
    {
      RestOfPending(s.pending, i, id);
    }
  }

  lemma {:induction false} RestOfPending(pending: seq<Pending>, i: nat, id: Id)
    requires i < |pending| && forall j, k :: 0 <= j < k < |pending| ==> pending[j].cmdId != pending[k].cmdId
    ensures var rest := pending[..i] + pending[i + 1..];
      && (HasPending(pending, id) <==> id == pending[i].cmdId || HasPending(rest, id))
      && !HasPending(rest, pending[i].cmdId)
  {
    var rest := pending[..i] + pending[i + 1..];
    assert forall j :: 0 <= j < |rest| ==> rest[j] == pending[if j < i then j else j + 1];
    if k :| 0 <= k < |pending| && pending[k].cmdId == id {
      if k < i { assert rest[k] == pending[k]; }
      if k > i { assert rest[k - 1] == pending[k]; }
    }
  }

  function PendingStream(p: Pending): Stream {
    NewStream(p.cmdId, p.action, p.mask, p.startedMs).(ackPublished := true, ackPayload := p.ackPayload)
  }

  lemma {:induction false} ConcludeKeeps(s: Server, st: Stream, action: string, mask: set<nat>, out: Outcome, now: nat)
    requires Inv(s) && st.cmdId in s.streams && s.streams[st.cmdId] == st
    requires Has(out.lines, Ack) && !Has(out.lines, Error) ==> !st.ackPublished
    ensures Inv(Conclude(s, st.cmdId, action, mask, out, now))
  {
    PickUp(s, st.cmdId);
    NotDone(s, st);
    hide InvHand;
    Erase(s, st);
    var closed := s.(streams := s.streams - {st.cmdId});
    var done := DonePayload(st.cmdId, action, out.lines, DeriveStatus(out.lines), mask, now);
    if Has(out.lines, Ack) && !Has(out.lines, Error) {
      var ack := AckPayload(st.cmdId, action, out.lines);
      var acked, st1 := Publish(closed, st.cmdId, true, ack), st.(ackPublished := true, ackPayload := Some(ack));
      AckKeeps(closed, st, ack);
      KnownGrows(closed.log, Pub(st.cmdId, true, ack));
      if DeriveStatus(out.lines) == Ok && action == "MOVE" && mask != {} && out.moving {
        PendKeeps(acked, st1, Pending(st.cmdId, action, out.lines, Some(ack), mask, now));
      } else {
        RecordKeeps(acked, st1, Some(ack), done);
        Settled(PublishAndRecord(acked, st.cmdId, Some(ack), done), st1.(donePublished := true));
      }
    } else {
      RecordKeeps(closed, st, None, done);
      Settled(PublishAndRecord(closed, st.cmdId, None, done), st.(donePublished := true));
    }
  }

  lemma NotDone(s: Server, st: Stream)
    requires Inv(s) && st.cmdId in s.streams && s.streams[st.cmdId] == st
    ensures !st.donePublished
  {
  }

  lemma {:induction false} Settled(s: Server, st: Stream)
    requires InvHand(s, Some(st)) && st.donePublished && st.cmdId !in s.streams
    ensures Inv(s)
  {
    hide InvHand;
    LetGo(s, st);
    assert s.streams - {st.cmdId} == s.streams;
  }

  lemma {:induction false} BeginKeeps(s: Server, cmdId: Id, action: string, mask: set<nat>, now: nat)
    requires Inv(s) && !IsDuplicate(s, cmdId)
    ensures var a := s.(accepted := s.accepted + [cmdId]);
      Inv(OpenStream(a, cmdId, action, mask, now).(executed := s.executed + [cmdId]))
  {
    var st := NewStream(cmdId, action, mask, now);
    var a := s.(accepted := s.accepted + [cmdId]);
    MoreAcceptedThanExecuted(s, cmdId);
    hide InvHand;
    AcceptKeeps(s, st);
    CountExecution(a, st);
    PutBack(a.(executed := s.executed + [cmdId]), st);
  }

  lemma {:induction false} MoreAcceptedThanExecuted(s: Server, cmdId: Id)
    requires Inv(s)
    ensures multiset(s.executed)[cmdId] < multiset(s.accepted + [cmdId])[cmdId]
  {
    assert multiset(s.accepted + [cmdId]) == multiset(s.accepted) + multiset{cmdId};
  }

  lemma {:induction false} FinishKeeps(s: Server, cmdId: Id, action: string, mask: set<nat>, out: Outcome, now: nat)
    requires Inv(s) && cmdId in s.streams && s.streams[cmdId].cmdId == cmdId
    requires AckSeen(s.streams[cmdId]) && LinesUnclaimed(s, s.streams[cmdId], out.lines)
    requires s.capacity >= 1 || !DoneByBinding(s, s.streams[cmdId], out.lines)
    ensures Inv(Finish(s, cmdId, action, mask, out, now))
  {
    var st := s.streams[cmdId];
    PickUp(s, cmdId);
    NotDone(s, st);
    hide InvHand;
    hide StreamConsumes;
    hide Conclude;
    if out.lines == [] {
      var done := DonePayload(cmdId, NameOf(action), [Line(Error, "", "NO_RESPONSE")], Failed, {}, 0);
      RecordKeeps(s, st, None, done);
      LetGo(PublishAndRecord(s, cmdId, None, done), st.(donePublished := true));
    } else {
      StreamConsumesKeeps(s, st, out.lines);
      var (s1, st1, handled) := StreamConsumes(s, st, out.lines);
      if !handled && !HasRecent(s1.recent, cmdId) {
        ConcludeKeeps(s1, st1, action, mask, out, now);
      }
    }
  }

  // ---------------- when a command is answered twice ----------------

  /** Finishing a command completes it twice if and only if there is no cache and an event that
      says done waits under the id of its response, which says otherwise. */
  lemma {:induction false} FinishTwiceIff(s: Server, cmdId: Id, action: string, mask: set<nat>, out: Outcome, now: nat)
    requires Inv(s) && cmdId in s.streams && s.streams[cmdId].cmdId == cmdId
    requires AckSeen(s.streams[cmdId]) && LinesUnclaimed(s, s.streams[cmdId], out.lines)
    ensures Dones(Finish(s, cmdId, action, mask, out, now).log, cmdId) <= Dones(s.log, cmdId) + 2
    ensures Dones(Finish(s, cmdId, action, mask, out, now).log, cmdId) == Dones(s.log, cmdId) + 2
       <==> s.capacity == 0 && LateDone(s, s.streams[cmdId], out.lines)
  {
    var r := Finish(s, cmdId, action, mask, out, now);
    CompletionsOf(s, cmdId);
    NotDone(s, s.streams[cmdId]);
    LateDoneIff(s, s.streams[cmdId], out.lines);
    if s.capacity == 0 && DoneByBinding(s, s.streams[cmdId], out.lines) {
      LateDoneTwice(s, cmdId, action, mask, out, now);
    } else {
      FinishKeeps(s, cmdId, action, mask, out, now);
      FinishAccepted(s, cmdId, action, mask, out, now);
      CompletionsOf(r, cmdId);
    }
  }

  lemma CompletionsOf(s: Server, id: Id)
    requires Inv(s)
    ensures Dones(s.log, id) + (if id in s.streams || HasPending(s.pending, id) then 1 else 0) == multiset(s.accepted)[id]
  {
    hide StreamsOk, PendingOk, CacheKnown, RecentOk, AcksOk, BindingsOk, HandOk, OrphansOk;
    assert Outstanding(s.streams, s.pending, None, id) <==> id in s.streams || HasPending(s.pending, id);
  }

  lemma {:induction false} FinishAccepted(s: Server, cmdId: Id, action: string, mask: set<nat>, out: Outcome, now: nat)
    requires Inv(s) && cmdId in s.streams && s.streams[cmdId].cmdId == cmdId
    requires AckSeen(s.streams[cmdId]) && LinesUnclaimed(s, s.streams[cmdId], out.lines)
    ensures Finish(s, cmdId, action, mask, out, now).accepted == s.accepted
  {
    var st := s.streams[cmdId];
    PickUp(s, cmdId);
    NotDone(s, st);
    hide InvHand, StreamConsumes;
    if out.lines != [] { StreamConsumesKeeps(s, st, out.lines); }
  }

  lemma {:induction false} LateDoneTwice(s: Server, cmdId: Id, action: string, mask: set<nat>, out: Outcome, now: nat)
    requires Inv(s) && cmdId in s.streams && s.streams[cmdId].cmdId == cmdId && s.capacity == 0
    requires AckSeen(s.streams[cmdId]) && LinesUnclaimed(s, s.streams[cmdId], out.lines)
    requires DoneByBinding(s, s.streams[cmdId], out.lines)
    ensures Dones(Finish(s, cmdId, action, mask, out, now).log, cmdId) == Dones(s.log, cmdId) + 2
  {
    var st := s.streams[cmdId];
    PickUp(s, cmdId);
    NotDone(s, st);
    CompletionsOf(s, cmdId);
    assert Has(out.lines, Error);
    StreamConsumesKeeps(s, st, out.lines);
    var (s1, st1, handled) := StreamConsumes(s, st, out.lines);
    BindingIsDone(s, st, out.lines);
    BindingNotPending(s, st, out.lines);
    CompletionsOf(s1, cmdId);
    ErrorConcludes(s1, cmdId, action, mask, out, now);
    hide InvHand, StreamConsumes, Dones, DoneByBinding, Conclude, Inv, Listed, LinesUnclaimed;
  }

  /** A response with an error line is answered with one completion, whatever it waits for. */
  lemma {:induction false} ErrorConcludes(s: Server, cmdId: Id, action: string, mask: set<nat>, out: Outcome, now: nat)
    requires Has(out.lines, Error)
    ensures Dones(Conclude(s, cmdId, action, mask, out, now).log, cmdId) == Dones(s.log, cmdId) + 1
  {
    CountsAppend(s.log, Pub(cmdId, true, DonePayload(cmdId, action, out.lines, Failed, mask, now)));
  }

  lemma {:induction false} BindingIsDone(s: Server, st: Stream, lines: seq<Line>)
    requires DoneByBinding(s, st, lines)
    ensures var (r, rt, handled) := StreamConsumes(s, st, lines); !handled && rt.donePublished && Has(lines, Error)
  {
    hide BindBoth;
    var done := FirstOf(lines, Done);
    assert done < |lines| ==> Has(lines, Done);
  }

  lemma {:induction false} BindingNotPending(s: Server, st: Stream, lines: seq<Line>)
    requires InvHand(s, Some(st)) && Listed(s, st) && LinesUnclaimed(s, st, lines)
    requires DoneByBinding(s, st, lines)
    ensures var (r, rt, handled) := StreamConsumes(s, st, lines);
      st.cmdId !in r.streams && !HasPending(r.pending, st.cmdId)
  {
    BindBothKeeps(s, st, lines);
    var (s2, st2) := BindBoth(s, st, lines);
    BindingIsDone(s, st, lines);
    HandIdle(s2, st2);
    hide InvHand, BindBoth;
    var done := FirstOf(lines, Done);
    assert done < |lines| ==> Has(lines, Done);
  }

  lemma HandIdle(s: Server, st: Stream)
    requires InvHand(s, Some(st))
    ensures !HasPending(s.pending, st.cmdId)
  {
  }

  /** No event with this id says done. */
  predicate QuietId(es: seq<Event>, id: Id) {
    forall i :: 0 <= i < |es| && es[i].cmdId == id ==> es[i].kind != Done
  }

  /** Without a cache, a command that answers with an error and without a DONE line must not
      have reported its completion as an event under the id of its response. */
  predicate Agrees(s: Server, out: Outcome) {
    s.capacity >= 1 || !Has(out.lines, Error) || Has(out.lines, Done) || BoundId(out.lines) == ""
    || (QuietId(out.events, BoundId(out.lines)) && !DoneBuffered(s, BoundId(out.lines)))
  }

  lemma {:induction false} QuietStays(s: Server, es: seq<Event>, id: Id)
    requires Inv(s) && forall i :: 0 <= i < |es| && es[i].cmdId != "" ==> Fresh(s, es[i].cmdId)
    requires QuietId(es, id) && !DoneBuffered(s, id)
    ensures !DoneBuffered(HandleEvents(s, es), id)
    decreases |es|
  {
    hide InvHand;
    if es != [] {
      var r := HandleEvent(s, es[0]);
      if es[0].cmdId != "" {
        assert forall key :: !Matches(s, es[0].cmdId, key);
        BufferKeeps(s, None, es[0]);
      }
      assert forall i :: 0 <= i < |es| - 1 ==> es[1..][i] == es[i + 1];
      assert !DoneBuffered(r, id);
      QuietStays(r, es[1..], id);
    }
  }

  lemma {:induction false} ExecuteKeeps(s: Server, cmdId: Id, action: string, mask: set<nat>, out: Outcome, now: nat)
    requires Inv(s) && !IsDuplicate(s, cmdId) && FreshOutcome(s, cmdId, out) && Agrees(s, out)
    ensures Inv(Execute(s.(accepted := s.accepted + [cmdId]), cmdId, action, mask, out, now))
  {
    hide InvHand;
    hide HandleEvents;
    hide Finish;
    BeginKeeps(s, cmdId, action, mask, now);
    var begun := OpenStream(s.(accepted := s.accepted + [cmdId]), cmdId, action, mask, now).(executed := s.executed + [cmdId]);
    FreshEventsBuffered(begun, out.events);
    var ran := HandleEvents(begun, out.events);
    if s.capacity == 0 { NotLate(begun, cmdId, out); }
    FinishKeeps(ran, cmdId, action, mask, out, now);
  }

  lemma {:induction false} NotLate(s: Server, cmdId: Id, out: Outcome)
    requires Inv(s) && s.capacity == 0 && Agrees(s, out) && cmdId in s.streams
    requires forall i :: 0 <= i < |out.events| && out.events[i].cmdId != "" ==> Fresh(s, out.events[i].cmdId)
    ensures var ran := HandleEvents(s, out.events);
      cmdId in ran.streams && !DoneByBinding(ran, ran.streams[cmdId], out.lines)
  {
    KeyIsId(s, cmdId);
    FreshEventsBuffered(s, out.events);
    hide InvHand, HandleEvents, Fresh;
    var ran := HandleEvents(s, out.events);
    NotDone(ran, ran.streams[cmdId]);
    LateDoneIff(ran, ran.streams[cmdId], out.lines);
    if Has(out.lines, Error) && !Has(out.lines, Done) && BoundId(out.lines) != "" {
      QuietStays(s, out.events, BoundId(out.lines));
    }
  }

  // ---------------- whole runs ----------------

  datatype Input =
    | Receive(m: Message, now: nat)
    | Dispatch(e: Event)                 // an event that is not part of executing a command
    | Loop(moving: set<nat>)             // the periodic check for commands whose motors stopped

  /** Ids that the device makes up are new: those of unreadable payloads, and those handed
      out while a command executes. Without a cache, events and response also have to agree. */
  ghost predicate Plausible(s: Server, x: Input) {
    x.Receive? ==>
      && (x.m.Unreadable? ==> !IsDuplicate(s, x.m.cmdId))
      && (x.m.Command? && !IsDuplicate(s, x.m.cmdId) ==> FreshOutcome(s, x.m.cmdId, x.m.out) && Agrees(s, x.m.out))
  }

  ghost function Step(s: Server, x: Input): Server {
    match x
    case Receive(m, now) => HandleIncoming(s, m, now)
    case Dispatch(e) => HandleEvent(s, e)
    case Loop(moving) => FinalizeFrom(s, moving, 0)
  }

  lemma {:induction false} DispatchKeeps(s: Server, e: Event)
    requires Inv(s)
    ensures Inv(HandleEvent(s, e))
  {
    if e.cmdId != "" {
      if key :| Matches(s, e.cmdId, key) {
        forall k | Matches(s, e.cmdId, k)
          ensures Inv(Deliver(s, k, e))
        {
          DeliverKeeps(s, k, e);
        }
      } else {
        BufferKeeps(s, None, e);
      }
    }
  }

  lemma {:induction false} DeliverKeeps(s: Server, key: Id, e: Event)
    requires Inv(s) && key in s.streams
    ensures Inv(Deliver(s, key, e))
  {
    PickUp(s, key);
    KeyIsId(s, key);
    hide InvHand;
    hide ProcessEvent;
    ProcessEventKeeps(s, s.streams[key], e);
    var (s1, st) := ProcessEvent(s, s.streams[key], e);
    if e.kind == Done {
      LetGo(s1, st);
    } else {
      PutBack(s1, st);
    }
  }

  lemma KeyIsId(s: Server, key: Id)
    requires Inv(s) && key in s.streams
    ensures s.streams[key].cmdId == key && !s.streams[key].donePublished
  {
  }

  lemma {:induction false} FinalizeKeeps(s: Server, moving: set<nat>, i: nat)
    requires Inv(s) && i <= |s.pending|
    ensures Inv(FinalizeFrom(s, moving, i))
    decreases |s.pending| - i
  {
    if i < |s.pending| {
      if s.pending[i].mask * moving != {} {
        FinalizeKeeps(s, moving, i + 1);
      } else {
        CompletePendingKeeps(s, i);
        var p := s.pending[i];
        FinalizeKeeps(CompletePending(s, p).(pending := s.pending[..i] + s.pending[i + 1..]), moving, i);
      }
    }
  }

  lemma {:induction false} CompletePendingKeeps(s: Server, i: nat)
    requires Inv(s) && i < |s.pending|
    ensures Inv(CompletePending(s, s.pending[i]).(pending := s.pending[..i] + s.pending[i + 1..]))
  {
    var p, r := s.pending[i], s.(pending := s.pending[..i] + s.pending[i + 1..]);
    var done := DonePayload(p.cmdId, p.action, p.lines, Ok, p.mask, p.startedMs);
    PendingFacts(s, i);
    hide InvHand;
    TakePending(s, i);
    RecordKeeps(r, PendingStream(p), p.ackPayload, done);
    Settled(PublishAndRecord(r, p.cmdId, p.ackPayload, done), PendingStream(p).(donePublished := true));
  }

  lemma PendingFacts(s: Server, i: nat)
    requires Inv(s) && i < |s.pending|
    ensures KnownOption(s.log, s.pending[i].cmdId, s.pending[i].ackPayload) && s.pending[i].cmdId !in s.streams
  {
    assert HasPending(s.pending, s.pending[i].cmdId);
  }

  /** r differs from s only by repeated publishes of payloads already published for id. */
  ghost predicate OnlyRepeats(s: Server, r: Server, id: Id) {
    && r == s.(log := r.log) && s.log <= r.log
    && forall i :: |s.log| <= i < |r.log| ==>
         !r.log[i].original && r.log[i].cmdId == id && Known(s.log, id, r.log[i].payload)
  }

  lemma {:induction false} ReplayRepeats(s: Server, r: Server, id: Id, payload: Option<Payload>)
    requires OnlyRepeats(s, r, id) && Inv(r) && KnownOption(s.log, id, payload)
    ensures OnlyRepeats(s, Replay(r, id, payload), id) && Inv(Replay(r, id, payload))
  {
    hide InvHand;
    hide Known;
    if payload.Some? { ReplayKeeps(r, None, id, payload.value); }
  }

  /** What a duplicate causes: nothing but repeated publishes of payloads already published
      for that very command. */
  lemma {:induction false} DuplicateOnlyRepeats(s: Server, cmdId: Id)
    requires Inv(s) && IsDuplicate(s, cmdId)
    ensures OnlyRepeats(s, HandleDuplicate(s, cmdId), cmdId) && Inv(HandleDuplicate(s, cmdId))
  {
    CachedPayloadsKnown(s, cmdId);
    hide InvHand;
    hide OnlyRepeats;
    hide Replay;
    assert OnlyRepeats(s, s, cmdId) by { NothingRepeats(s, cmdId); }
    var p, c := FindPending(s.pending, cmdId), FindRecent(s.recent, cmdId);
    if cmdId in s.streams && s.streams[cmdId].ackPayload.Some? {
      ReplayRepeats(s, s, cmdId, s.streams[cmdId].ackPayload);
    } else if p < |s.pending| {
      ReplayRepeats(s, s, cmdId, s.pending[p].ackPayload);
    } else if c < |s.recent| {
      ReplayRepeats(s, s, cmdId, s.recent[c].ackPayload);
      ReplayRepeats(s, Replay(s, cmdId, s.recent[c].ackPayload), cmdId, Some(s.recent[c].completionPayload));
    }
  }

  lemma NothingRepeats(s: Server, id: Id)
    ensures OnlyRepeats(s, s, id)
  {
  }

  lemma {:induction false} CachedPayloadsKnown(s: Server, cmdId: Id)
    requires Inv(s)
    ensures cmdId in s.streams ==> KnownOption(s.log, cmdId, s.streams[cmdId].ackPayload)
    ensures var p := FindPending(s.pending, cmdId); p < |s.pending| ==> KnownOption(s.log, cmdId, s.pending[p].ackPayload)
    ensures var c := FindRecent(s.recent, cmdId); c < |s.recent| ==> CachedKnown(s.log, s.recent[c])
  {
  }

  lemma {:induction false} StepKeepsInv(s: Server, x: Input)
    requires Inv(s) && Plausible(s, x)
    ensures Inv(Step(s, x))
  {
    hide InvHand;
    hide HandleDuplicate;
    hide Execute;
    match x
    case Receive(m, now) =>
      if !m.Unreadable? && IsDuplicate(s, m.cmdId) {
        DuplicateOnlyRepeats(s, m.cmdId);
      } else {
        match m
        case Unreadable(id) =>
          AnswerAtOnce(s, id, DonePayload(id, NameOf("UNKNOWN"), [Line(Error, "", "INVALID")], Failed, {}, 0));
        case Help(id) => AnswerAtOnce(s, id, DonePayload(id, "HELP", [], Ok, {}, 0));
        case Unbuildable(id, action) =>
          AnswerAtOnce(s, id, DonePayload(id, NameOf(action), [Line(Error, "", "INVALID")], Failed, {}, 0));
        case Command(id, action, mask, out) => ExecuteKeeps(s, id, action, mask, out, now);
      }
    case Dispatch(e) => DispatchKeeps(s, e);
    case Loop(moving) => FinalizeKeeps(s, moving, 0);
  }

  ghost function Run(s: Server, xs: seq<Input>): Server
    decreases |xs|
  {
    if xs == [] then s else Run(Step(s, xs[0]), xs[1..])
  }

  ghost predicate PlausibleRun(s: Server, xs: seq<Input>)
    decreases |xs|
  {
    xs == [] || (Plausible(s, xs[0]) && PlausibleRun(Step(s, xs[0]), xs[1..]))
  }

  lemma {:induction false} RunKeepsInv(s: Server, xs: seq<Input>)
    requires Inv(s) && PlausibleRun(s, xs)
    ensures Inv(Run(s, xs))
    decreases |xs|
  {
    hide InvHand;
    hide Step;
    if xs != [] {
      StepKeepsInv(s, xs[0]);
      RunKeepsInv(Step(s, xs[0]), xs[1..]);
    }
  }

  /** In every run from an empty server: each time a command was taken up, it is either still
      outstanding in exactly one place or was completed by exactly one original completion,
      and it got at most one original acknowledgement. */
  lemma {:induction false} CompletedExactlyOnce(capacity: nat, xs: seq<Input>, id: Id)
    requires PlausibleRun(Server(map[], [], [], map[], [], capacity, [], [], [], []), xs)
    ensures var s := Run(Server(map[], [], [], map[], [], capacity, [], [], [], []), xs);
      var outstanding := id in s.streams || HasPending(s.pending, id);
      && Dones(s.log, id) + (if outstanding then 1 else 0) == multiset(s.accepted)[id]
      && Acks(s.log, id) <= multiset(s.accepted)[id]
      && !(id in s.streams && HasPending(s.pending, id)) && (HasRecent(s.recent, id) ==> !outstanding)
  {
    InitialInv(capacity);
    RunKeepsInv(Server(map[], [], [], map[], [], capacity, [], [], [], []), xs);
  }

  /** A command that was taken up before is taken up again only after at least as many later
      completions were recorded as the cache holds. */
  lemma {:induction false} TakenUpAgainOnlyAfterEviction(s: Server, id: Id)
    requires Inv(s) && !IsDuplicate(s, id) && id in s.accepted
    ensures exists k :: 0 <= k < |s.records| - s.capacity && s.records[k] == id
    ensures forall k :: 0 <= k < |s.records| && s.records[k] == id ==> k < |s.records| - s.capacity
  {
    hide StreamsOk;
    hide PendingOk;
    hide CacheKnown;
    hide AcksOk;
    hide DonesOk;
    assert multiset(s.accepted)[id] > 0;
    assert id in multiset(s.records);
    var first := |s.records| - |s.recent|;
    forall k | first <= k < |s.records|
      ensures s.records[k] != id
    {
      assert s.recent[k - first].cmdId == s.records[k];
    }
    var k :| 0 <= k < |s.records| && s.records[k] == id;
  }
}
