/** Events that arrive before their stream is bound: buffering them makes no difference. */
module MqttOrphans {
  import opened Wrappers
  import opened MqttServerModel

  import opened MqttRuns

  /** All events belong to one internal id, and a DONE can only be the last of them. */
  predicate OneCommand(es: seq<Event>, id: Id) {
    && es != [] && id != ""
    && (forall i :: 0 <= i < |es| ==> es[i].cmdId == id)
    && (forall i :: 0 <= i < |es| - 1 ==> es[i].kind != Done)
  }

  /** The same server with another buffer and another stream map. */
  function With(s: Server, streams: map<Id, Stream>, orphans: map<Id, seq<Event>>, order: seq<Id>): Server {
    s.(streams := streams, orphans := orphans, order := order)
  }

  lemma ProcessIgnoresBuffer(s: Server, st: Stream, e: Event, streams: map<Id, Stream>, orphans: map<Id, seq<Event>>, order: seq<Id>)
    ensures var (r, rt) := ProcessEvent(s, st, e);
      ProcessEvent(With(s, streams, orphans, order), st, e) == (With(r, streams, orphans, order), rt)
  {
  }

  lemma {:induction false} ProcessAllIgnoresBuffer(s: Server, st: Stream, es: seq<Event>, streams: map<Id, Stream>,
                                                   orphans: map<Id, seq<Event>>, order: seq<Id>)
    ensures var (r, rt) := ProcessAll(s, st, es);
      ProcessAll(With(s, streams, orphans, order), st, es) == (With(r, streams, orphans, order), rt)
    decreases |es|
  {
    hide ProcessEvent;
    if es != [] {
      ProcessIgnoresBuffer(s, st, es[0], streams, orphans, order);
      var (s1, st1) := ProcessEvent(s, st, es[0]);
      ProcessAllIgnoresBuffer(s1, st1, es[1..], streams, orphans, order);
    }
  }

  // ---------------- buffering ----------------

  /** The buffer once the events of one new command are in it: the oldest command gave way
      if four were waiting already. */
  function MakeRoom(s: Server): (map<Id, seq<Event>>, seq<Id>) {
    if |s.order| < MAX_ORPHAN_COMMANDS then (s.orphans, s.order)
    else (s.orphans - {s.order[0]}, s.order[1..])
  }

  lemma {:induction false} BufferMore(s: Server, es: seq<Event>, id: Id)
    requires id != "" && id in s.orphans && Fresh(s, id)
    requires forall i :: 0 <= i < |es| ==> es[i].cmdId == id
    ensures HandleEvents(s, es) == s.(orphans := s.orphans[id := s.orphans[id] + es])
    decreases |es|
  {
    if es == [] {
      assert s.orphans[id] + es == s.orphans[id];
      assert s.orphans == s.orphans[id := s.orphans[id]];
    } else {
      var r := s.(orphans := s.orphans[id := s.orphans[id] + [es[0]]]);
      assert forall k :: !Matches(s, id, k);
      assert HandleEvent(s, es[0]) == r;
      BufferMore(r, es[1..], id);
      assert s.orphans[id] + [es[0]] + es[1..] == s.orphans[id] + es;
      assert r.orphans[id := r.orphans[id] + es[1..]] == s.orphans[id := s.orphans[id] + es];
    }
  }

  /** All events of the command just executed are in the buffer, whatever was in it before:
      another command may be evicted to make room, this one never is. */
  lemma {:induction false} WholeCommandBuffered(s: Server, es: seq<Event>, id: Id)
    requires Inv(s) && OneCommand(es, id) && Fresh(s, id) && id !in s.orphans
    ensures HandleEvents(s, es) == s.(orphans := MakeRoom(s).0[id := es], order := MakeRoom(s).1 + [id])
    ensures Inv(HandleEvents(s, es)) && |HandleEvents(s, es).order| <= MAX_ORPHAN_COMMANDS
  {
    hide InvHand;
    hide HandleEvents;
    OrderIsShort(s);
    BufferedAll(s, es, id);
    FreshEventsBuffered(s, es);
    OrderIsShort(HandleEvents(s, es));
  }

  lemma {:induction false} BufferedAll(s: Server, es: seq<Event>, id: Id)
    requires |s.order| <= MAX_ORPHAN_COMMANDS && OneCommand(es, id) && Fresh(s, id) && id !in s.orphans
    ensures HandleEvents(s, es) == s.(orphans := MakeRoom(s).0[id := es], order := MakeRoom(s).1 + [id])
  {
    hide HandleEvent;
    hide MakeRoom;
    FirstEventBuffered(s, es[0], id);
    var r := HandleEvent(s, es[0]);
    BufferMore(r, es[1..], id);
    assert [es[0]] + es[1..] == es;
    assert r.orphans[id := es] == MakeRoom(s).0[id := es];
  }

  lemma {:induction false} FirstEventBuffered(s: Server, e: Event, id: Id)
    requires |s.order| <= MAX_ORPHAN_COMMANDS && e.cmdId == id != "" && id !in s.orphans && Fresh(s, id)
    ensures HandleEvent(s, e) == s.(orphans := MakeRoom(s).0[id := [e]], order := MakeRoom(s).1 + [id])
  {
    assert forall k :: !Matches(s, id, k);
    if s.order != [] {
      assert (s.order + [id])[1..] == s.order[1..] + [id];
    }
  }

  lemma OrderIsShort(s: Server)
    requires Inv(s)
    ensures |s.order| <= MAX_ORPHAN_COMMANDS && Distinct(s.order) && forall id :: id in s.orphans <==> id in s.order
  {
  }

  // ---------------- live delivery ----------------

  /** The map after the events of one command went to its stream. */
  function StoredOrErased(streams: map<Id, Stream>, key: Id, st: Stream, es: seq<Event>): map<Id, Stream>
    requires es != []
  {
    if es[|es| - 1].kind == Done then streams - {key} else streams[key := st]
  }

  ghost predicate OnlyBoundTo(s: Server, key: Id, id: Id) {
    key in s.streams && s.streams[key].msgId == id != "" && id !in s.streams
    && forall k :: k in s.streams && s.streams[k].msgId == id ==> k == key
  }

  lemma OneTarget(s: Server, e: Event, key: Id)
    requires e.cmdId != "" && key in s.streams && (e.cmdId == key || OnlyBoundTo(s, key, e.cmdId))
    ensures HandleEvent(s, e) == Deliver(s, key, e)
  {
    hide Deliver;
    assert Matches(s, e.cmdId, key);
    assert forall k :: Matches(s, e.cmdId, k) ==> k == key;
  }

  lemma ProcessKeepsName(s: Server, st: Stream, e: Event)
    ensures ProcessEvent(s, st, e).1.msgId == st.msgId && ProcessEvent(s, st, e).0.streams == s.streams
  {
  }

  lemma {:induction false} DeliveredLive(s: Server, key: Id, es: seq<Event>, id: Id)
    requires OneCommand(es, id) && OnlyBoundTo(s, key, id)
    ensures var (r, rt) := ProcessAll(s, s.streams[key], es);
      HandleEvents(s, es) == r.(streams := StoredOrErased(s.streams, key, rt, es))
    decreases |es|
  {
    hide ProcessEvent;
    var st, e := s.streams[key], es[0];
    OneTarget(s, e, key);
    var (s1, st1) := ProcessEvent(s, st, e);
    ProcessKeepsName(s, st, e);
    if |es| == 1 {
      assert es[1..] == [];
    } else {
      var next := s1.(streams := s1.streams[key := st1]);
      assert next == HandleEvent(s, e);
      DeliveredLive(next, key, es[1..], id);
      ProcessAllIgnoresBuffer(s1, st1, es[1..], next.streams, s1.orphans, s1.order);
      ProcessLeaves(s1, st1, es[1..]);
      assert With(s1, next.streams, s1.orphans, s1.order) == next;
      assert es[1..][|es| - 2] == es[|es| - 1];
      var (r, rt) := ProcessAll(s1, st1, es[1..]);
      assert StoredOrErased(next.streams, key, rt, es[1..]) == StoredOrErased(s.streams, key, rt, es);
    }
  }

  // ---------------- the two ways compared ----------------

  lemma DoneAtEnd(s: Server, st: Stream, es: seq<Event>)
    requires es != [] && !st.donePublished && forall i :: 0 <= i < |es| - 1 ==> es[i].kind != Done
    ensures var (r, rt) := ProcessAll(s, st, es);
      (rt.donePublished <==> es[|es| - 1].kind == Done) && rt.sawEvent && rt.cmdId == st.cmdId && rt.msgId == st.msgId
    decreases |es|
  {
    var (s1, st1) := ProcessEvent(s, st, es[0]);
    if |es| == 1 {
      assert es[1..] == [];
    } else {
      assert es[1..][|es| - 2] == es[|es| - 1];
      DoneAtEnd(s1, st1, es[1..]);
    }
  }

  /** Buffering a command's events and then binding its stream publishes the same payloads in
      the same order, and leaves the same streams, caches and histories, as binding first and
      delivering the events live. Only the buffer may differ, by the one command that had to
      make room. */
  lemma {:induction false} BufferingIsTransparent(s: Server, key: Id, es: seq<Event>, id: Id)
    requires Inv(s) && key in s.streams && s.streams[key].msgId == ""
    requires OneCommand(es, id) && Fresh(s, id) && id !in s.orphans
    ensures HandleEvents(s, es).streams == s.streams
    ensures var buffered := HandleEvents(s, es);
      var (b, bt) := Bind(buffered, buffered.streams[key], id);
      var (l, lt) := Bind(s, s.streams[key], id);
      var late, live := Share(b, bt), HandleEvents(Share(l, lt), es);
      && late == live.(orphans := late.orphans, order := late.order)
      && live.orphans == s.orphans && live.order == s.order
      && (late.orphans, late.order) == MakeRoom(s)
  {
    hide InvHand;
    var st := s.streams[key];
    KeyIsId(s, key);
    WholeCommandBuffered(s, es, id);
    var bound := st.(msgId := id);
    var buffered := HandleEvents(s, es);
    DoneAtEnd(s, bound, es);
    var (r, rt) := ProcessAll(s, bound, es);
    ProcessAllIgnoresBuffer(s, bound, es, s.streams, buffered.orphans, buffered.order);
    ProcessLeaves(s, bound, es);
    RoomRestored(s, id, es);
    var named := s.(streams := s.streams[key := bound]);
    DeliveredLive(named, key, es, id);
    ProcessAllIgnoresBuffer(s, bound, es, named.streams, s.orphans, s.order);
    assert StoredOrErased(named.streams, key, rt, es) == StoredOrErased(s.streams, key, rt, es);
  }

  lemma {:induction false} ProcessLeaves(s: Server, st: Stream, es: seq<Event>)
    ensures var r := ProcessAll(s, st, es).0;
      r.streams == s.streams && r.orphans == s.orphans && r.order == s.order
    decreases |es|
  {
    if es != [] {
      ProcessLeaves(ProcessEvent(s, st, es[0]).0, ProcessEvent(s, st, es[0]).1, es[1..]);
    }
  }

  /** Binding takes the command out of the buffer again. */
  lemma {:induction false} RoomRestored(s: Server, id: Id, es: seq<Event>)
    requires Inv(s) && id !in s.orphans
    ensures MakeRoom(s).0[id := es] - {id} == MakeRoom(s).0
    ensures Without(MakeRoom(s).1 + [id], id) == MakeRoom(s).1
  {
    OrderIsShort(s);
    WithoutLast(MakeRoom(s).1, id);
  }

  lemma {:induction false} WithoutLast(order: seq<Id>, id: Id)
    requires id !in order
    ensures Without(order + [id], id) == order
  {
    if order == [] {
      assert ([id] + [])[1..] == [];
      assert order + [id] == [id];
    } else {
      assert (order + [id])[1..] == order[1..] + [id];
      WithoutLast(order[1..], id);
    }
  }

  // ---------------- what a client sees ----------------

  /** A delivered acknowledgement is published, once. */
  lemma {:induction false} FirstAckIsPublished(s: Server, st: Stream, es: seq<Event>)
    requires es != [] && es[0].kind == Ack && !st.ackPublished
    ensures var (r, rt) := ProcessAll(s, st, es);
      rt.ackPublished && Acks(r.log, st.cmdId) == Acks(s.log, st.cmdId) + 1
  {
    var e := es[0];
    var noted := Noted(st, e);
    assert noted.lines[|st.lines|].kind == Ack;
    var p := Pub(st.cmdId, true, AckPayload(st.cmdId, NameOf(noted.action), noted.lines));
    CountsAppend(s.log, p);
    var (s1, st1) := ProcessEvent(s, st, e);
    NoMoreAcks(s1, st1, es[1..]);
  }

  lemma {:induction false} NoMoreAcks(s: Server, st: Stream, es: seq<Event>)
    requires st.ackPublished
    ensures var (r, rt) := ProcessAll(s, st, es);
      rt.ackPublished && Acks(r.log, st.cmdId) == Acks(s.log, st.cmdId)
    decreases |es|
  {
    if es != [] {
      var noted := Noted(st, es[0]);
      CountsAppend(s.log, Pub(st.cmdId, true, DonePayload(st.cmdId, NameOf(noted.action), noted.lines, Ok, st.mask, st.startedMs)));
      var (s1, st1) := ProcessEvent(s, st, es[0]);
      NoMoreAcks(s1, st1, es[1..]);
    }
  }

  /** An event saying that a bound command is done completes it and releases its stream. */
  lemma {:induction false} DoneEventCompletes(s: Server, key: Id, e: Event)
    requires Inv(s) && key in s.streams && e.kind == Done && e.cmdId != ""
    requires e.cmdId == key || OnlyBoundTo(s, key, e.cmdId)
    ensures var r := HandleEvent(s, e);
      && Inv(r) && key !in r.streams && (HasRecent(r.recent, key) <==> s.capacity >= 1)
      && Dones(r.log, key) == Dones(s.log, key) + 1
  {
    hide InvHand;
    DispatchKeeps(s, e);
    OneTarget(s, e, key);
    PickUp(s, key);
    KeyIsId(s, key);
    ProcessEventKeeps(s, s.streams[key], e);
    var (s1, st1) := ProcessEvent(s, s.streams[key], e);
    HandDone(s1, st1);
    var noted := Noted(s.streams[key], e);
    CountsAppend(s.log, Pub(key, true, DonePayload(key, NameOf(noted.action), noted.lines, Ok, noted.mask, noted.startedMs)));
  }

  // ---------------- without a cache ----------------

  /** A command that was just completed is a duplicate when it comes again if and only if the
      cache has room for an entry. */
  lemma {:induction false} CompletedIsRememberedIff(s: Server, st: Stream, ack: Option<Payload>, completion: Payload)
    requires InvHand(s, Some(st)) && !st.donePublished && st.cmdId !in s.streams
    requires completion.DonePayload? && KnownOption(s.log, st.cmdId, ack)
    ensures var r := PublishAndRecord(s, st.cmdId, ack, completion);
      Inv(r) && (IsDuplicate(r, st.cmdId) <==> s.capacity >= 1)
  {
    RecordKeeps(s, st, ack, completion);
    var r := PublishAndRecord(s, st.cmdId, ack, completion);
    HandDone(r, st.(donePublished := true));
    hide InvHand, HasRecent;
    Settled(r, st.(donePublished := true));
    HandIdle(r, st.(donePublished := true));
  }

  function EmptyServer(capacity: nat): Server { Server(map[], [], [], map[], [], capacity, [], [], [], []) }

  /** So with duplicate_cache 0 the same command sent again is taken up again at once. */
  lemma {:induction false} NoCacheNoMemory(id: Id, text: string, now: nat)
    requires id != ""
    ensures var s := HandleIncoming(EmptyServer(0), Unbuildable(id, text), now);
      s.accepted == [id] && !IsDuplicate(s, id)
  {
  }

  function LateEvent(): Event { Event(Done, "x", "MOVE", "") }

  function LateOutcome(): Outcome { Outcome([LateEvent()], [Line(Ack, "x", ""), Line(Error, "x", "")], false) }

  /** And with duplicate_cache 0 a command that reports its completion as an event but answers
      with an error line is completed twice. */
  lemma {:induction false} NoCacheCompletesTwice()
    ensures Dones(HandleIncoming(EmptyServer(0), Command("c", "MOVE", {0}, LateOutcome()), 1).log, "c") == 2
  {
    LateRan();
    LateExecution();
    LateTwice(HandleEvents(LateBegun(), LateOutcome().events));
    hide HandleEvents, HandleIncoming, Finish, Inv;
  }

  lemma {:induction false} LateTwice(ran: Server)
    requires Inv(ran) && ran.streams == LateBegun().streams && ran.log == [] && ran.capacity == 0
    requires "x" in ran.orphans && ran.orphans["x"] == [LateEvent()]
    ensures Dones(Finish(ran, "c", "MOVE", {0}, LateOutcome(), 1).log, "c") == 2
  {
    hide Finish, Inv;
    var lines := LateOutcome().lines;
    assert FirstOf(lines, Ack) == 0 && lines[1].kind == Error;
    assert DoneBuffered(ran, "x") by { assert ran.orphans["x"][0].kind == Done; }
    assert LinesUnclaimed(ran, ran.streams["c"], LateOutcome().lines);
    hide LateDone;
    FinishTwiceIff(ran, "c", "MOVE", {0}, LateOutcome(), 1);
  }

  function LateBegun(): Server {
    OpenStream(EmptyServer(0).(accepted := ["c"]), "c", "MOVE", {0}, 1).(executed := ["c"])
  }

  lemma LateExecution()
    ensures var ran := HandleEvents(LateBegun(), LateOutcome().events);
      "c" in ran.streams ==>
        HandleIncoming(EmptyServer(0), Command("c", "MOVE", {0}, LateOutcome()), 1) == Finish(ran, "c", "MOVE", {0}, LateOutcome(), 1)
  {
    hide HandleEvents, Finish;
    assert [] + ["c"] == ["c"];
  }

  lemma {:induction false} LateRan()
    ensures var ran := HandleEvents(LateBegun(), LateOutcome().events);
      && Inv(ran) && ran.streams == LateBegun().streams && ran.log == [] && ran.capacity == 0
      && "x" in ran.orphans && ran.orphans["x"] == [LateEvent()]
  {
    var s0, begun, e := EmptyServer(0), LateBegun(), LateEvent();
    InitialInv(0);
    BeginKeeps(s0, "c", "MOVE", {0}, 1);
    assert s0.accepted + ["c"] == ["c"] && s0.executed + ["c"] == ["c"];
    hide Inv;
    FreshEventsBuffered(begun, [e]);
    assert forall key :: !Matches(begun, "x", key);
    assert [e][1..] == [];
    assert HandleEvents(HandleEvent(begun, e), []) == HandleEvent(begun, e) == Buffer(begun, e);
  }
}
