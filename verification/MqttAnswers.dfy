/** What the command server publishes for a command, an event, and the motors that stop: contents, order
    and status, in terms of the message and the response. */
module MqttAnswers {
  import opened Wrappers
  import opened MqttServerModel
  import opened MqttRuns
  import opened MqttOrphans

  // ---------------- commands that wait for their motors ----------------

  function StillMoving(pending: seq<Pending>, moving: set<nat>): seq<Pending> {
    if pending == [] then []
    else (if pending[0].mask * moving != {} then [pending[0]] else []) + StillMoving(pending[1..], moving)
  }

  /** One completion with status ok for each command whose motors have all stopped, in their order. */
  function StoppedDone(pending: seq<Pending>, moving: set<nat>): seq<Pub> {
    if pending == [] then []
    else
      var p := pending[0];
      (if p.mask * moving != {} then []
       else [Pub(p.cmdId, true, DonePayload(p.cmdId, p.action, p.lines, Ok, p.mask, p.startedMs))])
      + StoppedDone(pending[1..], moving)
  }

  /** The periodic check completes exactly the waiting commands whose motors have stopped, and keeps the
      others waiting. */
  lemma {:induction false} FinalizeIs(s: Server, moving: set<nat>, i: nat)
    requires i <= |s.pending|
    ensures var r := FinalizeFrom(s, moving, i);
      && r.pending == s.pending[..i] + StillMoving(s.pending[i..], moving)
      && r.log == s.log + StoppedDone(s.pending[i..], moving)
      && r.streams == s.streams && r.accepted == s.accepted && r.orphans == s.orphans && r.order == s.order
    decreases |s.pending| - i
  {
    if i == |s.pending| {
      assert s.pending[..i] == s.pending;
    } else {
      SplitAt(s.pending, moving, i);
      if s.pending[i].mask * moving != {} {
        FinalizeIs(s, moving, i + 1);
        hide StillMoving, StoppedDone;
      } else {
        var s1 := CompletePending(s, s.pending[i]).(pending := s.pending[..i] + s.pending[i + 1..]);
        assert s1.pending[..i] == s.pending[..i] && s1.pending[i..] == s.pending[i + 1..];
        FinalizeIs(s1, moving, i);
        FinalizeOnce(s, moving, i);
        hide FinalizeFrom, StillMoving, StoppedDone;
      }
    }
  }

  lemma SplitAt(pending: seq<Pending>, moving: set<nat>, i: nat)
    requires i < |pending|
    ensures var p, rest, later := pending[i], pending[i..], pending[i + 1..];
      if p.mask * moving != {} then
        pending[..i + 1] + StillMoving(later, moving) == pending[..i] + StillMoving(rest, moving)
        && StoppedDone(rest, moving) == StoppedDone(later, moving)
      else
        StillMoving(rest, moving) == StillMoving(later, moving)
        && StoppedDone(rest, moving)
           == [Pub(p.cmdId, true, DonePayload(p.cmdId, p.action, p.lines, Ok, p.mask, p.startedMs))] + StoppedDone(later, moving)
  {
    assert pending[i..][1..] == pending[i + 1..];
    assert pending[..i + 1] == pending[..i] + [pending[i]];
  }

  lemma FinalizeOnce(s: Server, moving: set<nat>, i: nat)
    requires i < |s.pending| && s.pending[i].mask * moving == {}
    ensures var p := s.pending[i];
      var s1 := CompletePending(s, p).(pending := s.pending[..i] + s.pending[i + 1..]);
      && FinalizeFrom(s, moving, i) == FinalizeFrom(s1, moving, i)
      && s1.log == s.log + [Pub(p.cmdId, true, DonePayload(p.cmdId, p.action, p.lines, Ok, p.mask, p.startedMs))]
  {
  }

  // ---------------- one event of a stream ----------------

  function Named(action: string): string { if action == "" then "UNKNOWN" else action }

  /** An event adds its line to its stream. The first acknowledgement and the first completion are
      published with all lines so far, the completion with status ok; nothing else is. */
  lemma {:induction false} EventPublishes(s: Server, st: Stream, e: Event)
    ensures var (r, rt) := ProcessEvent(s, st, e);
      var lines := st.lines + [Line(e.kind, e.cmdId, e.body)];
      var action := if st.action == "" then e.action else st.action;
      && rt.lines == lines && rt.action == action && rt.cmdId == st.cmdId && rt.mask == st.mask && rt.startedMs == st.startedMs
      && r.log == s.log + (if e.kind == Ack && !st.ackPublished then [Pub(st.cmdId, true, AckPayload(st.cmdId, Named(action), lines))]
                           else if e.kind == Done && !st.donePublished then
                             [Pub(st.cmdId, true, DonePayload(st.cmdId, Named(action), lines, Ok, st.mask, st.startedMs))]
                           else [])
      && (rt.ackPublished <==> st.ackPublished || e.kind == Ack) && (rt.donePublished <==> st.donePublished || e.kind == Done)
  {
    var noted := Noted(st, e);
    assert noted.lines[|st.lines|].kind == e.kind;
  }

  /** An event for no stream is kept under its id; the oldest id goes when there would be five. */
  lemma {:induction false} BufferKeepsNewest(s: Server, e: Event)
    requires OrphansOk(s.orphans, s.order)
    ensures var r, known := Buffer(s, e), e.cmdId in s.orphans;
      && r.orphans[e.cmdId] == (if known then s.orphans[e.cmdId] else []) + [e]
      && r.order == (if known then s.order else if |s.order| == 4 then s.order[1..] + [e.cmdId] else s.order + [e.cmdId])
      && (forall k :: k in r.orphans && k != e.cmdId ==> k in s.orphans && r.orphans[k] == s.orphans[k])
  {
    if e.cmdId !in s.orphans && |s.order| == 4 {
      assert (s.order + [e.cmdId])[1..] == s.order[1..] + [e.cmdId];
    }
  }

  // ---------------- one command ----------------

  /** No event is buffered under an id of the response. */
  ghost predicate NothingBuffered(s: Server, lines: seq<Line>) {
    forall k :: 0 <= k < |lines| ==> lines[k].msgId !in s.orphans
  }

  /** The publishes for a command that is answered by its response alone: an acknowledgement, if the
      response has one and no error; and a completion, unless it is a MOVE under way. */
  function Answer(id: Id, action: string, mask: set<nat>, out: Outcome, now: nat): seq<Pub> {
    var error, ack := Has(out.lines, Error), Has(out.lines, Ack);
    (if ack && !error then [Pub(id, true, AckPayload(id, action, out.lines))] else [])
    + (if Waits(action, mask, out) then []
       else [Pub(id, true, DonePayload(id, action, out.lines, if error then Failed else if ack then Ok else Unknown, mask, now))])
  }

  predicate Waits(action: string, mask: set<nat>, out: Outcome) {
    action == "MOVE" && mask != {} && out.moving && Has(out.lines, Ack) && !Has(out.lines, Error)
  }

  /** A command that emits no events, and is answered without a DONE line, gets exactly these publishes,
      and waits exactly if it is a MOVE whose motors are still moving. */
  lemma {:induction false} ResponseAnswers(s: Server, id: Id, action: string, mask: set<nat>, out: Outcome, now: nat)
    requires !IsDuplicate(s, id) && out.events == [] && out.lines != [] && !Has(out.lines, Done) && NothingBuffered(s, out.lines)
    ensures var r := HandleIncoming(s, Command(id, action, mask, out), now);
      && r.log == s.log + Answer(id, action, mask, out, now)
      && r.pending == s.pending + (if Waits(action, mask, out)
                                   then [Pending(id, action, out.lines, Some(AckPayload(id, action, out.lines)), mask, now)] else [])
      && id !in r.streams && r.accepted == s.accepted + [id] && r.executed == s.executed + [id]
  {
    var a := s.(accepted := s.accepted + [id]);
    var ran := OpenStream(a, id, action, mask, now).(executed := s.executed + [id]);
    assert HandleEvents(ran, out.events) == ran;
    Unbound(ran, ran.streams[id], out.lines);
    var s1 := StreamConsumes(ran, ran.streams[id], out.lines).0;
    Concluded(s1, id, action, mask, out, now);
    hide StreamConsumes, Conclude, HandleEvents, Has, IsDuplicate, Waits;
    assert !HasRecent(s.recent, id) by { NotRecent(s, id); }
  }

  lemma NotRecent(s: Server, id: Id)
    requires !IsDuplicate(s, id)
    ensures !HasRecent(s.recent, id)
  {
  }

  lemma {:induction false} Unbound(s: Server, st: Stream, lines: seq<Line>)
    requires st.cmdId in s.streams && !st.sawEvent && !Has(lines, Done) && NothingBuffered(s, lines)
    ensures var (r, rt, handled) := StreamConsumes(s, st, lines);
      && !handled && r.log == s.log && r.pending == s.pending && r.recent == s.recent && r.streams.Keys == s.streams.Keys
      && r.accepted == s.accepted && r.executed == s.executed && r.capacity == s.capacity
  {
    assert FirstOf(lines, Done) < |lines| ==> Has(lines, Done);
    UnboundBinding(s, st, lines);
    hide BindBoth, Has;
  }

  lemma {:induction false} UnboundBinding(s: Server, st: Stream, lines: seq<Line>)
    requires !Has(lines, Done) && NothingBuffered(s, lines)
    ensures var (r, rt) := BindBoth(s, st, lines); r == s && rt == st.(msgId := rt.msgId)
  {
    assert FirstOf(lines, Done) < |lines| ==> Has(lines, Done);
    LastAckIdIn(lines);
    FirstIdIn(lines);
    hide Has, LastAckId, FirstId, ProcessAll;
  }

  lemma {:induction false} Concluded(s: Server, id: Id, action: string, mask: set<nat>, out: Outcome, now: nat)
    ensures var r := Conclude(s, id, action, mask, out, now);
      && r.log == s.log + Answer(id, action, mask, out, now)
      && r.pending == s.pending + (if Waits(action, mask, out)
                                   then [Pending(id, action, out.lines, Some(AckPayload(id, action, out.lines)), mask, now)] else [])
      && id !in r.streams && r.accepted == s.accepted && r.executed == s.executed
  {
    hide Has, Newest;
  }

  /** HELP is answered at once and done, a message that is no command with a failure. */
  lemma {:induction false} OthersAnswered(s: Server, m: Message, now: nat)
    requires !m.Command? && (m.Unreadable? || !IsDuplicate(s, m.cmdId))
    ensures var r := HandleIncoming(s, m, now);
      && r.streams == s.streams && r.pending == s.pending && r.executed == s.executed && r.accepted == s.accepted + [m.cmdId]
      && |r.log| == |s.log| + 1 && s.log <= r.log
      && var p := r.log[|s.log|];
        p.original && p.cmdId == m.cmdId && p.payload.DonePayload? && p.payload.cmdId == m.cmdId
        && p.payload.status == (if m.Help? then Ok else Failed)
        && p.payload.action == (match m case Help(_) => "HELP" case Unreadable(_) => "UNKNOWN" case Unbuildable(_, action) => Named(action))
  {
    hide IsDuplicate, Newest;
  }

  // ---------------- an acknowledgement that is not repeated ----------------

  function ContradictedOutcome(): Outcome {
    Outcome([Event(Ack, "x", "MOVE", "")], [Line(Ack, "x", ""), Line(Error, "x", "")], false)
  }

  function Begun(): Server {
    OpenStream(EmptyServer(4).(accepted := ["c"]), "c", "MOVE", {0}, 1).(executed := ["c"])
  }

  /** A command acknowledged by an event whose response then carries an error gets its failure again when
      it comes again, but not its acknowledgement. */
  lemma {:induction false} FailureForgetsAck()
    ensures var m := Command("c", "MOVE", {0}, ContradictedOutcome());
      var s := HandleIncoming(EmptyServer(4), m, 1);
      && |s.log| == 2 && IsAck(s.log[0], "c") && IsDone(s.log[1], "c")
      && HandleIncoming(s, m, 2).log == s.log + [Pub("c", false, s.log[1].payload)]
  {
    var out := ContradictedOutcome();
    var s1 := AckedByEvent(Buffer(Begun(), out.events[0]), out.lines);
    Executed(s1);
    hide *;
    FailureConcluded(s1, out);
  }

  lemma {:induction false} Executed(s1: Server)
    requires var out, ran := ContradictedOutcome(), Buffer(Begun(), ContradictedOutcome().events[0]);
      "c" in ran.streams && var (r, _, handled) := StreamConsumes(ran, ran.streams["c"], out.lines);
      r == s1 && !handled && s1.recent == []
    ensures HandleIncoming(EmptyServer(4), Command("c", "MOVE", {0}, ContradictedOutcome()), 1)
         == Conclude(s1, "c", "MOVE", {0}, ContradictedOutcome(), 1)
  {
    var begun, e := Begun(), ContradictedOutcome().events[0];
    assert forall key :: !Matches(begun, "x", key);
    OneEvent(begun, e);
    assert [] + ["c"] == ["c"];
    hide StreamConsumes, HandleEvents, Conclude;
  }

  lemma OneEvent(s: Server, e: Event)
    ensures HandleEvents(s, [e]) == HandleEvent(s, e)
  {
    assert [e][1..] == [];
    assert HandleEvents(HandleEvent(s, e), []) == HandleEvent(s, e);
  }

  lemma {:induction false} AckedByEvent(ran: Server, lines: seq<Line>) returns (s1: Server)
    requires ran == Buffer(Begun(), Event(Ack, "x", "MOVE", "")) && lines == ContradictedOutcome().lines
    ensures var (r, _, handled) := StreamConsumes(ran, ran.streams["c"], lines);
      && r == s1 && !handled && s1.recent == [] && s1.pending == [] && s1.capacity == 4
      && |s1.log| == 1 && IsAck(s1.log[0], "c")
  {
    var st, es := ran.streams["c"].(msgId := "x"), [Event(Ack, "x", "MOVE", "")];
    assert ran.orphans["x"] == es;
    assert FirstOf(lines, Ack) == 0 && FirstOf(lines, Done) == 2;
    assert Has(lines, Error) by { assert lines[1].kind == Error; }
    assert es[1..] == [];
    EventPublishes(ran, st, es[0]);
    var (r1, st1) := ProcessEvent(ran, st, es[0]);
    assert ProcessAll(ran, st, es) == ProcessAll(r1, st1, []) == (r1, st1);
    s1 := StreamConsumes(ran, ran.streams["c"], lines).0;
  }

  lemma {:induction false} FailureConcluded(s1: Server, out: Outcome)
    requires out == ContradictedOutcome() && s1.recent == [] && s1.pending == [] && s1.capacity == 4
    requires |s1.log| == 1 && IsAck(s1.log[0], "c")
    ensures var s, m := Conclude(s1, "c", "MOVE", {0}, out, 1), Command("c", "MOVE", {0}, out);
      && |s.log| == 2 && IsAck(s.log[0], "c") && IsDone(s.log[1], "c")
      && HandleIncoming(s, m, 2).log == s.log + [Pub("c", false, s.log[1].payload)]
  {
    assert Has(out.lines, Error) by { assert out.lines[1].kind == Error; }
    var s := Conclude(s1, "c", "MOVE", {0}, out, 1);
    assert s.recent == [Cached("c", None, s.log[1].payload)];
    assert s.recent[0].cmdId == "c";
    assert FindRecent(s.recent, "c") == 0 && FindPending(s.pending, "c") == 0;
    hide Conclude, Execute;
  }
}
