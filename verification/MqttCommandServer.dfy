/** The command server as a class: the maps and queues of the source, changed in place. */
module MqttCommandServer {
  import opened Wrappers
  import opened MqttServerModel

  /** No two streams are bound to the same internal id. */
  ghost predicate Unambiguous(s: Server) {
    forall j, k :: j in s.streams && k in s.streams && s.streams[j].msgId == s.streams[k].msgId != "" ==> j == k
  }

  lemma ProcessKeepsRest(s: Server, st: Stream, e: Event)
    ensures var (r, rt) := ProcessEvent(s, st, e);
      r.streams == s.streams && r.orphans == s.orphans && r.order == s.order && r.pending == s.pending
      && r.capacity == s.capacity && rt.msgId == st.msgId && rt.cmdId == st.cmdId
  {
  }

  lemma {:induction false} HandleEventKeepsUnambiguous(s: Server, e: Event)
    requires Unambiguous(s)
    ensures Unambiguous(HandleEvent(s, e))
  {
    if e.cmdId != "" {
      if key :| Matches(s, e.cmdId, key) {
        OneMatchAll(s, e.cmdId, key);
        ProcessKeepsRest(s, s.streams[key], e);
        DeliverKeepsUnambiguous(s, key, e);
      }
    }
  }

  lemma OneMatchAll(s: Server, id: Id, key: Id)
    requires Unambiguous(s) && id != "" && Matches(s, id, key)
    ensures forall k :: Matches(s, id, k) ==> k == key
  {
  }

  lemma {:induction false} DeliverKeepsUnambiguous(s: Server, key: Id, e: Event)
    requires Unambiguous(s) && key in s.streams
    ensures Unambiguous(Deliver(s, key, e))
  {
    ProcessKeepsRest(s, s.streams[key], e);
    hide ProcessEvent;
  }

  class MqttCommandServer {
    var streams: map<Id, Stream>
    var pending: seq<Pending>
    var recent: seq<Cached>
    var orphanEvents: map<Id, seq<Event>>
    var orphanOrder: seq<Id>
    const duplicateCache: nat
    ghost var log: seq<Pub>
    ghost var accepted: seq<Id>
    ghost var executed: seq<Id>
    ghost var records: seq<Id>

    ghost function Model(): Server
      reads this
    {
      Server(streams, pending, recent, orphanEvents, orphanOrder, duplicateCache, log, accepted, executed, records)
    }

    constructor (cache: nat)
      ensures Model() == Server(map[], [], [], map[], [], cache, [], [], [], [])
    {
      streams, pending, recent, orphanEvents, orphanOrder := map[], [], [], map[], [];
      duplicateCache := cache;
      log, accepted, executed, records := [], [], [], [];
    }

    method PublishPayload(cmdId: Id, original: bool, payload: Payload)
      modifies this`log
      ensures Model() == Publish(old(Model()), cmdId, original, payload)
    {
      log := log + [Pub(cmdId, original, payload)];
    }

    method RecordCompleted(cmdId: Id, ack: Option<Payload>, completion: Payload)
      modifies this`recent, this`records
      ensures recent == Record(old(Model()), cmdId, ack, completion).recent && records == old(records) + [cmdId]
      ensures Model() == Record(old(Model()), cmdId, ack, completion)
    {
      records := records + [cmdId];
      if duplicateCache == 0 {
        return;
      }
      ghost var all := recent + [Cached(cmdId, ack, completion)];
      recent := recent + [Cached(cmdId, ack, completion)];
      while |recent| > duplicateCache
        invariant records == old(records) + [cmdId]
        invariant |recent| <= |all| && recent == all[|all| - |recent|..]
        invariant |recent| >= duplicateCache || recent == all
      {
        recent := recent[1..];
      }
      assert recent == Newest(all, duplicateCache);
    }

    method PublishAck(st: Stream) returns (r: Stream)
      modifies this`log
      ensures (Model(), r) == PublishAckFromStream(old(Model()), st)
    {
      r := st;
      if st.ackPublished {
        return;
      }
      if FirstOf(st.lines, Ack) == |st.lines| {
        return;
      }
      var payload := AckPayload(st.cmdId, NameOf(st.action), st.lines);
      PublishPayload(st.cmdId, true, payload);
      r := r.(ackPayload := Some(payload));
      r := r.(ackPublished := true);
    }

    method PublishCompletion(st: Stream) returns (r: Stream)
      modifies this`log, this`recent, this`records
      ensures (Model(), r) == PublishCompletionFromStream(old(Model()), st)
    {
      r := st;
      if st.donePublished {
        return;
      }
      var payload := DonePayload(st.cmdId, NameOf(st.action), st.lines, Ok, st.mask, st.startedMs);
      PublishPayload(st.cmdId, true, payload);
      RecordCompleted(st.cmdId, st.ackPayload, payload);
      r := r.(donePublished := true);
    }

    method ProcessStreamEvent(st: Stream, e: Event) returns (r: Stream)
      modifies this`log, this`recent, this`records
      ensures (Model(), r) == ProcessEvent(old(Model()), st, e)
    {
      r := st.(sawEvent := true);
      if e.action != "" && r.action == "" {
        r := r.(action := e.action);
      }
      r := r.(lines := r.lines + [EventToLine(e)]);
      if e.kind == Ack {
        r := PublishAck(r);
      } else if e.kind == Done {
        r := PublishCompletion(r);
      }
    }

    method BindStreamToMessageId(st: Stream, id: Id) returns (r: Stream)
      modifies this
      ensures (Model(), r) == Bind(old(Model()), st, id)
    {
      r := st;
      if id == "" {
        return;
      }
      r := r.(msgId := id);
      if id !in orphanEvents {
        return;
      }
      var events := orphanEvents[id];
      ghost var start := (Model(), r);
      for i := 0 to |events|
        invariant streams == old(streams) && orphanEvents == old(orphanEvents) && orphanOrder == old(orphanOrder)
        invariant ProcessAll(start.0, start.1, events) == ProcessAll(Model(), r, events[i..])
      {
        r := ProcessStreamEvent(r, events[i]);
        assert events[i..][1..] == events[i + 1..];
      }
      r := r.(sawEvent := true);
      if r.donePublished {
        streams := streams - {r.cmdId};
      }
      orphanEvents := orphanEvents - {id};
      orphanOrder := Without(orphanOrder, id);
    }

    method HandleDispatcherEvent(e: Event)
      requires Unambiguous(Model())
      modifies this
      ensures Model() == HandleEvent(old(Model()), e)
    {
      hide ProcessEvent;
      hide Buffer;
      if e.cmdId == "" {
        return;
      }
      var found, key := FindStreamFor(e.cmdId);
      if !found {
        BufferOrphan(e);
        return;
      }
      OneMatchAll(Model(), e.cmdId, key);
      var st := ProcessStreamEvent(streams[key], e);
      streams := streams[key := st];
      if e.kind == Done {
        streams := streams - {key};
      }
    }

    /** The stream of that id, or else one that is bound to it. */
    method FindStreamFor(id: Id) returns (found: bool, key: Id)
      ensures found ==> Matches(Model(), id, key)
      ensures !found ==> forall k :: !Matches(Model(), id, k)
    {
      if id in streams {
        return true, id;
      }
      var keys := streams.Keys;
      while keys != {}
        invariant keys <= streams.Keys
        invariant forall k :: k in streams && k !in keys ==> streams[k].msgId != id
        decreases |keys|
      {
        var k :| k in keys;
        if streams[k].msgId == id {
          return true, k;
        }
        keys := keys - {k};
      }
      return false, id;
    }

    method BufferOrphan(e: Event)
      modifies this`orphanEvents, this`orphanOrder
      ensures Model() == Buffer(old(Model()), e)
    {
      if e.cmdId in orphanEvents {
        orphanEvents := orphanEvents[e.cmdId := orphanEvents[e.cmdId] + [e]];
        return;
      }
      ghost var order := orphanOrder + [e.cmdId];
      orphanOrder := orphanOrder + [e.cmdId];
      if |orphanOrder| > MAX_ORPHAN_COMMANDS {
        var oldest := orphanOrder[0];
        orphanEvents := orphanEvents - {oldest};
        orphanOrder := orphanOrder[1..];
      }
      orphanEvents := orphanEvents[e.cmdId := [e]];
    }

    method ReplayPayload(cmdId: Id, payload: Option<Payload>)
      modifies this`log
      ensures Model() == Replay(old(Model()), cmdId, payload)
    {
      if payload.Some? {
        PublishPayload(cmdId, false, payload.value);
      }
    }

    method HandleDuplicateCommand(cmdId: Id) returns (duplicate: bool)
      modifies this`log
      ensures duplicate == IsDuplicate(old(Model()), cmdId)
      ensures Model() == if duplicate then HandleDuplicate(old(Model()), cmdId) else old(Model())
    {
      var p, c := FindPending(pending, cmdId), FindRecent(recent, cmdId);
      duplicate := cmdId in streams || p < |pending| || c < |recent|;
      if !duplicate {
        return;
      }
      if cmdId in streams && streams[cmdId].ackPayload.Some? {
        ReplayPayload(cmdId, streams[cmdId].ackPayload);
        return;
      }
      if p < |pending| {
        ReplayPayload(cmdId, pending[p].ackPayload);
        return;
      }
      if c < |recent| {
        ReplayPayload(cmdId, recent[c].ackPayload);
        ReplayPayload(cmdId, Some(recent[c].completionPayload));
      }
    }

    method Respond(cmdId: Id, ack: Option<Payload>, payload: Payload)
      modifies this`log, this`recent, this`records
      ensures Model() == PublishAndRecord(old(Model()), cmdId, ack, payload)
    {
      PublishPayload(cmdId, true, payload);
      RecordCompleted(cmdId, ack, payload);
    }

    method RespondError(cmdId: Id, action: string, reason: string)
      modifies this`log, this`recent, this`records
      ensures Model() == RespondWithError(old(Model()), cmdId, action, reason)
    {
      Respond(cmdId, None, DonePayload(cmdId, NameOf(action), [Line(Error, "", reason)], Failed, {}, 0));
    }

    method StreamConsumesResponse(st: Stream, lines: seq<Line>) returns (r: Stream, handled: bool)
      modifies this
      ensures (Model(), r, handled) == StreamConsumes(old(Model()), st, lines)
    {
      hide Bind;
      hide PublishAckFromStream;
      hide ContractId;
      hide BindBoth;
      hide FirstOf;
      r := BindToResponse(st, lines);
      if FirstOf(lines, Done) < |lines| {
        r := r.(lines := lines);
        r := PublishAck(r);
        handled := true;
      } else if FirstOf(lines, Error) == |lines| && r.sawEvent {
        r := PublishAck(r);
        handled := true;
      } else {
        handled := false;
      }
      if r.cmdId in streams {
        streams := streams[r.cmdId := r];
      }
    }

    method BindToResponse(st: Stream, lines: seq<Line>) returns (r: Stream)
      modifies this
      ensures (Model(), r) == BindBoth(old(Model()), st, lines)
    {
      hide Bind;
      hide ContractId;
      var ack, done := FirstOf(lines, Ack), FirstOf(lines, Done);
      r := st;
      if ack < |lines| && lines[ack].msgId != "" && r.msgId == "" {
        r := BindStreamToMessageId(r, lines[ack].msgId);
      } else if r.msgId == "" && ContractId(lines) != "" {
        r := BindStreamToMessageId(r, ContractId(lines));
      }
      if done < |lines| {
        r := BindStreamToMessageId(r, lines[done].msgId);
      }
    }

    method ConcludeCommand(cmdId: Id, action: string, mask: set<nat>, out: Outcome, now: nat)
      modifies this
      ensures Model() == Conclude(old(Model()), cmdId, action, mask, out, now)
    {
      streams := streams - {cmdId};
      var hasAck, hasError := FirstOf(out.lines, Ack) < |out.lines|, FirstOf(out.lines, Error) < |out.lines|;
      var status := if hasError then Failed else if hasAck then Ok else Unknown;
      assert status == DeriveStatus(out.lines);
      var ack: Option<Payload> := None;
      if hasAck && !hasError {
        ack := Some(AckPayload(cmdId, action, out.lines));
        PublishPayload(cmdId, true, ack.value);
      }
      if status == Ok && action == "MOVE" && mask != {} && out.moving {
        pending := pending + [Pending(cmdId, action, out.lines, ack, mask, now)];
        return;
      }
      Respond(cmdId, ack, DonePayload(cmdId, action, out.lines, status, mask, now));
    }

    method ExecuteCommand(cmdId: Id, action: string, mask: set<nat>, out: Outcome, now: nat)
      requires Unambiguous(Model())
      modifies this
      ensures Model() == Execute(old(Model()), cmdId, action, mask, out, now)
    {
      streams := streams[cmdId := Stream(cmdId, "", action, [], mask, now, false, false, false, None)];
      executed := executed + [cmdId];
      ghost var begun := Model();
      assert Unambiguous(begun);
      for i := 0 to |out.events|
        invariant Unambiguous(Model())
        invariant HandleEvents(begun, out.events) == HandleEvents(Model(), out.events[i..])
      {
        HandleEventKeepsUnambiguous(Model(), out.events[i]);
        HandleDispatcherEvent(out.events[i]);
        assert out.events[i..][1..] == out.events[i + 1..];
      }
      if cmdId !in streams {
        return;
      }
      if out.lines == [] {
        RespondError(cmdId, action, "NO_RESPONSE");
        streams := streams - {cmdId};
        return;
      }
      var _, handled := StreamConsumesResponse(streams[cmdId], out.lines);
      if handled || FindRecent(recent, cmdId) < |recent| {
        return;
      }
      ConcludeCommand(cmdId, action, mask, out, now);
    }

    method Incoming(m: Message, now: nat)
      requires Unambiguous(Model())
      modifies this
      ensures Model() == HandleIncoming(old(Model()), m, now)
    {
      if !m.Unreadable? {
        var duplicate := HandleDuplicateCommand(m.cmdId);
        if duplicate {
          return;
        }
      }
      accepted := accepted + [m.cmdId];
      match m
      case Unreadable(cmdId) => RespondError(cmdId, "UNKNOWN", "INVALID");
      case Help(cmdId) => Respond(cmdId, None, DonePayload(cmdId, "HELP", [], Ok, {}, 0));
      case Unbuildable(cmdId, action) => RespondError(cmdId, action, "INVALID");
      case Command(cmdId, action, mask, out) => ExecuteCommand(cmdId, action, mask, out, now);
    }

    method FinalizeCompleted(moving: set<nat>)
      modifies this`pending, this`log, this`recent, this`records
      ensures Model() == FinalizeFrom(old(Model()), moving, 0)
    {
      var i := 0;
      while i < |pending|
        invariant i <= |pending|
        invariant FinalizeFrom(Model(), moving, i) == FinalizeFrom(old(Model()), moving, 0)
        decreases |pending| - i
      {
        if pending[i].mask * moving != {} {
          i := i + 1;
        } else {
          var p := pending[i];
          Respond(p.cmdId, p.ackPayload, DonePayload(p.cmdId, p.action, p.lines, Ok, p.mask, p.startedMs));
          pending := pending[..i] + pending[i + 1..];
        }
      }
    }
  }
}
