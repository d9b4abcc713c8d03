/** What a command that comes again is answered: the payloads published for it since it was taken up,
    read off the log alone. */
module MqttReplay {
  import opened Wrappers
  import opened MqttServerModel
  import opened MqttRuns
  import opened MqttOrphans

  // ---------------- what was published for a command ----------------

  /** The original publishes for one command: none, an acknowledgement, or a completion with the
      acknowledgement before it. */
  datatype Heard = Silence | Acked(ack: Payload) | Finished(before: Option<Payload>, done: Payload)

  /** One more publish. An acknowledgement that follows the completion changes nothing. */
  function Hear(h: Heard, p: Pub, id: Id): Heard {
    if IsAck(p, id) then (if h.Finished? then h else Acked(p.payload))
    else if IsDone(p, id) then
      Finished(if h.Acked? then Some(h.ack) else if h.Finished? then h.before else None, p.payload)
    else h
  }

  function HeardOf(log: seq<Pub>, id: Id): Heard {
    if log == [] then Silence else Hear(HeardOf(log[..|log| - 1], id), log[|log| - 1], id)
  }

  lemma HeardAppend(log: seq<Pub>, b: nat, p: Pub, id: Id)
    requires b <= |log|
    ensures HeardOf((log + [p])[b..], id) == Hear(HeardOf(log[b..], id), p, id)
  {
    var since := (log + [p])[b..];
    assert since == log[b..] + [p];
    assert since[..|since| - 1] == log[b..];
  }

  // ---------------- what the server remembers of it ----------------

  datatype View = Open(ack: Option<Payload>) | Closed(ackPayload: Option<Payload>, completion: Payload) | Gone

  /** What the server would answer from: the stream, the waiting command, or the cache. */
  function ViewOf(s: Server, hand: Hand, id: Id): View {
    var p, c := FindPending(s.pending, id), FindRecent(s.recent, id);
    if InHand(hand, id) && !hand.value.donePublished then Open(hand.value.ackPayload)
    else if !InHand(hand, id) && id in s.streams then Open(s.streams[id].ackPayload)
    else if p < |s.pending| then Open(s.pending[p].ackPayload)
    else if c < |s.recent| then Closed(s.recent[c].ackPayload, s.recent[c].completionPayload)
    else Gone
  }

  /** The acknowledgement that is repeated with a completion: none with a failure. */
  function Repeated(h: Heard): Option<Payload>
    requires h.Finished? && h.done.DonePayload?
  {
    if h.done.status == Failed then None else h.before
  }

  predicate Fits(h: Heard, v: View) {
    match v
    case Open(None) => h == Silence
    case Open(Some(ack)) => h == Acked(ack)
    case Closed(ack, done) => h.Finished? && h.done == done && done.DonePayload? && ack == Repeated(h)
    case Gone => true
  }

  /** The server remembers a command as it was answered since publish number b. */
  predicate Told(s: Server, hand: Hand, id: Id, b: nat) {
    b <= |s.log| && Fits(HeardOf(s.log[b..], id), ViewOf(s, hand, id))
  }

  lemma ToldSilently(s: Server, hand: Hand, r: Server, hand1: Hand, id: Id, b: nat)
    requires Told(s, hand, id, b) && r.log == s.log
    requires ViewOf(r, hand1, id) == ViewOf(s, hand, id) || ViewOf(r, hand1, id) == Gone
    ensures Told(r, hand1, id, b)
  {
    hide ViewOf, HeardOf;
  }

  // ---------------- publishing ----------------

  lemma {:induction false} AckTells(s: Server, st: Stream, payload: Payload, id: Id, b: nat)
    requires InvHand(s, Some(st)) && Told(s, Some(st), id, b) && !st.ackPublished && payload.AckPayload?
    ensures Told(Publish(s, st.cmdId, true, payload), Some(st.(ackPublished := true, ackPayload := Some(payload))), id, b)
  {
    var p := Pub(st.cmdId, true, payload);
    HeardAppend(s.log, b, p, id);
    HandFacts(s, st);
    PendingFound(s.pending, st.cmdId);
    hide HeardOf, FindPending, FindRecent, InvHand;
  }

  lemma HandFacts(s: Server, st: Stream)
    requires InvHand(s, Some(st))
    ensures (st.ackPublished <==> st.ackPayload.Some?) && !HasPending(s.pending, st.cmdId)
  {
  }

  lemma {:induction false} PublishAckTells(s: Server, st: Stream, id: Id, b: nat)
    requires InvHand(s, Some(st)) && Told(s, Some(st), id, b)
    ensures var (r, rt) := PublishAckFromStream(s, st); Told(r, Some(rt), id, b)
  {
    if !st.ackPublished && Has(st.lines, Ack) {
      hide Told, InvHand;
      AckTells(s, st, AckPayload(st.cmdId, NameOf(st.action), st.lines), id, b);
    }
  }

  lemma FoundRecent(recent: seq<Cached>, id: Id, k: nat)
    requires k < |recent| && recent[k].cmdId == id
    requires forall i, j :: 0 <= i < j < |recent| ==> recent[i].cmdId != recent[j].cmdId
    ensures FindRecent(recent, id) == k
  {
    var f := FindRecent(recent, id);
    assert f <= k;
    assert f == k || !(f < k);
  }

  lemma NotFound(recent: seq<Cached>, id: Id)
    ensures FindRecent(recent, id) == |recent| <==> !HasRecent(recent, id)
  {
  }

  /** What the cache says about a command after one more entry. */
  lemma {:induction false} NewestFound(recent: seq<Cached>, c: Cached, capacity: nat, id: Id)
    requires forall i, j :: 0 <= i < j < |recent| ==> recent[i].cmdId != recent[j].cmdId
    requires !HasRecent(recent, c.cmdId)
    ensures var r, k := Newest(recent + [c], capacity), FindRecent(Newest(recent + [c], capacity), id);
      && (id == c.cmdId && k < |r| ==> r[k] == c)
      && (id != c.cmdId && k < |r| ==> FindRecent(recent, id) < |recent| && r[k] == recent[FindRecent(recent, id)])
  {
    var all, r := recent + [c], Newest(recent + [c], capacity);
    var k, drop := FindRecent(r, id), |recent| + 1 - |r|;
    if k < |r| {
      assert r[k] == all[drop + k];
      if drop + k < |recent| {
        FoundRecent(recent, id, drop + k);
        assert HasRecent(recent, id);
      }
    }
  }

  lemma {:induction false} RecordTells(s: Server, st: Stream, ack: Option<Payload>, done: Payload, id: Id, b: nat)
    requires InvHand(s, Some(st)) && Told(s, Some(st), id, b) && !st.donePublished && done.DonePayload?
    requires ack == if done.status == Failed then None else st.ackPayload
    ensures Told(PublishAndRecord(s, st.cmdId, ack, done), Some(st.(donePublished := true)), id, b)
  {
    var p, r, rt := Pub(st.cmdId, true, done), PublishAndRecord(s, st.cmdId, ack, done), st.(donePublished := true);
    RecordFacts(s, st);
    HeardAppend(s.log, b, p, id);
    RecordedView(s, st, ack, done, id);
    hide HeardOf, FindPending, FindRecent, Newest, InvHand, HasRecent, HasPending, ViewOf;
    if id == st.cmdId { OpenView(s, st); }
  }

  lemma OpenView(s: Server, st: Stream)
    requires !st.donePublished
    ensures ViewOf(s, Some(st), st.cmdId) == Open(st.ackPayload)
  {
  }

  lemma {:induction false} RecordedView(s: Server, st: Stream, ack: Option<Payload>, done: Payload, id: Id)
    requires !HasRecent(s.recent, st.cmdId) && !HasPending(s.pending, st.cmdId) && !st.donePublished
    requires forall i, j :: 0 <= i < j < |s.recent| ==> s.recent[i].cmdId != s.recent[j].cmdId
    requires s.capacity == 0 ==> s.recent == []
    ensures var v := ViewOf(PublishAndRecord(s, st.cmdId, ack, done), Some(st.(donePublished := true)), id);
      v == Gone || v == if id == st.cmdId then Closed(ack, done) else ViewOf(s, Some(st), id)
  {
    if s.capacity == 0 {
      NotFound(s.recent, id);
    } else {
      NewestFound(s.recent, Cached(st.cmdId, ack, done), s.capacity, id);
    }
    PendingFound(s.pending, st.cmdId);
    hide FindPending, FindRecent, Newest, HasRecent, HasPending;
  }

  lemma PendingFound(pending: seq<Pending>, id: Id)
    ensures FindPending(pending, id) == |pending| <==> !HasPending(pending, id)
  {
  }

  lemma RecordFacts(s: Server, st: Stream)
    requires InvHand(s, Some(st)) && !st.donePublished
    ensures !HasRecent(s.recent, st.cmdId) && !HasPending(s.pending, st.cmdId)
    ensures forall i, j :: 0 <= i < j < |s.recent| ==> s.recent[i].cmdId != s.recent[j].cmdId
    ensures s.capacity == 0 ==> s.recent == []
  {
  }

  // ---------------- events ----------------

  lemma DetailTells(s: Server, st: Stream, rt: Stream, id: Id, b: nat)
    requires Told(s, Some(st), id, b)
    requires rt.cmdId == st.cmdId && rt.ackPayload == st.ackPayload && rt.donePublished == st.donePublished
    ensures Told(s, Some(rt), id, b)
  {
    hide HeardOf, FindPending, FindRecent;
  }

  lemma {:induction false} ProcessEventTells(s: Server, st: Stream, e: Event, id: Id, b: nat)
    requires InvHand(s, Some(st)) && Told(s, Some(st), id, b)
    ensures var (r, rt) := ProcessEvent(s, st, e); Told(r, Some(rt), id, b)
  {
    hide InvHand, Told;
    var noted := Noted(st, e);
    HandDetails(s, st, noted);
    DetailTells(s, st, noted, id, b);
    if e.kind == Ack {
      PublishAckTells(s, noted, id, b);
    } else if e.kind == Done && !noted.donePublished {
      RecordTells(s, noted, noted.ackPayload,
                  DonePayload(noted.cmdId, NameOf(noted.action), noted.lines, Ok, noted.mask, noted.startedMs), id, b);
    }
  }

  lemma {:induction false} ProcessAllTells(s: Server, st: Stream, es: seq<Event>, id: Id, b: nat)
    requires InvHand(s, Some(st)) && Told(s, Some(st), id, b)
    ensures var (r, rt) := ProcessAll(s, st, es); Told(r, Some(rt), id, b)
    decreases |es|
  {
    hide InvHand, Told, ProcessEvent;
    if es != [] {
      ProcessEventKeeps(s, st, es[0]);
      ProcessEventTells(s, st, es[0], id, b);
      var (s1, st1) := ProcessEvent(s, st, es[0]);
      ProcessAllTells(s1, st1, es[1..], id, b);
    }
  }

  /** Streams, bindings and buffers that the view of no command in hand depends on. */
  lemma HandSame(s: Server, r: Server, st: Stream, id: Id, b: nat)
    requires Told(s, Some(st), id, b) && r.log == s.log && r.pending == s.pending && r.recent == s.recent
    requires id != st.cmdId ==> (id in r.streams <==> id in s.streams) && (id in r.streams ==> r.streams[id] == s.streams[id])
    ensures Told(r, Some(st), id, b)
  {
    hide HeardOf, FindPending, FindRecent;
  }

  lemma {:induction false} BindTells(s: Server, st: Stream, bound: Id, id: Id, b: nat)
    requires InvHand(s, Some(st)) && Told(s, Some(st), id, b) && (bound == "" || Unclaimed(s, st, bound))
    ensures var (r, rt) := Bind(s, st, bound); Told(r, Some(rt), id, b)
  {
    hide InvHand, Told;
    if bound != "" {
      var named := st.(msgId := bound);
      NameHand(s, st, bound);
      DetailTells(s, st, named, id, b);
      if bound in s.orphans {
        ProcessAllKeeps(s, named, s.orphans[bound]);
        ProcessAllTells(s, named, s.orphans[bound], id, b);
        var (s1, st1) := ProcessAll(s, named, s.orphans[bound]);
        DetailTells(s1, st1, st1.(sawEvent := true), id, b);
        hide ProcessAll;
        HandSame(s1, Bind(s, st, bound).0, st1.(sawEvent := true), id, b);
      }
    }
  }

  lemma {:induction false} BindBothTells(s: Server, st: Stream, lines: seq<Line>, id: Id, b: nat)
    requires InvHand(s, Some(st)) && Listed(s, st) && LinesUnclaimed(s, st, lines) && Told(s, Some(st), id, b)
    ensures var (r, rt) := BindBoth(s, st, lines); Told(r, Some(rt), id, b)
  {
    hide InvHand, Bind, ContractId, Told;
    var ack, done := FirstOf(lines, Ack), FirstOf(lines, Done);
    ContractIdUnclaimed(s, st, lines);
    if ack < |lines| {
      BindKeeps(s, st, lines[ack].msgId);
      BindTells(s, st, lines[ack].msgId, id, b);
    }
    BindKeeps(s, st, ContractId(lines));
    BindTells(s, st, ContractId(lines), id, b);
    var (s1, st1) := if ack < |lines| && lines[ack].msgId != "" && st.msgId == "" then Bind(s, st, lines[ack].msgId)
                     else if st.msgId == "" && ContractId(lines) != "" then Bind(s, st, ContractId(lines))
                     else (s, st);
    if done < |lines| {
      BindTells(s1, st1, lines[done].msgId, id, b);
    }
  }

  // ---------------- a stream goes back into the map, or is released ----------------

  lemma PickUpTells(s: Server, st: Stream, id: Id, b: nat)
    requires Told(s, None, id, b) && !st.donePublished && st.cmdId in s.streams && s.streams[st.cmdId] == st
    ensures Told(s, Some(st), id, b)
  {
    hide HeardOf, FindPending, FindRecent;
  }

  lemma PutBackTells(s: Server, st: Stream, id: Id, b: nat)
    requires Told(s, Some(st), id, b) && !st.donePublished
    ensures Told(s.(streams := s.streams[st.cmdId := st]), None, id, b)
  {
    hide HeardOf, FindPending, FindRecent;
  }

  lemma LetGoTells(s: Server, st: Stream, id: Id, b: nat)
    requires Told(s, Some(st), id, b) && st.donePublished
    ensures Told(s.(streams := s.streams - {st.cmdId}), None, id, b)
  {
    hide HeardOf, FindPending, FindRecent;
  }

  lemma {:induction false} ShareTells(s: Server, st: Stream, id: Id, b: nat)
    requires Listed(s, st) && Told(s, Some(st), id, b)
    ensures Told(Share(s, st), None, id, b)
  {
    hide Told;
    if st.donePublished {
      LetGoTells(s, st, id, b);
      assert s.streams - {st.cmdId} == s.streams;
    } else {
      PutBackTells(s, st, id, b);
    }
  }

  lemma {:induction false} ConsumesTells(s: Server, st: Stream, lines: seq<Line>, id: Id, b: nat)
    requires InvHand(s, Some(st)) && Listed(s, st) && LinesUnclaimed(s, st, lines) && AckSeen(st) && !st.donePublished
    requires Told(s, Some(st), id, b)
    ensures Told(StreamConsumes(s, st, lines).0, None, id, b)
  {
    hide InvHand, BindBoth, Share, PublishAckFromStream, Told;
    BindBothKeeps(s, st, lines);
    BindBothTells(s, st, lines, id, b);
    var (s2, st2) := BindBoth(s, st, lines);
    var done := FirstOf(lines, Done);
    if done < |lines| {
      var named := st2.(lines := lines);
      HandDetails(s2, st2, named);
      DetailTells(s2, st2, named, id, b);
      PublishAckKeeps(s2, named);
      PublishAckTells(s2, named, id, b);
      var (s3, st3) := PublishAckFromStream(s2, named);
      ShareTells(s3, st3, id, b);
    } else if !Has(lines, Error) && st2.sawEvent {
      PublishAckKeeps(s2, st2);
      PublishAckTells(s2, st2, id, b);
      var (s3, st3) := PublishAckFromStream(s2, st2);
      ShareTells(s3, st3, id, b);
    } else {
      ShareTells(s2, st2, id, b);
    }
  }

  // ---------------- waiting commands ----------------

  lemma {:induction false} PendTells(s: Server, st: Stream, p: Pending, id: Id, b: nat)
    requires InvHand(s, Some(st)) && !st.donePublished && st.cmdId !in s.streams && Told(s, Some(st), id, b)
    requires p.cmdId == st.cmdId && p.ackPayload == st.ackPayload
    ensures Told(s.(pending := s.pending + [p]), None, id, b)
  {
    HandFacts(s, st);
    PendingAppended(s.pending, p, id);
    hide HeardOf, FindPending, FindRecent, InvHand;
  }

  lemma {:induction false} PendingAppended(pending: seq<Pending>, p: Pending, id: Id)
    ensures var k, j := FindPending(pending + [p], id), FindPending(pending, id);
      && (j < |pending| ==> k == j && (pending + [p])[k] == pending[j])
      && (j == |pending| && id == p.cmdId ==> k == |pending| && (pending + [p])[k] == p)
      && (j == |pending| && id != p.cmdId ==> k == |pending| + 1)
  {
    var all, k, j := pending + [p], FindPending(pending + [p], id), FindPending(pending, id);
    assert forall i :: 0 <= i < |pending| ==> all[i] == pending[i];
    assert all[|pending|] == p;
  }

  lemma {:induction false} TakePendingTells(s: Server, i: nat, id: Id, b: nat)
    requires Inv(s) && i < |s.pending| && Told(s, None, id, b)
    ensures Told(s.(pending := s.pending[..i] + s.pending[i + 1..]), Some(PendingStream(s.pending[i])), id, b)
  {
    PendingFacts(s, i);
    PendingDistinct(s);
    PendingRemoved(s.pending, i, id);
    hide HeardOf, FindPending, FindRecent, InvHand;
  }

  lemma PendingDistinct(s: Server)
    requires Inv(s)
    ensures forall i, j :: 0 <= i < j < |s.pending| ==> s.pending[i].cmdId != s.pending[j].cmdId
  {
  }

  lemma {:induction false} PendingRemoved(pending: seq<Pending>, i: nat, id: Id)
    requires i < |pending| && forall j, k :: 0 <= j < k < |pending| ==> pending[j].cmdId != pending[k].cmdId
    ensures var rest := pending[..i] + pending[i + 1..];
      var k, j := FindPending(rest, id), FindPending(pending, id);
      if id == pending[i].cmdId then j == i && k == |rest|
      else (j < |pending| <==> k < |rest|) && (k < |rest| ==> rest[k] == pending[j])
  {
    var rest := pending[..i] + pending[i + 1..];
    var k, j := FindPending(rest, id), FindPending(pending, id);
    RestOfPending(pending, i, id);
    PendingFound(pending, id);
    PendingFound(rest, id);
    if id == pending[i].cmdId {
      FoundPending(pending, id, i);
    } else if k < |rest| {
      FoundPending(pending, id, if k < i then k else k + 1);
    }
  }

  lemma FoundPending(pending: seq<Pending>, id: Id, k: nat)
    requires k < |pending| && pending[k].cmdId == id
    requires forall i, j :: 0 <= i < j < |pending| ==> pending[i].cmdId != pending[j].cmdId
    ensures FindPending(pending, id) == k
  {
    var f := FindPending(pending, id);
    assert f <= k;
    assert f == k || !(f < k);
  }

  lemma {:induction false} CompletePendingTells(s: Server, i: nat, id: Id, b: nat)
    requires Inv(s) && i < |s.pending| && Told(s, None, id, b)
    ensures Told(CompletePending(s, s.pending[i]).(pending := s.pending[..i] + s.pending[i + 1..]), None, id, b)
  {
    var p, r := s.pending[i], s.(pending := s.pending[..i] + s.pending[i + 1..]);
    var done := DonePayload(p.cmdId, p.action, p.lines, Ok, p.mask, p.startedMs);
    PendingFacts(s, i);
    hide InvHand, Told;
    TakePending(s, i);
    TakePendingTells(s, i, id, b);
    RecordTells(r, PendingStream(p), p.ackPayload, done, id, b);
    var t := PublishAndRecord(r, p.cmdId, p.ackPayload, done);
    LetGoTells(t, PendingStream(p).(donePublished := true), id, b);
    assert t.streams - {p.cmdId} == t.streams;
  }

  lemma {:induction false} FinalizeTells(s: Server, moving: set<nat>, i: nat, id: Id, b: nat)
    requires Inv(s) && i <= |s.pending| && Told(s, None, id, b)
    ensures Told(FinalizeFrom(s, moving, i), None, id, b)
    decreases |s.pending| - i
  {
    hide InvHand, Told;
    if i < |s.pending| {
      if s.pending[i].mask * moving != {} {
        FinalizeTells(s, moving, i + 1, id, b);
      } else {
        CompletePendingKeeps(s, i);
        CompletePendingTells(s, i, id, b);
        var p := s.pending[i];
        FinalizeTells(CompletePending(s, p).(pending := s.pending[..i] + s.pending[i + 1..]), moving, i, id, b);
      }
    }
  }

  // ---------------- events and commands as they come ----------------

  lemma {:induction false} DeliverTells(s: Server, key: Id, e: Event, id: Id, b: nat)
    requires Inv(s) && key in s.streams && Told(s, None, id, b)
    ensures Told(Deliver(s, key, e), None, id, b)
  {
    PickUp(s, key);
    KeyIsId(s, key);
    var st := s.streams[key];
    hide InvHand, ProcessEvent, Told;
    PickUpTells(s, st, id, b);
    ProcessEventKeeps(s, st, e);
    ProcessEventTells(s, st, e, id, b);
    var (s1, st1) := ProcessEvent(s, st, e);
    if e.kind == Done {
      LetGoTells(s1, st1, id, b);
    } else {
      PutBackTells(s1, st1, id, b);
    }
  }

  lemma {:induction false} BufferTells(s: Server, e: Event, id: Id, b: nat)
    requires Told(s, None, id, b)
    ensures Told(Buffer(s, e), None, id, b)
  {
    ToldSilently(s, None, Buffer(s, e), None, id, b);
  }

  lemma {:induction false} EventTells(s: Server, e: Event, id: Id, b: nat)
    requires Inv(s) && Told(s, None, id, b)
    ensures Told(HandleEvent(s, e), None, id, b)
  {
    hide InvHand, Told, Deliver, Buffer;
    if e.cmdId != "" {
      if key :| Matches(s, e.cmdId, key) {
        forall k | Matches(s, e.cmdId, k) ensures Told(Deliver(s, k, e), None, id, b) { DeliverTells(s, k, e, id, b); }
      } else {
        BufferTells(s, e, id, b);
      }
    }
  }

  lemma {:induction false} ConcludeTells(s: Server, st: Stream, action: string, mask: set<nat>, out: Outcome, now: nat, id: Id, b: nat)
    requires Inv(s) && st.cmdId in s.streams && s.streams[st.cmdId] == st && Told(s, None, id, b)
    requires !Has(out.lines, Error) ==> !st.ackPublished
    ensures Told(Conclude(s, st.cmdId, action, mask, out, now), None, id, b)
  {
    PickUp(s, st.cmdId);
    NotDone(s, st);
    HandFacts(s, st);
    hide InvHand, Told;
    PickUpTells(s, st, id, b);
    Erase(s, st);
    var closed := s.(streams := s.streams - {st.cmdId});
    HandSame(s, closed, st, id, b);
    var done := DonePayload(st.cmdId, action, out.lines, DeriveStatus(out.lines), mask, now);
    if Has(out.lines, Ack) && !Has(out.lines, Error) {
      var ack := AckPayload(st.cmdId, action, out.lines);
      var acked, st1 := Publish(closed, st.cmdId, true, ack), st.(ackPublished := true, ackPayload := Some(ack));
      AckKeeps(closed, st, ack);
      AckTells(closed, st, ack, id, b);
      if DeriveStatus(out.lines) == Ok && action == "MOVE" && mask != {} && out.moving {
        PendTells(acked, st1, Pending(st.cmdId, action, out.lines, Some(ack), mask, now), id, b);
      } else {
        RecordTells(acked, st1, Some(ack), done, id, b);
        ReleasedTells(PublishAndRecord(acked, st.cmdId, Some(ack), done), st1.(donePublished := true), id, b);
      }
    } else {
      RecordTells(closed, st, None, done, id, b);
      ReleasedTells(PublishAndRecord(closed, st.cmdId, None, done), st.(donePublished := true), id, b);
    }
  }

  lemma ReleasedTells(s: Server, st: Stream, id: Id, b: nat)
    requires Told(s, Some(st), id, b) && st.donePublished && st.cmdId !in s.streams
    ensures Told(s, None, id, b)
  {
    LetGoTells(s, st, id, b);
    assert s.streams - {st.cmdId} == s.streams;
    hide Told;
  }

  lemma {:induction false} FinishTells(s: Server, cmdId: Id, action: string, mask: set<nat>, out: Outcome, now: nat, id: Id, b: nat)
    requires Inv(s) && cmdId in s.streams && s.streams[cmdId].cmdId == cmdId && Told(s, None, id, b)
    requires AckSeen(s.streams[cmdId]) && LinesUnclaimed(s, s.streams[cmdId], out.lines)
    requires s.capacity >= 1 || !DoneByBinding(s, s.streams[cmdId], out.lines)
    ensures Told(Finish(s, cmdId, action, mask, out, now), None, id, b)
  {
    var st := s.streams[cmdId];
    PickUp(s, cmdId);
    NotDone(s, st);
    hide InvHand, StreamConsumes, Conclude, Told, DoneByBinding;
    PickUpTells(s, st, id, b);
    if out.lines == [] {
      var done := DonePayload(cmdId, NameOf(action), [Line(Error, "", "NO_RESPONSE")], Failed, {}, 0);
      RecordTells(s, st, None, done, id, b);
      LetGoTells(PublishAndRecord(s, cmdId, None, done), st.(donePublished := true), id, b);
    } else {
      ConsumedTells(s, st, action, mask, out, now, id, b);
    }
  }

  lemma {:induction false} ConsumedTells(s: Server, st: Stream, action: string, mask: set<nat>, out: Outcome, now: nat, id: Id, b: nat)
    requires InvHand(s, Some(st)) && Listed(s, st) && LinesUnclaimed(s, st, out.lines) && AckSeen(st) && !st.donePublished
    requires Told(s, Some(st), id, b) && (s.capacity >= 1 || !DoneByBinding(s, st, out.lines))
    ensures var (s1, _, handled) := StreamConsumes(s, st, out.lines);
      Told(if handled || HasRecent(s1.recent, st.cmdId) then s1 else Conclude(s1, st.cmdId, action, mask, out, now), None, id, b)
  {
    ConsumesTells(s, st, out.lines, id, b);
    var (s1, st1, handled) := StreamConsumes(s, st, out.lines);
    if !handled && !HasRecent(s1.recent, st.cmdId) {
      OpenAgain(s, st, out.lines);
      hide InvHand, StreamConsumes, Conclude, Told, HasRecent, Listed, LinesUnclaimed, DoneByBinding;
      ConcludeTells(s1, st1, action, mask, out, now, id, b);
    }
  }

  /** With a cache a response that is still to be concluded has its stream in the map. */
  lemma {:induction false} OpenAgain(s: Server, st: Stream, lines: seq<Line>)
    requires InvHand(s, Some(st)) && Listed(s, st) && LinesUnclaimed(s, st, lines) && AckSeen(st) && !st.donePublished
    requires var (s1, st1, handled) := StreamConsumes(s, st, lines); !handled && !HasRecent(s1.recent, st.cmdId)
    requires s.capacity >= 1 || !DoneByBinding(s, st, lines)
    ensures var (s1, st1, handled) := StreamConsumes(s, st, lines);
      && Inv(s1) && st1.cmdId in s1.streams && s1.streams[st1.cmdId] == st1 && st1.cmdId == st.cmdId
      && (!Has(lines, Error) ==> !st1.ackPublished)
  {
    StreamConsumesKeeps(s, st, lines);
    hide InvHand, StreamConsumes, LinesUnclaimed, DoneByBinding;
  }

  // ---------------- from the moment a command is taken up ----------------

  lemma {:induction false} TakenUpTells(s: Server, st: Stream)
    requires !st.donePublished && st.ackPayload == None
    ensures Told(s.(accepted := s.accepted + [st.cmdId]), Some(st), st.cmdId, |s.log|)
  {
    assert s.log[|s.log|..] == [];
  }

  lemma AcceptedTells(s: Server, st: Stream, id: Id, b: nat)
    requires Told(s, None, id, b) && id != st.cmdId
    ensures Told(s.(accepted := s.accepted + [st.cmdId]), Some(st), id, b)
  {
    hide HeardOf, FindPending, FindRecent;
  }

  /** The command with this id is taken up by the message, or has been since publish number b. */
  ghost predicate Since(s: Server, taken: Id, id: Id, b: nat) {
    if taken == id then b == |s.log| else Told(s, None, id, b)
  }

  lemma {:induction false} BegunTells(s: Server, st: Stream, id: Id, b: nat)
    requires Since(s, st.cmdId, id, b) && !st.donePublished && st.ackPayload == None
    ensures Told(s.(accepted := s.accepted + [st.cmdId]), Some(st), id, b)
  {
    hide Told;
    if id == st.cmdId { TakenUpTells(s, st); } else { AcceptedTells(s, st, id, b); }
  }

  lemma {:induction false} AnswerTells(s: Server, cmdId: Id, completion: Payload, id: Id, b: nat)
    requires Inv(s) && !IsDuplicate(s, cmdId) && completion.DonePayload? && Since(s, cmdId, id, b)
    ensures Told(PublishAndRecord(s.(accepted := s.accepted + [cmdId]), cmdId, None, completion), None, id, b)
  {
    var st, a := NewStream(cmdId, "", {}, 0), s.(accepted := s.accepted + [cmdId]);
    AcceptKeeps(s, st);
    BegunTells(s, st, id, b);
    hide InvHand, Told, Since;
    RecordTells(a, st, None, completion, id, b);
    ReleasedTells(PublishAndRecord(a, cmdId, None, completion), st.(donePublished := true), id, b);
  }

  lemma {:induction false} ExecuteTells(s: Server, cmdId: Id, action: string, mask: set<nat>, out: Outcome, now: nat, id: Id, b: nat)
    requires Inv(s) && !IsDuplicate(s, cmdId) && FreshOutcome(s, cmdId, out) && Agrees(s, out) && Since(s, cmdId, id, b)
    ensures Told(Execute(s.(accepted := s.accepted + [cmdId]), cmdId, action, mask, out, now), None, id, b)
  {
    hide InvHand, HandleEvents, Finish, Told, Since, DoneByBinding;
    BeginKeeps(s, cmdId, action, mask, now);
    var st, a := NewStream(cmdId, action, mask, now), s.(accepted := s.accepted + [cmdId]);
    BegunTells(s, st, id, b);
    PutBackTells(a, st, id, b);
    var listed := OpenStream(a, cmdId, action, mask, now);
    var begun := listed.(executed := s.executed + [cmdId]);
    CountTells(listed, begun, id, b);
    FreshEventsBuffered(begun, out.events);
    var ran := HandleEvents(begun, out.events);
    CountTells(begun, ran, id, b);
    if s.capacity == 0 { NotLate(begun, cmdId, out); }
    FinishTells(ran, cmdId, action, mask, out, now, id, b);
  }

  lemma CountTells(s: Server, r: Server, id: Id, b: nat)
    requires Told(s, None, id, b)
    requires r.streams == s.streams && r.log == s.log && r.recent == s.recent && r.pending == s.pending
    ensures Told(r, None, id, b)
  {
    hide HeardOf, FindPending, FindRecent;
  }

  // ---------------- the answer to a command that comes again ----------------

  /** What is due again: the acknowledgement of a running command; the completion of a finished one,
      after its acknowledgement unless it failed. */
  function Due(h: Heard): seq<Payload> {
    match h
    case Silence => []
    case Acked(ack) => [ack]
    case Finished(before, done) =>
      (if before.Some? && !(done.DonePayload? && done.status == Failed) then [before.value] else []) + [done]
  }

  function Again(id: Id, payloads: seq<Payload>): seq<Pub> {
    seq(|payloads|, k requires 0 <= k < |payloads| => Pub(id, false, payloads[k]))
  }

  lemma {:induction false} ViewReplayed(s: Server, id: Id)
    requires Inv(s) && IsDuplicate(s, id)
    ensures var v, r := ViewOf(s, None, id), HandleDuplicate(s, id);
      && !v.Gone?
      && r == s.(log := r.log)
      && r.log == s.log + Again(id, match v
                                    case Open(ack) => (if ack.Some? then [ack.value] else [])
                                    case Closed(ack, done) => (if ack.Some? then [ack.value] else []) + [done]
                                    case Gone => [])
  {
    if id in s.streams { ApartFrom(s, id); }
    PendingFound(s.pending, id);
    NotFound(s.recent, id);
    hide FindPending, FindRecent, Inv, HasPending, HasRecent;
  }

  lemma ApartFrom(s: Server, id: Id)
    requires Inv(s) && id in s.streams
    ensures !HasPending(s.pending, id) && !HasRecent(s.recent, id)
  {
  }

  /** A command that comes again changes nothing but the log, and adds to it exactly what is due again
      for what was published since it was taken up. */
  lemma {:induction false} DuplicateAnswered(s: Server, m: Message, now: nat, b: nat)
    requires Inv(s) && !m.Unreadable? && IsDuplicate(s, m.cmdId) && Told(s, None, m.cmdId, b)
    ensures HandleIncoming(s, m, now) == s.(log := s.log + Again(m.cmdId, Due(HeardOf(s.log[b..], m.cmdId))))
  {
    ViewReplayed(s, m.cmdId);
    hide Inv, IsDuplicate, HandleDuplicate, HeardOf, ViewOf, Execute;
  }

  /** The message makes the server take a command with this id up. */
  predicate TakesUp(s: Server, x: Input, id: Id) {
    x.Receive? && x.m.cmdId == id && (x.m.Unreadable? || !IsDuplicate(s, id))
  }

  lemma {:induction false} ReplayTells(s: Server, cmdId: Id, id: Id, b: nat)
    requires Inv(s) && IsDuplicate(s, cmdId) && Told(s, None, id, b)
    ensures Told(HandleDuplicate(s, cmdId), None, id, b)
  {
    var r := HandleDuplicate(s, cmdId);
    var more := OnlyMore(s, cmdId);
    hide *;
    RepeatsUnheard(s.log, more, b, id);
    SameView(s, r, id);
    SameTold(s, r, id, b);
  }

  lemma {:induction false} OnlyMore(s: Server, cmdId: Id) returns (more: seq<Pub>)
    requires Inv(s) && IsDuplicate(s, cmdId)
    ensures var r := HandleDuplicate(s, cmdId); r == s.(log := r.log) && r.log == s.log + more
    ensures forall k :: 0 <= k < |more| ==> !more[k].original
  {
    hide InvHand, HandleDuplicate, IsDuplicate, Known, HasPending, HasRecent;
    DuplicateOnlyRepeats(s, cmdId);
    var r := HandleDuplicate(s, cmdId);
    more := r.log[|s.log|..];
    assert r.log == s.log + more;
    forall k | 0 <= k < |more| ensures !more[k].original { assert more[k] == r.log[|s.log| + k]; }
  }

  lemma SameTold(s: Server, r: Server, id: Id, b: nat)
    requires Told(s, None, id, b) && |s.log| <= |r.log|
    requires HeardOf(r.log[b..], id) == HeardOf(s.log[b..], id) && ViewOf(r, None, id) == ViewOf(s, None, id)
    ensures Told(r, None, id, b)
  {
  }

  lemma SameView(s: Server, r: Server, id: Id)
    requires r == s.(log := r.log)
    ensures ViewOf(r, None, id) == ViewOf(s, None, id)
  {
  }

  lemma {:induction false} RepeatsUnheard(log: seq<Pub>, more: seq<Pub>, b: nat, id: Id)
    requires b <= |log| && forall k :: 0 <= k < |more| ==> !more[k].original
    ensures HeardOf((log + more)[b..], id) == HeardOf(log[b..], id)
    decreases |more|
  {
    if more == [] {
      assert log + more == log;
    } else {
      var last := |more| - 1;
      RepeatsUnheard(log, more[..last], b, id);
      HeardAppend(log + more[..last], b, more[last], id);
      assert log + more[..last] + [more[last]] == log + more;
      hide HeardOf;
    }
  }

  lemma {:induction false} StepTells(s: Server, x: Input, id: Id, b: nat)
    requires Inv(s) && Plausible(s, x)
    requires if TakesUp(s, x, id) then b == |s.log| else Told(s, None, id, b)
    ensures Told(Step(s, x), None, id, b)
  {
    hide InvHand, HandleDuplicate, Execute, Told;
    match x
    case Receive(m, now) =>
      if !m.Unreadable? && IsDuplicate(s, m.cmdId) {
        ReplayTells(s, m.cmdId, id, b);
      } else {
        assert Since(s, m.cmdId, id, b);
        hide Since;
        match m
        case Unreadable(k) =>
          AnswerTells(s, k, DonePayload(k, NameOf("UNKNOWN"), [Line(Error, "", "INVALID")], Failed, {}, 0), id, b);
        case Help(k) => AnswerTells(s, k, DonePayload(k, "HELP", [], Ok, {}, 0), id, b);
        case Unbuildable(k, action) =>
          AnswerTells(s, k, DonePayload(k, NameOf(action), [Line(Error, "", "INVALID")], Failed, {}, 0), id, b);
        case Command(k, action, mask, out) => ExecuteTells(s, k, action, mask, out, now, id, b);
      }
    case Dispatch(e) => EventTells(s, e, id, b);
    case Loop(moving) => FinalizeTells(s, moving, 0, id, b);
  }

  /** No message of the run takes the command up again. */
  ghost predicate NotTakenUp(s: Server, xs: seq<Input>, id: Id)
    decreases |xs|
  {
    xs == [] || (!TakesUp(s, xs[0], id) && NotTakenUp(Step(s, xs[0]), xs[1..], id))
  }

  lemma {:induction false} RunTells(s: Server, xs: seq<Input>, id: Id, b: nat)
    requires Inv(s) && PlausibleRun(s, xs) && NotTakenUp(s, xs, id) && Told(s, None, id, b)
    ensures Inv(Run(s, xs)) && Told(Run(s, xs), None, id, b)
    decreases |xs|
  {
    hide InvHand, Step, Told, Plausible;
    if xs != [] {
      StepKeepsInv(s, xs[0]);
      StepTells(s, xs[0], id, b);
      RunTells(Step(s, xs[0]), xs[1..], id, b);
    }
  }

  /** From an empty server: a command taken up by one message and by none after it that then comes again
      is answered with exactly what is due again for what was published since. */
  lemma {:induction false} DuplicateRepeatsItsAnswer(capacity: nat, before: seq<Input>, x: Input, after: seq<Input>, m: Message, now: nat)
    requires PlausibleRun(EmptyServer(capacity), before)
    requires var taken := Run(EmptyServer(capacity), before);
      Plausible(taken, x) && TakesUp(taken, x, m.cmdId)
      && PlausibleRun(Step(taken, x), after) && NotTakenUp(Step(taken, x), after, m.cmdId)
    requires !m.Unreadable? && IsDuplicate(Run(Step(Run(EmptyServer(capacity), before), x), after), m.cmdId)
    ensures var taken := Run(EmptyServer(capacity), before);
      var s := Run(Step(taken, x), after);
      |taken.log| <= |s.log|
      && HandleIncoming(s, m, now) == s.(log := s.log + Again(m.cmdId, Due(HeardOf(s.log[|taken.log|..], m.cmdId))))
  {
    var taken := Run(EmptyServer(capacity), before);
    InitialInv(capacity);
    RunKeepsInv(EmptyServer(capacity), before);
    hide Inv, Run, Step, IsDuplicate, HandleIncoming, PlausibleRun, Plausible, HeardOf, ViewOf, Due;
    StepKeepsInv(taken, x);
    StepTells(taken, x, m.cmdId, |taken.log|);
    RunTells(Step(taken, x), after, m.cmdId, |taken.log|);
    DuplicateAnswered(Run(Step(taken, x), after), m, now, |taken.log|);
  }

  // ---------------- reading the log ----------------

  /** With one completion in the log, that is the one heard, with the last acknowledgement before it. */
  lemma {:induction false} FinishedHeard(log: seq<Pub>, id: Id, d: nat)
    requires d < |log| && IsDone(log[d], id) && forall k :: 0 <= k < |log| && k != d ==> !IsDone(log[k], id)
    ensures var h := HeardOf(log, id);
      && h.Finished? && h.done == log[d].payload
      && (h.before.Some? <==> exists a :: 0 <= a < d && IsAck(log[a], id))
      && (forall a :: 0 <= a < d && IsAck(log[a], id) && (forall k :: a < k < d ==> !IsAck(log[k], id)) ==> h.before == Some(log[a].payload))
    decreases |log|
  {
    var last := |log| - 1;
    assert forall k :: 0 <= k < last ==> log[..last][k] == log[k];
    if d < last {
      FinishedHeard(log[..last], id, d);
    } else {
      UnfinishedHeard(log[..last], id);
    }
  }

  /** Without one, the last acknowledgement is heard, if there is any. */
  lemma {:induction false} UnfinishedHeard(log: seq<Pub>, id: Id)
    requires forall k :: 0 <= k < |log| ==> !IsDone(log[k], id)
    ensures var h := HeardOf(log, id);
      && !h.Finished? && (h.Acked? <==> exists a :: 0 <= a < |log| && IsAck(log[a], id))
      && (forall a :: 0 <= a < |log| && IsAck(log[a], id) && (forall k :: a < k < |log| ==> !IsAck(log[k], id)) ==> h == Acked(log[a].payload))
    decreases |log|
  {
    if log != [] {
      var last := |log| - 1;
      assert forall k :: 0 <= k < last ==> log[..last][k] == log[k];
      UnfinishedHeard(log[..last], id);
    }
  }
}
