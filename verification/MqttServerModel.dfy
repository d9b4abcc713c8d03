/** Response streams of the MQTT command server: acknowledgements, completions, replay of
    duplicates, and buffering of events that arrive before their stream is known.

    Models lib/mqtt_commands/src/MqttCommandServer.cpp on values. JSON payloads are opaque:
    a payload is the tuple of what the builders are given. Executing a command is an input,
    namely the events it emits and the response it returns. */
module MqttServerModel {
  import opened Wrappers

  type Id = string

  /** Done stands for an info line or event whose status field says done. */
  datatype Kind = Ack | Warn | Error | Info | Data | Done

  datatype Line = Line(kind: Kind, msgId: Id, body: string)
  datatype Event = Event(kind: Kind, cmdId: Id, action: string, body: string)

  datatype Status = Ok | Failed | Unknown

  datatype Payload =
    | AckPayload(cmdId: Id, action: string, lines: seq<Line>)
    | DonePayload(cmdId: Id, action: string, lines: seq<Line>, status: Status, mask: set<nat>, startedMs: nat)

  datatype Stream = Stream(
    cmdId: Id,
    msgId: Id,
    action: string,
    lines: seq<Line>,
    mask: set<nat>,
    startedMs: nat,
    sawEvent: bool,
    ackPublished: bool,
    donePublished: bool,
    ackPayload: Option<Payload>)

  datatype Pending = Pending(cmdId: Id, action: string, lines: seq<Line>, ackPayload: Option<Payload>,
                             mask: set<nat>, startedMs: nat)

  datatype Cached = Cached(cmdId: Id, ackPayload: Option<Payload>, completionPayload: Payload)

  /** A publish, with whether it is the original one or a replay for a duplicate. */
  datatype Pub = Pub(cmdId: Id, original: bool, payload: Payload)

  /** The server's fields, and three histories: what was published, which commands were
      taken up, and which completions were recorded. */
  datatype Server = Server(
    streams: map<Id, Stream>,
    pending: seq<Pending>,
    recent: seq<Cached>,
    orphans: map<Id, seq<Event>>,
    order: seq<Id>,
    capacity: nat,
    log: seq<Pub>,
    accepted: seq<Id>,
    executed: seq<Id>,
    records: seq<Id>)

  const MAX_ORPHAN_COMMANDS: nat := 4

  // ---------------- response lines ----------------

  predicate Has(lines: seq<Line>, kind: Kind) {
    exists i :: 0 <= i < |lines| && lines[i].kind == kind
  }

  /** The first line of a kind, or the number of lines. */
  function FirstOf(lines: seq<Line>, kind: Kind): (k: nat)
    ensures k <= |lines| && (k < |lines| ==> lines[k].kind == kind)
    ensures forall j :: 0 <= j < k ==> lines[j].kind != kind
  {
    if lines == [] || lines[0].kind == kind then 0 else 1 + FirstOf(lines[1..], kind)
  }

  function EventToLine(e: Event): Line {
    Line(e.kind, e.cmdId, e.body)
  }

  /** The command id of a response: the last nonempty one on an ACK, else the first nonempty. */
  function LastAckId(lines: seq<Line>): Id {
    if lines == [] then ""
    else
      var last := lines[|lines| - 1];
      if last.kind == Ack && last.msgId != "" then last.msgId else LastAckId(lines[..|lines| - 1])
  }

  function FirstId(lines: seq<Line>): Id {
    if lines == [] then "" else if lines[0].msgId != "" then lines[0].msgId else FirstId(lines[1..])
  }

  function ContractId(lines: seq<Line>): Id {
    if LastAckId(lines) != "" then LastAckId(lines) else FirstId(lines)
  }

  function DeriveStatus(lines: seq<Line>): Status {
    if Has(lines, Error) then Failed else if Has(lines, Ack) then Ok else Unknown
  }

  function NameOf(action: string): string {
    if action == "" then "UNKNOWN" else action
  }

  // ---------------- publishing and recording ----------------

  function Publish(s: Server, cmdId: Id, original: bool, payload: Payload): Server {
    s.(log := s.log + [Pub(cmdId, original, payload)])
  }

  /** The last n entries. */
  function Newest<T>(xs: seq<T>, n: nat): (r: seq<T>)
    ensures |r| == (if |xs| <= n then |xs| else n)
  {
    if |xs| <= n then xs else xs[|xs| - n..]
  }

  function Record(s: Server, cmdId: Id, ack: Option<Payload>, completion: Payload): Server {
    s.(recent := if s.capacity == 0 then s.recent
                 else Newest(s.recent + [Cached(cmdId, ack, completion)], s.capacity),
       records := s.records + [cmdId])
  }

  function PublishAndRecord(s: Server, cmdId: Id, ack: Option<Payload>, completion: Payload): Server {
    Record(Publish(s, cmdId, true, completion), cmdId, ack, completion)
  }

  // ---------------- one stream ----------------

  function PublishAckFromStream(s: Server, st: Stream): (Server, Stream) {
    if st.ackPublished || !Has(st.lines, Ack) then (s, st)
    else
      var payload := AckPayload(st.cmdId, NameOf(st.action), st.lines);
      (Publish(s, st.cmdId, true, payload), st.(ackPayload := Some(payload), ackPublished := true))
  }

  function PublishCompletionFromStream(s: Server, st: Stream): (Server, Stream) {
    if st.donePublished then (s, st)
    else
      var payload := DonePayload(st.cmdId, NameOf(st.action), st.lines, Ok, st.mask, st.startedMs);
      (PublishAndRecord(s, st.cmdId, st.ackPayload, payload), st.(donePublished := true))
  }

  function Noted(st: Stream, e: Event): Stream {
    st.(sawEvent := true,
        action := (if e.action != "" && st.action == "" then e.action else st.action),
        lines := st.lines + [EventToLine(e)])
  }

  function ProcessEvent(s: Server, st: Stream, e: Event): (Server, Stream) {
    if e.kind == Ack then PublishAckFromStream(s, Noted(st, e))
    else if e.kind == Done then PublishCompletionFromStream(s, Noted(st, e))
    else (s, Noted(st, e))
  }

  function ProcessAll(s: Server, st: Stream, es: seq<Event>): (Server, Stream)
    decreases |es|
  {
    if es == [] then (s, st)
    else
      var (s1, st1) := ProcessEvent(s, st, es[0]);
      ProcessAll(s1, st1, es[1..])
  }

  function Without(order: seq<Id>, id: Id): seq<Id> {
    if order == [] then []
    else (if order[0] == id then [] else [order[0]]) + Without(order[1..], id)
  }

  /** Ties a stream to the id its command got internally, and replays what was buffered. */
  function Bind(s: Server, st: Stream, id: Id): (Server, Stream) {
    if id == "" then (s, st)
    else
      var bound := st.(msgId := id);
      if id !in s.orphans then (s, bound)
      else
        var (s1, st1) := ProcessAll(s, bound, s.orphans[id]);
        var st2 := st1.(sawEvent := true);
        var streams := if st2.donePublished then s1.streams - {st2.cmdId} else s1.streams;
        (s1.(streams := streams, orphans := s1.orphans - {id}, order := Without(s1.order, id)), st2)
  }

  /** The map shares the stream object, so it sees every change while it holds the key. */
  function Share(s: Server, st: Stream): Server {
    if st.cmdId in s.streams then s.(streams := s.streams[st.cmdId := st]) else s
  }

  // ---------------- events from the dispatcher ----------------

  /** Some stream's key that an event is meant for: the stream of that very id, or one bound to it. */
  predicate Matches(s: Server, id: Id, key: Id) {
    key in s.streams && (key == id || (id !in s.streams && s.streams[key].msgId == id))
  }

  function Buffer(s: Server, e: Event): Server {
    if e.cmdId in s.orphans then s.(orphans := s.orphans[e.cmdId := s.orphans[e.cmdId] + [e]])
    else
      var order := s.order + [e.cmdId];
      if |order| > MAX_ORPHAN_COMMANDS
      then s.(order := order[1..], orphans := (s.orphans - {order[0]})[e.cmdId := [e]])
      else s.(order := order, orphans := s.orphans[e.cmdId := [e]])
  }

  function Deliver(s: Server, key: Id, e: Event): Server
    requires key in s.streams
  {
    var (s1, st) := ProcessEvent(s, s.streams[key], e);
    if e.kind == Done then s1.(streams := s1.streams - {key}) else s1.(streams := s1.streams[key := st])
  }

  ghost function HandleEvent(s: Server, e: Event): Server {
    if e.cmdId == "" then s
    else if key :| Matches(s, e.cmdId, key) then Deliver(s, key, e)
    else Buffer(s, e)
  }

  ghost function HandleEvents(s: Server, es: seq<Event>): Server
    decreases |es|
  {
    if es == [] then s else HandleEvents(HandleEvent(s, es[0]), es[1..])
  }

  // ---------------- incoming commands ----------------

  predicate HasPending(pending: seq<Pending>, cmdId: Id) {
    exists i :: 0 <= i < |pending| && pending[i].cmdId == cmdId
  }

  predicate HasRecent(recent: seq<Cached>, cmdId: Id) {
    exists i :: 0 <= i < |recent| && recent[i].cmdId == cmdId
  }

  predicate IsDuplicate(s: Server, cmdId: Id) {
    cmdId in s.streams || HasPending(s.pending, cmdId) || HasRecent(s.recent, cmdId)
  }

  function FindPending(pending: seq<Pending>, cmdId: Id): (k: nat)
    ensures k <= |pending| && (k < |pending| ==> pending[k].cmdId == cmdId)
    ensures forall j :: 0 <= j < k ==> pending[j].cmdId != cmdId
  {
    if pending == [] || pending[0].cmdId == cmdId then 0 else 1 + FindPending(pending[1..], cmdId)
  }

  function FindRecent(recent: seq<Cached>, cmdId: Id): (k: nat)
    ensures k <= |recent| && (k < |recent| ==> recent[k].cmdId == cmdId)
    ensures forall j :: 0 <= j < k ==> recent[j].cmdId != cmdId
  {
    if recent == [] || recent[0].cmdId == cmdId then 0 else 1 + FindRecent(recent[1..], cmdId)
  }

  function Replay(s: Server, cmdId: Id, payload: Option<Payload>): Server {
    if payload.Some? then Publish(s, cmdId, false, payload.value) else s
  }

  /** A duplicate gets the acknowledgement of its running command again, or both payloads of
      its finished one. The dispatcher's own replay cache has room for no entry. */
  function HandleDuplicate(s: Server, cmdId: Id): Server {
    if cmdId in s.streams && s.streams[cmdId].ackPayload.Some? then Replay(s, cmdId, s.streams[cmdId].ackPayload)
    else
      var p := FindPending(s.pending, cmdId);
      if p < |s.pending| then Replay(s, cmdId, s.pending[p].ackPayload)
      else
        var r := FindRecent(s.recent, cmdId);
        if r < |s.recent| then
          Replay(Replay(s, cmdId, s.recent[r].ackPayload), cmdId, Some(s.recent[r].completionPayload))
        else s
  }

  function RespondWithError(s: Server, cmdId: Id, action: string, reason: string): Server {
    PublishAndRecord(s, cmdId, None,
                     DonePayload(cmdId, NameOf(action), [Line(Error, "", reason)], Failed, {}, 0))
  }

  function RespondWithHelp(s: Server, cmdId: Id): Server {
    PublishAndRecord(s, cmdId, None, DonePayload(cmdId, "HELP", [], Ok, {}, 0))
  }

  /** What executing a command does as far as the server can see: the events it emits, the
      lines it returns, and whether its motors are moving afterwards. */
  datatype Outcome = Outcome(events: seq<Event>, lines: seq<Line>, moving: bool)

  function OpenStream(s: Server, cmdId: Id, action: string, mask: set<nat>, now: nat): Server {
    s.(streams := s.streams[cmdId := Stream(cmdId, "", action, [], mask, now, false, false, false, None)])
  }

  /** The stream is tied to the id on the response's ACK, or else the response's own id, and
      then to the id on its DONE line. */
  function BindBoth(s: Server, st: Stream, lines: seq<Line>): (Server, Stream) {
    var ack, done := FirstOf(lines, Ack), FirstOf(lines, Done);
    var (s1, st1) := if ack < |lines| && lines[ack].msgId != "" && st.msgId == "" then Bind(s, st, lines[ack].msgId)
                     else if st.msgId == "" && ContractId(lines) != "" then Bind(s, st, ContractId(lines))
                     else (s, st);
    if done < |lines| then Bind(s1, st1, lines[done].msgId) else (s1, st1)
  }

  /** Binds the stream and lets it take over the response, if its events or a DONE line say so. */
  function StreamConsumes(s: Server, st: Stream, lines: seq<Line>): (Server, Stream, bool) {
    var done := FirstOf(lines, Done);
    var (s2, st2) := BindBoth(s, st, lines);
    if done < |lines| then
      var (s3, st3) := PublishAckFromStream(s2, st2.(lines := lines));
      (Share(s3, st3), st3, true)
    else if !Has(lines, Error) && st2.sawEvent then
      var (s3, st3) := PublishAckFromStream(s2, st2);
      (Share(s3, st3), st3, true)
    else (Share(s2, st2), st2, false)
  }

  /** Answers a command whose response the stream did not take over. */
  function Conclude(s: Server, cmdId: Id, action: string, mask: set<nat>, out: Outcome, now: nat): Server {
    var closed := s.(streams := s.streams - {cmdId});
    var accepted := Has(out.lines, Ack) && !Has(out.lines, Error);
    var ack := if accepted then Some(AckPayload(cmdId, action, out.lines)) else None;
    var acked := if accepted then Publish(closed, cmdId, true, ack.value) else closed;
    if DeriveStatus(out.lines) == Ok && action == "MOVE" && mask != {} && out.moving then
      acked.(pending := acked.pending + [Pending(cmdId, action, out.lines, ack, mask, now)])
    else
      PublishAndRecord(acked, cmdId, ack, DonePayload(cmdId, action, out.lines, DeriveStatus(out.lines), mask, now))
  }

  function Finish(s: Server, cmdId: Id, action: string, mask: set<nat>, out: Outcome, now: nat): Server
    requires cmdId in s.streams
  {
    if out.lines == [] then
      var failed := RespondWithError(s, cmdId, action, "NO_RESPONSE");
      failed.(streams := failed.streams - {cmdId})
    else
      var (s1, _, handled) := StreamConsumes(s, s.streams[cmdId], out.lines);
      if handled || HasRecent(s1.recent, cmdId) then s1 else Conclude(s1, cmdId, action, mask, out, now)
  }

  ghost function Execute(s: Server, cmdId: Id, action: string, mask: set<nat>, out: Outcome, now: nat): Server {
    var begun := OpenStream(s, cmdId, action, mask, now).(executed := s.executed + [cmdId]);
    var ran := HandleEvents(begun, out.events);
    if cmdId in ran.streams then Finish(ran, cmdId, action, mask, out, now) else ran
  }

  /** A payload on the command topic, after JSON parsing and command building. A payload that
      cannot be parsed, or names no action, gets a fresh id. */
  datatype Message =
    | Unreadable(cmdId: Id)
    | Help(cmdId: Id)
    | Unbuildable(cmdId: Id, action: string)
    | Command(cmdId: Id, action: string, mask: set<nat>, out: Outcome)

  ghost function HandleIncoming(s0: Server, m: Message, now: nat): Server {
    if !m.Unreadable? && IsDuplicate(s0, m.cmdId) then HandleDuplicate(s0, m.cmdId)
    else
      var s := s0.(accepted := s0.accepted + [m.cmdId]);
      match m
      case Unreadable(cmdId) => RespondWithError(s, cmdId, "UNKNOWN", "INVALID")
      case Help(cmdId) => RespondWithHelp(s, cmdId)
      case Unbuildable(cmdId, action) => RespondWithError(s, cmdId, action, "INVALID")
      case Command(cmdId, action, mask, out) => Execute(s, cmdId, action, mask, out, now)
  }

  // ---------------- completions that were waiting for motors ----------------

  function CompletePending(s: Server, p: Pending): Server {
    PublishAndRecord(s, p.cmdId, p.ackPayload, DonePayload(p.cmdId, p.action, p.lines, Ok, p.mask, p.startedMs))
  }

  /** Entries i, i+1, ... whose motors have all stopped are completed and removed. */
  function FinalizeFrom(s: Server, moving: set<nat>, i: nat): Server
    requires i <= |s.pending|
    decreases |s.pending| - i
  {
    if i == |s.pending| then s
    else if s.pending[i].mask * moving != {} then FinalizeFrom(s, moving, i + 1)
    else
      var p := s.pending[i];
      FinalizeFrom(CompletePending(s, p).(pending := s.pending[..i] + s.pending[i + 1..]), moving, i)
  }
}
