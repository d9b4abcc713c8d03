/** Completions of long-running operations.

    Models lib/transport/src/CompletionTracker.cpp: one entry per operation, turned into one
    DONE event by the first tick that finds its motors stopped. */
module CompletionTracker {
  datatype Entry = Entry(cmdId: string, mask: set<nat>)

  /** What the tracker reads from the controller: moving motors, and for each motor that is
      not inside an operation, how long its last one took. */
  datatype Motion = Motion(moving: set<nat>, lastMs: map<nat, nat>)

  datatype DoneEvent = DoneEvent(cmdId: string, actualMs: nat)

  predicate Stopped(e: Entry, m: Motion) {
    e.mask * m.moving == {} && e.mask * m.lastMs.Keys != {}
  }

  /** The longest of the last durations among the entry's motors. */
  ghost predicate IsLongest(e: Entry, m: Motion, ms: nat) {
    && (exists i :: i in e.mask && i in m.lastMs && m.lastMs[i] == ms)
    && (forall i :: i in e.mask && i in m.lastMs ==> m.lastMs[i] <= ms)
  }

  /** The entries of every other command. */
  function OtherEntries(entries: seq<Entry>, cmdId: string): seq<Entry> {
    if entries == [] then []
    else (if entries[0].cmdId == cmdId then [] else [entries[0]]) + OtherEntries(entries[1..], cmdId)
  }

  function Register(entries: seq<Entry>, cmdId: string, mask: set<nat>): seq<Entry> {
    if cmdId == "" || mask == {} then entries else OtherEntries(entries, cmdId) + [Entry(cmdId, mask)]
  }

  predicate Increasing(at: seq<nat>) { forall j, k :: 0 <= j < k < |at| ==> at[j] < at[k] }

  /** The entries of the other commands, each of them, in the order they had. */
  ghost predicate AreTheOthers(kept: seq<Entry>, was: seq<Entry>, cmdId: string, at: seq<nat>) {
    && |at| == |kept| && Increasing(at)
    && (forall k :: 0 <= k < |at| ==> at[k] < |was| && kept[k] == was[at[k]])
    && (forall p :: 0 <= p < |was| ==> (p in at <==> was[p].cmdId != cmdId))
  }

  /** What registering an operation leaves: its entry last, no older one of its own, and every
      other command's entry kept in order. */
  ghost predicate Registered(entries: seq<Entry>, was: seq<Entry>, cmdId: string, mask: set<nat>) {
    && entries != [] && entries[|entries| - 1] == Entry(cmdId, mask)
    && var kept := entries[..|entries| - 1];
      exists at :: AreTheOthers(kept, was, cmdId, at)
  }

  function Later(at: seq<nat>): (r: seq<nat>)
    ensures |r| == |at| && forall k :: 0 <= k < |at| ==> r[k] == at[k] + 1
  {
    seq(|at|, k requires 0 <= k < |at| => at[k] + 1)
  }

  lemma LaterIn(at: seq<nat>, p: nat)
    ensures p in Later(at) <==> p > 0 && p - 1 in at
  {
    if p > 0 && p - 1 in at {
      var k :| 0 <= k < |at| && at[k] == p - 1;
      assert Later(at)[k] == p;
    }
  }

  lemma {:induction false} OthersKeepOrder(entries: seq<Entry>, cmdId: string) returns (at: seq<nat>)
    ensures AreTheOthers(OtherEntries(entries, cmdId), entries, cmdId, at)
  {
    if entries == [] {
      at := [];
    } else {
      var rest := OthersKeepOrder(entries[1..], cmdId);
      var kept := OtherEntries(entries[1..], cmdId);
      OthersStep(kept, entries, cmdId, rest);
      if entries[0].cmdId == cmdId {
        at := Later(rest);
        assert OtherEntries(entries, cmdId) == [] + kept == kept;
      } else {
        at := FromFirst(Later(rest));
        OthersAdd(kept, entries, cmdId, Later(rest));
      }
    }
  }

  /** The positions, none of them the first, of the other commands' entries after the first. */
  ghost predicate AfterFirst(kept: seq<Entry>, entries: seq<Entry>, cmdId: string, later: seq<nat>) {
    && |later| == |kept| && Increasing(later)
    && (forall k :: 0 <= k < |later| ==> 0 < later[k] < |entries| && kept[k] == entries[later[k]])
    && (forall p :: 0 <= p < |entries| ==> (p in later <==> p > 0 && entries[p].cmdId != cmdId))
  }

  lemma {:induction false} OthersStep(kept: seq<Entry>, entries: seq<Entry>, cmdId: string, rest: seq<nat>)
    requires entries != [] && AreTheOthers(kept, entries[1..], cmdId, rest)
    ensures AfterFirst(kept, entries, cmdId, Later(rest))
  {
    forall p | 0 <= p < |entries| ensures p in Later(rest) <==> p > 0 && entries[p].cmdId != cmdId {
      LaterIn(rest, p);
      if p > 0 { assert entries[1..][p - 1] == entries[p]; }
    }
  }

  function FromFirst(later: seq<nat>): (at: seq<nat>)
    ensures |at| == |later| + 1 && at[0] == 0 && forall k :: 0 < k < |at| ==> at[k] == later[k - 1]
    ensures forall p :: p in at <==> p == 0 || p in later
  {
    [0] + later
  }

  lemma {:induction false} OthersAdd(kept: seq<Entry>, entries: seq<Entry>, cmdId: string, later: seq<nat>)
    requires entries != [] && entries[0].cmdId != cmdId && AfterFirst(kept, entries, cmdId, later)
    ensures AreTheOthers([entries[0]] + kept, entries, cmdId, FromFirst(later))
  {
    hide FromFirst;
    var at, now := FromFirst(later), [entries[0]] + kept;
    forall k | 0 <= k < |at| ensures at[k] < |entries| && now[k] == entries[at[k]] {
      if k > 0 { assert now[k] == kept[k - 1] == entries[later[k - 1]]; }
    }
  }

  function Waiting(entries: seq<Entry>, m: Motion): seq<Entry> {
    if entries == [] then []
    else (if Stopped(entries[0], m) then [] else [entries[0]]) + Waiting(entries[1..], m)
  }

  function Finished(entries: seq<Entry>, m: Motion): seq<Entry> {
    if entries == [] then []
    else (if Stopped(entries[0], m) then [entries[0]] else []) + Finished(entries[1..], m)
  }

  class Tracker {
    var pending: seq<Entry>

    constructor ()
      ensures pending == []
    {
      pending := [];
    }

    /** An operation with an id and motors ends up last, with every other command's entry kept
        in order before it and no older entry of its own; anything else changes nothing. */
    method RegisterOperation(cmdId: string, mask: set<nat>)
      modifies this
      ensures cmdId == "" || mask == {} ==> pending == old(pending)
      ensures cmdId != "" && mask != {} ==> Registered(pending, old(pending), cmdId, mask)
      ensures pending == Register(old(pending), cmdId, mask)
    {
      if cmdId == "" || mask == {} {
        return;
      }
      ghost var at := OthersKeepOrder(pending, cmdId);
      pending := OtherEntries(pending, cmdId);
      pending := pending + [Entry(cmdId, mask)];
      assert pending[..|pending| - 1] == OtherEntries(old(pending), cmdId);
    }

    /** Walks the entries with an erasing iterator and emits one event per stopped one. */
    method Tick(m: Motion, motorCount: nat) returns (events: seq<DoneEvent>)
      requires forall i :: i in m.lastMs ==> i < motorCount
      modifies this
      ensures pending == Waiting(old(pending), m)
      ensures |events| == |Finished(old(pending), m)|
      ensures forall k :: 0 <= k < |events| ==>
                && events[k].cmdId == Finished(old(pending), m)[k].cmdId
                && IsLongest(Finished(old(pending), m)[k], m, events[k].actualMs)
    {
      hide IsLongest;
      ghost var was := pending;
      events := [];
      ghost var done: seq<Entry> := [];
      var it := 0;
      while it < |pending|
        invariant it <= |pending|
        invariant pending[..it] + Waiting(pending[it..], m) == Waiting(was, m)
        invariant done + Finished(pending[it..], m) == Finished(was, m)
        invariant |events| == |done|
        invariant forall k :: 0 <= k < |events| ==>
                    events[k].cmdId == done[k].cmdId && IsLongest(done[k], m, events[k].actualMs)
        decreases |pending| - it
      {
        var e := pending[it];
        WalkStep(pending, it, m, done);
        var actual := LongestDuration(e, m, motorCount);
        if e.mask * m.moving != {} || actual < 0 {
          it := it + 1;
        } else {
          events := events + [DoneEvent(e.cmdId, actual)];
          done := done + [e];
          pending := pending[..it] + pending[it + 1..];
        }
      }
      assert pending[..it] == pending && pending[it..] == [];
    }

    /** One step of the walk: keep the entry, or move it to the finished ones. */
    lemma WalkStep(entries: seq<Entry>, it: nat, m: Motion, done: seq<Entry>)
      requires it < |entries|
      ensures var e, next := entries[it], entries[..it] + entries[it + 1..];
        if Stopped(e, m) then
          next[..it] + Waiting(next[it..], m) == entries[..it] + Waiting(entries[it..], m)
          && done + [e] + Finished(next[it..], m) == done + Finished(entries[it..], m)
        else
          entries[..it + 1] + Waiting(entries[it + 1..], m) == entries[..it] + Waiting(entries[it..], m)
          && done + Finished(entries[it + 1..], m) == done + Finished(entries[it..], m)
    {
      hide Stopped;
      var e, next := entries[it], entries[..it] + entries[it + 1..];
      assert entries[it..][1..] == entries[it + 1..];
      assert entries[..it + 1] == entries[..it] + [e];
      assert next[..it] == entries[..it] && next[it..] == entries[it + 1..];
    }

    method LongestDuration(e: Entry, m: Motion, motorCount: nat) returns (actual: int)
      requires forall i :: i in m.lastMs ==> i < motorCount
      ensures actual >= -1
      ensures actual < 0 <==> e.mask * m.lastMs.Keys == {}
      ensures actual >= 0 ==> IsLongest(e, m, actual)
    {
      actual := -1;
      for i := 0 to motorCount
        invariant actual >= -1
        invariant actual < 0 ==> forall k :: 0 <= k < i && k in e.mask ==> k !in m.lastMs
        invariant actual >= 0 ==> exists k :: k in e.mask && k in m.lastMs && m.lastMs[k] == actual
        invariant forall k :: 0 <= k < i && k in e.mask && k in m.lastMs ==> m.lastMs[k] <= actual
      {
        if i in e.mask && i in m.lastMs && m.lastMs[i] > actual {
          actual := m.lastMs[i];
        }
      }
      if actual >= 0 {
        var k :| k in e.mask && k in m.lastMs && m.lastMs[k] == actual;
        assert k in e.mask * m.lastMs.Keys;
      }
    }
  }

  // ---------------- one DONE per operation ----------------

  datatype Act = Add(cmdId: string, mask: set<nat>) | TickAt(m: Motion)

  /** With three histories: the operations added, those reported done, and those replaced
      while they were still waiting. */
  datatype State = State(entries: seq<Entry>, added: seq<string>, done: seq<string>, replaced: seq<string>)

  function Ids(entries: seq<Entry>): seq<string> {
    seq(|entries|, i requires 0 <= i < |entries| => entries[i].cmdId)
  }

  function Step(s: State, a: Act): State {
    match a
    case Add(cmdId, mask) =>
      if cmdId == "" || mask == {} then s
      else State(Register(s.entries, cmdId, mask), s.added + [cmdId], s.done,
                 s.replaced + if cmdId in Ids(s.entries) then [cmdId] else [])
    case TickAt(m) => s.(entries := Waiting(s.entries, m), done := s.done + Ids(Finished(s.entries, m)))
  }

  function Run(s: State, acts: seq<Act>): State
    decreases |acts|
  {
    if acts == [] then s else Run(Step(s, acts[0]), acts[1..])
  }

  /** Ids of added operations have not been used before. */
  ghost predicate FreshIds(s: State, acts: seq<Act>)
    decreases |acts|
  {
    acts == [] || ((acts[0].Add? ==> acts[0].cmdId !in s.added) && FreshIds(Step(s, acts[0]), acts[1..]))
  }

  function Times(ids: seq<string>, id: string): nat { multiset(ids)[id] }

  lemma TimesAppend(ids: seq<string>, more: seq<string>, id: string)
    ensures Times(ids + more, id) == Times(ids, id) + Times(more, id)
  {
    assert multiset(ids + more) == multiset(ids) + multiset(more);
  }

  function Count(entries: seq<Entry>, id: string): nat { Times(Ids(entries), id) }

  /** Every operation added is still waiting, reported done, or replaced, exactly one of them and
      once; and no two entries share an id. */
  ghost predicate ConservedFor(s: State, id: string) {
    && Count(s.entries, id) <= 1
    && Times(s.added, id) == Count(s.entries, id) + Times(s.done, id) + Times(s.replaced, id)
  }

  ghost predicate Conserved(s: State) { forall id :: ConservedFor(s, id) }

  lemma {:induction false} SplitCount(entries: seq<Entry>, m: Motion, id: string)
    ensures Count(entries, id) == Count(Waiting(entries, m), id) + Count(Finished(entries, m), id)
  {
    if entries != [] {
      var e, w, f := entries[0], Waiting(entries[1..], m), Finished(entries[1..], m);
      SplitCount(entries[1..], m, id);
      CountCons(e, entries[1..], id);
      CountCons(e, w, id);
      CountCons(e, f, id);
      assert [e] + entries[1..] == entries && [] + w == w && [] + f == f;
      hide Count, Stopped;
    }
  }

  lemma CountCons(e: Entry, entries: seq<Entry>, id: string)
    ensures Count([e] + entries, id) == (if e.cmdId == id then 1 else 0) + Count(entries, id)
  {
    assert Ids([e] + entries) == [e.cmdId] + Ids(entries);
  }

  lemma {:induction false} OthersCount(entries: seq<Entry>, cmdId: string, id: string)
    ensures Count(OtherEntries(entries, cmdId), id) == if id == cmdId then 0 else Count(entries, id)
  {
    if entries != [] {
      var e, o := entries[0], OtherEntries(entries[1..], cmdId);
      OthersCount(entries[1..], cmdId, id);
      CountCons(e, entries[1..], id);
      CountCons(e, o, id);
      assert [e] + entries[1..] == entries;
      assert [] + o == o;
      hide Count;
    }
  }

  lemma {:induction false} AddConserves(s: State, cmdId: string, mask: set<nat>, id: string)
    requires ConservedFor(s, id) && ConservedFor(s, cmdId)
    ensures ConservedFor(Step(s, Add(cmdId, mask)), id)
  {
    var r, others := Step(s, Add(cmdId, mask)), OtherEntries(s.entries, cmdId);
    if cmdId != "" && mask != {} {
      OthersCount(s.entries, cmdId, id);
      AppendedCount(others, Entry(cmdId, mask), id);
      TimesAppend(s.added, [cmdId], id);
      TimesAppend(s.replaced, [cmdId], id);
      OnceIn(Ids(s.entries), cmdId, id);
      CountIs(s.entries, cmdId);
      assert s.replaced + [] == s.replaced;
      hide OtherEntries, Ids, Times, Count;
    }
  }

  lemma AppendedCount(entries: seq<Entry>, e: Entry, id: string)
    ensures Count(entries + [e], id) == Count(entries, id) + Times([e.cmdId], id)
  {
    assert Ids(entries + [e]) == Ids(entries) + [e.cmdId];
    TimesAppend(Ids(entries), [e.cmdId], id);
    hide Ids, Times;
  }

  lemma CountIs(entries: seq<Entry>, id: string)
    ensures Count(entries, id) == Times(Ids(entries), id)
  {
  }

  lemma OnceIn(ids: seq<string>, cmdId: string, id: string)
    ensures cmdId in ids <==> Times(ids, cmdId) >= 1
    ensures Times([cmdId], id) == if id == cmdId then 1 else 0
  {
  }

  lemma {:induction false} TickConserves(s: State, m: Motion, id: string)
    requires ConservedFor(s, id)
    ensures ConservedFor(Step(s, TickAt(m)), id)
  {
    SplitCount(s.entries, m, id);
    TimesAppend(s.done, Ids(Finished(s.entries, m)), id);
    hide Ids, Times, Waiting, Finished;
  }

  lemma {:induction false} StepConserves(s: State, a: Act)
    requires Conserved(s)
    ensures Conserved(Step(s, a))
  {
    forall id ensures ConservedFor(Step(s, a), id) {
      assert ConservedFor(s, id);
      hide ConservedFor, Step;
      match a {
        case Add(cmdId, mask) =>
          assert ConservedFor(s, cmdId);
          AddConserves(s, cmdId, mask, id);
        case TickAt(m) => TickConserves(s, m, id);
      }
    }
  }

  /** Over every run of registrations and ticks, ids used again included, each operation added is
      accounted for once. */
  lemma {:induction false} OneDonePerOperation(s: State, acts: seq<Act>)
    requires Conserved(s)
    ensures Conserved(Run(s, acts))
    decreases |acts|
  {
    if acts != [] {
      StepConserves(s, acts[0]);
      hide Step, Conserved;
      OneDonePerOperation(Step(s, acts[0]), acts[1..]);
    }
  }

  /** From an empty tracker an id is reported done no more often than it was registered, and less
      often while an operation of that id is waiting. */
  lemma {:induction false} DoneAtMostOnce(acts: seq<Act>, id: string)
    ensures var s := Run(State([], [], [], []), acts);
      Times(s.done, id) + (if id in Ids(s.entries) then 1 else 0) <= Times(s.added, id)
  {
    OneDonePerOperation(State([], [], [], []), acts);
    var s := Run(State([], [], [], []), acts);
    assert ConservedFor(s, id);
    hide Run, Ids;
  }

  /** With ids that are never used again no operation is replaced, so each is done or waiting. */
  lemma {:induction false} FreshNeverReplaced(s: State, acts: seq<Act>)
    requires Conserved(s) && s.replaced == [] && FreshIds(s, acts)
    ensures Run(s, acts).replaced == []
    decreases |acts|
  {
    if acts != [] {
      StepConserves(s, acts[0]);
      if acts[0].Add? { assert ConservedFor(s, acts[0].cmdId); }
      hide Conserved, Ids;
      FreshNeverReplaced(Step(s, acts[0]), acts[1..]);
    }
  }

  /** So from an empty tracker, with ids never used again, every operation is either waiting or
      was reported done, once. */
  lemma {:induction false} EachDoneOrWaiting(acts: seq<Act>, id: string)
    requires FreshIds(State([], [], [], []), acts)
    ensures var s := Run(State([], [], [], []), acts);
      Times(s.added, id) == Times(s.done, id) + (if id in Ids(s.entries) then 1 else 0)
  {
    var s := Run(State([], [], [], []), acts);
    OneDonePerOperation(State([], [], [], []), acts);
    FreshNeverReplaced(State([], [], [], []), acts);
    assert ConservedFor(s, id);
    assert id in Ids(s.entries) <==> Times(Ids(s.entries), id) >= 1;
    hide Run, Ids;
  }
}
