/** What the configuration store answers, field by field and in terms of the updates alone. */
module ConfigFields {
  import opened ConfigStore

  // ---------------- which updates are taken ----------------

  /** The texts and the port that are set are within the limits of the store. */
  predicate WithinLimits(u: Update) {
    && (u.host.Set? ==> 1 <= |u.host.value| <= 190)
    && (u.port.Set? ==> 1 <= u.port.value <= 65535)
    && (u.user.Set? ==> |u.user.value| <= 64)
    && (u.pass.Set? ==> |u.pass.value| <= 128)
  }

  predicate Takes(op: Op) { op.Apply? && op.writable && WithinLimits(op.update) }

  /** An update is accepted if and only if it is within the limits and storage can be written. */
  lemma {:induction false} AcceptedIff(op: Op)
    ensures Accepted(op) <==> Takes(op)
  {
    if op.Apply? { WithinLimitsIff(op.update); }
    hide Error;
  }

  lemma {:induction false} WithinLimitsIff(u: Update)
    ensures Error(u) == "" <==> WithinLimits(u)
  {
    assert |"host cannot be empty"| > 0 && |"host too long"| > 0 && |"port out of range"| > 0;
    assert |"user too long"| > 0 && |"pass too long"| > 0;
  }

  // ---------------- one update ----------------

  /** The new value of a field: the one that is set, the default, or the old one. */
  predicate Says<T(==)>(change: Change<T>, default_: T, before: T, after: T) {
    && (change.Set? ==> after == change.value)
    && (change.UseDefault? ==> after == default_)
    && (change.Keep? ==> after == before)
  }

  predicate AllSay(u: Update, defaults: Config, before: Config, after: Config) {
    && Says(u.host, defaults.host, before.host, after.host) && Says(u.port, defaults.port, before.port, after.port)
    && Says(u.user, defaults.user, before.user, after.user) && Says(u.pass, defaults.pass, before.pass, after.pass)
  }

  lemma MergeSays(defaults: Config, c: Config, u: Update)
    ensures AllSay(u, defaults, c, Merge(defaults, c, u))
  {
  }

  /** What a reboot and a reading that succeeds answer. */
  function ReadBack(s: Store): Config { Step(Step(s, Reboot), Current(true)).current }

  lemma {:induction false} RepresentedReadBack(s: Store, c: Config)
    requires Represents(s, c)
    ensures ReadBack(s) == c && EnsureLoaded(s, true).current == c
  {
    LoadRepresents(s, c, true);
    LoadRepresents(Step(s, Reboot), c, true);
    hide EnsureLoaded;
  }

  /** An update that can be read and is taken gives each field the value that is set, the default,
      or what it was, at once and after a reboot; any other update changes no field. */
  lemma {:induction false} UpdateTakesEffect(s: Store, c: Config, op: Op)
    requires Represents(s, c) && op.Apply? && Readable(s, op)
    ensures var r := Step(s, op);
      && (if Takes(op) then AllSay(op.update, s.defaults, c, r.current) else r.current == c)
      && ReadBack(r) == r.current
  {
    AcceptedIff(op);
    StepRepresents(s, c, op);
    MergeSays(s.defaults, c, op.update);
    AppliedIsLoaded(s, op);
    RepresentedReadBack(Step(s, op), Next(s.defaults, c, op));
    hide Step, Takes, ReadBack;
  }

  lemma AppliedIsLoaded(s: Store, op: Op)
    requires op.Apply?
    ensures Step(s, op).loaded
  {
  }

  // ---------------- whole runs ----------------

  predicate Mentions<T>(op: Op, change: Update -> Change<T>) { Takes(op) && !change(op.update).Keep? }

  /** The last update that is taken and mentions the field. */
  predicate LastMention<T>(ops: seq<Op>, k: int, change: Update -> Change<T>) {
    0 <= k < |ops| && Mentions(ops[k], change) && forall j :: k < j < |ops| ==> !Mentions(ops[j], change)
  }

  /** The value that the last mention gives, or the value at the start. */
  ghost predicate LastSays<T>(ops: seq<Op>, change: Update -> Change<T>, default_: T, start: T, value: T) {
    && (forall k :: LastMention(ops, k, change) ==> Says(change(ops[k].update), default_, start, value))
    && ((forall k :: !LastMention(ops, k, change)) ==> value == start)
  }

  lemma {:induction false} MentionedLast<T>(ops: seq<Op>, change: Update -> Change<T>, k: nat) returns (last: nat)
    requires k < |ops| && Mentions(ops[k], change)
    ensures LastMention(ops, last, change)
    decreases |ops| - k
  {
    if j :| k < j < |ops| && Mentions(ops[j], change) {
      last := MentionedLast(ops, change, j);
    } else {
      last := k;
    }
  }

  lemma {:induction false} FoldLast<T>(defaults: Config, c: Config, ops: seq<Op>, get: Config -> T, change: Update -> Change<T>)
    requires forall b: Config, u: Update :: Says(change(u), get(defaults), get(b), get(Merge(defaults, b, u)))
    ensures LastSays(ops, change, get(defaults), get(c), get(Fold(defaults, c, ops)))
    decreases |ops|
  {
    if ops != [] {
      var op, rest, next := ops[0], ops[1..], Next(defaults, c, ops[0]);
      FoldLast(defaults, next, rest, get, change);
      AcceptedIff(op);
      var value := get(Fold(defaults, c, ops));
      assert Fold(defaults, c, ops) == Fold(defaults, next, rest);
      if op.Apply? { assert Says(change(op.update), get(defaults), get(c), get(Merge(defaults, c, op.update))); }
      hide Merge, Takes, Fold, Accepted;
      LastStep(ops, change, get(defaults), get(c), get(next), value);
    }
  }

  lemma {:induction false} LastStep<T>(ops: seq<Op>, change: Update -> Change<T>, default_: T, start: T, next: T, value: T)
    requires ops != [] && LastSays(ops[1..], change, default_, next, value)
    requires Mentions(ops[0], change) ==> Says(change(ops[0].update), default_, start, next)
    requires !Mentions(ops[0], change) ==> next == start
    ensures LastSays(ops, change, default_, start, value)
  {
    hide Takes;
    var rest := ops[1..];
    assert forall j :: 0 <= j < |rest| ==> rest[j] == ops[j + 1];
    if j :| 0 <= j < |rest| && Mentions(rest[j], change) {
      var last := MentionedLast(rest, change, j);
      assert LastMention(ops, last + 1, change);
      forall k | LastMention(ops, k, change) ensures k == last + 1 {
        assert Mentions(ops[k], change) && Mentions(ops[last + 1], change);
      }
    } else {
      assert forall k :: !LastMention(rest, k, change);
      if Mentions(ops[0], change) {
        assert LastMention(ops, 0, change);
        assert forall j :: 0 < j < |ops| ==> ops[j] == rest[j - 1] && !Mentions(ops[j], change);
        assert forall k :: LastMention(ops, k, change) ==> k == 0;
      } else {
        forall k ensures !LastMention(ops, k, change) { if 0 < k < |ops| { assert rest[k - 1] == ops[k]; } }
      }
    }
  }

  ghost predicate AllLast(ops: seq<Op>, defaults: Config, start: Config, value: Config) {
    && LastSays(ops, (u: Update) => u.host, defaults.host, start.host, value.host)
    && LastSays(ops, (u: Update) => u.port, defaults.port, start.port, value.port)
    && LastSays(ops, (u: Update) => u.user, defaults.user, start.user, value.user)
    && LastSays(ops, (u: Update) => u.pass, defaults.pass, start.pass, value.pass)
  }

  lemma {:induction false} FoldSaysLast(defaults: Config, c: Config, ops: seq<Op>)
    ensures AllLast(ops, defaults, c, Fold(defaults, c, ops))
  {
    forall b: Config, u: Update ensures AllSay(u, defaults, b, Merge(defaults, b, u)) { MergeSays(defaults, b, u); }
    hide Merge, Fold, LastSays, Says;
    FoldLast(defaults, c, ops, (b: Config) => b.host, (u: Update) => u.host);
    FoldLast(defaults, c, ops, (b: Config) => b.port, (u: Update) => u.port);
    FoldLast(defaults, c, ops, (b: Config) => b.user, (u: Update) => u.user);
    FoldLast(defaults, c, ops, (b: Config) => b.pass, (u: Update) => u.pass);
  }

  /** After any run that loses nothing that is stored, each field answered is what the last update
      taken that mentions it says, or what it was at the start; and a reboot changes none. */
  lemma {:induction false} RunAnswersLastMention(s: Store, c: Config, ops: seq<Op>)
    requires Represents(s, c) && KeepingRun(s, ops)
    ensures AllLast(ops, s.defaults, c, Step(Run(s, ops), Current(true)).current)
    ensures ReadBack(Run(s, ops)) == Step(Run(s, ops), Current(true)).current
  {
    StoreIsFold(s, c, ops);
    RepresentedReadBack(Run(s, ops), Fold(s.defaults, c, ops));
    FoldSaysLast(s.defaults, c, ops);
    hide Run, Fold, EnsureLoaded, AllLast, KeepingRun, Represents, ReadBack;
  }

  /** From the first boot each field is what the last update taken that mentions it says, or its
      compiled-in default. */
  lemma {:induction false} FirstBootAnswersLastMention(defaults: Config, ops: seq<Op>)
    requires KeepingRun(FirstBoot(defaults), ops)
    ensures AllLast(ops, defaults, defaults, Step(Run(FirstBoot(defaults), ops), Current(true)).current)
  {
    FirstBootRepresents(defaults);
    RunAnswersLastMention(FirstBoot(defaults), defaults, ops);
    hide Run, AllLast;
  }
}
