/** The persisted broker configuration.

    Models lib/mqtt_config/src/MqttConfigStore.cpp: four fields over compiled-in defaults, of
    which only those that differ from the defaults are kept in storage. The functions are the
    specification; the class below them updates its fields in place. */
module ConfigStore {
  import opened TextScan

  datatype Config = Config(host: string, port: nat, user: string, pass: string)

  /** One field of an update: not mentioned, back to the default, or a new value. */
  datatype Change<T> = Keep | UseDefault | Set(value: T)

  datatype Update = Update(host: Change<string>, port: Change<nat>, user: Change<string>, pass: Change<string>)

  type Storage = map<string, string>

  predicate PortOk(port: nat) { 1 <= port <= 65535 }

  // ---------------- what an update means ----------------

  function Error(u: Update): string {
    if u.host.Set? && u.host.value == "" then "host cannot be empty"
    else if u.host.Set? && |u.host.value| > 190 then "host too long"
    else if u.port.Set? && !PortOk(u.port.value) then "port out of range"
    else if u.user.Set? && |u.user.value| > 64 then "user too long"
    else if u.pass.Set? && |u.pass.value| > 128 then "pass too long"
    else ""
  }

  function Choose<T>(current: T, default_: T, c: Change<T>): T {
    match c
    case Keep => current
    case UseDefault => default_
    case Set(v) => v
  }

  function Merge(defaults: Config, c: Config, u: Update): Config {
    Config(Choose(c.host, defaults.host, u.host), Choose(c.port, defaults.port, u.port),
           Choose(c.user, defaults.user, u.user), Choose(c.pass, defaults.pass, u.pass))
  }

  // ---------------- storage ----------------

  function ParsePort(value: string, fallback: nat): nat {
    if value == "" then fallback
    else match Strtol(value)
      case Some(v) => if 1 <= v <= 65535 then v else fallback
      case None => fallback
  }

  function Put(m: Storage, key: string, overridden: bool, value: string): Storage {
    if overridden then m[key := value] else m - {key}
  }

  function Persist(defaults: Config, c: Config, m: Storage): Storage {
    var m1 := Put(m, "host", c.host != defaults.host, c.host);
    var m2 := Put(m1, "port", c.port != defaults.port, Decimal(c.port));
    var m3 := Put(m2, "user", c.user != defaults.user, c.user);
    Put(m3, "pass", c.pass != defaults.pass, c.pass)
  }

  function Get(m: Storage, key: string, fallback: string): string { if key in m then m[key] else fallback }

  function Load(defaults: Config, m: Storage): Config {
    Config(Get(m, "host", defaults.host),
           if "port" in m then ParsePort(m["port"], defaults.port) else defaults.port,
           Get(m, "user", defaults.user), Get(m, "pass", defaults.pass))
  }

  /** Storage holds exactly the fields that differ from the defaults, with their values. */
  ghost predicate Holds(m: Storage, defaults: Config, c: Config) {
    && m.Keys <= {"host", "port", "user", "pass"}
    && ("host" in m <==> c.host != defaults.host) && ("host" in m ==> m["host"] == c.host)
    && ("port" in m <==> c.port != defaults.port) && ("port" in m ==> m["port"] == Decimal(c.port))
    && ("user" in m <==> c.user != defaults.user) && ("user" in m ==> m["user"] == c.user)
    && ("pass" in m <==> c.pass != defaults.pass) && ("pass" in m ==> m["pass"] == c.pass)
  }

  /** A port written by the store is read back, whatever the fallback. */
  lemma {:induction false} PortReadBack(port: nat, fallback: nat)
    requires PortOk(port)
    ensures ParsePort(Decimal(port), fallback) == port
  {
    DecimalReadBack(port);
  }

  /** Persisting and loading return the configuration, whatever was stored before. */
  lemma {:induction false} PersistLoad(defaults: Config, c: Config, m: Storage)
    requires m.Keys <= {"host", "port", "user", "pass"}
    requires c.port != defaults.port ==> PortOk(c.port)
    ensures Holds(Persist(defaults, c, m), defaults, c) && Load(defaults, Persist(defaults, c, m)) == c
  {
    HeldPersist(defaults, c, m);
    HeldLoads(defaults, c, Persist(defaults, c, m));
  }

  lemma {:induction false} HeldPersist(defaults: Config, c: Config, m: Storage)
    requires m.Keys <= {"host", "port", "user", "pass"}
    ensures Holds(Persist(defaults, c, m), defaults, c)
  {
    hide Decimal;
  }

  lemma {:induction false} HeldLoads(defaults: Config, c: Config, m: Storage)
    requires Holds(m, defaults, c) && (c.port != defaults.port ==> PortOk(c.port))
    ensures Load(defaults, m) == c
  {
    if c.port != defaults.port { PortReadBack(c.port, defaults.port); }
    hide ParsePort, Decimal;
  }

  // ---------------- the store ----------------

  datatype Store = Store(defaults: Config, current: Config, loaded: bool, revision: nat, kept: Storage)

  /** Storage that cannot be opened for reading counts as empty. */
  function EnsureLoaded(s: Store, opens: bool): Store {
    if s.loaded then s
    else s.(current := Load(s.defaults, if opens then s.kept else map[]), loaded := true, revision := s.revision + 1)
  }

  datatype Op =
    | Apply(update: Update, readable: bool, writable: bool)
    | Reload(readable: bool)
    | Current(readable: bool)
    | Reboot

  predicate Accepted(op: Op) { op.Apply? && Error(op.update) == "" && op.writable }

  function Step(s: Store, op: Op): Store {
    match op
    case Apply(u, readable, _) =>
      var s1 := EnsureLoaded(s, readable);
      if !Accepted(op) then s1
      else
        var c := Merge(s1.defaults, s1.current, u);
        s1.(current := c, revision := s1.revision + 1, kept := Persist(s1.defaults, c, s1.kept))
    case Reload(readable) => EnsureLoaded(s.(loaded := false), readable)
    case Current(readable) => EnsureLoaded(s, readable)
    case Reboot => s.(current := s.defaults, loaded := false, revision := 1)
  }

  function Run(s: Store, ops: seq<Op>): Store
    decreases |ops|
  {
    if ops == [] then s else Run(Step(s, ops[0]), ops[1..])
  }

  function Next(defaults: Config, c: Config, op: Op): Config {
    if Accepted(op) then Merge(defaults, c, op.update) else c
  }

  /** The accepted updates, one after the other; nothing else counts. */
  function Fold(defaults: Config, c: Config, ops: seq<Op>): Config
    decreases |ops|
  {
    if ops == [] then c
    else Fold(defaults, Next(defaults, c, ops[0]), ops[1..])
  }

  ghost predicate Represents(s: Store, c: Config) {
    && Holds(s.kept, s.defaults, c)
    && (c.port != s.defaults.port ==> PortOk(c.port))
    && (s.loaded ==> s.current == c)
  }

  /** Reading fails only where there is nothing to read. */
  predicate Readable(s: Store, op: Op) {
    match op
    case Apply(_, readable, _) => s.loaded || readable || s.kept == map[]
    case Reload(readable) => readable || s.kept == map[]
    case Current(readable) => s.loaded || readable || s.kept == map[]
    case Reboot => true
  }

  /** The update says something about every field that is stored. */
  predicate MentionsAll(u: Update, m: Storage) {
    && ("host" in m ==> !u.host.Keep?) && ("port" in m ==> !u.port.Keep?)
    && ("user" in m ==> !u.user.Keep?) && ("pass" in m ==> !u.pass.Keep?)
  }

  /** The operation can read what is stored, or replaces all of it. */
  predicate Keeps(s: Store, op: Op) {
    Readable(s, op) || (Accepted(op) && MentionsAll(op.update, s.kept))
  }

  predicate KeepingRun(s: Store, ops: seq<Op>)
    decreases |ops|
  {
    ops == [] || (Keeps(s, ops[0]) && KeepingRun(Step(s, ops[0]), ops[1..]))
  }

  lemma {:induction false} LoadRepresents(s: Store, c: Config, opens: bool)
    requires Represents(s, c) && (s.loaded || opens || s.kept == map[])
    ensures Represents(EnsureLoaded(s, opens), c) && EnsureLoaded(s, opens).current == c
  {
    HeldLoads(s.defaults, c, s.kept);
    hide Load;
  }

  lemma {:induction false} StepRepresents(s: Store, c: Config, op: Op)
    requires Represents(s, c) && Readable(s, op)
    ensures Represents(Step(s, op), Next(s.defaults, c, op))
    ensures Step(s, op).defaults == s.defaults
  {
    match op
    case Apply(u, readable, writable) =>
      LoadRepresents(s, c, readable);
      if Accepted(op) {
        var m := Merge(s.defaults, c, u);
        HeldPersist(s.defaults, m, s.kept);
        hide Persist, Holds, EnsureLoaded;
      }
    case Reload(readable) => LoadRepresents(s.(loaded := false), c, readable);
    case Current(readable) => LoadRepresents(s, c, readable);
    case Reboot =>
  }

  /** A reading that fails answers the right configuration exactly when nothing is stored. */
  lemma {:induction false} FailedReadingIff(s: Store, c: Config)
    requires Represents(s, c) && !s.loaded
    ensures EnsureLoaded(s, false).current == c <==> s.kept == map[]
  {
    if c == s.defaults { assert s.kept.Keys == {}; }
  }

  /** An update means the same over the defaults as over the stored configuration if and only if
      it mentions every stored field. */
  lemma {:induction false} MergesAlikeIff(defaults: Config, c: Config, m: Storage, u: Update)
    requires Holds(m, defaults, c)
    ensures Merge(defaults, defaults, u) == Merge(defaults, c, u) <==> MentionsAll(u, m)
  {
  }

  lemma {:induction false} AcceptedStores(s: Store, base: Config, op: Op)
    requires Accepted(op) && EnsureLoaded(s, op.readable).current == base
    requires s.kept.Keys <= {"host", "port", "user", "pass"} && (base.port != s.defaults.port ==> PortOk(base.port))
    ensures Represents(Step(s, op), Merge(s.defaults, base, op.update))
    ensures forall c :: Holds(Step(s, op).kept, s.defaults, c) ==> c == Merge(s.defaults, base, op.update)
  {
    var c := Merge(s.defaults, base, op.update);
    HeldPersist(s.defaults, c, s.kept);
    hide Persist;
    forall other | Holds(Step(s, op).kept, s.defaults, other) ensures other == c {
      HeldAlike(Step(s, op).kept, s.defaults, c, other);
    }
  }

  lemma {:induction false} HeldAlike(m: Storage, defaults: Config, c: Config, other: Config)
    requires Holds(m, defaults, c) && Holds(m, defaults, other)
    ensures c == other
  {
    DecimalValue(c.port);
    DecimalValue(other.port);
    hide Decimal;
  }

  /** One operation leaves the store representing its configuration if and only if it could read,
      or is an accepted update that mentions every stored field. */
  lemma {:induction false} StepRepresentsIff(s: Store, c: Config, op: Op)
    requires Represents(s, c)
    ensures Represents(Step(s, op), Next(s.defaults, c, op)) <==> Keeps(s, op)
    ensures Step(s, op).defaults == s.defaults
  {
    if Readable(s, op) {
      StepRepresents(s, c, op);
    } else if Accepted(op) {
      MergesAlikeIff(s.defaults, c, s.kept, op.update);
      AcceptedStores(s, s.defaults, op);
      hide Persist, Merge, MentionsAll;
    } else {
      UnreadLosesView(s, c, op);
    }
  }

  lemma {:induction false} UnreadLosesView(s: Store, c: Config, op: Op)
    requires Represents(s, c) && !Readable(s, op) && !Accepted(op)
    ensures !Represents(Step(s, op), c)
  {
    FailedReadingIff(s.(loaded := false), c);
    hide Represents;
  }

  /** After any sequence of updates, reloads, readings and reboots, none of which loses what is
      stored, the store represents the fold of the accepted updates: what it answers is that
      configuration, and what it keeps is exactly the fields that differ from the defaults. */
  lemma {:induction false} StoreIsFold(s: Store, c: Config, ops: seq<Op>)
    requires Represents(s, c) && KeepingRun(s, ops)
    ensures Represents(Run(s, ops), Fold(s.defaults, c, ops)) && Run(s, ops).defaults == s.defaults
    decreases |ops|
  {
    if ops != [] {
      StepRepresentsIff(s, c, ops[0]);
      hide Step, Represents, Keeps, Merge, Accepted;
      StoreIsFold(Step(s, ops[0]), Next(s.defaults, c, ops[0]), ops[1..]);
    }
  }

  function FirstBoot(defaults: Config): Store { Store(defaults, defaults, false, 1, map[]) }

  lemma FirstBootRepresents(defaults: Config)
    ensures Represents(FirstBoot(defaults), defaults)
  {
  }

  /** From the first boot on: the fold of the accepted updates over the compiled-in defaults. */
  lemma {:induction false} StoreFromFirstBoot(defaults: Config, ops: seq<Op>)
    requires KeepingRun(FirstBoot(defaults), ops)
    ensures Represents(Run(FirstBoot(defaults), ops), Fold(defaults, defaults, ops))
    ensures EnsureLoaded(Run(FirstBoot(defaults), ops), true).current == Fold(defaults, defaults, ops)
  {
    FirstBootRepresents(defaults);
    StoreIsFold(FirstBoot(defaults), defaults, ops);
    LoadRepresents(Run(FirstBoot(defaults), ops), Fold(defaults, defaults, ops), true);
    hide Run, Fold, Represents, EnsureLoaded;
  }

  function Updates(ops: seq<Op>): seq<Op> {
    if ops == [] then [] else (if Accepted(ops[0]) then [ops[0]] else []) + Updates(ops[1..])
  }

  lemma {:induction false} FoldUpdates(defaults: Config, c: Config, ops: seq<Op>)
    ensures Fold(defaults, c, ops) == Fold(defaults, c, Updates(ops))
    decreases |ops|
  {
    if ops != [] {
      var rest := Updates(ops[1..]);
      hide Merge;
      if Accepted(ops[0]) {
        assert ([ops[0]] + rest)[1..] == rest;
        FoldUpdates(defaults, Merge(defaults, c, ops[0].update), ops[1..]);
      } else {
        assert [] + rest == rest;
        FoldUpdates(defaults, c, ops[1..]);
      }
    }
  }

  /** Nobody can tell where the reboots, reloads and failed updates were: two runs with the
      same accepted updates answer the same configuration. */
  lemma {:induction false} RebootsUnobservable(s: Store, c: Config, ops: seq<Op>, others: seq<Op>)
    requires Represents(s, c) && Updates(ops) == Updates(others)
    requires KeepingRun(s, ops) && KeepingRun(s, others)
    ensures EnsureLoaded(Run(s, ops), true).current == EnsureLoaded(Run(s, others), true).current
  {
    StoreIsFold(s, c, ops);
    StoreIsFold(s, c, others);
    FoldUpdates(s.defaults, c, ops);
    FoldUpdates(s.defaults, c, others);
    hide Run, Fold, EnsureLoaded;
    LoadRepresents(Run(s, ops), Fold(s.defaults, c, ops), true);
    LoadRepresents(Run(s, others), Fold(s.defaults, c, others), true);
  }

  /** Short of a reboot the revision never falls, and it grows with every accepted update. */
  lemma {:induction false} RevisionGrows(s: Store, op: Op)
    requires !op.Reboot?
    ensures Step(s, op).revision >= s.revision
    ensures Accepted(op) ==> Step(s, op).revision > s.revision
  {
    hide Load, Persist, Merge;
  }

  /** A reload answers the stored configuration exactly when storage could be read or is empty. */
  lemma {:induction false} ReloadAnswersIff(s: Store, c: Config, readable: bool)
    requires Represents(s, c)
    ensures Step(s, Reload(readable)).current == c <==> readable || s.kept == map[]
  {
    var t := s.(loaded := false);
    if readable { LoadRepresents(t, c, true); } else { FailedReadingIff(t, c); }
    hide Represents, EnsureLoaded;
  }

  // ---------------- what a failed reading costs ----------------

  /** Storage holds the configuration, which the store answers unless it has lost sight of it and
      answers the defaults. */
  ghost predicate Stored(s: Store, c: Config) {
    && Holds(s.kept, s.defaults, c)
    && (c.port != s.defaults.port ==> PortOk(c.port))
    && (s.loaded ==> s.current == c || s.current == s.defaults)
  }

  /** The store answers what storage holds, when this operation has read as much as it can. */
  predicate Sees(s: Store, op: Op)
    requires op.Apply?
  {
    EnsureLoaded(s, op.readable).current == Load(s.defaults, s.kept)
  }

  /** An update is only accepted in sight of the stored configuration, or with every stored field
      mentioned. Failed readings themselves do no harm. */
  predicate Harmless(s: Store, op: Op) {
    Accepted(op) ==> Sees(s, op) || MentionsAll(op.update, s.kept)
  }

  lemma {:induction false} StepStoredIff(s: Store, c: Config, op: Op)
    requires Stored(s, c)
    ensures Stored(Step(s, op), Next(s.defaults, c, op)) <==> Harmless(s, op)
    ensures Step(s, op).defaults == s.defaults
  {
    HeldLoads(s.defaults, c, s.kept);
    hide Load;
    if Accepted(op) {
      var base := EnsureLoaded(s, op.readable).current;
      ViewIs(s, c, op.readable);
      MergesAlikeIff(s.defaults, c, s.kept, op.update);
      AcceptedStores(s, base, op);
      hide Persist, Merge, MentionsAll, EnsureLoaded;
    } else if op.Apply? || op.Current? {
      ViewIs(s, c, op.readable);
    } else if op.Reload? {
      ViewIs(s.(loaded := false), c, op.readable);
    }
  }

  lemma {:induction false} ViewIs(s: Store, c: Config, opens: bool)
    requires Stored(s, c)
    ensures var v := EnsureLoaded(s, opens).current; v == c || v == s.defaults
  {
    HeldLoads(s.defaults, c, s.kept);
    EmptyLoads(s.defaults);
    hide Load;
  }

  lemma EmptyLoads(defaults: Config)
    ensures Load(defaults, map[]) == defaults
  {
  }

  predicate HarmlessRun(s: Store, ops: seq<Op>)
    decreases |ops|
  {
    ops == [] || (Harmless(s, ops[0]) && HarmlessRun(Step(s, ops[0]), ops[1..]))
  }

  /** At no point of the run does storage hold anything but the fold of the updates so far. */
  ghost predicate AlwaysStored(s: Store, c: Config, ops: seq<Op>) {
    forall n :: 0 <= n <= |ops| ==> Stored(Run(s, ops[..n]), Fold(s.defaults, c, ops[..n]))
  }

  lemma {:induction false} AlwaysStoredStep(s: Store, c: Config, ops: seq<Op>)
    requires ops != []
    ensures AlwaysStored(s, c, ops) <==>
      Stored(s, c) && AlwaysStored(Step(s, ops[0]), Next(s.defaults, c, ops[0]), ops[1..])
  {
    var s1, c1 := Step(s, ops[0]), Next(s.defaults, c, ops[0]);
    assert Step(s, ops[0]).defaults == s.defaults;
    assert ops[..0] == [] && Run(s, []) == s && Fold(s.defaults, c, []) == c;
    forall n | 0 < n <= |ops|
      ensures Run(s, ops[..n]) == Run(s1, ops[1..][..n - 1])
      ensures Fold(s.defaults, c, ops[..n]) == Fold(s1.defaults, c1, ops[1..][..n - 1])
    {
      assert ops[..n][1..] == ops[1..][..n - 1] && ops[..n][0] == ops[0];
    }
    hide Step, Run, Fold, Stored, Next;
    if Stored(s, c) && AlwaysStored(s1, c1, ops[1..]) {
      forall n | 0 <= n <= |ops| ensures Stored(Run(s, ops[..n]), Fold(s.defaults, c, ops[..n])) {
        if n > 0 { assert Stored(Run(s1, ops[1..][..n - 1]), Fold(s1.defaults, c1, ops[1..][..n - 1])); }
      }
    }
    if AlwaysStored(s, c, ops) {
      forall n | 0 <= n <= |ops| - 1 ensures Stored(Run(s1, ops[1..][..n]), Fold(s1.defaults, c1, ops[1..][..n])) {
        assert Stored(Run(s, ops[..n + 1]), Fold(s.defaults, c, ops[..n + 1]));
      }
    }
  }

  /** Over every run, failed readings included: storage holds the fold of the accepted updates all
      along if and only if every accepted update was harmless. */
  lemma {:induction false} StorageIsFoldIff(s: Store, c: Config, ops: seq<Op>)
    requires Stored(s, c)
    ensures AlwaysStored(s, c, ops) <==> HarmlessRun(s, ops)
    decreases |ops|
  {
    if ops == [] {
      assert ops[..0] == [];
    } else {
      StepStoredIff(s, c, ops[0]);
      AlwaysStoredStep(s, c, ops);
      var s1, c1 := Step(s, ops[0]), Next(s.defaults, c, ops[0]);
      hide Step, Stored, Next, Harmless;
      if Stored(s1, c1) {
        StorageIsFoldIff(s1, c1, ops[1..]);
      } else {
        StoredFirst(s1, c1, ops[1..]);
      }
      hide AlwaysStored;
    }
  }

  lemma StoredFirst(s: Store, c: Config, ops: seq<Op>)
    ensures AlwaysStored(s, c, ops) ==> Stored(s, c)
  {
    assert ops[..0] == [];
  }

  /** From the first boot, and read back: after any harmless run a reboot and a reading that
      succeeds answer the fold of the accepted updates. */
  lemma {:induction false} HarmlessRunReadBack(defaults: Config, ops: seq<Op>)
    requires HarmlessRun(FirstBoot(defaults), ops)
    ensures var s := Run(FirstBoot(defaults), ops);
      Step(Step(s, Reboot), Current(true)).current == Fold(defaults, defaults, ops)
  {
    FirstBootRepresents(defaults);
    StorageIsFoldIff(FirstBoot(defaults), defaults, ops);
    assert ops[..|ops|] == ops;
    var s := Run(FirstBoot(defaults), ops);
    assert Stored(s, Fold(defaults, defaults, ops));
    RunKeepsDefaults(FirstBoot(defaults), ops);
    HeldLoads(defaults, Fold(defaults, defaults, ops), s.kept);
    hide Run, Fold, Load, HarmlessRun;
  }

  lemma {:induction false} RunKeepsDefaults(s: Store, ops: seq<Op>)
    ensures Run(s, ops).defaults == s.defaults
    decreases |ops|
  {
    if ops != [] { RunKeepsDefaults(Step(s, ops[0]), ops[1..]); }
  }

  /** An accepted update after a failed reading loses every stored field that it leaves alone:
      here one of the user erases the host. */
  lemma {:induction false} FailedReadingForgets(s: Store, c: Config, user: string)
    requires Represents(s, c) && !s.loaded && c.host != s.defaults.host && |user| <= 64
    ensures var op := Apply(Update(Keep, Keep, Set(user), Keep), false, true);
      Accepted(op) && "host" in s.kept && "host" !in Step(s, op).kept
      && !Represents(Step(s, op), Merge(s.defaults, c, op.update))
  {
    var op := Apply(Update(Keep, Keep, Set(user), Keep), false, true);
    assert "host" in s.kept;
    StepRepresentsIff(s, c, op);
    AcceptedStores(s, s.defaults, op);
    hide Persist;
  }

  // ---------------- the object ----------------

  class MqttConfigStore {
    const defaults: Config
    var current: Config
    var loaded: bool
    var revision: nat
    var kept: Storage

    ghost function Model(): Store
      reads this
    {
      Store(defaults, current, loaded, revision, kept)
    }

    constructor (compiled: Config)
      ensures Model() == FirstBoot(compiled)
    {
      defaults, current, loaded, revision, kept := compiled, compiled, false, 1, map[];
    }

    method EnsureLoadedLocked(readable: bool)
      modifies this
      ensures Model() == EnsureLoaded(old(Model()), readable)
    {
      if loaded {
        return;
      }
      var cfg := LoadLocked(readable);
      current := cfg;
      loaded := true;
      revision := revision + 1;
    }

    method LoadLocked(readable: bool) returns (cfg: Config)
      ensures cfg == Load(defaults, if readable then kept else map[])
    {
      hide ParsePort;
      cfg := defaults;
      if !readable {
        return;
      }
      if "host" in kept {
        cfg := cfg.(host := kept["host"]);
      }
      if "port" in kept {
        cfg := cfg.(port := ParsePort(kept["port"], defaults.port));
      }
      if "user" in kept {
        cfg := cfg.(user := kept["user"]);
      }
      if "pass" in kept {
        cfg := cfg.(pass := kept["pass"]);
      }
    }

    method CurrentConfig(readable: bool) returns (cfg: Config)
      modifies this
      ensures Model() == Step(old(Model()), Current(readable)) && cfg == current
    {
      EnsureLoadedLocked(readable);
      cfg := current;
    }

    /** Drops what was read and reads again: storage is untouched, the revision is one higher, and
        the answer is the configuration that storage holds, unless it could not be read. */
    method ReloadConfig(readable: bool) returns (ok: bool)
      modifies this
      ensures ok && loaded && revision == old(revision) + 1 && kept == old(kept)
      ensures forall c :: Represents(old(Model()), c) ==> (current == c <==> readable || kept == map[])
      ensures Model() == Step(old(Model()), Reload(readable))
    {
      ghost var was := Model();
      loaded := false;
      EnsureLoadedLocked(readable);
      ok := true;
      forall c | Represents(was, c) ensures current == c <==> readable || kept == map[] {
        ReloadAnswersIff(was, c, readable);
      }
    }

    method ValidateUpdate(u: Update) returns (ok: bool, error: string)
      ensures error == Error(u) && ok == (error == "")
    {
      if u.host.Set? {
        if u.host.value == "" {
          return false, "host cannot be empty";
        }
        if |u.host.value| > 190 {
          return false, "host too long";
        }
      }
      if u.port.Set? {
        if u.port.value == 0 || u.port.value > 65535 {
          return false, "port out of range";
        }
      }
      if u.user.Set? {
        if |u.user.value| > 64 {
          return false, "user too long";
        }
      }
      if u.pass.Set? {
        if |u.pass.value| > 128 {
          return false, "pass too long";
        }
      }
      return true, "";
    }

    method WriteField(key: string, overridden: bool, value: string)
      modifies this`kept
      ensures kept == Put(old(kept), key, overridden, value)
    {
      if overridden {
        kept := kept[key := value];
      } else {
        kept := kept - {key};
      }
    }

    method PersistLocked(cfg: Config, writable: bool) returns (ok: bool)
      modifies this`kept
      ensures ok == writable
      ensures kept == if writable then Persist(defaults, cfg, old(kept)) else old(kept)
    {
      hide Put;
      if !writable {
        return false;
      }
      WriteField("host", cfg.host != defaults.host, cfg.host);
      WriteField("port", cfg.port != defaults.port, Decimal(cfg.port));
      WriteField("user", cfg.user != defaults.user, cfg.user);
      WriteField("pass", cfg.pass != defaults.pass, cfg.pass);
      ok := true;
    }

    method ApplyUpdate(u: Update, readable: bool, writable: bool) returns (ok: bool, error: string)
      modifies this
      ensures Model() == Step(old(Model()), Apply(u, readable, writable))
      ensures ok == Accepted(Apply(u, readable, writable))
      ensures error == if Error(u) != "" then Error(u) else if !writable then "failed to persist mqtt config" else ""
    {
      hide Persist, Load, Error;
      EnsureLoadedLocked(readable);
      ok, error := ValidateUpdate(u);
      if !ok {
        return;
      }
      var merged := current;
      merged := merged.(host := Choose(merged.host, defaults.host, u.host));
      merged := merged.(port := Choose(merged.port, defaults.port, u.port));
      merged := merged.(user := Choose(merged.user, defaults.user, u.user));
      merged := merged.(pass := Choose(merged.pass, defaults.pass, u.pass));
      var persisted := PersistLocked(merged, writable);
      if !persisted {
        return false, "failed to persist mqtt config";
      }
      current := merged;
      revision := revision + 1;
    }
  }
}
