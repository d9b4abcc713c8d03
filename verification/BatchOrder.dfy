/** The loops of the batch executor, and the controller calls of a batch without their ticks. */
module BatchOrder {
  import opened MotorTypes
  import opened StubBackend

  ghost predicate Disjoint(masks: seq<Mask>) {
    forall j, k :: 0 <= j < k < |masks| ==> masks[j] !! masks[k]
  }

  /** The overlap check: refuses exactly the lists with two intersecting masks. */
  method FindOverlap(masks: seq<Mask>) returns (conflict: bool)
    ensures conflict <==> !Disjoint(masks)
  {
    var seen: Mask := {};
    for i := 0 to |masks|
      invariant forall j, k :: 0 <= j < k < i ==> masks[j] !! masks[k]
      invariant forall x :: x in seen <==> exists j :: 0 <= j < i && x in masks[j]
    {
      if masks[i] * seen != {} {
        var x :| x in masks[i] * seen;
        var j :| 0 <= j < i && x in masks[j];
        assert !(masks[j] !! masks[i]);
        return true;
      }
      assert forall j, x :: 0 <= j < i && x in masks[j] && x in masks[i] ==> x in masks[i] * seen;
      seen := seen + masks[i];
    }
    return false;
  }

  function CallMasks(ops: seq<Op>): seq<Mask> {
    seq(|ops|, i requires 0 <= i < |ops| => ops[i].mask)
  }

  /** The controller calls of a batch one after the other, with their results. */
  function ApplyAll(s: Stub, ops: seq<Op>, now: nat): (Stub, seq<bool>)
    decreases |ops|
  {
    if ops == [] then (s, [])
    else
      var (r, rest) := ApplyAll(Apply(s, ops[0], now), ops[1..], now);
      (r, [OpAllowed(s, ops[0])] + rest)
  }

  predicate OwnedBy(ops: seq<Op>, k: int, i: int) {
    0 <= k < |ops| && i in ops[k].mask
  }

  /** A call touches only the motors it selects, so a later call with another mask is
      allowed in the same cases as before. */
  lemma {:induction false} UntouchedAllowed(s: Stub, first: Op, op: Op, now: nat)
    requires first.mask !! op.mask
    ensures OpAllowed(Apply(s, first, now), op) == OpAllowed(s, op)
  {
    var r := Apply(s, first, now);
    forall i | 0 <= i < |s.units| && i in op.mask
      ensures r.units[i] == s.units[i]
    {
    }
    if AnyMoving(s, op.mask) {
      var i :| 0 <= i < |s.units| && i in op.mask && s.units[i].m.moving;
      assert r.units[i].m.moving;
    }
  }

  /** What the batch did: each call's result is the result it would have on the starting
      state, and each motor saw only the call that owns it. */
  ghost predicate CallsAlone(s: Stub, ops: seq<Op>, now: nat, r: Stub, results: seq<bool>) {
    && |results| == |ops| && |r.units| == |s.units| && r.limits == s.limits
    && (forall k :: 0 <= k < |ops| ==> results[k] == OpAllowed(s, ops[k]))
    && (forall i, k :: 0 <= i < |s.units| && OwnedBy(ops, k, i) ==> r.units[i] == Apply(s, ops[k], now).units[i])
    && (forall i :: 0 <= i < |s.units| && UnownedByCalls(ops, i) ==> r.units[i] == s.units[i])
  }

  ghost predicate UnownedByCalls(ops: seq<Op>, i: int) {
    forall k :: !OwnedBy(ops, k, i)
  }

  lemma {:induction false} FirstCallThenRest(s: Stub, ops: seq<Op>, now: nat, r: Stub, rest: seq<bool>)
    requires ops != [] && Disjoint(CallMasks(ops))
    requires CallsAlone(Apply(s, ops[0], now), ops[1..], now, r, rest)
    ensures CallsAlone(s, ops, now, r, [OpAllowed(s, ops[0])] + rest)
  {
    hide OpUnit;
    hide Apply;
    hide OpAllowed;
    var s1 := Apply(s, ops[0], now);
    forall k | 1 <= k < |ops|
      ensures ops[k] == ops[1..][k - 1] && OpAllowed(s1, ops[k]) == OpAllowed(s, ops[k])
    {
      assert CallMasks(ops)[0] !! CallMasks(ops)[k];
      UntouchedAllowed(s, ops[0], ops[k], now);
    }
    forall i, k | 0 <= i < |s.units| && OwnedBy(ops, k, i)
      ensures r.units[i] == Apply(s, ops[k], now).units[i]
    {
      OwnedByCall(s, ops, now, r, rest, i, k);
    }
    forall i | 0 <= i < |s.units| && UnownedByCalls(ops, i)
      ensures r.units[i] == s.units[i]
    {
      NoCallOwns(ops, i);
    }
  }

  lemma NoCallOwns(ops: seq<Op>, i: int)
    requires ops != [] && UnownedByCalls(ops, i)
    ensures !OwnedBy(ops, 0, i) && UnownedByCalls(ops[1..], i)
  {
    assert forall j :: OwnedBy(ops[1..], j, i) ==> OwnedBy(ops, j + 1, i);
  }

  lemma OnlyFirstOwns(ops: seq<Op>, i: int)
    requires Disjoint(CallMasks(ops)) && OwnedBy(ops, 0, i)
    ensures UnownedByCalls(ops[1..], i)
  {
    forall j | OwnedBy(ops, j, i)
      ensures j == 0
    {
      OneOwner(ops, 0, j, i);
    }
    assert forall j :: OwnedBy(ops[1..], j, i) ==> OwnedBy(ops, j + 1, i);
  }

  lemma OneOwner(ops: seq<Op>, j: int, k: int, i: int)
    requires Disjoint(CallMasks(ops)) && OwnedBy(ops, j, i) && OwnedBy(ops, k, i)
    ensures j == k
  {
    assert i in CallMasks(ops)[j] && i in CallMasks(ops)[k];
  }

  lemma {:induction false} OwnedByCall(s: Stub, ops: seq<Op>, now: nat, r: Stub, rest: seq<bool>, i: nat, k: nat)
    requires ops != [] && Disjoint(CallMasks(ops)) && i < |s.units| && OwnedBy(ops, k, i)
    requires CallsAlone(Apply(s, ops[0], now), ops[1..], now, r, rest)
    ensures r.units[i] == Apply(s, ops[k], now).units[i]
  {
    hide OpUnit;
    if k == 0 {
      OnlyFirstOwns(ops, i);
    } else {
      assert OwnedBy(ops[1..], k - 1, i);
      assert CallMasks(ops)[0] !! CallMasks(ops)[k];
      UntouchedAllowed(s, ops[0], ops[k], now);
    }
  }

  /** Each call of a disjoint batch behaves as if it were alone. */
  lemma {:induction false} EachCallAlone(s: Stub, ops: seq<Op>, now: nat)
    requires Disjoint(CallMasks(ops))
    ensures CallsAlone(s, ops, now, ApplyAll(s, ops, now).0, ApplyAll(s, ops, now).1)
    decreases |ops|
  {
    if ops != [] {
      assert forall k :: 0 <= k < |ops| - 1 ==> CallMasks(ops[1..])[k] == CallMasks(ops)[k + 1];
      var s1 := Apply(s, ops[0], now);
      EachCallAlone(s1, ops[1..], now);
      FirstCallThenRest(s, ops, now, ApplyAll(s1, ops[1..], now).0, ApplyAll(s1, ops[1..], now).1);
    }
  }

  /** perm lists the positions 0 .. n-1 in some order, and inverse undoes it. */
  ghost predicate IsPermutation(perm: seq<nat>, inverse: seq<nat>, n: nat) {
    && |perm| == |inverse| == n
    && (forall k :: 0 <= k < n ==> perm[k] < n && inverse[perm[k]] == k)
    && (forall m :: 0 <= m < n ==> inverse[m] < n && perm[inverse[m]] == m)
  }

  function Permuted<T>(xs: seq<T>, perm: seq<nat>): (r: seq<T>)
    requires |perm| == |xs| && forall k :: 0 <= k < |xs| ==> perm[k] < |xs|
    ensures |r| == |xs| && forall k :: 0 <= k < |xs| ==> r[k] == xs[perm[k]]
  {
    seq(|xs|, k requires 0 <= k < |xs| => xs[perm[k]])
  }

  lemma {:induction false} PermutedDisjoint(masks: seq<Mask>, perm: seq<nat>, inverse: seq<nat>)
    requires Disjoint(masks) && IsPermutation(perm, inverse, |masks|)
    ensures Disjoint(Permuted(masks, perm))
  {
    forall j, k | 0 <= j < k < |masks|
      ensures masks[perm[j]] !! masks[perm[k]]
    {
      assert perm[j] != perm[k];
      if perm[j] < perm[k] {
        assert masks[perm[j]] !! masks[perm[k]];
      } else {
        assert masks[perm[k]] !! masks[perm[j]];
      }
    }
  }

  /** Every order of the calls of a disjoint batch ends in the same state and gives every
      call the same result. */
  lemma {:induction false} BatchOrderIrrelevant(s: Stub, ops: seq<Op>, perm: seq<nat>, inverse: seq<nat>, now: nat)
    requires Disjoint(CallMasks(ops)) && IsPermutation(perm, inverse, |ops|)
    ensures ApplyAll(s, Permuted(ops, perm), now).0 == ApplyAll(s, ops, now).0
    ensures |ApplyAll(s, Permuted(ops, perm), now).1| == |ApplyAll(s, ops, now).1| == |ops|
    ensures forall k :: 0 <= k < |ops| ==>
              ApplyAll(s, Permuted(ops, perm), now).1[k] == ApplyAll(s, ops, now).1[perm[k]]
  {
    var other := Permuted(ops, perm);
    PermutedDisjoint(CallMasks(ops), perm, inverse);
    assert CallMasks(other) == Permuted(CallMasks(ops), perm);
    EachCallAlone(s, ops, now);
    EachCallAlone(s, other, now);
    var a, b := ApplyAll(s, other, now).0, ApplyAll(s, ops, now).0;
    forall i | 0 <= i < |s.units|
      ensures a.units[i] == b.units[i]
    {
      if k :| OwnedBy(other, k, i) {
        assert OwnedBy(ops, perm[k], i);
      } else {
        forall m
          ensures !OwnedBy(ops, m, i)
        {
          assert OwnedBy(ops, m, i) ==> OwnedBy(other, inverse[m], i);
        }
        assert UnownedByCalls(ops, i) && UnownedByCalls(other, i);
      }
    }
    assert a.units == b.units;
  }

  // ---------------- the estimate of a whole batch ----------------

  /** A line of a response: an acknowledgement with an estimate, or any other line. */
  datatype BatchLine = Estimate(estMs: nat) | Other(text: string)

  function Others(lines: seq<BatchLine>): seq<BatchLine> {
    if lines == [] then []
    else Others(lines[..|lines| - 1]) +
         (if lines[|lines| - 1].Other? then [lines[|lines| - 1]] else [])
  }

  /** The longest estimate on any line. */
  ghost predicate IsLongest(lines: seq<BatchLine>, estMs: nat) {
    && Estimate(estMs) in lines
    && forall line :: line in lines && line.Estimate? ==> line.estMs <= estMs
  }

  lemma OneLineMore(lines: seq<BatchLine>, i: nat)
    requires i < |lines|
    ensures Others(lines[..i + 1]) == Others(lines[..i]) + (if lines[i].Other? then [lines[i]] else [])
    ensures forall line :: line in lines[..i + 1] <==> line in lines[..i] || line == lines[i]
  {
    assert lines[..i + 1][..i] == lines[..i] && lines[..i + 1] == lines[..i] + [lines[i]];
  }

  /** Collects the lines of all responses and replaces their estimates by one. */
  method Aggregate(lines: seq<BatchLine>) returns (kept: seq<BatchLine>, saw: bool, estMs: nat)
    ensures kept == Others(lines)
    ensures saw <==> exists line :: line in lines && line.Estimate?
    ensures saw ==> IsLongest(lines, estMs)
  {
    kept, saw, estMs := [], false, 0;
    for i := 0 to |lines|
      invariant kept == Others(lines[..i])
      invariant saw <==> exists line :: line in lines[..i] && line.Estimate?
      invariant if saw then IsLongest(lines[..i], estMs) else estMs == 0
    {
      OneLineMore(lines, i);
      hide Others;
      if lines[i].Estimate? {
        if lines[i].estMs > estMs {
          estMs := lines[i].estMs;
        }
        saw := true;
      } else {
        kept := kept + [lines[i]];
      }
    }
    assert lines[..|lines|] == lines;
  }
}
