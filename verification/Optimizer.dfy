/** The plan optimizer: merge neighbours that do the same thing, move price checks to the front, drop
    tools that keep failing.  Amounts are exact. */
module Optimizer {
  import opened Common

  /** `amount` is params.amount_usd, and `params` are the other parameters. */
  datatype SubTask = SubTask(tool: string, action: string, params: map<string, string>, amount: Option<int>)

  const IDENTIFYING_KEYS: set<string> := {"asset", "token_in", "token_out", "protocol"}

  const READ_ONLY_TOOLS: set<string> := {"price_feed_tool", "oracle_tool"}

  function Identity(params: map<string, string>): map<string, string> {
    map k | k in params && k in IDENTIFYING_KEYS :: params[k]
  }

  function AmountOf(t: SubTask): int {
    t.amount.GetOr(0)
  }

  predicate IsMergeable(a: SubTask, b: SubTask) {
    a.tool == b.tool && a.action == b.action && Identity(a.params) == Identity(b.params)
  }

  /** `a` after absorbing `b`: the amounts are added, everything else of `b` is dropped. */
  function Combine(a: SubTask, b: SubTask): SubTask {
    a.(amount := Some(AmountOf(a) + AmountOf(b)))
  }

  /** Merge one more subtask onto a merged list. */
  function Push(merged: seq<SubTask>, t: SubTask): seq<SubTask> {
    if merged != [] && IsMergeable(merged[|merged| - 1], t) then
      merged[..|merged| - 1] + [Combine(merged[|merged| - 1], t)]
    else merged + [t]
  }

  function PushAll(merged: seq<SubTask>, ts: seq<SubTask>): seq<SubTask>
    decreases |ts|
  {
    if ts == [] then merged else PushAll(Push(merged, ts[0]), ts[1..])
  }

  function Merge(ts: seq<SubTask>): seq<SubTask> {
    PushAll([], ts)
  }

  function Keep(p: string -> bool, ts: seq<SubTask>): seq<SubTask> {
    if ts == [] then [] else (if p(ts[0].tool) then [ts[0]] else []) + Keep(p, ts[1..])
  }

  predicate IsReadOnly(tool: string) {
    tool in READ_ONLY_TOOLS
  }

  predicate IsWrite(tool: string) {
    tool !in READ_ONLY_TOOLS
  }

  function Reorder(ts: seq<SubTask>): seq<SubTask> {
    Keep(IsReadOnly, ts) + Keep(IsWrite, ts)
  }

  function Healthy(fails: string -> bool): string -> bool {
    tool => !fails(tool)
  }

  /** Drop the subtasks of tools that fail, unless that leaves nothing.  `fails` says which tools those are. */
  function DropFailures(fails: string -> bool, ts: seq<SubTask>): seq<SubTask> {
    var kept := Keep(Healthy(fails), ts);
    if kept == [] then ts else kept
  }

  function Optimize(fails: string -> bool, ts: seq<SubTask>): seq<SubTask> {
    DropFailures(fails, Reorder(Merge(ts)))
  }

  // ---- Merging ----------------------------------------------------------------------------------

  lemma {:induction false} PushAllAppends(
    merged: seq<SubTask>, xs: seq<SubTask>, between: seq<SubTask>, ys: seq<SubTask>)
    requires PushAll(merged, xs) == between
    ensures PushAll(merged, xs + ys) == PushAll(between, ys)
    decreases |xs|
  {
    if xs == [] {
      assert xs + ys == ys;
    } else {
      assert (xs + ys)[0] == xs[0] && (xs + ys)[1..] == xs[1..] + ys;
      PushAllAppends(Push(merged, xs[0]), xs[1..], between, ys);
    }
  }

  lemma PushLast(merged: seq<SubTask>, xs: seq<SubTask>, t: SubTask)
    ensures PushAll(merged, xs + [t]) == Push(PushAll(merged, xs), t)
  {
    PushAllAppends(merged, xs, PushAll(merged, xs), [t]);
    assert [t][1..] == [];
  }

  /** Merging is associative: pushing two mergeable subtasks is pushing their combination. */
  lemma PushCombination(merged: seq<SubTask>, a: SubTask, b: SubTask)
    requires IsMergeable(a, b)
    ensures Push(merged, Combine(a, b)) == Push(Push(merged, a), b)
  {
    var pushed := Push(merged, a);
    assert pushed[..|pushed| - 1] == if merged != [] && IsMergeable(merged[|merged| - 1], a)
                                     then merged[..|merged| - 1] else merged;
  }

  lemma PushOfPush(merged: seq<SubTask>, m: seq<SubTask>, t: SubTask)
    ensures PushAll(merged, Push(m, t)) == Push(PushAll(merged, m), t)
  {
    if m != [] && IsMergeable(m[|m| - 1], t) {
      var init, a := m[..|m| - 1], m[|m| - 1];
      assert m == init + [a];
      PushLast(merged, init, a);
      PushLast(merged, init, Combine(a, t));
      PushCombination(PushAll(merged, init), a, t);
    } else {
      PushLast(merged, m, t);
    }
  }

  /** Merging a list that was partly merged before gives the same. */
  lemma {:induction false} PushAllOfPushAll(merged: seq<SubTask>, m: seq<SubTask>, ts: seq<SubTask>)
    ensures PushAll(merged, PushAll(m, ts)) == PushAll(PushAll(merged, m), ts)
    decreases |ts|
  {
    if ts != [] {
      PushAllOfPushAll(merged, Push(m, ts[0]), ts[1..]);
      PushOfPush(merged, m, ts[0]);
    }
  }

  /** Merging the parts first does not matter. */
  lemma MergeOfParts(xs: seq<SubTask>, ys: seq<SubTask>)
    ensures Merge(xs + ys) == Merge(Merge(xs) + Merge(ys))
    ensures Merge(Merge(xs)) == Merge(xs)
  {
    PushAllAppends([], xs, PushAll([], xs), ys);
    PushAllAppends([], Merge(xs), PushAll([], Merge(xs)), Merge(ys));
    PushAllOfPushAll([], [], xs);
    PushAllOfPushAll(Merge(xs), [], ys);
  }

  // ---- Filtering by tool ------------------------------------------------------------------------

  lemma {:induction false} KeepAppends(p: string -> bool, xs: seq<SubTask>, ys: seq<SubTask>)
    ensures Keep(p, xs + ys) == Keep(p, xs) + Keep(p, ys)
    decreases |xs|
  {
    if xs == [] {
      assert xs + ys == ys;
    } else {
      var head := if p(xs[0].tool) then [xs[0]] else [];
      assert (xs + ys)[0] == xs[0] && (xs + ys)[1..] == xs[1..] + ys;
      assert Keep(p, xs + ys) == head + Keep(p, xs[1..] + ys);
      KeepAppends(p, xs[1..], ys);
    }
  }

  lemma KeepOne(p: string -> bool, t: SubTask)
    ensures Keep(p, [t]) == if p(t.tool) then [t] else []
  {
    assert [t][1..] == [];
  }

  lemma MergeKeepPush(p: string -> bool, m: seq<SubTask>, t: SubTask)
    ensures Merge(Keep(p, Push(m, t))) == if p(t.tool) then Push(Merge(Keep(p, m)), t) else Merge(Keep(p, m))
  {
    if m != [] && IsMergeable(m[|m| - 1], t) {
      var init, a := m[..|m| - 1], m[|m| - 1];
      assert m == init + [a];
      KeepAppends(p, init, [a]);
      KeepAppends(p, init, [Combine(a, t)]);
      KeepOne(p, a);
      KeepOne(p, Combine(a, t));
      if p(t.tool) {
        PushLast([], Keep(p, init), a);
        PushLast([], Keep(p, init), Combine(a, t));
        PushCombination(Merge(Keep(p, init)), a, t);
      }
    } else {
      KeepAppends(p, m, [t]);
      KeepOne(p, t);
      PushLast([], Keep(p, m), t);
      assert Keep(p, m) + [] == Keep(p, m);
    }
  }

  lemma {:induction false} MergeKeepPushAll(p: string -> bool, m: seq<SubTask>, ts: seq<SubTask>)
    ensures Merge(Keep(p, PushAll(m, ts))) == PushAll(Merge(Keep(p, m)), Keep(p, ts))
    decreases |ts|
  {
    if ts != [] {
      var kept := Keep(p, ts[1..]);
      MergeKeepPushAll(p, Push(m, ts[0]), ts[1..]);
      MergeKeepPush(p, m, ts[0]);
      var merged, head := Merge(Keep(p, m)), if p(ts[0].tool) then [ts[0]] else [];
      PushAllAppends(merged, head, PushAll(merged, head), kept);
      assert [ts[0]][1..] == [];
    }
  }

  /** Merging before filtering by tool is seen only until the next merge. */
  lemma MergeKeepMerge(p: string -> bool, ts: seq<SubTask>)
    ensures Merge(Keep(p, Merge(ts))) == Merge(Keep(p, ts))
  {
    MergeKeepPushAll(p, [], ts);
  }

  lemma {:induction false} KeepAll(p: string -> bool, ts: seq<SubTask>)
    requires forall t :: t in ts ==> p(t.tool)
    ensures Keep(p, ts) == ts
  {
    if ts != [] {
      assert ts[0] in ts;
      forall t | t in ts[1..] ensures p(t.tool) {
        assert t in ts;
      }
      KeepAll(p, ts[1..]);
    }
  }

  lemma {:induction false} KeepNone(p: string -> bool, ts: seq<SubTask>)
    requires forall t :: t in ts ==> !p(t.tool)
    ensures Keep(p, ts) == []
  {
    if ts != [] {
      assert ts[0] in ts;
      forall t | t in ts[1..] ensures !p(t.tool) {
        assert t in ts;
      }
      KeepNone(p, ts[1..]);
    }
  }

  lemma {:induction false} KeptPass(p: string -> bool, ts: seq<SubTask>, t: SubTask)
    ensures t in Keep(p, ts) <==> t in ts && p(t.tool)
  {
    if ts != [] {
      KeptPass(p, ts[1..], t);
      assert t in ts <==> t == ts[0] || t in ts[1..];
    }
  }

  /** Filtering by tool twice does not depend on the order. */
  lemma {:induction false} KeepCommutes(p: string -> bool, q: string -> bool, ts: seq<SubTask>)
    ensures Keep(p, Keep(q, ts)) == Keep(q, Keep(p, ts))
  {
    if ts != [] {
      KeepCommutes(p, q, ts[1..]);
      KeepAppends(p, if q(ts[0].tool) then [ts[0]] else [], Keep(q, ts[1..]));
      KeepAppends(q, if p(ts[0].tool) then [ts[0]] else [], Keep(p, ts[1..]));
      KeepOne(p, ts[0]);
      KeepOne(q, ts[0]);
    }
  }

  /** Merging adds no tools. */
  lemma {:induction false} MergedTools(m: seq<SubTask>, ts: seq<SubTask>, p: string -> bool)
    requires (forall t :: t in m ==> p(t.tool)) && forall t :: t in ts ==> p(t.tool)
    ensures forall t :: t in PushAll(m, ts) ==> p(t.tool)
    decreases |ts|
  {
    if ts != [] {
      assert ts[0] in ts;
      forall t | t in Push(m, ts[0]) ensures p(t.tool) {
        if m != [] {
          assert m[|m| - 1] in m;
        }
      }
      forall t | t in ts[1..] ensures p(t.tool) {
        assert t in ts;
      }
      MergedTools(Push(m, ts[0]), ts[1..], p);
    }
  }

  // ---- The normal form --------------------------------------------------------------------------

  /** Drop, reorder, then merge: the opposite order of `Optimize`. */
  function NormalForm(fails: string -> bool, ts: seq<SubTask>): seq<SubTask> {
    Merge(Reorder(DropFailures(fails, ts)))
  }

  lemma MergeReorderMerge(ts: seq<SubTask>)
    ensures Merge(Reorder(Merge(ts))) == Merge(Reorder(ts))
  {
    MergeOfParts(Keep(IsReadOnly, Merge(ts)), Keep(IsWrite, Merge(ts)));
    MergeOfParts(Keep(IsReadOnly, ts), Keep(IsWrite, ts));
    MergeKeepMerge(IsReadOnly, ts);
    MergeKeepMerge(IsWrite, ts);
  }

  lemma {:induction false} PushAllNonEmpty(m: seq<SubTask>, ts: seq<SubTask>)
    ensures PushAll(m, ts) == [] <==> m == [] && ts == []
    decreases |ts|
  {
    if ts != [] {
      PushAllNonEmpty(Push(m, ts[0]), ts[1..]);
    }
  }

  lemma MergeDropMerge(fails: string -> bool, ts: seq<SubTask>)
    ensures Merge(DropFailures(fails, Merge(ts))) == Merge(DropFailures(fails, ts))
  {
    var p := Healthy(fails);
    MergeKeepMerge(p, ts);
    PushAllNonEmpty([], Keep(p, Merge(ts)));
    PushAllNonEmpty([], Keep(p, ts));
    MergeOfParts(ts, []);
  }

  lemma DropReorder(fails: string -> bool, ts: seq<SubTask>)
    ensures DropFailures(fails, Reorder(ts)) == Reorder(DropFailures(fails, ts))
  {
    var p := Healthy(fails);
    KeepAppends(p, Keep(IsReadOnly, ts), Keep(IsWrite, ts));
    KeepCommutes(p, IsReadOnly, ts);
    KeepCommutes(p, IsWrite, ts);
    assert Keep(p, Reorder(ts)) == Reorder(Keep(p, ts));
    ReorderNonEmpty(Keep(p, ts));
  }

  lemma ReorderNonEmpty(ts: seq<SubTask>)
    ensures Reorder(ts) == [] <==> ts == []
  {
    if ts != [] {
      KeptPass(IsReadOnly, ts, ts[0]);
      KeptPass(IsWrite, ts, ts[0]);
    }
  }

  /** Merging what comes after a prefix of other tools leaves the prefix alone. */
  lemma {:induction false} PushAllAfter(p: string -> bool, front: seq<SubTask>, m: seq<SubTask>, ts: seq<SubTask>)
    requires forall t :: t in front ==> p(t.tool)
    requires (forall t :: t in m ==> !p(t.tool)) && forall t :: t in ts ==> !p(t.tool)
    ensures PushAll(front + m, ts) == front + PushAll(m, ts)
    decreases |ts|
  {
    if ts != [] {
      var t := ts[0];
      assert t in ts;
      if m == [] {
        assert front + m == front;
        assert front != [] ==> front[|front| - 1] in front;
      } else {
        assert (front + m)[..|front + m| - 1] == front + m[..|m| - 1];
        assert m[|m| - 1] in m;
      }
      assert Push(front + m, t) == front + Push(m, t);
      forall u | u in Push(m, t) ensures !p(u.tool) {}
      forall u | u in ts[1..] ensures !p(u.tool) {
        assert u in ts;
      }
      PushAllAfter(p, front, Push(m, t), ts[1..]);
    }
  }

  /** Reads in front of writes merge apart. */
  lemma MergeOfReadsAndWrites(reading: seq<SubTask>, writing: seq<SubTask>)
    requires forall t :: t in reading ==> IsReadOnly(t.tool)
    requires forall t :: t in writing ==> !IsReadOnly(t.tool)
    ensures Merge(reading + writing) == Merge(reading) + Merge(writing)
  {
    MergedTools([], reading, IsReadOnly);
    PushAllAppends([], reading, PushAll([], reading), writing);
    assert Merge(reading) + [] == Merge(reading);
    PushAllAfter(IsReadOnly, Merge(reading), [], writing);
  }

  lemma {:induction false} KeepFirstPart(p: string -> bool, xs: seq<SubTask>, ys: seq<SubTask>)
    requires (forall t :: t in xs ==> p(t.tool)) && forall t :: t in ys ==> !p(t.tool)
    ensures Keep(p, xs + ys) == xs && Keep(p, ys + xs) == xs
  {
    KeepAppends(p, xs, ys);
    KeepAppends(p, ys, xs);
    KeepAll(p, xs);
    KeepNone(p, ys);
  }

  lemma ReorderOfReadsAndWrites(reading: seq<SubTask>, writing: seq<SubTask>)
    requires forall t :: t in reading ==> IsReadOnly(t.tool)
    requires forall t :: t in writing ==> IsWrite(t.tool)
    ensures Reorder(reading + writing) == reading + writing
  {
    KeepFirstPart(IsReadOnly, reading, writing);
    KeepFirstPart(IsWrite, writing, reading);
  }

  lemma AllKeptPass(p: string -> bool, ts: seq<SubTask>)
    ensures forall t :: t in Keep(p, ts) ==> p(t.tool)
  {
    forall t | t in Keep(p, ts) ensures p(t.tool) {
      KeptPass(p, ts, t);
    }
  }

  /** A merged plan with its reads in front stays that way. */
  lemma MergedReorderedIsOrdered(ts: seq<SubTask>)
    ensures Reorder(Merge(Reorder(ts))) == Merge(Reorder(ts))
  {
    AllKeptPass(IsReadOnly, ts);
    AllKeptPass(IsWrite, ts);
    MergedTools([], Keep(IsReadOnly, ts), IsReadOnly);
    MergedTools([], Keep(IsWrite, ts), IsWrite);
    MergeOfReadsAndWrites(Keep(IsReadOnly, ts), Keep(IsWrite, ts));
    ReorderOfReadsAndWrites(Merge(Keep(IsReadOnly, ts)), Merge(Keep(IsWrite, ts)));
  }

  /** Nothing in the normal form is left to drop. */
  lemma NormalFormIsDropped(fails: string -> bool, ts: seq<SubTask>)
    ensures DropFailures(fails, NormalForm(fails, ts)) == NormalForm(fails, ts)
  {
    var p := Healthy(fails);
    var dropped := DropFailures(fails, ts);
    var reordered := Reorder(dropped);
    forall t | t in reordered ensures t in dropped {
      KeptPass(IsReadOnly, dropped, t);
      KeptPass(IsWrite, dropped, t);
    }
    forall t ensures t in Keep(p, ts) <==> t in ts && p(t.tool) {
      KeptPass(p, ts, t);
    }
    if Keep(p, ts) == [] {
      assert forall t :: t in reordered ==> fails(t.tool);
      MergedTools([], reordered, fails);
      KeepNone(p, NormalForm(fails, ts));
    } else {
      assert forall t :: t in reordered ==> p(t.tool);
      MergedTools([], reordered, p);
      KeepAll(p, NormalForm(fails, ts));
    }
  }

  /** Merging one optimized plan gives the normal form. */
  lemma MergeOptimized(fails: string -> bool, ts: seq<SubTask>)
    ensures Merge(Optimize(fails, ts)) == NormalForm(fails, ts)
  {
    MergeDropMerge(fails, Reorder(Merge(ts)));
    MergeReorderMerge(ts);
    MergeDropMerge(fails, Reorder(ts));
    DropReorder(fails, ts);
  }

  /** Two passes of the optimizer reach the normal form of any plan, whatever tools fail, and more passes
      change nothing. */
  lemma TwoPassesReachNormalForm(fails: string -> bool, ts: seq<SubTask>)
    ensures Optimize(fails, Optimize(fails, ts)) == NormalForm(fails, ts)
    ensures Optimize(fails, NormalForm(fails, ts)) == NormalForm(fails, ts)
  {
    var normal := NormalForm(fails, ts);
    MergeOptimized(fails, ts);
    MergedReorderedIsOrdered(DropFailures(fails, ts));
    NormalFormIsDropped(fails, ts);
    MergeOfParts(Reorder(DropFailures(fails, ts)), []);
    assert Merge(normal) == normal;
  }

  predicate DuplicateAt(ts: seq<SubTask>, i: nat) {
    i + 1 < |ts| && IsMergeable(ts[i], ts[i + 1])
  }

  ghost predicate NoDuplicates(ts: seq<SubTask>) {
    forall i: nat :: !DuplicateAt(ts, i)
  }

  lemma PushNoDuplicates(m: seq<SubTask>, t: SubTask)
    requires NoDuplicates(m)
    ensures NoDuplicates(Push(m, t))
  {
    forall i: nat ensures !DuplicateAt(Push(m, t), i) {
      assert !DuplicateAt(m, i);
    }
  }

  lemma {:induction false} PushAllNoDuplicates(m: seq<SubTask>, ts: seq<SubTask>)
    requires NoDuplicates(m)
    ensures NoDuplicates(PushAll(m, ts))
    decreases |ts|
  {
    if ts != [] {
      PushNoDuplicates(m, ts[0]);
      PushAllNoDuplicates(Push(m, ts[0]), ts[1..]);
    }
  }

  lemma {:induction false} PushAllOfNoDuplicates(m: seq<SubTask>, ts: seq<SubTask>)
    requires NoDuplicates(m + ts)
    ensures PushAll(m, ts) == m + ts
    decreases |ts|
  {
    if ts == [] {
      assert m + ts == m;
    } else {
      assert m + ts == (m + [ts[0]]) + ts[1..];
      if m != [] {
        assert !DuplicateAt(m + ts, |m| - 1);
        assert (m + ts)[|m| - 1] == m[|m| - 1] && (m + ts)[|m|] == ts[0];
      }
      PushAllOfNoDuplicates(m + [ts[0]], ts[1..]);
    }
  }

  /** Merging leaves no duplicate neighbours, and changes only plans that have some. */
  lemma MergeChangesOnlyDuplicates(ts: seq<SubTask>)
    ensures NoDuplicates(Merge(ts))
    ensures Merge(ts) == ts <==> NoDuplicates(ts)
  {
    PushAllNoDuplicates([], ts);
    assert [] + ts == ts;
    if NoDuplicates(ts) {
      PushAllOfNoDuplicates([], ts);
    }
  }

  /** One pass reaches the normal form exactly when its own result has no duplicate neighbours left; module
      OnePass says for which plans that is. */
  lemma OnePassByItsResult(fails: string -> bool, ts: seq<SubTask>)
    ensures Optimize(fails, ts) == NormalForm(fails, ts) <==> NoDuplicates(Optimize(fails, ts))
  {
    MergeOptimized(fails, ts);
    MergeChangesOnlyDuplicates(Optimize(fails, ts));
  }

  /** One pass need not be enough: a price check between two equal swaps is moved away only after the
      merging, and leaves the swaps unmerged. */
  lemma OnePassIsNotEnough(swap: SubTask, price: SubTask, again: SubTask)
    requires !IsReadOnly(swap.tool) && IsReadOnly(price.tool) && IsMergeable(swap, again)
    ensures Optimize(NoFailures, [swap, price, again]) == [price, swap, again]
    ensures Optimize(NoFailures, [price, swap, again]) == [price, Combine(swap, again)]
  {
    MergeOfThree(swap, price, again);
    KeepOfThree(IsReadOnly, swap, price, again);
    KeepOfThree(IsWrite, swap, price, again);
    assert Merge([swap, price, again]) == [swap, price, again];
    assert Reorder([swap, price, again]) == [price, swap, again];
    forall t | t in [price, swap, again] ensures Healthy(NoFailures)(t.tool) {
      assert !NoFailures(t.tool);
    }
    KeepAll(Healthy(NoFailures), [price, swap, again]);
    SecondPass(swap, price, again);
  }

  lemma SecondPass(swap: SubTask, price: SubTask, again: SubTask)
    requires !IsReadOnly(swap.tool) && IsReadOnly(price.tool) && IsMergeable(swap, again)
    ensures Optimize(NoFailures, [price, swap, again]) == [price, Combine(swap, again)]
  {
    var both := Combine(swap, again);
    MergeOfThree(price, swap, again);
    assert Merge([price, swap, again]) == [price, both];
    KeepOfTwo(IsReadOnly, price, both);
    KeepOfTwo(IsWrite, price, both);
    assert Reorder([price, both]) == [price, both];
    forall t | t in [price, both] ensures Healthy(NoFailures)(t.tool) {
      assert !NoFailures(t.tool);
    }
    KeepAll(Healthy(NoFailures), [price, both]);
  }

  predicate NoFailures(tool: string) {
    false
  }

  lemma MergeOfThree(a: SubTask, b: SubTask, c: SubTask)
    ensures Merge([a, b, c]) == Push(Push([a], b), c)
  {
    assert [a, b, c] == [a, b] + [c] && [a, b] == [a] + [b] && [a] == [] + [a];
    PushLast([], [a, b], c);
    PushLast([], [a], b);
    PushLast([], [], a);
  }

  lemma KeepOfTwo(p: string -> bool, a: SubTask, b: SubTask)
    ensures Keep(p, [a, b]) == (if p(a.tool) then [a] else []) + if p(b.tool) then [b] else []
  {
    assert [a, b] == [a] + [b];
    KeepAppends(p, [a], [b]);
    KeepOne(p, a);
    KeepOne(p, b);
  }

  lemma KeepOfThree(p: string -> bool, a: SubTask, b: SubTask, c: SubTask)
    ensures Keep(p, [a, b, c])
            == (if p(a.tool) then [a] else []) + (if p(b.tool) then [b] else []) + if p(c.tool) then [c] else []
  {
    assert [a, b, c] == [a, b] + [c];
    KeepAppends(p, [a, b], [c]);
    KeepOfTwo(p, a, b);
    KeepOne(p, c);
  }

  lemma SomeWork(fails: string -> bool, ts: seq<SubTask>)
    ensures Keep(Healthy(fails), Reorder(Merge(ts))) == [] <==> forall t :: t in ts ==> fails(t.tool)
  {
    var p := Healthy(fails);
    DropReorder(fails, Merge(ts));
    KeepAppends(p, Keep(IsReadOnly, Merge(ts)), Keep(IsWrite, Merge(ts)));
    KeepCommutes(p, IsReadOnly, Merge(ts));
    KeepCommutes(p, IsWrite, Merge(ts));
    ReorderNonEmpty(Keep(p, Merge(ts)));
    PushAllNonEmpty([], Keep(p, Merge(ts)));
    PushAllNonEmpty([], Keep(p, ts));
    MergeKeepMerge(p, ts);
    if Keep(p, ts) == [] {
      forall t | t in ts ensures fails(t.tool) {
        KeptPass(p, ts, t);
      }
    } else if forall t :: t in ts ==> fails(t.tool) {
      KeepNone(p, ts);
    }
  }
}
