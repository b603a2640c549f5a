/** When one pass of the plan optimizer is enough, told from the plan alone. */
module OnePass {
  import opened Optimizer

  /** `ts[i]` and `ts[j]` can be merged, pass the filter, and are kept apart only by subtasks that do not. */
  predicate GapAt(p: string -> bool, ts: seq<SubTask>, i: nat, j: nat) {
    && i + 1 < j < |ts| && IsMergeable(ts[i], ts[j]) && p(ts[i].tool)
    && forall k :: i < k < j ==> !p(ts[k].tool)
  }

  ghost predicate HasGap(p: string -> bool, ts: seq<SubTask>) {
    exists i: nat, j: nat :: GapAt(p, ts, i, j)
  }

  // ---- The last subtask that passes the filter --------------------------------------------------

  /** The position of the last subtask whose tool passes, or -1. */
  function LastAt(p: string -> bool, ts: seq<SubTask>): (i: int)
    ensures -1 <= i < |ts|
    ensures i >= 0 ==> p(ts[i].tool)
    ensures forall k :: i < k < |ts| ==> !p(ts[k].tool)
  {
    if ts == [] then -1
    else if p(ts[|ts| - 1].tool) then |ts| - 1
    else LastAt(p, ts[..|ts| - 1])
  }

  /** The last of `m` can absorb `t`. */
  predicate Absorbs(m: seq<SubTask>, t: SubTask) {
    m != [] && IsMergeable(m[|m| - 1], t)
  }

  lemma PushOnto(init: seq<SubTask>, a: SubTask, t: SubTask)
    ensures Push(init + [a], t) == if IsMergeable(a, t) then init + [Combine(a, t)] else init + [a] + [t]
    ensures Absorbs(init + [a], t) <==> IsMergeable(a, t)
  {
    assert (init + [a])[..|init|] == init;
  }

  lemma PushEndsLike(m: seq<SubTask>, t: SubTask, u: SubTask)
    ensures Absorbs(Push(m, t), u) <==> IsMergeable(t, u)
  {
  }

  lemma KeepLast(p: string -> bool, m: seq<SubTask>, t: SubTask)
    ensures Keep(p, m + [t]) == if p(t.tool) then Keep(p, m) + [t] else Keep(p, m)
  {
    KeepAppends(p, m, [t]);
    KeepOne(p, t);
  }

  /** What pushing one more subtask does to the kept part. */
  lemma {:induction false} KeepPush(p: string -> bool, m: seq<SubTask>, t: SubTask)
    ensures !p(t.tool) ==> Keep(p, Push(m, t)) == Keep(p, m)
    ensures p(t.tool) && Absorbs(m, t) ==> Keep(p, Push(m, t)) == Push(Keep(p, m), t) && Absorbs(Keep(p, m), t)
    ensures p(t.tool) && !Absorbs(m, t) ==> Keep(p, Push(m, t)) == Keep(p, m) + [t]
  {
    if Absorbs(m, t) {
      var init, a := m[..|m| - 1], m[|m| - 1];
      assert m == init + [a];
      KeepLast(p, init, a);
      KeepLast(p, init, Combine(a, t));
      PushOnto(init, a, t);
      PushOnto(Keep(p, init), a, t);
    } else {
      KeepLast(p, m, t);
    }
  }

  lemma MergeEndsLike(ts: seq<SubTask>, t: SubTask)
    ensures Absorbs(Merge(ts), t) <==> Absorbs(ts, t)
  {
    if ts != [] {
      var before, last := ts[..|ts| - 1], ts[|ts| - 1];
      assert ts == before + [last];
      PushLast([], before, last);
      PushEndsLike(Merge(before), last, t);
    }
  }

  /** The last kept subtask absorbs the same as the last subtask of the plan that passes. */
  lemma {:induction false} KeptMergeEndsLike(p: string -> bool, ts: seq<SubTask>, t: SubTask)
    ensures
      var i := LastAt(p, ts);
      Absorbs(Keep(p, Merge(ts)), t) <==> i >= 0 && IsMergeable(ts[i], t)
  {
    if ts != [] {
      var before, last := ts[..|ts| - 1], ts[|ts| - 1];
      assert ts == before + [last];
      KeptMergeEndsLike(p, before, t);
      PushLast([], before, last);
      KeptPushEndsLike(p, Merge(before), last, t);
    }
  }

  lemma KeptPushEndsLike(p: string -> bool, m: seq<SubTask>, last: SubTask, t: SubTask)
    ensures Absorbs(Keep(p, Push(m, last)), t) <==>
            if p(last.tool) then IsMergeable(last, t) else Absorbs(Keep(p, m), t)
  {
    KeepPush(p, m, last);
    PushEndsLike(Keep(p, m), last, t);
  }

  // ---- Duplicates and gaps, one subtask at a time -----------------------------------------------

  lemma DuplicatesAppend(m: seq<SubTask>, t: SubTask)
    ensures NoDuplicates(m + [t]) <==> NoDuplicates(m) && !Absorbs(m, t)
  {
    forall i: nat | i + 1 < |m| ensures DuplicateAt(m + [t], i) == DuplicateAt(m, i) {}
    if m != [] {
      assert DuplicateAt(m + [t], |m| - 1) == IsMergeable(m[|m| - 1], t);
    }
    if NoDuplicates(m + [t]) {
      forall i: nat ensures !DuplicateAt(m, i) {
        assert !DuplicateAt(m + [t], i);
      }
    }
  }

  lemma DuplicatesCombine(m: seq<SubTask>, t: SubTask)
    requires Absorbs(m, t)
    ensures NoDuplicates(Push(m, t)) <==> NoDuplicates(m)
  {
    var m' := Push(m, t);
    forall i: nat ensures DuplicateAt(m', i) == DuplicateAt(m, i) {}
  }

  /** A subtask opens a gap with the last one that passes the filter, if others came in between. */
  lemma GapAppends(p: string -> bool, ts: seq<SubTask>, t: SubTask)
    ensures
      var i := LastAt(p, ts);
      HasGap(p, ts + [t]) <==>
        HasGap(p, ts) || (0 <= i < |ts| - 1 && IsMergeable(ts[i], t))
  {
    var i, ts' := LastAt(p, ts), ts + [t];
    if HasGap(p, ts) {
      var a: nat, b: nat :| GapAt(p, ts, a, b);
      assert GapAt(p, ts', a, b);
    }
    if 0 <= i < |ts| - 1 && IsMergeable(ts[i], t) {
      assert GapAt(p, ts', i, |ts|);
    }
    if HasGap(p, ts') {
      var a: nat, b: nat :| GapAt(p, ts', a, b);
      if b < |ts| {
        forall k | a < k < b ensures !p(ts[k].tool) {
          assert ts'[k] == ts[k];
        }
        assert GapAt(p, ts, a, b);
      } else {
        forall k | a < k < |ts| ensures !p(ts[k].tool) {
          assert ts'[k] == ts[k];
        }
        assert a == i;
      }
    }
  }

  /** After merging, what passes the filter has duplicate neighbours exactly when the plan has a gap. */
  lemma {:induction false} DuplicatesExactlyAtGaps(p: string -> bool, ts: seq<SubTask>)
    ensures NoDuplicates(Keep(p, Merge(ts))) <==> !HasGap(p, ts)
  {
    if ts != [] {
      var before, t := ts[..|ts| - 1], ts[|ts| - 1];
      assert ts == before + [t];
      DuplicatesExactlyAtGaps(p, before);
      GapAppends(p, before, t);
      PushLast([], before, t);
      AppendKeepsExact(p, before, t);
    }
  }

  lemma {:induction false} AppendKeepsExact(p: string -> bool, ts: seq<SubTask>, t: SubTask)
    ensures
      var i := LastAt(p, ts);
      NoDuplicates(Keep(p, Push(Merge(ts), t))) <==>
        NoDuplicates(Keep(p, Merge(ts))) && !(0 <= i < |ts| - 1 && IsMergeable(ts[i], t))
  {
    var m := Merge(ts);
    KeepPush(p, m, t);
    MergeEndsLike(ts, t);
    LastAbsorbs(p, ts, t);
    if p(t.tool) {
      if Absorbs(m, t) {
        DuplicatesCombine(Keep(p, m), t);
      } else {
        KeptMergeEndsLike(p, ts, t);
        DuplicatesAppend(Keep(p, m), t);
      }
    }
  }

  /** Mergeable subtasks have the same tool, so pass the filter together. */
  lemma LastAbsorbs(p: string -> bool, ts: seq<SubTask>, t: SubTask)
    ensures
      var i := LastAt(p, ts);
      && (i >= 0 && IsMergeable(ts[i], t) ==> p(t.tool))
      && (Absorbs(ts, t) && p(t.tool) ==> i == |ts| - 1)
      && (i == |ts| - 1 && i >= 0 && IsMergeable(ts[i], t) ==> Absorbs(ts, t))
  {
  }

  // ---- The two sides and the tools that are dropped ---------------------------------------------

  predicate AllFail(fails: string -> bool, ts: seq<SubTask>) {
    forall i :: 0 <= i < |ts| ==> fails(ts[i].tool)
  }

  /** Whether the drop step leaves a tool in: it does not fail, or all tools of the plan do. */
  predicate Survives(fails: string -> bool, ts: seq<SubTask>, tool: string) {
    !fails(tool) || AllFail(fails, ts)
  }

  /** Two mergeable subtasks that one pass leaves as neighbours: what stands between them hides the first
      from the merge, and is then dropped or moved to the other side. */
  predicate HiddenDuplicate(fails: string -> bool, ts: seq<SubTask>, i: nat, j: nat) {
    && i + 1 < j < |ts| && IsMergeable(ts[i], ts[j]) && Survives(fails, ts, ts[i].tool)
    && forall k :: i < k < j ==>
         !Survives(fails, ts, ts[k].tool) || IsReadOnly(ts[k].tool) != IsReadOnly(ts[i].tool)
  }

  /** The surviving tools on one side of the reordering. */
  function Side(fails: string -> bool, allFail: bool, reading: bool): string -> bool {
    tool => (!fails(tool) || allFail) && IsReadOnly(tool) == reading
  }

  lemma {:induction false} KeepBoth(p: string -> bool, q: string -> bool, r: string -> bool, ts: seq<SubTask>)
    requires forall tool :: r(tool) <==> p(tool) && q(tool)
    ensures Keep(p, Keep(q, ts)) == Keep(r, ts)
  {
    if ts != [] {
      KeepBoth(p, q, r, ts[1..]);
      KeepAppends(p, if q(ts[0].tool) then [ts[0]] else [], Keep(q, ts[1..]));
      KeepOne(p, ts[0]);
    }
  }

  lemma {:induction false} KeepSame(p: string -> bool, q: string -> bool, ts: seq<SubTask>)
    requires forall tool :: p(tool) <==> q(tool)
    ensures Keep(p, ts) == Keep(q, ts)
  {
    if ts != [] {
      KeepSame(p, q, ts[1..]);
    }
  }

  lemma OptimizedSides(fails: string -> bool, ts: seq<SubTask>)
    ensures
      var all := AllFail(fails, ts);
      Optimize(fails, ts) == Keep(Side(fails, all, true), Merge(ts)) + Keep(Side(fails, all, false), Merge(ts))
  {
    var all, m := AllFail(fails, ts), Merge(ts);
    SomeWork(fails, ts);
    assert all <==> forall t :: t in ts ==> fails(t.tool);
    if all {
      KeepSame(IsReadOnly, Side(fails, all, true), m);
      KeepSame(IsWrite, Side(fails, all, false), m);
    } else {
      KeepAppends(Healthy(fails), Keep(IsReadOnly, m), Keep(IsWrite, m));
      KeepBoth(Healthy(fails), IsReadOnly, Side(fails, all, true), m);
      KeepBoth(Healthy(fails), IsWrite, Side(fails, all, false), m);
    }
  }

  /** No duplicates arise where reads end and writes begin. */
  lemma DuplicatesOfSides(reading: seq<SubTask>, writing: seq<SubTask>)
    requires forall t :: t in reading ==> IsReadOnly(t.tool)
    requires forall t :: t in writing ==> !IsReadOnly(t.tool)
    ensures NoDuplicates(reading + writing) <==> NoDuplicates(reading) && NoDuplicates(writing)
  {
    var both, n := reading + writing, |reading|;
    forall i: nat ensures DuplicateAt(both, i) <==>
                          DuplicateAt(reading, i) || (i >= n && DuplicateAt(writing, i - n))
    {
      if i + 1 == n && writing != [] {
        assert both[i] in reading && both[n] == writing[0] && writing[0] in writing;
      }
    }
    if NoDuplicates(both) {
      forall i: nat ensures !DuplicateAt(reading, i) {
        assert !DuplicateAt(both, i);
      }
      forall i: nat ensures !DuplicateAt(writing, i) {
        assert !DuplicateAt(both, i + n);
      }
    }
  }

  lemma GapIsHiddenDuplicate(fails: string -> bool, ts: seq<SubTask>, i: nat, j: nat)
    ensures HiddenDuplicate(fails, ts, i, j) <==>
            || GapAt(Side(fails, AllFail(fails, ts), true), ts, i, j)
            || GapAt(Side(fails, AllFail(fails, ts), false), ts, i, j)
  {
  }

  /** One pass of the optimizer reaches the normal form exactly when the plan has no hidden duplicates. */
  lemma OnePassIsEnoughExactlyWhen(fails: string -> bool, ts: seq<SubTask>)
    ensures Optimize(fails, ts) == NormalForm(fails, ts) <==>
            !exists i: nat, j: nat :: HiddenDuplicate(fails, ts, i, j)
  {
    var all := AllFail(fails, ts);
    var onRead, onWrite := Side(fails, all, true), Side(fails, all, false);
    OnePassByItsResult(fails, ts);
    OptimizedSides(fails, ts);
    AllKeptPass(onRead, Merge(ts));
    AllKeptPass(onWrite, Merge(ts));
    DuplicatesOfSides(Keep(onRead, Merge(ts)), Keep(onWrite, Merge(ts)));
    DuplicatesExactlyAtGaps(onRead, ts);
    DuplicatesExactlyAtGaps(onWrite, ts);
    forall i: nat, j: nat
      ensures HiddenDuplicate(fails, ts, i, j) <==> GapAt(onRead, ts, i, j) || GapAt(onWrite, ts, i, j)
    {
      GapIsHiddenDuplicate(fails, ts, i, j);
    }
  }
}
