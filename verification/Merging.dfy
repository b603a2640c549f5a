/** What merging and reordering do to a plan, told from the subtasks' own fields. */
module Merging {
  import opened Common
  import opened Optimizer

  /** The two agree on a parameter: both have it with the same value, or neither has it. */
  predicate Agree(a: map<string, string>, b: map<string, string>, key: string) {
    if key in a then key in b && a[key] == b[key] else key !in b
  }

  /** Same tool, same action, and the same asset, token_in, token_out and protocol as far as given. */
  predicate SameKind(a: SubTask, b: SubTask) {
    && a.tool == b.tool && a.action == b.action
    && Agree(a.params, b.params, "asset") && Agree(a.params, b.params, "token_in")
    && Agree(a.params, b.params, "token_out") && Agree(a.params, b.params, "protocol")
  }

  lemma SameIdentity(a: map<string, string>, b: map<string, string>)
    ensures Identity(a) == Identity(b) <==> forall key :: key in IDENTIFYING_KEYS ==> Agree(a, b, key)
  {
    if Identity(a) == Identity(b) {
      forall key | key in IDENTIFYING_KEYS ensures Agree(a, b, key) {
        assert key in a <==> key in Identity(a);
        assert key in b <==> key in Identity(b);
      }
    }
  }

  /** What the optimizer compares is what the documentation names. */
  lemma MergeableExactlyWhen(a: SubTask, b: SubTask)
    ensures IsMergeable(a, b) <==> SameKind(a, b)
  {
    SameIdentity(a.params, b.params);
    assert forall key :: key in IDENTIFYING_KEYS <==> key in {"asset", "token_in", "token_out", "protocol"};
  }

  // ---- Run by run -------------------------------------------------------------------------------

  /** How many subtasks at the front are of that kind. */
  function RunLength(kind: SubTask, ts: seq<SubTask>): (n: nat)
    ensures n <= |ts|
  {
    if ts != [] && SameKind(kind, ts[0]) then 1 + RunLength(kind, ts[1..]) else 0
  }

  function Sum(ts: seq<SubTask>): int {
    if ts == [] then 0
    else Sum(ts[1..]) + match ts[0].amount case None => 0 case Some(amount) => amount
  }

  /** The first subtask stands for the whole run; a run of one is left as it is. */
  function Absorbed(first: SubTask, others: seq<SubTask>): SubTask {
    if others == [] then first
    else SubTask(first.tool, first.action, first.params, Some(Sum([first]) + Sum(others)))
  }

  lemma SumOfOne(t: SubTask)
    ensures Sum([t]) == AmountOf(t)
  {
    assert [t][1..] == [];
  }

  lemma AbsorbedMore(first: SubTask, others: seq<SubTask>)
    requires others != []
    ensures Absorbed(Combine(first, others[0]), others[1..]) == Absorbed(first, others)
  {
    SumOfOne(first);
    SumOfOne(Combine(first, others[0]));
  }

  lemma {:induction false} AbsorbAll(first: SubTask, others: seq<SubTask>)
    requires forall i :: 0 <= i < |others| ==> SameKind(first, others[i])
    ensures PushAll([first], others) == [Absorbed(first, others)]
    decreases |others|
  {
    if others != [] {
      MergeableExactlyWhen(first, others[0]);
      assert Push([first], others[0]) == [Combine(first, others[0])];
      AbsorbAll(Combine(first, others[0]), others[1..]);
      AbsorbedMore(first, others);
    }
  }

  /** Nothing reaches further back than the last merged subtask. */
  lemma {:induction false} FrontStays(front: seq<SubTask>, m: seq<SubTask>, ts: seq<SubTask>)
    requires m != []
    ensures PushAll(front + m, ts) == front + PushAll(m, ts)
    decreases |ts|
  {
    if ts != [] {
      var last := m[|m| - 1];
      assert (front + m)[|front + m| - 1] == last;
      assert (front + m)[..|front + m| - 1] == front + m[..|m| - 1];
      assert Push(front + m, ts[0]) == front + Push(m, ts[0]);
      FrontStays(front, Push(m, ts[0]), ts[1..]);
    }
  }

  lemma {:induction false} NextRun(t: SubTask, first: SubTask, ts: seq<SubTask>)
    requires t.tool == first.tool && t.action == first.action && t.params == first.params
    requires ts != [] ==> !SameKind(first, ts[0])
    ensures PushAll([t], ts) == [t] + Merge(ts)
  {
    if ts != [] {
      MergeableExactlyWhen(t, ts[0]);
      assert SameKind(t, ts[0]) == SameKind(first, ts[0]);
      assert Push([t], ts[0]) == [t] + [ts[0]] && Push([], ts[0]) == [ts[0]];
      FrontStays([t], [ts[0]], ts[1..]);
    }
  }

  lemma {:induction false} RunEnds(kind: SubTask, ts: seq<SubTask>)
    ensures
      var n := RunLength(kind, ts);
      && (forall i :: 0 <= i < n ==> SameKind(kind, ts[i]))
      && (n < |ts| ==> !SameKind(kind, ts[n]))
  {
    if ts != [] && SameKind(kind, ts[0]) {
      RunEnds(kind, ts[1..]);
    }
  }

  /** Merging, run by run: a run of neighbours of one kind becomes its first subtask with the amounts of the
      whole run added up, a missing amount counting as none; everything else of it stays as it is, and so
      does a run of one. */
  lemma {:induction false} MergeIsRunByRun(ts: seq<SubTask>)
    requires ts != []
    ensures
      var n := RunLength(ts[0], ts[1..]);
      Merge(ts) == [Absorbed(ts[0], ts[1..][..n])] + Merge(ts[1..][n..])
  {
    var first, rest := ts[0], ts[1..];
    var run, others := rest[..RunLength(first, rest)], rest[RunLength(first, rest)..];
    RunEnds(first, rest);
    calc {
      Merge(ts);
      { assert Push([], first) == [first] && rest == run + others; }
      PushAll([first], run + others);
      { PushAllAppends([first], run, PushAll([first], run), others); }
      PushAll(PushAll([first], run), others);
      { AbsorbAll(first, run); }
      PushAll([Absorbed(first, run)], others);
      { NextRun(Absorbed(first, run), first, others); }
      [Absorbed(first, run)] + Merge(others);
    }
  }

  ghost predicate NoneAlike(ts: seq<SubTask>) {
    forall i: nat :: i + 1 < |ts| ==> !AlikeAt(ts, i)
  }

  predicate AlikeAt(ts: seq<SubTask>, i: nat)
    requires i + 1 < |ts|
  {
    SameKind(ts[i], ts[i + 1])
  }

  lemma NoDuplicatesIsNoneAlike(ts: seq<SubTask>)
    ensures NoDuplicates(ts) <==> NoneAlike(ts)
  {
    forall i: nat | i + 1 < |ts| ensures DuplicateAt(ts, i) <==> AlikeAt(ts, i) {
      MergeableExactlyWhen(ts[i], ts[i + 1]);
    }
    if NoDuplicates(ts) {
      forall i: nat | i + 1 < |ts| ensures !AlikeAt(ts, i) {
        assert !DuplicateAt(ts, i);
      }
    }
    if NoneAlike(ts) {
      forall i: nat ensures !DuplicateAt(ts, i) {
        assert i + 1 < |ts| ==> !AlikeAt(ts, i);
      }
    }
  }

  /** A merged plan has no neighbours of one kind, and only a plan that has some is changed by merging. */
  lemma MergeChangesOnlyNeighboursAlike(ts: seq<SubTask>)
    ensures NoneAlike(Merge(ts))
    ensures Merge(ts) == ts <==> NoneAlike(ts)
  {
    MergeChangesOnlyDuplicates(ts);
    NoDuplicatesIsNoneAlike(Merge(ts));
    NoDuplicatesIsNoneAlike(ts);
  }

  // ---- Reads before writes ----------------------------------------------------------------------

  predicate Reads(t: SubTask) {
    t.tool == "price_feed_tool" || t.tool == "oracle_tool"
  }

  lemma {:induction false} KeepSplits(ts: seq<SubTask>)
    ensures multiset(Keep(IsReadOnly, ts)) + multiset(Keep(IsWrite, ts)) == multiset(ts)
  {
    if ts != [] {
      KeepSplits(ts[1..]);
      assert ts == [ts[0]] + ts[1..];
    }
  }

  lemma FrontReadsFirst(front: seq<SubTask>, back: seq<SubTask>)
    requires forall t :: t in front ==> Reads(t)
    requires forall t :: t in back ==> !Reads(t)
    ensures
      var all := front + back;
      forall i, j :: 0 <= i < j < |all| && Reads(all[j]) ==> Reads(all[i])
  {
    var all := front + back;
    assert forall k :: 0 <= k < |front| ==> all[k] in front;
    assert forall k :: |front| <= k < |all| ==> all[k] in back;
  }

  /** Reordering keeps the subtasks, puts price checks first, and keeps the order on both sides. */
  lemma ReorderPutsReadsFirst(ts: seq<SubTask>)
    ensures multiset(Reorder(ts)) == multiset(ts)
    ensures forall i, j :: 0 <= i < j < |Reorder(ts)| && Reads(Reorder(ts)[j]) ==> Reads(Reorder(ts)[i])
    ensures Keep(IsReadOnly, Reorder(ts)) == Keep(IsReadOnly, ts) && Keep(IsWrite, Reorder(ts)) == Keep(IsWrite, ts)
  {
    KeepSplits(ts);
    AllKeptPass(IsReadOnly, ts);
    AllKeptPass(IsWrite, ts);
    FrontReadsFirst(Keep(IsReadOnly, ts), Keep(IsWrite, ts));
    KeepFirstPart(IsReadOnly, Keep(IsReadOnly, ts), Keep(IsWrite, ts));
    KeepFirstPart(IsWrite, Keep(IsWrite, ts), Keep(IsReadOnly, ts));
  }

  // ---- Amounts are conserved --------------------------------------------------------------------

  /** The amounts of all subtasks of that kind. */
  function Total(kind: SubTask, ts: seq<SubTask>): int {
    if ts == [] then 0
    else
      Total(kind, ts[1..])
      + if SameKind(ts[0], kind) then (match ts[0].amount case None => 0 case Some(amount) => amount) else 0
  }

  lemma {:induction false} TotalAppends(kind: SubTask, xs: seq<SubTask>, ys: seq<SubTask>)
    ensures Total(kind, xs + ys) == Total(kind, xs) + Total(kind, ys)
    decreases |xs|
  {
    if xs == [] {
      assert xs + ys == ys;
    } else {
      assert (xs + ys)[0] == xs[0] && (xs + ys)[1..] == xs[1..] + ys;
      TotalAppends(kind, xs[1..], ys);
    }
  }

  lemma TotalOfOne(kind: SubTask, t: SubTask)
    ensures Total(kind, [t]) == if SameKind(t, kind) then AmountOf(t) else 0
  {
    assert [t][1..] == [];
  }

  lemma TotalOfPush(kind: SubTask, m: seq<SubTask>, t: SubTask)
    ensures Total(kind, Push(m, t)) == Total(kind, m) + if SameKind(t, kind) then AmountOf(t) else 0
  {
    if m != [] && IsMergeable(m[|m| - 1], t) {
      var init, a := m[..|m| - 1], m[|m| - 1];
      assert m == init + [a];
      MergeableExactlyWhen(a, t);
      TotalAppends(kind, init, [a]);
      TotalAppends(kind, init, [Combine(a, t)]);
      TotalOfOne(kind, a);
      TotalOfOne(kind, Combine(a, t));
    } else {
      TotalAppends(kind, m, [t]);
      TotalOfOne(kind, t);
    }
  }

  lemma {:induction false} TotalOfPushAll(kind: SubTask, m: seq<SubTask>, ts: seq<SubTask>)
    ensures Total(kind, PushAll(m, ts)) == Total(kind, m) + Total(kind, ts)
    decreases |ts|
  {
    if ts != [] {
      TotalOfPush(kind, m, ts[0]);
      TotalOfPushAll(kind, Push(m, ts[0]), ts[1..]);
    }
  }

  lemma {:induction false} TotalOfKeep(kind: SubTask, p: string -> bool, ts: seq<SubTask>)
    ensures Total(kind, Keep(p, ts)) == if p(kind.tool) then Total(kind, ts) else 0
  {
    if ts != [] {
      TotalOfKeep(kind, p, ts[1..]);
      TotalAppends(kind, if p(ts[0].tool) then [ts[0]] else [], Keep(p, ts[1..]));
      TotalOfOne(kind, ts[0]);
    }
  }

  /** One pass keeps the total amount of each kind of subtask, unless it drops that tool, and it drops a tool
      only if some other tool of the plan does not fail. */
  lemma AmountsAreConserved(fails: string -> bool, ts: seq<SubTask>, kind: SubTask)
    ensures
      var someWork := exists t :: t in ts && !fails(t.tool);
      Total(kind, Optimize(fails, ts)) == if someWork && fails(kind.tool) then 0 else Total(kind, ts)
  {
    var ordered := Reorder(Merge(ts));
    TotalOfPushAll(kind, [], ts);
    TotalOfKeep(kind, IsReadOnly, Merge(ts));
    TotalOfKeep(kind, IsWrite, Merge(ts));
    TotalAppends(kind, Keep(IsReadOnly, Merge(ts)), Keep(IsWrite, Merge(ts)));
    TotalOfKeep(kind, Healthy(fails), ordered);
    SomeWork(fails, ts);
  }
}
