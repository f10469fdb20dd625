/** Conservation in the retirement queue, under any interleaving of its locked steps by any number of groups. */
module RetirementRuns {
  import opened Retirements
  import opened Arithmetic

  /** The steps that hold the queue's lock: the append in Resolve, and a flush with the fate of each write. */
  datatype Action = Submit(r: Retirement) | Flush(ok: seq<bool>)

  /** The queue, and what it has written to the history so far, in order. */
  datatype QueueState<T> = QueueState(pending: seq<T>, written: seq<T>)

  /** One fate per pending write; a write the oracle says nothing about fails. */
  function Fates(ok: seq<bool>, n: nat): (r: seq<bool>)
    ensures |r| == n
  {
    seq(n, i => 0 <= i < |ok| && ok[i])
  }

  function Flushed<T>(q: QueueState<T>, ok: seq<bool>): QueueState<T> {
    var fates := Fates(ok, |q.pending|);
    QueueState(Kept(q.pending, fates), q.written + Landed(q.pending, fates))
  }

  function Submitted(actions: seq<Action>): seq<Retirement> {
    if actions == [] then []
    else
      var n := |actions| - 1;
      if actions[n].Submit? then Submitted(actions[..n]) + [actions[n].r] else Submitted(actions[..n])
  }

  /** The queue after a run of steps from empty. */
  function Run(actions: seq<Action>): QueueState<Retirement> {
    if actions == [] then QueueState([], [])
    else
      var n := |actions| - 1;
      var q := Run(actions[..n]);
      match actions[n]
      case Submit(r) => q.(pending := q.pending + [r])
      case Flush(ok) => Flushed(q, ok)
  }

  /** The same run on tickets: the k-th submission carries number k. */
  function Tickets(actions: seq<Action>): QueueState<nat> {
    if actions == [] then QueueState([], [])
    else
      var n := |actions| - 1;
      var q := Tickets(actions[..n]);
      match actions[n]
      case Submit(r) => q.(pending := q.pending + [|Submitted(actions[..n])|])
      case Flush(ok) => Flushed(q, ok)
  }

  predicate Increasing(s: seq<nat>) {
    s == [] || (Increasing(s[..|s| - 1]) && AllBelow(s[..|s| - 1], s[|s| - 1]))
  }

  function Pick<T>(all: seq<T>, tickets: seq<nat>): (r: seq<T>)
    requires AllBelow(tickets, |all|)
    ensures |r| == |tickets|
    ensures forall i :: 0 <= i < |r| ==> r[i] == all[tickets[i]]
  {
    seq(|tickets|, i requires 0 <= i < |tickets| => all[tickets[i]])
  }

  lemma {:induction false} FlushSplits<T>(s: seq<T>, ok: seq<bool>)
    requires |ok| == |s|
    ensures multiset(Kept(s, ok)) + multiset(Landed(s, ok)) == multiset(s)
  {
    if s != [] {
      var n := |s| - 1;
      FlushSplits(s[..n], ok[..n]);
      assert s == s[..n] + [s[n]];
    }
  }

  lemma {:induction false} FlushBelow(s: seq<nat>, ok: seq<bool>, n: nat)
    requires |ok| == |s|
    requires AllBelow(s, n)
    ensures AllBelow(Kept(s, ok), n) && AllBelow(Landed(s, ok), n)
  {
    if s != [] {
      FlushBelow(s[..|s| - 1], ok[..|s| - 1], n);
    }
  }

  lemma {:induction false} FlushKeepsOrder(s: seq<nat>, ok: seq<bool>)
    requires |ok| == |s|
    requires Increasing(s)
    ensures Increasing(Kept(s, ok))
  {
    if s != [] {
      var n := |s| - 1;
      FlushKeepsOrder(s[..n], ok[..n]);
      FlushBelow(s[..n], ok[..n], s[n]);
      if !ok[n] {
        assert Kept(s, ok)[..|Kept(s, ok)| - 1] == Kept(s[..n], ok[..n]);
      }
    }
  }

  lemma {:induction false} FlushPicked<T>(all: seq<T>, s: seq<nat>, ok: seq<bool>)
    requires |ok| == |s|
    requires AllBelow(s, |all|)
    requires AllBelow(Kept(s, ok), |all|) && AllBelow(Landed(s, ok), |all|)
    ensures Kept(Pick(all, s), ok) == Pick(all, Kept(s, ok))
    ensures Landed(Pick(all, s), ok) == Pick(all, Landed(s, ok))
  {
    if s != [] {
      var n := |s| - 1;
      FlushBelow(s[..n], ok[..n], |all|);
      FlushPicked(all, s[..n], ok[..n]);
      assert Pick(all, s)[..n] == Pick(all, s[..n]);
    }
  }

  /** Every ticket below `n` is in `q` exactly once, pending or written, and no other ticket is. */
  ghost predicate EachOnce(q: QueueState<nat>, n: nat) {
    forall t: nat :: multiset(q.pending)[t] + multiset(q.written)[t] == if t < n then 1 else 0
  }

  /** The queue state `q` is its tickets' share of all submissions, each ticket accounted for once. */
  ghost predicate Accounted(t: QueueState<nat>, all: seq<Retirement>, q: QueueState<Retirement>) {
    && EachOnce(t, |all|)
    && Increasing(t.pending)
    && AllBelow(t.pending, |all|) && AllBelow(t.written, |all|)
    && q == QueueState(Pick(all, t.pending), Pick(all, t.written))
  }

  lemma SubmitConserves(t: QueueState<nat>, all: seq<Retirement>, q: QueueState<Retirement>, r: Retirement)
    requires Accounted(t, all, q)
    ensures Accounted(t.(pending := t.pending + [|all|]), all + [r], q.(pending := q.pending + [r]))
  {
    assert (t.pending + [|all|])[..|t.pending|] == t.pending;
    assert Pick(all + [r], t.pending + [|all|]) == q.pending + [r];
    assert Pick(all + [r], t.written) == q.written;
  }

  lemma FlushConserves(t: QueueState<nat>, all: seq<Retirement>, q: QueueState<Retirement>, ok: seq<bool>)
    requires Accounted(t, all, q)
    ensures Accounted(Flushed(t, ok), all, Flushed(q, ok))
  {
    var fates := Fates(ok, |t.pending|);
    FlushSplits(t.pending, fates);
    FlushBelow(t.pending, fates, |all|);
    FlushKeepsOrder(t.pending, fates);
    FlushPicked(all, t.pending, fates);
    PickJoins(all, t.written, Landed(t.pending, fates));
    FlushCountsOnce(t, ok, |all|);
  }

  lemma PickJoins<T>(all: seq<T>, a: seq<nat>, b: seq<nat>)
    requires AllBelow(a, |all|) && AllBelow(b, |all|)
    ensures AllBelow(a + b, |all|)
    ensures Pick(all, a + b) == Pick(all, a) + Pick(all, b)
  {
  }

  lemma FlushCountsOnce(t: QueueState<nat>, ok: seq<bool>, n: nat)
    requires EachOnce(t, n)
    ensures EachOnce(Flushed(t, ok), n)
  {
    var fates := Fates(ok, |t.pending|);
    FlushSplits(t.pending, fates);
    var kept: seq<nat>, landed: seq<nat> := Kept(t.pending, fates), Landed(t.pending, fates);
    forall k: nat ensures multiset(kept)[k] + multiset(t.written + landed)[k] == if k < n then 1 else 0 {
      assert multiset(t.pending)[k] == multiset(kept)[k] + multiset(landed)[k];
    }
  }

  /**
    Conservation: after any run, each submission is in exactly one of the
    queue and the history, once, with the rows and stamp it was submitted
    with; and the queue is in submission order.
   */
  lemma {:induction false} Conservation(actions: seq<Action>)
    ensures Accounted(Tickets(actions), Submitted(actions), Run(actions))
  {
    if actions != [] {
      var n := |actions| - 1;
      var init := actions[..n];
      Conservation(init);
      match actions[n] {
        case Submit(r) => SubmitConserves(Tickets(init), Submitted(init), Run(init), r);
        case Flush(ok) => FlushConserves(Tickets(init), Submitted(init), Run(init), ok);
      }
    }
  }

  lemma RunSubmits(actions: seq<Action>, r: Retirement)
    ensures Run(actions + [Submit(r)]) == Run(actions).(pending := Run(actions).pending + [r])
  {
    assert (actions + [Submit(r)])[..|actions|] == actions;
  }

  lemma RunFlushes(actions: seq<Action>, ok: seq<bool>)
    requires |ok| == |Run(actions).pending|
    ensures Run(actions + [Flush(ok)]) ==
            QueueState(Kept(Run(actions).pending, ok), Run(actions).written + Landed(Run(actions).pending, ok))
  {
    assert (actions + [Flush(ok)])[..|actions|] == actions;
    assert Fates(ok, |ok|) == ok;
  }

  lemma {:induction false} FlushCounts(s: seq<Retirement>, ok: seq<bool>)
    requires |ok| == |s|
    ensures RowCount(Kept(s, ok)) + RowCount(Landed(s, ok)) == RowCount(s)
  {
    if s != [] {
      var n := |s| - 1;
      FlushCounts(s[..n], ok[..n]);
      CountOneMore(Kept(s[..n], ok[..n]), s[n]);
      CountOneMore(Landed(s[..n], ok[..n]), s[n]);
    }
  }

  lemma CountOneMore(s: seq<Retirement>, r: Retirement)
    ensures RowCount(s + [r]) == RowCount(s) + |r.rows|
  {
    assert (s + [r])[..|s|] == s;
  }

  lemma {:induction false} CountConcat(s: seq<Retirement>, s': seq<Retirement>)
    ensures RowCount(s + s') == RowCount(s) + RowCount(s')
  {
    if s' == [] {
      assert s + s' == s;
    } else {
      var n := |s'| - 1;
      CountConcat(s, s'[..n]);
      assert (s + s')[..|s + s'| - 1] == s + s'[..n];
    }
  }

  /** The pending count is exactly the rows submitted and not written. */
  lemma {:induction false} PendingCountsUnwritten(actions: seq<Action>)
    ensures RowCount(Run(actions).pending) == RowCount(Submitted(actions)) - RowCount(Run(actions).written)
  {
    if actions != [] {
      var n := |actions| - 1;
      PendingCountsUnwritten(actions[..n]);
      var q := Run(actions[..n]);
      match actions[n] {
        case Submit(r) =>
          CountOneMore(q.pending, r);
          CountOneMore(Submitted(actions[..n]), r);
        case Flush(ok) =>
          var fates := Fates(ok, |q.pending|);
          FlushCounts(q.pending, fates);
          CountConcat(q.written, Landed(q.pending, fates));
      }
    }
  }
}
