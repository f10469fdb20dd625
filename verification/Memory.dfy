/** A bound on how many instances a rule keeps, the resolved ones it retains included. */
module Memory {
  import opened Alerts
  import opened RuleStep
  import opened RuleRuns
  import opened Arithmetic

  function FiringIds(m: AlertMap): set<InstanceId> {
    set id | id in m && m[id].state == Firing
  }

  /** The instances resolved at time `t`. */
  function ResolvedIds(m: AlertMap, t: Time): set<InstanceId> {
    set id | id in m && m[id].state == Inactive && m[id].resolvedAt == t
  }

  /** The instances resolved by the evaluations from `lo` up to `n`. */
  ghost function ResolvedBetween(m: AlertMap, evs: seq<Eval>, lo: nat, n: nat): set<InstanceId>
    requires lo <= n <= |evs|
  {
    set id | id in m && m[id].state == Inactive && exists j :: lo <= j < n && evs[j].ts == m[id].resolvedAt
  }

  /** One limit throughout, and evaluations at least `gap` apart. */
  predicate Paced(evs: seq<Eval>, limit: int, gap: int) {
    && limit > 0 && gap > 0
    && (forall k :: 0 <= k < |evs| ==> evs[k].limit == limit)
    && (forall k :: 0 < k < |evs| ==> evs[k].ts - evs[k - 1].ts >= gap)
  }

  /** At most `limit` instances fire, at most `limit` were resolved at any one time, and each in some evaluation. */
  ghost predicate Bounded(m: AlertMap, evs: seq<Eval>, n: nat, limit: int)
    requires n <= |evs|
  {
    && |FiringIds(m)| <= limit
    && (forall t :: |ResolvedIds(m, t)| <= limit)
    && (forall id :: id in m && m[id].state == Inactive ==> exists j :: 0 <= j < n && evs[j].ts == m[id].resolvedAt)
  }

  /** Where an instance that fires or is resolved after an evaluation was before it. */
  lemma FiringOrResolvedMove(m: Moment)
    requires m.Happens()
    ensures m.Is(Firing) && !m.Ok() ==> m.Was(Firing)
    ensures m.Is(Inactive) ==>
              || (m.Was(Inactive) && m.now.value.resolvedAt == m.was.value.resolvedAt)
              || (m.Ok() && m.Was(Firing) && m.now.value.resolvedAt == m.eval.ts)
  {
  }

  lemma Advancing(evs: seq<Eval>, limit: int, gap: int, i: nat, j: nat)
    requires Paced(evs, limit, gap)
    requires i <= j < |evs|
    ensures evs[j].ts - evs[i].ts >= (j - i) * gap
    ensures i < j ==> evs[j].ts > evs[i].ts
    decreases j - i
  {
    if i < j {
      Advancing(evs, limit, gap, i, j - 1);
      assert (j - i) * gap == (j - 1 - i) * gap + gap;
    }
  }

  /** One evaluation keeps the bound. */
  lemma BoundedKept(m: AlertMap, evs: seq<Eval>, n: nat, limit: int, gap: int)
    requires n < |evs|
    requires Paced(evs, limit, gap)
    requires Bounded(m, evs, n, limit)
    ensures Bounded(Next(m, evs[n]), evs, n + 1, limit)
  {
    var m', ts := Next(m, evs[n]), evs[n].ts;
    var ok := VerdictOf(m, evs[n]) == Succeeded;
    forall id
      ensures id in FiringIds(m') && !ok ==> id in FiringIds(m)
      ensures id in m' && m'[id].state == Inactive ==>
                || (id in m && m[id].state == Inactive && m'[id].resolvedAt == m[id].resolvedAt)
                || (ok && id in FiringIds(m) && m'[id].resolvedAt == ts)
    {
      NextByKey(m, evs[n], id);
      FiringOrResolvedMove(Moment(Get(m, id), Get(m', id), RowOf(AppliedRows(evs[n]), id),
                                VerdictOf(m, evs[n]), evs[n]));
    }
    if ok {
      SuccessIsWithinLimit(m, evs[n]);
      SubsetCard(FiringIds(m'), ActiveIds(m'));
    } else {
      SubsetCard(FiringIds(m'), FiringIds(m));
    }
    forall t ensures |ResolvedIds(m', t)| <= limit {
      if t == ts {
        ResolvedEarlier(m, evs, n, limit, gap);
        SubsetCard(ResolvedIds(m', t), FiringIds(m));
      } else {
        SubsetCard(ResolvedIds(m', t), ResolvedIds(m, t));
      }
    }
    forall id | id in m' && m'[id].state == Inactive
      ensures exists j :: 0 <= j < n + 1 && evs[j].ts == m'[id].resolvedAt
    {
      if m'[id].resolvedAt == ts {
        assert evs[n].ts == m'[id].resolvedAt;
      }
    }
  }

  /** Before an evaluation nothing is resolved at its own time. */
  lemma ResolvedEarlier(m: AlertMap, evs: seq<Eval>, n: nat, limit: int, gap: int)
    requires n < |evs|
    requires Paced(evs, limit, gap)
    requires Bounded(m, evs, n, limit)
    ensures forall id :: id in m && m[id].state == Inactive ==> m[id].resolvedAt < evs[n].ts
  {
    forall id | id in m && m[id].state == Inactive ensures m[id].resolvedAt < evs[n].ts {
      var j :| 0 <= j < n && evs[j].ts == m[id].resolvedAt;
      Advancing(evs, limit, gap, j, n);
    }
  }

  lemma NothingBounded(evs: seq<Eval>, limit: int)
    requires limit > 0
    ensures Bounded(map[], evs, 0, limit)
  {
    assert FiringIds(map[]) == {};
    forall t ensures |ResolvedIds(map[], t)| <= limit {
      assert ResolvedIds(map[], t) == {};
    }
  }

  lemma {:induction false} AlwaysBounded(evs: seq<Eval>, n: nat, limit: int, gap: int)
    requires n <= |evs|
    requires Paced(evs, limit, gap)
    ensures Bounded(At(map[], evs, n), evs, n, limit)
  {
    if n == 0 {
      NothingBounded(evs, limit);
    } else {
      AlwaysBounded(evs, n - 1, limit, gap);
      BoundedKept(At(map[], evs, n - 1), evs, n - 1, limit, gap);
    }
  }

  /** Each evaluation accounts for at most `limit` resolved instances. */
  lemma {:induction false} CountResolved(m: AlertMap, evs: seq<Eval>, lo: nat, n: nat, limit: int)
    requires lo <= n <= |evs|
    requires forall t :: |ResolvedIds(m, t)| <= limit
    ensures |ResolvedBetween(m, evs, lo, n)| <= limit * (n - lo)
  {
    if lo == n {
      assert ResolvedBetween(m, evs, lo, n) == {};
    } else {
      CountResolved(m, evs, lo, n - 1, limit);
      var a, b := ResolvedBetween(m, evs, lo, n - 1), ResolvedIds(m, evs[n - 1].ts);
      SubsetCard(ResolvedBetween(m, evs, lo, n), a + b);
      UnionCard(a, b);
      assert limit * (n - lo) == limit * (n - 1 - lo) + limit;
    }
  }

  /**
    Bounded memory: a rule that started empty, evaluated under a fixed limit
    at least `gap` apart, holds at most limit * (15 min / gap + 2) instances
    after every successful evaluation, however many it has resolved.
   */
  lemma MemoryIsBounded(evs: seq<Eval>, n: nat, limit: int, gap: int)
    requires 0 < n <= |evs|
    requires Paced(evs, limit, gap)
    requires VerdictOf(At(map[], evs, n - 1), evs[n - 1]) == Succeeded
    ensures |At(map[], evs, n)| <= limit * (RESOLVED_RETENTION / gap + 2)
  {
    var m := At(map[], evs, n);
    var window: nat := RESOLVED_RETENTION / gap;
    var lo: nat := if n - 1 > window then n - 1 - window else 0;
    SuccessIsWithinLimit(At(map[], evs, n - 1), evs[n - 1]);
    assert |ActiveIds(m)| <= limit;
    var span := n - lo;
    RetainedAreRecent(evs, n, limit, gap, lo);
    RetainedAreFew(evs, n, limit, gap, lo, span);
    AddUp(|m|, |ActiveIds(m)|, |ResolvedBetween(m, evs, lo, n)|, span, window, limit);
  }

  lemma RetainedAreFew(evs: seq<Eval>, n: nat, limit: int, gap: int, lo: nat, span: nat)
    requires lo <= n <= |evs| && span == n - lo
    requires Paced(evs, limit, gap)
    ensures |ResolvedBetween(At(map[], evs, n), evs, lo, n)| <= limit * span
  {
    AlwaysBounded(evs, n, limit, gap);
    CountResolved(At(map[], evs, n), evs, lo, n, limit);
  }

  lemma RetainedAreRecent(evs: seq<Eval>, n: nat, limit: int, gap: int, lo: nat)
    requires 0 < n <= |evs|
    requires Paced(evs, limit, gap)
    requires VerdictOf(At(map[], evs, n - 1), evs[n - 1]) == Succeeded
    requires lo < n && (lo == 0 || lo == n - 1 - RESOLVED_RETENTION / gap)
    ensures var m := At(map[], evs, n);
            |m| <= |ActiveIds(m)| + |ResolvedBetween(m, evs, lo, n)|
  {
    var m := At(map[], evs, n);
    forall id | id in m && m[id].state == Inactive ensures id in ResolvedBetween(m, evs, lo, n) {
      ResolvedInWindow(evs, n, limit, gap, id);
    }
    KeysAreActiveOrResolved(m, evs, lo, n);
  }

  lemma AddUp(total: int, active: int, resolved: int, span: int, window: int, limit: int)
    requires total <= active + resolved
    requires active <= limit && resolved <= limit * span
    requires 0 <= span <= window + 1 && limit >= 0
    ensures total <= limit * (window + 2)
  {
    ProductMonotone(span, window + 1, limit);
    assert limit * (window + 2) == (window + 1) * limit + limit;
  }

  lemma KeysAreActiveOrResolved(m: AlertMap, evs: seq<Eval>, lo: nat, n: nat)
    requires lo <= n <= |evs|
    requires forall id :: id in m && m[id].state == Inactive ==> id in ResolvedBetween(m, evs, lo, n)
    ensures |m| <= |ActiveIds(m)| + |ResolvedBetween(m, evs, lo, n)|
  {
    assert |m| == |m.Keys|;
    SubsetCard(m.Keys, ActiveIds(m) + ResolvedBetween(m, evs, lo, n));
    UnionCard(ActiveIds(m), ResolvedBetween(m, evs, lo, n));
  }

  /** What is still retained was resolved by one of the last 15 min / gap + 1 evaluations. */
  lemma ResolvedInWindow(evs: seq<Eval>, n: nat, limit: int, gap: int, id: InstanceId)
    requires 0 < n <= |evs|
    requires Paced(evs, limit, gap)
    requires VerdictOf(At(map[], evs, n - 1), evs[n - 1]) == Succeeded
    requires id in At(map[], evs, n) && At(map[], evs, n)[id].state == Inactive
    ensures exists j :: 0 <= j < n && n - 1 - j <= RESOLVED_RETENTION / gap &&
                        evs[j].ts == At(map[], evs, n)[id].resolvedAt
  {
    var a, ts := At(map[], evs, n)[id], evs[n - 1].ts;
    AlwaysBounded(evs, n, limit, gap);
    var j :| 0 <= j < n && evs[j].ts == a.resolvedAt;
    Advancing(evs, limit, gap, j, n - 1);
    forall k | 0 < k < |evs| ensures evs[k - 1].ts <= evs[k].ts {
    }
    SuccessSettles(map[], evs, n, id);
    var d, steps := ts - a.resolvedAt, n - 1 - j;
    assert steps * gap <= d <= RESOLVED_RETENTION;
    QuotientAtLeast(RESOLVED_RETENTION, steps, gap);
  }
}
