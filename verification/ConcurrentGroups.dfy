/**
  What a concurrent evaluation of a group comes to: each rule's Exec runs
  inside its goroutine, on the map its rule holds at that moment.
 */
module ConcurrentGroups {
  import opened Alerts
  import opened RuleStep
  import opened AlertingRules
  import opened RuleSets
  import opened Arithmetic
  import opened Scheduler
  import opened Groups

  /** The moves in which a goroutine runs its rule's Exec to its end, panicking or not. */
  predicate RunsExec(move: Move) {
    move.Report? || move.Panic?
  }

  /** What the rules hold after a schedule: each Exec rewrites its own rule's map where the schedule puts it. */
  function MapsAfter(moves: seq<Move>, befores: seq<AlertMap>, es: seq<Eval>): (maps: seq<AlertMap>)
    requires |befores| == |es|
    ensures |maps| == |befores|
  {
    if moves == [] then befores
    else
      var maps, move := MapsAfter(moves[..|moves| - 1], befores, es), moves[|moves| - 1];
      if RunsExec(move) && move.i < |maps| then maps[move.i := Next(maps[move.i], es[move.i])] else maps
  }

  /** Each outcome is what its rule's Exec reports on the map found when it runs. */
  predicate Executes(moves: seq<Move>, befores: seq<AlertMap>, es: seq<Eval>, outcomes: seq<Outcome>)
    requires |befores| == |es| == |outcomes|
  {
    moves == [] ||
    var maps, move := MapsAfter(moves[..|moves| - 1], befores, es), moves[|moves| - 1];
    && Executes(moves[..|moves| - 1], befores, es, outcomes)
    && (RunsExec(move) && move.i < |maps| ==>
          Evaluated(maps[move.i], es[move.i], Next(maps[move.i], es[move.i]), outcomes[move.i]))
  }

  /** Until it has run, a rule holds what it held; from then on, what one evaluation from there leaves. */
  predicate RanOnce(phase: Phase, before: AlertMap, e: Eval, now: AlertMap, o: Outcome) {
    if phase == Waiting || phase == Holding then now == before else Evaluated(before, e, now, o)
  }

  lemma {:induction false} EachRunsOnce(moves: seq<Move>, befores: seq<AlertMap>, es: seq<Eval>, outcomes: seq<Outcome>,
                                        concurrency: nat, i: nat)
    requires |befores| == |es| == |outcomes| && i < |outcomes|
    requires Runs(moves, Panics(outcomes), concurrency) && Executes(moves, befores, es, outcomes)
    ensures var s := Reached(moves, Panics(outcomes), concurrency);
            && |s.phases| == |outcomes|
            && RanOnce(s.phases[i], befores[i], es[i], MapsAfter(moves, befores, es)[i], outcomes[i])
  {
    if moves != [] {
      var init, move := moves[..|moves| - 1], moves[|moves| - 1];
      EachRunsOnce(init, befores, es, outcomes, concurrency, i);
      MoveRunsOnce(Reached(init, Panics(outcomes), concurrency), move, Panics(outcomes), concurrency, i,
                   befores[i], es[i], MapsAfter(init, befores, es)[i], outcomes[i]);
    }
  }

  lemma MoveRunsOnce(s: Schedule, move: Move, panics: seq<bool>, concurrency: nat, i: nat,
                     before: AlertMap, e: Eval, now: AlertMap, o: Outcome)
    requires |panics| == |s.phases| && i < |s.phases| && Enabled(s, panics, concurrency, move)
    requires RanOnce(s.phases[i], before, e, now, o)
    requires RunsExec(move) && move.i == i ==> Evaluated(now, e, Next(now, e), o)
    ensures var next := if RunsExec(move) && move.i == i then Next(now, e) else now;
            RanOnce(Do(s, panics, concurrency, move).phases[i], before, e, next, o)
  {
  }

  /**
    Once a schedule is collected, every rule has been evaluated exactly once
    from what it held at the start, whatever the others did meanwhile: the
    same maps and reports that evaluating them one after the other gives.
   */
  lemma ConcurrentRulesAreEvaluated(moves: seq<Move>, befores: seq<AlertMap>, es: seq<Eval>, outcomes: seq<Outcome>,
                                    concurrency: nat)
    requires |befores| == |es| == |outcomes|
    requires Runs(moves, Panics(outcomes), concurrency) && Executes(moves, befores, es, outcomes)
    requires Collected(Reached(moves, Panics(outcomes), concurrency))
    ensures AllEvaluated(befores, es, MapsAfter(moves, befores, es), outcomes)
  {
    var s, afters := Reached(moves, Panics(outcomes), concurrency), MapsAfter(moves, befores, es);
    SchedulesAreSound(moves, Panics(outcomes), concurrency);
    forall i | 0 <= i < |es| ensures Evaluated(befores[i], es[i], afters[i], outcomes[i]) {
      EachRunsOnce(moves, befores, es, outcomes, concurrency, i);
      assert s.phases[i] == Finished;
    }
    AllFromEach(befores, es, afters, outcomes);
  }

  lemma {:induction false} AllFromEach(befores: seq<AlertMap>, es: seq<Eval>, afters: seq<AlertMap>,
                                     outcomes: seq<Outcome>)
    requires |befores| == |es| == |afters| == |outcomes|
    requires forall i :: 0 <= i < |es| ==> Evaluated(befores[i], es[i], afters[i], outcomes[i])
    ensures AllEvaluated(befores, es, afters, outcomes)
  {
    if es != [] {
      var n := |es| - 1;
      AllFromEach(befores[..n], es[..n], afters[..n], outcomes[..n]);
    }
  }

  // ----- Against the sequential path -----

  lemma {:induction false} EnumeratedCount(list: seq<Instance>, m: AlertMap, a: Instance)
    requires Enumerates(list, m)
    ensures multiset(list)[a] == if Get(m, a.id) == Some(a) then 1 else 0
  {
    if list != [] {
      var n := |list| - 1;
      assert list == list[..n] + [list[n]];
      EnumeratedCount(list[..n], m - {list[n].id}, a);
    }
  }

  /** Two outcomes of the same evaluation differ at most in the order of their alerts. */
  lemma SameEvaluation(before: AlertMap, e: Eval, after: AlertMap, o: Outcome, after': AlertMap, o': Outcome,
                       group: string, at: Time)
    requires Evaluated(before, e, after, o) && Evaluated(before, e, after', o')
    ensures after == after' && o.error == o'.error
    ensures multiset(o.alerts) == multiset(o'.alerts)
    ensures EvaluationOf(o, group, at, Samples(o)) == EvaluationOf(o', group, at, Samples(o'))
  {
    if VerdictOf(before, e) == Succeeded {
      SameListing(o.alerts, o'.alerts, Sent(before, e));
    }
  }

  lemma SameListing(a: seq<Instance>, b: seq<Instance>, m: AlertMap)
    requires Enumerates(a, m) && Enumerates(b, m)
    ensures multiset(a) == multiset(b)
  {
    forall x ensures multiset(a)[x] == multiset(b)[x] {
      EnumeratedCount(a, m, x);
      EnumeratedCount(b, m, x);
    }
  }

  /** Two evaluations of the same rules from the same maps and answers, gathered in one order. */
  lemma SameGroupEvaluation(befores: seq<AlertMap>, es: seq<Eval>, afters: seq<AlertMap>, outcomes: seq<Outcome>,
                            afters': seq<AlertMap>, outcomes': seq<Outcome>, order: seq<nat>, group: string, at: Time)
    requires |befores| == |es| == |afters| == |outcomes| == |afters'| == |outcomes'|
    requires AllEvaluated(befores, es, afters, outcomes) && AllEvaluated(befores, es, afters', outcomes')
    requires AllBelow(order, |es|)
    ensures afters == afters'
    ensures multiset(Gathered(order, AlertItems(outcomes))) == multiset(Gathered(order, AlertItems(outcomes')))
    ensures Gathered(order, EvaluationItems(outcomes, group, at)) ==
            Gathered(order, EvaluationItems(outcomes', group, at))
  {
    forall i | 0 <= i < |es|
      ensures afters[i] == afters'[i]
      ensures multiset(AlertItems(outcomes)[i]) == multiset(AlertItems(outcomes')[i])
      ensures EvaluationItems(outcomes, group, at)[i] == EvaluationItems(outcomes', group, at)[i]
    {
      EachEvaluated(befores, es, afters, outcomes, i);
      EachEvaluated(befores, es, afters', outcomes', i);
      SameEvaluation(befores[i], es[i], afters[i], outcomes[i], afters'[i], outcomes'[i], group, at);
    }
    GatheredAlike(order, AlertItems(outcomes), AlertItems(outcomes'));
    assert EvaluationItems(outcomes, group, at) == EvaluationItems(outcomes', group, at);
  }

  lemma {:induction false} GatheredAlike<T>(order: seq<nat>, items: seq<seq<T>>, items': seq<seq<T>>)
    requires |items| == |items'| && AllBelow(order, |items|)
    requires forall i :: 0 <= i < |items| ==> multiset(items[i]) == multiset(items'[i])
    ensures multiset(Gathered(order, items)) == multiset(Gathered(order, items'))
  {
    if order != [] {
      GatheredAlike(order[..|order| - 1], items, items');
    }
  }

  /**
    A concurrent and a sequential evaluation of the same rules, from the same
    maps and answers, leave the same maps and give the same alerts and the
    same evaluations, in whatever order they come.
   */
  lemma ConcurrentMatchesSequential(moves: seq<Move>, befores: seq<AlertMap>, es: seq<Eval>, outcomes: seq<Outcome>,
                                    concurrency: nat, afters: seq<AlertMap>, sequential: seq<Outcome>,
                                    group: string, at: Time)
    requires |befores| == |es| == |outcomes| == |afters| == |sequential|
    requires Runs(moves, Panics(outcomes), concurrency) && Executes(moves, befores, es, outcomes)
    requires Collected(Reached(moves, Panics(outcomes), concurrency))
    requires AllEvaluated(befores, es, afters, sequential)
    ensures MapsAfter(moves, befores, es) == afters
    ensures var order, n := Reached(moves, Panics(outcomes), concurrency).received, |outcomes|;
            && AnyOrder(order, n)
            && multiset(Gathered(order, AlertItems(outcomes))) == multiset(Gathered(InOrder(n), AlertItems(sequential)))
            && multiset(Gathered(order, EvaluationItems(outcomes, group, at))) ==
               multiset(Gathered(InOrder(n), EvaluationItems(sequential, group, at)))
  {
    var n := |outcomes|;
    ConcurrentRulesAreEvaluated(moves, befores, es, outcomes, concurrency);
    SameGroupEvaluation(befores, es, MapsAfter(moves, befores, es), outcomes, afters, sequential,
                        InOrder(n), group, at);
    ConcurrentRefinesSequential(moves, outcomes, concurrency, group, at);
    SchedulesAreSound(moves, Panics(outcomes), concurrency);
    CollectedOnceEach(Reached(moves, Panics(outcomes), concurrency), Panics(outcomes), concurrency);
  }

  // ----- Results taken in any order -----

  /** The items of `s` in the given order. */
  function Permuted<T>(s: seq<T>, order: seq<nat>): (r: seq<T>)
    requires AllBelow(order, |s|)
    ensures |r| == |order|
    ensures forall k :: 0 <= k < |r| ==> r[k] == s[order[k]]
  {
    seq(|order|, k requires 0 <= k < |order| => s[order[k]])
  }

  /** What is taken in some order is what the permuted rules give in theirs. */
  lemma {:induction false} GatheredPermuted<T>(order: seq<nat>, items: seq<seq<T>>)
    requires AllBelow(order, |items|)
    ensures Gathered(order, items) == Gathered(InOrder(|order|), Permuted(items, order))
  {
    if order != [] {
      var n := |order| - 1;
      GatheredPermuted(order[..n], items);
      assert InOrder(n + 1)[..n] == InOrder(n);
      GatherPrefix(InOrder(n), Permuted(items, order[..n]), Permuted(items, order));
    }
  }

  lemma AlertItemsPermuted(order: seq<nat>, outcomes: seq<Outcome>)
    requires AllBelow(order, |outcomes|)
    ensures AlertItems(Permuted(outcomes, order)) == Permuted(AlertItems(outcomes), order)
  {
  }

  lemma EvaluatedPermuted(order: seq<nat>, befores: seq<AlertMap>, es: seq<Eval>, afters: seq<AlertMap>,
                          outcomes: seq<Outcome>)
    requires |befores| == |es| == |afters| == |outcomes| && AllBelow(order, |es|)
    requires AllEvaluated(befores, es, afters, outcomes)
    ensures AllEvaluated(Permuted(befores, order), Permuted(es, order),
                         Permuted(afters, order), Permuted(outcomes, order))
  {
    forall k | 0 <= k < |order|
      ensures Evaluated(Permuted(befores, order)[k], Permuted(es, order)[k], Permuted(afters, order)[k],
                        Permuted(outcomes, order)[k])
    {
      EachEvaluated(befores, es, afters, outcomes, order[k]);
    }
    AllFromEach(Permuted(befores, order), Permuted(es, order), Permuted(afters, order), Permuted(outcomes, order));
  }

  /** An order that takes every index takes each at one place. */
  lemma PlaceOf(order: seq<nat>, n: nat, t: nat) returns (k: nat)
    requires AnyOrder(order, n) && t < n
    ensures k < |order| && order[k] == t
  {
    InOrderOnce(n, t);
    assert t in multiset(order);
    assert t in order;
    k :| 0 <= k < |order| && order[k] == t;
  }

  /** Rules taken in any order are still told apart by their IDs, and are the same ones. */
  lemma {:induction false} PermutedIds(rules: seq<AlertingRule>, order: seq<nat>)
    requires DistinctIds(rules) && AllBelow(order, |rules|)
    requires forall t: nat :: multiset(order)[t] <= 1
    ensures DistinctIds(Permuted(rules, order))
  {
    if order != [] {
      var n := |order| - 1;
      assert order == order[..n] + [order[n]];
      forall t: nat ensures multiset(order[..n])[t] <= 1 {
        assert multiset(order)[t] == multiset(order[..n])[t] + multiset([order[n]])[t];
      }
      PermutedIds(rules, order[..n]);
      assert Permuted(rules, order)[..n] == Permuted(rules, order[..n]);
      LastIsNew(rules, order);
    }
  }

  lemma LastIsNew(rules: seq<AlertingRule>, order: seq<nat>)
    requires DistinctIds(rules) && AllBelow(order, |rules|) && order != []
    requires multiset(order)[order[|order| - 1]] <= 1
    ensures rules[order[|order| - 1]].ruleId !in Ids(Permuted(rules, order[..|order| - 1]))
  {
    var n := |order| - 1;
    var earlier := Permuted(rules, order[..n]);
    IdsAreTheirs(earlier);
    OthersDiffer(rules, order[n]);
    forall k | 0 <= k < n ensures earlier[k].ruleId != rules[order[n]].ruleId {
      assert order == order[..n] + [order[n]];
      assert multiset(order[..n])[order[n]] == 0;
      assert order[..n][k] in multiset(order[..n]);
    }
  }
}
