/**
  Runs of the system built step by step, and the run that one evaluation of
  a group amounts to, with which of its calls landed.
 */
module GroupRuns {
  import opened Alerts
  import opened RuleStep
  import opened AlertingRules
  import opened StateStore
  import opened Retirements
  import opened Arithmetic
  import opened Scheduler
  import opened Lifecycle
  import opened NoOrphans
  import opened RuleSets
  import opened Groups
  import opened ConcurrentGroups

  // ----- One evaluation of a group -----

  function SentBy(o: Outcome): seq<Instance> {
    if o.error.None? then o.alerts else []
  }

  function EvaluateStep(e: Eval, o: Outcome, at: Time, recorded: bool): Step {
    Lifecycle.Evaluate(e.settings.ruleId, e, at, SentBy(o), recorded)
  }

  function EvaluateSteps(es: seq<Eval>, outcomes: seq<Outcome>, at: Time, recorded: bool): seq<Step>
    requires |es| == |outcomes|
  {
    if es == [] then []
    else
      var n := |es| - 1;
      EvaluateSteps(es[..n], outcomes[..n], at, recorded) + [EvaluateStep(es[n], outcomes[n], at, recorded)]
  }

  /** The evaluations are of different rules, each holding in `s` what it starts from. */
  predicate Starting(s: System, befores: seq<AlertMap>, es: seq<Eval>)
    requires |befores| == |es|
  {
    var n := |es| - 1;
    es == [] ||
    (Starting(s, befores[..n], es[..n])
     && es[n].ts > 0
     && es[n].settings.ruleId !in RuleIds(es[..n])
     && es[n].settings.ruleId in s.rules && s.rules[es[n].settings.ruleId] == befores[n])
  }

  function RuleIds(es: seq<Eval>): set<RuleId> {
    if es == [] then {} else RuleIds(es[..|es| - 1]) + {es[|es| - 1].settings.ruleId}
  }

  /** `rules` with each evaluated rule holding what its evaluation left. */
  function Overlaid(rules: map<RuleId, AlertMap>, es: seq<Eval>, afters: seq<AlertMap>): map<RuleId, AlertMap>
    requires |es| == |afters|
  {
    if es == [] then rules
    else
      var n := |es| - 1;
      Overlaid(rules, es[..n], afters[..n])[es[n].settings.ruleId := afters[n]]
  }

  lemma {:induction false} OverlaidElsewhere(rules: map<RuleId, AlertMap>, es: seq<Eval>, afters: seq<AlertMap>,
                                            id: RuleId)
    requires |es| == |afters|
    requires id !in RuleIds(es)
    ensures Get(Overlaid(rules, es, afters), id) == Get(rules, id)
  {
    if es != [] {
      OverlaidElsewhere(rules, es[..|es| - 1], afters[..|es| - 1], id);
    }
  }

  lemma HistoryJoins(a: seq<Instance>, b: seq<Instance>, at: Time)
    ensures HistoryRows(a + b, at) == HistoryRows(a, at) + HistoryRows(b, at)
  {
  }

  /** A legal run from `s` to `s'`, made of clean steps if `clean` holds. */
  ghost predicate Leads(s: System, steps: seq<Step>, s': System, clean: bool) {
    Legal(s, steps) && Run(s, steps) == s' && (clean ==> AllClean(s, steps))
  }

  lemma NoSteps(s: System)
    ensures Leads(s, [], s, true)
  {
  }

  lemma OneMoreStep(s: System, steps: seq<Step>, mid: System, step: Step, clean: bool)
    requires Leads(s, steps, mid, clean) && Can(mid, step)
    requires clean ==> Clean(mid, step)
    ensures Leads(s, steps + [step], After(mid, step), clean)
  {
    assert (steps + [step])[..|steps|] == steps;
  }

  /** A clean run keeps the promise that nothing is left firing with nothing to resolve it. */
  lemma CleanRunKeeps(s: System, steps: seq<Step>, s': System)
    requires Leads(s, steps, s', true)
    requires WellKept(s) && NoOrphan(s)
    ensures WellKept(s') && NoOrphan(s')
  {
    EveryRunKeeps(s, steps);
  }

  /** No rule of the group went over its limit. */
  predicate WithinLimits(outcomes: seq<Outcome>) {
    forall i :: 0 <= i < |outcomes| ==> outcomes[i].error != Some(TooManyActive)
  }

  lemma EvaluatedIsStep(s: System, before: AlertMap, e: Eval, after: AlertMap, o: Outcome, at: Time, recorded: bool)
    requires s.up && e.ts > 0
    requires Get(s.rules, e.settings.ruleId) == Some(before)
    requires Evaluated(before, e, after, o)
    ensures Can(s, EvaluateStep(e, o, at, recorded))
    ensures After(s, EvaluateStep(e, o, at, recorded)) ==
            s.(rules := s.rules[e.settings.ruleId := after],
               log := if recorded then s.log + HistoryRows(SentBy(o), at) else s.log)
    ensures recorded && o.error != Some(TooManyActive) ==> Clean(s, EvaluateStep(e, o, at, recorded))
  {
  }

  /** One more rule's items come last. */
  lemma GatherLast(outcomes: seq<Outcome>, at: Time)
    requires outcomes != []
    ensures var n := |outcomes| - 1;
            HistoryRows(Gathered(InOrder(n + 1), AlertItems(outcomes)), at) ==
            HistoryRows(Gathered(InOrder(n), AlertItems(outcomes[..n])), at) + HistoryRows(SentBy(outcomes[n]), at)
  {
    var n := |outcomes| - 1;
    assert outcomes == outcomes[..n] + [outcomes[n]];
    GatherOneMore(outcomes[..n], outcomes[n], "", at);
    HistoryJoins(Gathered(InOrder(n), AlertItems(outcomes[..n])), SentBy(outcomes[n]), at);
  }

  /** Every rule holds what its evaluation left; the history gains the group's batch if it was written. */
  function GroupEvaluated(s: System, es: seq<Eval>, afters: seq<AlertMap>, outcomes: seq<Outcome>,
                          at: Time, recorded: bool): System
    requires |es| == |afters| == |outcomes|
  {
    s.(rules := Overlaid(s.rules, es, afters),
       log := if recorded then s.log + HistoryRows(Gathered(InOrder(|es|), AlertItems(outcomes)), at) else s.log)
  }

  /**
    A group's evaluation, which writes one batch of history for all its
    rules, is a run of one step a rule, each writing its own; a clean run if
    the batch is written and no rule goes over its limit.
   */
  lemma {:induction false} GroupEvaluationIsSteps(s: System, befores: seq<AlertMap>, es: seq<Eval>,
                                                  afters: seq<AlertMap>,
                                                  outcomes: seq<Outcome>, at: Time, recorded: bool)
    requires s.up
    requires |befores| == |es| == |afters| == |outcomes|
    requires Starting(s, befores, es)
    requires AllEvaluated(befores, es, afters, outcomes)
    ensures Leads(s, EvaluateSteps(es, outcomes, at, recorded), GroupEvaluated(s, es, afters, outcomes, at, recorded),
                  recorded && WithinLimits(outcomes))
  {
    if es != [] {
      var n := |es| - 1;
      GroupEvaluationIsSteps(s, befores[..n], es[..n], afters[..n], outcomes[..n], at, recorded);
      OverlaidElsewhere(s.rules, es[..n], afters[..n], es[n].settings.ruleId);
      LastOfGroup(s, befores[n], es, afters, outcomes, at, recorded);
      OneMoreStep(s, EvaluateSteps(es[..n], outcomes[..n], at, recorded),
                  GroupEvaluated(s, es[..n], afters[..n], outcomes[..n], at, recorded),
                  EvaluateStep(es[n], outcomes[n], at, recorded), recorded && WithinLimits(outcomes));
    }
  }

  lemma LastOfGroup(s: System, before: AlertMap, es: seq<Eval>, afters: seq<AlertMap>,
                    outcomes: seq<Outcome>, at: Time, recorded: bool)
    requires s.up && |es| == |afters| == |outcomes| > 0
    requires var n := |es| - 1;
             && es[n].ts > 0
             && Get(Overlaid(s.rules, es[..n], afters[..n]), es[n].settings.ruleId) == Some(before)
             && Evaluated(before, es[n], afters[n], outcomes[n])
    ensures var n := |es| - 1;
            var mid := GroupEvaluated(s, es[..n], afters[..n], outcomes[..n], at, recorded);
            var last := EvaluateStep(es[n], outcomes[n], at, recorded);
            && Can(mid, last) && After(mid, last) == GroupEvaluated(s, es, afters, outcomes, at, recorded)
            && (recorded && WithinLimits(outcomes) ==> Clean(mid, last))
  {
    var n := |es| - 1;
    var mid := GroupEvaluated(s, es[..n], afters[..n], outcomes[..n], at, recorded);
    EvaluatedIsStep(mid, before, es[n], afters[n], outcomes[n], at, recorded);
    GroupGrows(s, es, afters, outcomes, at, recorded);
  }

  lemma GroupGrows(s: System, es: seq<Eval>, afters: seq<AlertMap>, outcomes: seq<Outcome>, at: Time, recorded: bool)
    requires |es| == |afters| == |outcomes| > 0
    ensures var n := |es| - 1;
            var mid := GroupEvaluated(s, es[..n], afters[..n], outcomes[..n], at, recorded);
            GroupEvaluated(s, es, afters, outcomes, at, recorded) ==
            mid.(rules := mid.rules[es[n].settings.ruleId := afters[n]],
                 log := if recorded then mid.log + HistoryRows(SentBy(outcomes[n]), at) else mid.log)
  {
    var n := |es| - 1;
    var rows := HistoryRows(Gathered(InOrder(n), AlertItems(outcomes[..n])), at);
    var more := HistoryRows(SentBy(outcomes[n]), at);
    GatherLast(outcomes, at);
    assert (s.log + rows) + more == s.log + (rows + more);
  }

  lemma LastStep(s: System, steps: seq<Step>, s': System, clean: bool) returns (mid: System)
    requires Leads(s, steps, s', clean) && steps != []
    ensures var n := |steps| - 1;
            Leads(s, steps[..n], mid, clean) && Can(mid, steps[n]) && s' == After(mid, steps[n])
            && (clean ==> Clean(mid, steps[n]))
  {
    mid := Run(s, steps[..|steps| - 1]);
  }

  lemma JoinLast(a: seq<Step>, b: seq<Step>)
    requires b != []
    ensures a + b == a + b[..|b| - 1] + [b[|b| - 1]]
  {
  }

  lemma {:induction false} RunsJoin(s: System, a: seq<Step>, mid: System, b: seq<Step>, s': System, clean: bool)
    requires Leads(s, a, mid, clean) && Leads(mid, b, s', clean)
    ensures Leads(s, a + b, s', clean)
  {
    if b == [] {
      assert a + b == a;
    } else {
      var n := |b| - 1;
      var last := LastStep(mid, b, s', clean);
      RunsJoin(s, a, mid, b[..n], last, clean);
      OneMoreStep(s, a + b[..n], last, b[n], clean);
      JoinLast(a, b);
    }
  }

  lemma {:induction false} GroupStarts(s: System, rules: seq<AlertingRule>, befores: seq<AlertMap>, es: seq<Eval>)
    requires DistinctIds(rules) && |befores| == |es| == |rules|
    requires forall i :: 0 <= i < |rules| ==>
               && es[i].ts > 0 && es[i].settings.ruleId == rules[i].ruleId
               && Get(s.rules, rules[i].ruleId) == Some(befores[i])
    ensures RuleIds(es) == Ids(rules)
    ensures Starting(s, befores, es)
  {
    if rules != [] {
      var n := |rules| - 1;
      GroupStarts(s, rules[..n], befores[..n], es[..n]);
    }
  }

  lemma {:induction false} OverlaidHere(rules: map<RuleId, AlertMap>, es: seq<Eval>, afters: seq<AlertMap>,
                                        group: seq<AlertingRule>)
    requires |es| == |afters| == |group| && DistinctIds(group)
    requires forall i :: 0 <= i < |group| ==> es[i].settings.ruleId == group[i].ruleId
    ensures forall i :: 0 <= i < |group| ==> Get(Overlaid(rules, es, afters), group[i].ruleId) == Some(afters[i])
  {
    if es != [] {
      var n := |es| - 1;
      OverlaidHere(rules, es[..n], afters[..n], group[..n]);
      OthersDiffer(group, n);
      forall i | 0 <= i < n ensures Get(Overlaid(rules, es, afters), group[i].ruleId) == Some(afters[i]) {
        assert group[..n][i] == group[i];
      }
    }
  }

  /** Each rule's evaluation starts from what the system shows for it. */
  predicate Lined(rules: map<RuleId, AlertMap>, group: seq<AlertingRule>, before: seq<AlertMap>, es: seq<Eval>) {
    && |before| == |es| == |group|
    && forall i :: 0 <= i < |group| ==>
         && es[i].ts > 0 && es[i].settings.ruleId == group[i].ruleId
         && Get(rules, group[i].ruleId) == Some(before[i])
  }

  /** A group's evaluation whose results were taken in some order: its steps, in that order. */
  function StepsInOrder(es: seq<Eval>, outcomes: seq<Outcome>, order: seq<nat>, at: Time, recorded: bool): seq<Step>
    requires |es| == |outcomes| && AllBelow(order, |es|)
  {
    EvaluateSteps(Permuted(es, order), Permuted(outcomes, order), at, recorded)
  }

  /** In whatever order the results are taken, the batch written in that order is a run of one step a rule. */
  lemma AnyBatchIsSteps(s: System, group: seq<AlertingRule>, before: seq<AlertMap>, es: seq<Eval>, after: seq<AlertMap>,
                        outcomes: seq<Outcome>, order: seq<nat>, at: Time, recorded: bool)
    returns (s': System)
    requires s.up && DistinctIds(group)
    requires Lined(s.rules, group, before, es) && |after| == |outcomes| == |es|
    requires AllEvaluated(before, es, after, outcomes)
    requires AnyOrder(order, |es|)
    ensures Leads(s, StepsInOrder(es, outcomes, order, at, recorded), s', recorded && WithinLimits(outcomes))
    ensures s' == s.(rules := s'.rules,
                     log := if recorded then s.log + HistoryRows(Gathered(order, AlertItems(outcomes)), at) else s.log)
    ensures forall i :: 0 <= i < |group| ==> Get(s'.rules, group[i].ruleId) == Some(after[i])
    ensures forall id :: id !in Ids(group) ==> Get(s'.rules, id) == Get(s.rules, id)
  {
    var es', after', outcomes' := Permuted(es, order), Permuted(after, order), Permuted(outcomes, order);
    EvaluatedPermuted(order, before, es, after, outcomes);
    PermutedStarts(s, group, before, es, order);
    GroupEvaluationIsSteps(s, Permuted(before, order), es', after', outcomes', at, recorded);
    s' := GroupEvaluated(s, es', after', outcomes', at, recorded);
    AlertItemsPermuted(order, outcomes);
    GatheredPermuted(order, AlertItems(outcomes));
    PermutedRules(s.rules, group, es, after, order);
  }

  lemma PermutedStarts(s: System, group: seq<AlertingRule>, before: seq<AlertMap>, es: seq<Eval>, order: seq<nat>)
    requires DistinctIds(group) && Lined(s.rules, group, before, es) && AnyOrder(order, |es|)
    ensures Starting(s, Permuted(before, order), Permuted(es, order))
  {
    OrderOnce(order, |es|);
    PermutedIds(group, order);
    GroupStarts(s, Permuted(group, order), Permuted(before, order), Permuted(es, order));
  }

  lemma OrderOnce(order: seq<nat>, n: nat)
    requires AnyOrder(order, n)
    ensures forall t: nat :: multiset(order)[t] <= 1
  {
    forall t: nat ensures multiset(order)[t] <= 1 {
      InOrderOnce(n, t);
    }
  }

  /** Overlaying in any order puts each rule's map in its place and touches no other. */
  lemma PermutedRules(rules: map<RuleId, AlertMap>, group: seq<AlertingRule>, es: seq<Eval>, after: seq<AlertMap>,
                      order: seq<nat>)
    requires DistinctIds(group) && |after| == |es| == |group| && AnyOrder(order, |es|)
    requires forall i :: 0 <= i < |group| ==> es[i].settings.ruleId == group[i].ruleId
    ensures var rules' := Overlaid(rules, Permuted(es, order), Permuted(after, order));
            && (forall i :: 0 <= i < |group| ==> Get(rules', group[i].ruleId) == Some(after[i]))
            && (forall id :: id !in Ids(group) ==> Get(rules', id) == Get(rules, id))
  {
    var group', es', after' := Permuted(group, order), Permuted(es, order), Permuted(after, order);
    OrderOnce(order, |es|);
    PermutedIds(group, order);
    OverlaidHere(rules, es', after', group');
    forall i | 0 <= i < |group| ensures Get(Overlaid(rules, es', after'), group[i].ruleId) == Some(after[i]) {
      var k := PlaceOf(order, |es|, i);
      assert group'[k] == group[i];
    }
    forall id | id !in Ids(group) ensures Get(Overlaid(rules, es', after'), id) == Get(rules, id) {
      NotPermuted(group, es, order, id);
      OverlaidElsewhere(rules, es', after', id);
    }
  }

  lemma {:induction false} NotPermuted(group: seq<AlertingRule>, es: seq<Eval>, order: seq<nat>, id: RuleId)
    requires |es| == |group| && AllBelow(order, |es|)
    requires forall i :: 0 <= i < |group| ==> es[i].settings.ruleId == group[i].ruleId
    requires id !in Ids(group)
    ensures id !in RuleIds(Permuted(es, order))
  {
    if order != [] {
      var n := |order| - 1;
      NotPermuted(group, es, order[..n], id);
      assert Permuted(es, order)[..n] == Permuted(es, order[..n]);
      IdsAreTheirs(group);
    }
  }

  /** A tick: the flush, then the group's evaluation. */
  lemma TickIsRun(s: System, group: seq<AlertingRule>, before: seq<AlertMap>, es: seq<Eval>, after: seq<AlertMap>,
                  outcomes: seq<Outcome>, order: seq<nat>, at: Time, ok: seq<bool>, saved: seq<bool>, recorded: bool)
    returns (s': System)
    requires DistinctIds(group) && s.up
    requires Lined(s.rules, group, before, es) && |after| == |outcomes| == |es|
    requires |ok| == |saved| == |s.pending|
    requires AllEvaluated(before, es, after, outcomes)
    requires AnyOrder(order, |es|)
    ensures Leads(s, [Lifecycle.Flush(ok, saved)] + StepsInOrder(es, outcomes, order, at, recorded), s',
                  recorded && WithinLimits(outcomes))
    ensures s'.up && s'.pending == Kept(s.pending, ok) && s'.table == FlushedTable(s.table, s.pending, ok, saved)
    ensures s'.log == s.log + LogOf(Landed(s.pending, ok))
                      + if recorded then HistoryRows(Gathered(order, AlertItems(outcomes)), at) else []
    ensures forall i :: 0 <= i < |group| ==> Get(s'.rules, group[i].ruleId) == Some(after[i])
    ensures forall id :: id !in Ids(group) ==> Get(s'.rules, id) == Get(s.rules, id)
  {
    var flush := Lifecycle.Flush(ok, saved);
    var mid, clean := After(s, flush), recorded && WithinLimits(outcomes);
    NoSteps(s);
    OneMoreStep(s, [], s, flush, clean);
    assert [] + [flush] == [flush];
    s' := AnyBatchIsSteps(mid, group, before, es, after, outcomes, order, at, recorded);
    RunsJoin(s, [flush], mid, StepsInOrder(es, outcomes, order, at, recorded), s', clean);
  }
}
