/** Groups of rules: one evaluation of all of them, live updates, retirement, and what a shutdown saves. */
module Groups {
  import opened Alerts
  import opened RuleStep
  import opened AlertingRules
  import opened StateStore
  import opened Retirements
  import opened RetirementQueues
  import opened Arithmetic
  import opened Scheduler
  import opened RuleSets
  import opened Lifecycle

  /** What an evaluation `e` of a rule holding `before` leaves it holding, and reports. */
  predicate Evaluated(before: AlertMap, e: Eval, after: AlertMap, o: Outcome) {
    && after == Next(before, e)
    && Owned(after, e.settings.ruleId)
    && o.rule == e.settings.ruleId
    && o.name == e.settings.alertName
    && (e.answer.Rows? ==> o.matches == |e.answer.rows|)
    && if VerdictOf(before, e) == Succeeded then o.error == None && Enumerates(o.alerts, Sent(before, e))
       else o.error == Some(VerdictOf(before, e)) && o.alerts == []
  }

  predicate AllEvaluated(befores: seq<AlertMap>, es: seq<Eval>, afters: seq<AlertMap>, outcomes: seq<Outcome>)
    requires |befores| == |es| == |afters| == |outcomes|
  {
    var n := |es| - 1;
    es == [] ||
    (AllEvaluated(befores[..n], es[..n], afters[..n], outcomes[..n])
     && Evaluated(befores[n], es[n], afters[n], outcomes[n]))
  }

  lemma EvaluatedOneMore(befores: seq<AlertMap>, es: seq<Eval>, afters: seq<AlertMap>, outcomes: seq<Outcome>,
                         i: nat, after: AlertMap, o: Outcome)
    requires i < |befores| == |es| && |afters| == |outcomes| == i
    requires AllEvaluated(befores[..i], es[..i], afters, outcomes)
    requires Evaluated(befores[i], es[i], after, o)
    ensures AllEvaluated(befores[..i + 1], es[..i + 1], afters + [after], outcomes + [o])
  {
    assert befores[..i + 1][..i] == befores[..i] && es[..i + 1][..i] == es[..i];
    assert (afters + [after])[..i] == afters && (outcomes + [o])[..i] == outcomes;
  }

  lemma {:induction false} EachEvaluated(befores: seq<AlertMap>, es: seq<Eval>, afters: seq<AlertMap>,
                                         outcomes: seq<Outcome>, i: nat)
    requires i < |befores| == |es| == |afters| == |outcomes|
    requires AllEvaluated(befores, es, afters, outcomes)
    ensures Evaluated(befores[i], es[i], afters[i], outcomes[i])
  {
    var n := |es| - 1;
    if i < n {
      EachEvaluated(befores[..n], es[..n], afters[..n], outcomes[..n], i);
    }
  }

  /** What changed with an instance carries the time `ts`: when it became active, fired or was resolved. */
  predicate KeyChangedAt(was: Option<Instance>, now: Instance, ts: int) {
    && (now.Active() && !(was.Some? && was.value.Active()) ==> now.activeAt == ts)
    && (now.state == Firing && !(was.Some? && was.value.state == Firing) ==> now.firedAt == ts)
    && (now.state == Inactive && !(was.Some? && was.value.state == Inactive) ==> now.resolvedAt == ts)
  }

  predicate ChangedAt(before: AlertMap, after: AlertMap, ts: int) {
    forall id :: id in after ==> KeyChangedAt(Get(before, id), after[id], ts)
  }

  lemma KeyChanges(was: Option<Instance>, row: Option<Row>, v: Verdict, e: Eval)
    ensures var next := KeyNext(was, row, v, e); next.Some? ==> KeyChangedAt(was, next.value, e.ts)
  {
  }

  /** An evaluation changes instances at its own time and at no other. */
  lemma EvaluationChanges(before: AlertMap, e: Eval)
    ensures ChangedAt(before, Next(before, e), e.ts)
  {
    forall id | id in Next(before, e) ensures KeyChangedAt(Get(before, id), Next(before, e)[id], e.ts) {
      NextByKey(before, e, id);
      KeyChanges(Get(before, id), RowOf(AppliedRows(e), id), VerdictOf(before, e), e);
      assert Get(Next(before, e), id) == Some(Next(before, e)[id]);
    }
  }

  /** Rule by rule, a pass changes instances at the one time it evaluates at. */
  predicate AllChangedAt(befores: seq<AlertMap>, afters: seq<AlertMap>, ts: int) {
    |befores| == |afters| && forall i :: 0 <= i < |befores| ==> ChangedAt(befores[i], afters[i], ts)
  }

  lemma EvaluationsChange(befores: seq<AlertMap>, es: seq<Eval>, afters: seq<AlertMap>, outcomes: seq<Outcome>, ts: int)
    requires |befores| == |es| == |afters| == |outcomes| && AllEvaluated(befores, es, afters, outcomes)
    requires forall i :: 0 <= i < |es| ==> es[i].ts == ts
    ensures AllChangedAt(befores, afters, ts)
  {
    forall i | 0 <= i < |befores| ensures ChangedAt(befores[i], afters[i], ts) {
      EachEvaluated(befores, es, afters, outcomes, i);
      EvaluationChanges(befores[i], es[i]);
    }
  }

  /** What the evaluation log says of a rule: its time, whether it succeeded, and then how many rows there were. */
  lemma LoggedAsEvaluated(befores: seq<AlertMap>, es: seq<Eval>, afters: seq<AlertMap>, outcomes: seq<Outcome>,
                          group: string, at: Time, i: nat)
    requires i < |befores| == |es| == |afters| == |outcomes|
    requires AllEvaluated(befores, es, afters, outcomes)
    ensures |EvaluationItems(outcomes, group, at)| == |outcomes| && |EvaluationItems(outcomes, group, at)[i]| == 1
    ensures var log, verdict := EvaluationItems(outcomes, group, at)[i][0], VerdictOf(befores[i], es[i]);
            && log.rule == es[i].settings.ruleId && log.name == es[i].settings.alertName
            && log.group == group && log.evaluatedAt == at
            && (log.ok <==> verdict == Succeeded)
            && (log.ok ==> es[i].answer.Rows? && log.samples == |es[i].answer.rows| && log.error == None)
            && (!log.ok ==> log.samples == 0 && log.error == Some(verdict))
  {
    EachEvaluated(befores, es, afters, outcomes, i);
  }

  /** What a group's configuration asks for: a definition for each rule ID, and the group's own settings. */
  datatype Plan = Plan(rules: map<RuleId, Definition>, concurrency: int, limit: int, evalDelay: Option<int>,
                       labels: Labels, checksum: string)

  predicate Defined(rules: seq<AlertingRule>, plan: Plan)
    reads rules
  {
    forall r :: r in rules && r.ruleId in plan.rules ==> r.definition == plan.rules[r.ruleId]
  }

  /** An index of rules as the plan defines them. */
  predicate Ready(index: map<RuleId, AlertingRule>, plan: Plan)
    reads index.Values
  {
    && index.Keys == plan.rules.Keys
    && forall id :: id in index ==>
         index[id].ruleId == id && index[id].definition == plan.rules[id] && Owned(index[id].alerts, id)
  }

  lemma IndexedAreReady(index: map<RuleId, AlertingRule>, plan: Plan, rules: seq<AlertingRule>)
    requires Ready(index, plan)
    requires forall r :: r in rules ==> r.ruleId in index && index[r.ruleId] == r
    ensures AllOwned(rules) && Defined(rules, plan)
  {
  }

  /** The rules make up the plan, none twice. */
  predicate Fits(rules: seq<AlertingRule>, plan: Plan)
    reads rules
  {
    DistinctIds(rules) && Ids(rules) == plan.rules.Keys && AllOwned(rules) && Defined(rules, plan)
  }

  /** Rules of an index under these IDs, none twice. */
  predicate TakenFrom(added: seq<AlertingRule>, index: map<RuleId, AlertingRule>, ids: set<RuleId>) {
    && DistinctIds(added) && Ids(added) == ids
    && forall r :: r in added ==> r.ruleId in index && index[r.ruleId] == r
  }

  lemma TakeOneRule(added: seq<AlertingRule>, index: map<RuleId, AlertingRule>, ids: set<RuleId>, id: RuleId)
    requires TakenFrom(added, index, ids) && id !in ids
    requires id in index && index[id].ruleId == id
    ensures TakenFrom(added + [index[id]], index, ids + {id})
  {
    OneMoreRule(added, index[id]);
  }

  /** The surviving rules and the added ones fit the plan. */
  lemma SurvivorsAndNewcomers(was: seq<AlertingRule>, index: map<RuleId, AlertingRule>, plan: Plan,
                              added: seq<AlertingRule>)
    requires Ready(index, plan)
    requires DistinctIds(was) && AllOwned(was)
    requires forall r :: r in was && r.ruleId in index ==> r.definition == index[r.ruleId].definition
    requires TakenFrom(added, index, plan.rules.Keys - Ids(was))
    ensures Fits(Sifted(was, plan.rules.Keys, true) + added, plan)
  {
    var kept := Sifted(was, plan.rules.Keys, true);
    SiftedIds(was, plan.rules.Keys, true);
    SiftedDistinct(was, plan.rules.Keys, true);
    SiftedMembers(was, plan.rules.Keys, true);
    JoinedRules(kept, added);
    IndexedAreReady(index, plan, added);
    forall i | 0 <= i < |kept + added| ensures (kept + added)[i] in was || (kept + added)[i] in added {
      assert i < |kept| ==> kept[i] in was;
    }
  }

  /** The instances held are the disjoint union of those that stay and those that leave. */
  predicate Apart(staying: map<RuleId, AlertMap>, leaving: map<RuleId, AlertMap>) {
    && AllInstances(staying).Keys !! AllInstances(leaving).Keys
    && AllInstances(staying + leaving) == AllInstances(staying) + AllInstances(leaving)
  }

  lemma SplitHolding(rules: seq<AlertingRule>, ids: set<RuleId>, held: map<RuleId, AlertMap>)
    returns (staying: map<RuleId, AlertMap>, leaving: map<RuleId, AlertMap>)
    requires Holds(rules, held)
    ensures held == staying + leaving && Apart(staying, leaving)
    ensures Holds(Sifted(rules, ids, true), staying) && Holds(Sifted(rules, ids, false), leaving)
  {
    staying, leaving := Only(held, ids), held - ids;
    SiftingSplits(rules, ids, held);
  }

  /** `index` files each rule of the sequence under its ID. */
  predicate Indexes(index: map<RuleId, AlertingRule>, rules: seq<AlertingRule>) {
    && index.Keys == Ids(rules)
    && (forall i :: 0 <= i < |rules| ==> rules[i].ruleId in index)
    && (forall id :: id in index ==> index[id].ruleId == id && index[id] in rules)
  }

  lemma IndexIsReady(index: map<RuleId, AlertingRule>, rules: seq<AlertingRule>, plan: Plan)
    requires Indexes(index, rules) && Ids(rules) == plan.rules.Keys
    requires AllOwned(rules) && Defined(rules, plan)
    ensures Ready(index, plan)
  {
  }

  lemma TakenAreMembers(added: seq<AlertingRule>, index: map<RuleId, AlertingRule>, rules: seq<AlertingRule>,
                        ids: set<RuleId>)
    requires TakenFrom(added, index, ids) && Indexes(index, rules)
    ensures forall r :: r in added ==> r in rules
  {
  }

  method IndexRules(rules: seq<AlertingRule>) returns (index: map<RuleId, AlertingRule>)
    ensures Indexes(index, rules)
  {
    index := map[];
    var i := 0;
    while i < |rules|
      invariant 0 <= i <= |rules|
      invariant Indexes(index, rules[..i])
    {
      assert rules[..i + 1] == rules[..i] + [rules[i]];
      OneMoreRule(rules[..i], rules[i]);
      index := index[rules[i].ruleId := rules[i]];
      i := i + 1;
    }
    assert rules[..i] == rules;
  }

  /** Appends the rules of an index, in no particular order. */
  method AppendAll(kept: seq<AlertingRule>, index: map<RuleId, AlertingRule>)
    returns (all: seq<AlertingRule>, ghost added: seq<AlertingRule>)
    requires forall id :: id in index ==> index[id].ruleId == id
    ensures all == kept + added && TakenFrom(added, index, index.Keys)
  {
    all, added := kept, [];
    var todo := index.Keys;
    while todo != {}
      invariant todo <= index.Keys
      invariant all == kept + added
      invariant TakenFrom(added, index, index.Keys - todo)
    {
      var id :| id in todo;
      TakeOneRule(added, index, index.Keys - todo, id);
      todo := todo - {id};
      assert index.Keys - todo == index.Keys - (todo + {id}) + {id};
      assert (all + [index[id]]) == kept + (added + [index[id]]);
      all, added := all + [index[id]], added + [index[id]];
    }
    assert index.Keys - todo == index.Keys;
  }

  /** Redefines in place each rule the index still carries, and parts those it carries from those it does not. */
  method KeepOrDrop(rules: seq<AlertingRule>, newRules: map<RuleId, AlertingRule>)
    returns (kept: seq<AlertingRule>, dropped: seq<AlertingRule>, left: map<RuleId, AlertingRule>)
    requires DistinctIds(rules)
    requires forall id :: id in newRules ==> newRules[id].ruleId == id && newRules[id] !in rules
    modifies rules`definition
    ensures kept == Sifted(rules, newRules.Keys, true) && dropped == Sifted(rules, newRules.Keys, false)
    ensures left == newRules - Ids(rules)
    ensures forall r :: r in rules ==>
              r.definition == if r.ruleId in newRules then newRules[r.ruleId].definition else old(r.definition)
  {
    kept, dropped, left := [], [], newRules;
    var i := 0;
    while i < |rules|
      invariant 0 <= i <= |rules|
      invariant kept == Sifted(rules[..i], newRules.Keys, true) && dropped == Sifted(rules[..i], newRules.Keys, false)
      invariant left == newRules - Ids(rules[..i])
      invariant forall j :: i <= j < |rules| ==> rules[j].definition == old(rules[j].definition)
      invariant forall j :: 0 <= j < i ==>
                  rules[j].definition == if rules[j].ruleId in newRules then newRules[rules[j].ruleId].definition
                                         else old(rules[j].definition)
    {
      var rule := rules[i];
      OthersDiffer(rules, i);
      NotAmongEarlier(rules, i);
      assert rules[..i + 1][..i] == rules[..i];
      i := i + 1;
      if rule.ruleId in left {
        var nr := left[rule.ruleId];
        rule.definition := nr.definition;
        left := left - {nr.ruleId};
        kept := kept + [rule];
        continue;
      }
      dropped := dropped + [rule];
    }
    assert rules[..i] == rules;
  }

  /** The rules of an update: those whose ID goes on keep their object and alerts, the rest are dropped. */
  method MergeRules(rules: seq<AlertingRule>, newRules: map<RuleId, AlertingRule>, ghost plan: Plan)
    returns (merged: seq<AlertingRule>, dropped: seq<AlertingRule>, ghost added: seq<AlertingRule>)
    requires DistinctIds(rules) && AllOwned(rules)
    requires Ready(newRules, plan)
    requires forall id :: id in newRules ==> newRules[id] !in rules
    modifies rules`definition
    ensures Fits(merged, plan)
    ensures merged == Sifted(rules, plan.rules.Keys, true) + added
    ensures dropped == Sifted(rules, plan.rules.Keys, false)
    ensures TakenFrom(added, newRules, plan.rules.Keys - Ids(rules))
  {
    var kept, gone, left := KeepOrDrop(rules, newRules);
    dropped := gone;
    merged, added := AppendAll(kept, left);
    assert left.Keys == plan.rules.Keys - Ids(rules);
    SurvivorsAndNewcomers(rules, newRules, plan, added);
  }

  class Group {
    const name: string
    const retire: Queue?
    var rules: seq<AlertingRule>
    var concurrency: int
    var limit: int
    var evalDelay: Option<int>
    var labels: Labels
    var checksum: string

    predicate Valid()
      reads this`rules, rules
    {
      DistinctIds(rules) && AllOwned(rules)
    }

    constructor (name: string, rules: seq<AlertingRule>, concurrency: int, limit: int, evalDelay: Option<int>,
                 labels: Labels, checksum: string, retire: Queue?)
      requires DistinctIds(rules) && AllOwned(rules)
      ensures Valid() && this.rules == rules && this.name == name && this.retire == retire
      ensures this.concurrency == (if concurrency < 1 then 1 else concurrency)
      ensures this.limit == limit && this.evalDelay == evalDelay && this.labels == labels && this.checksum == checksum
    {
      this.name, this.rules, this.limit := name, rules, limit;
      this.concurrency := if concurrency < 1 then 1 else concurrency;
      this.evalDelay, this.labels, this.checksum, this.retire := evalDelay, labels, checksum, retire;
    }

    /** Runs one rule, turning a panic into a failed result. */
    method ExecRecovered(r: AlertingRule, answer: Answer, ts: Time, limit: int) returns (o: Outcome)
      requires Owned(r.alerts, r.ruleId)
      modifies r`alerts, r`lastSamples
      ensures Evaluated(old(r.alerts), Eval(answer, ts, limit, old(r.CurrentSettings())), r.alerts, o)
    {
      NextOwned(r.alerts, Eval(answer, ts, limit, r.CurrentSettings()), r.ruleId);
      var result := r.Exec(answer, ts, limit);
      match result
      case ExecFailed(reason) => o := Outcome(r.ruleId, r.name, [], r.lastSamples, Some(reason));
      case ExecSent(alerts) => o := Outcome(r.ruleId, r.name, alerts, r.lastSamples, None);
    }

    /** Runs the rule at `i` of a pass that has left the first `i` rules holding `after`. */
    method ExecOne(r: AlertingRule, answer: Answer, ts: Time, limit: int, ghost i: nat,
                   ghost before: seq<AlertMap>, ghost es: seq<Eval>,
                   ghost after: seq<AlertMap>, ghost outcomes: seq<Outcome>)
      returns (o: Outcome, ghost held: AlertMap)
      requires DistinctIds(rules) && i < |rules| && r == rules[i]
      requires Midway(i, before, es, after, outcomes)
      requires es[i] == Eval(answer, ts, limit, r.CurrentSettings())
      modifies r`alerts, r`lastSamples
      ensures Midway(i + 1, before, es, after + [held], outcomes + [o])
    {
      OthersAreOthers(rules, i);
      o := ExecRecovered(r, answer, ts, limit);
      held := r.alerts;
      EvaluatedOneMore(before, es, after, outcomes, i, held, o);
    }

    /** Adds one rule's outcome to what the pass has collected: its evaluation always, its alerts unless it failed. */
    method Collect(all: seq<Instance>, evals: seq<Evaluation>, o: Outcome, at: Time, ghost outcomes: seq<Outcome>)
      returns (all': seq<Instance>, evals': seq<Evaluation>)
      requires Collects(all, evals, outcomes, at)
      ensures Collects(all', evals', outcomes + [o], at)
    {
      GatherOneMore(outcomes, o, name, at);
      evals' := evals + [EvaluationOf(o, name, at, o.matches)];
      if o.error.Some? {
        return all, evals';
      }
      all' := all + o.alerts;
    }

    /** Every rule before `i` has been evaluated, those from `i` on are as they were. */
    ghost predicate Midway(i: nat, before: seq<AlertMap>, es: seq<Eval>, after: seq<AlertMap>, outcomes: seq<Outcome>)
      reads this`rules, rules
    {
      && AllOwned(rules)
      && i == |after| == |outcomes| <= |rules| == |before| == |es|
      && (forall j :: i <= j < |rules| ==> rules[j].alerts == before[j])
      && (forall j :: 0 <= j < i ==> rules[j].alerts == after[j])
      && (forall j :: 0 <= j < |rules| ==> rules[j].CurrentSettings() == es[j].settings)
      && AllEvaluated(before[..i], es[..i], after, outcomes)
    }

    /** `maps` is what each rule holds. */
    ghost predicate Holding(maps: seq<AlertMap>)
      reads this`rules, rules
    {
      |maps| == |rules| && forall i :: 0 <= i < |rules| ==> rules[i].alerts == maps[i]
    }

    /** `es` is each rule's evaluation: its answer at `ts`, under its settings as they are now. */
    ghost predicate Poised(es: seq<Eval>, answers: seq<Answer>, ts: Time, limit: int)
      reads this`rules, rules
    {
      && |es| == |answers| == |rules|
      && forall i :: 0 <= i < |rules| ==> es[i] == Eval(answers[i], ts, limit, rules[i].CurrentSettings())
    }

    /** What a pass over the first rules has collected. */
    ghost predicate Collects(all: seq<Instance>, evals: seq<Evaluation>, outcomes: seq<Outcome>, at: Time) {
      && all == Gathered(InOrder(|outcomes|), AlertItems(outcomes))
      && evals == Gathered(InOrder(|outcomes|), EvaluationItems(outcomes, name, at))
    }

    /** One iteration: the rule at `i` runs and its outcome is collected. */
    method ExecNext(r: AlertingRule, answer: Answer, ts: Time, at: Time, limit: int,
                    all: seq<Instance>, evals: seq<Evaluation>, ghost i: nat, ghost before: seq<AlertMap>,
                    ghost es: seq<Eval>, ghost after: seq<AlertMap>, ghost outcomes: seq<Outcome>)
      returns (all': seq<Instance>, evals': seq<Evaluation>, ghost outcomes': seq<Outcome>, ghost after': seq<AlertMap>)
      requires DistinctIds(rules) && i < |rules| && r == rules[i]
      requires Midway(i, before, es, after, outcomes) && Collects(all, evals, outcomes, at)
      requires es[i] == Eval(answer, ts, limit, r.CurrentSettings())
      modifies r`alerts, r`lastSamples
      ensures Midway(i + 1, before, es, after', outcomes') && Collects(all', evals', outcomes', at)
    {
      var o, held := ExecOne(r, answer, ts, limit, i, before, es, after, outcomes);
      all', evals' := Collect(all, evals, o, at, outcomes);
      outcomes', after' := outcomes + [o], after + [held];
    }

    /** Evaluates every rule, one after the other; a rule that fails or panics does not stop the rest. */
    method ExecRules(answers: seq<Answer>, ts: Time, at: Time, limit: int,
                     ghost before: seq<AlertMap>, ghost es: seq<Eval>)
      returns (all: seq<Instance>, evals: seq<Evaluation>, ghost outcomes: seq<Outcome>, ghost after: seq<AlertMap>)
      requires Valid()
      requires Holding(before) && Poised(es, answers, ts, limit)
      modifies rules
      ensures Valid() && Holding(after) && |outcomes| == |rules|
      ensures AllEvaluated(before, es, after, outcomes)
      ensures all == Gathered(InOrder(|rules|), AlertItems(outcomes))
      ensures evals == Gathered(InOrder(|rules|), EvaluationItems(outcomes, name, at))
    {
      all, evals, outcomes, after := [], [], [], [];
      var i := 0;
      while i < |rules|
        invariant Midway(i, before, es, after, outcomes)
        invariant Collects(all, evals, outcomes, at)
      {
        all, evals, outcomes, after := ExecNext(rules[i], answers[i], ts, at, limit, all, evals, i,
                                                 before, es, after, outcomes);
        i := i + 1;
      }
      assert before[..i] == before && es[..i] == es;
    }

    /**
      What any schedule of the concurrent path comes to: every rule is
      evaluated from what it held, and the results are taken in some order.
     */
    method ExecConcurrently(answers: seq<Answer>, ts: Time, at: Time, limit: int,
                            ghost before: seq<AlertMap>, ghost es: seq<Eval>)
      returns (all: seq<Instance>, evals: seq<Evaluation>,
               ghost outcomes: seq<Outcome>, ghost after: seq<AlertMap>, ghost order: seq<nat>)
      requires Valid()
      requires Holding(before) && Poised(es, answers, ts, limit)
      modifies rules
      ensures Valid() && Holding(after) && |outcomes| == |rules|
      ensures AllEvaluated(before, es, after, outcomes)
      ensures AnyOrder(order, |rules|)
      ensures all == Gathered(order, AlertItems(outcomes))
      ensures evals == Gathered(order, EvaluationItems(outcomes, name, at))
    {
      var results: seq<Outcome> := [];
      after := [];
      var i := 0;
      while i < |rules|
        invariant Midway(i, before, es, after, results)
      {
        var o, held := ExecOne(rules[i], answers[i], ts, limit, i, before, es, after, results);
        results, after := results + [o], after + [held];
        i := i + 1;
      }
      assert before[..i] == before && es[..i] == es;
      outcomes := results;
      all, evals, order := CollectAnyhow(results, at);
    }

    /** Takes every result, in whatever order they come. */
    method CollectAnyhow(results: seq<Outcome>, at: Time)
      returns (all: seq<Instance>, evals: seq<Evaluation>, ghost order: seq<nat>)
      ensures AnyOrder(order, |results|)
      ensures all == Gathered(order, AlertItems(results))
      ensures evals == Gathered(order, EvaluationItems(results, name, at))
    {
      all, evals, order := [], [], [];
      var todo := Indices(|results|);
      while todo != {}
        invariant todo <= Indices(|results|)
        invariant Taken(order, Indices(|results|) - todo) && AllBelow(order, |results|)
        invariant all == Gathered(order, AlertItems(results))
        invariant evals == Gathered(order, EvaluationItems(results, name, at))
      {
        var i :| i in todo;
        TakeOneMore(order, Indices(|results|), todo, i);
        assert (order + [i])[..|order|] == order;
        todo, order := todo - {i}, order + [i];
        evals := evals + [EvaluationOf(results[i], name, at, Samples(results[i]))];
        if results[i].error.None? {
          all := all + results[i].alerts;
        }
      }
      assert Indices(|results|) - todo == Indices(|results|);
      TakenIsAnyOrder(order, |results|);
    }

    /** Evaluates the rules and writes what they send to the history, if there is anything. */
    method EvaluateAndRecord(store: Store, answers: seq<Answer>, ts: Time, at: Time,
                             ghost before: seq<AlertMap>, ghost es: seq<Eval>)
      returns (sent: seq<Instance>, evals: seq<Evaluation>, ghost outcomes: seq<Outcome>, ghost after: seq<AlertMap>,
               ghost order: seq<nat>, ghost recorded: bool)
      requires Valid()
      requires Holding(before) && Poised(es, answers, ts, limit)
      modifies rules, store`log
      ensures Valid() && Holding(after) && |outcomes| == |rules|
      ensures AllEvaluated(before, es, after, outcomes)
      ensures AnyOrder(order, |rules|) && (concurrency <= 1 ==> order == InOrder(|rules|))
      ensures sent == Gathered(order, AlertItems(outcomes))
      ensures evals == Gathered(order, EvaluationItems(outcomes, name, at))
      ensures store.log == if recorded then old(store.log) + HistoryRows(sent, at) else old(store.log)
    {
      recorded := true;
      if concurrency <= 1 {
        sent, evals, outcomes, after := ExecRules(answers, ts, at, limit, before, es);
        order := InOrder(|rules|);
        InOrderIsAnyOrder(|rules|);
      } else {
        sent, evals, outcomes, after, order := ExecConcurrently(answers, ts, at, limit, before, es);
      }
      if |sent| > 0 {
        var written := store.RecordHistory(at, sent);
        recorded := written;
      }
    }

    /** The rules, if there are any, are evaluated at the tick's time less the group's delay. */
    method EvaluateDelayed(store: Store, answers: seq<Answer>, now: Time, at: Time,
                           ghost before: seq<AlertMap>, ghost es: seq<Eval>)
      returns (sent: seq<Instance>, evals: seq<Evaluation>, ghost outcomes: seq<Outcome>, ghost after: seq<AlertMap>,
               ghost order: seq<nat>, ghost recorded: bool)
      requires Valid() && EvalTime(now) > 0
      requires Holding(before) && Poised(es, answers, EvalTime(now), limit)
      modifies rules, store`log
      ensures Valid() && Holding(after) && |outcomes| == |rules|
      ensures AllEvaluated(before, es, after, outcomes)
      ensures AnyOrder(order, |rules|) && (concurrency <= 1 ==> order == InOrder(|rules|))
      ensures sent == Gathered(order, AlertItems(outcomes))
      ensures evals == Gathered(order, EvaluationItems(outcomes, name, at))
      ensures store.log == old(store.log) + if recorded then HistoryRows(sent, at) else []
    {
      if |rules| == 0 {
        InOrderIsAnyOrder(0);
        return [], [], [], [], [], true;
      }
      var evalTime := now;
      if evalDelay.Some? {
        evalTime := now - evalDelay.value;
      }
      sent, evals, outcomes, after, order, recorded := EvaluateAndRecord(store, answers, evalTime, at, before, es);
    }

    /** One evaluation of the group: pending retirements first, then the rules, then their history. */
    method Evaluate(store: Store, answers: seq<Answer>, now: Time, at: Time,
                    ghost before: seq<AlertMap>, ghost es: seq<Eval>)
      returns (sent: seq<Instance>, evals: seq<Evaluation>, ghost outcomes: seq<Outcome>, ghost after: seq<AlertMap>,
               ghost order: seq<nat>, ghost ok: seq<bool>, ghost saved: seq<bool>, ghost recorded: bool)
      requires Valid()
      requires retire != null && retire.Valid() && retire.store == store
      requires EvalTime(now) > 0
      requires Holding(before) && Poised(es, answers, EvalTime(now), limit)
      modifies rules, retire, store
      ensures Valid() && retire.Valid() && Holding(after) && |outcomes| == |rules|
      ensures AllEvaluated(before, es, after, outcomes)
      ensures forall i :: 0 <= i < |es| ==> es[i].ts + (if evalDelay.Some? then evalDelay.value else 0) == now
      ensures AnyOrder(order, |rules|) && (concurrency <= 1 ==> order == InOrder(|rules|))
      ensures sent == Gathered(order, AlertItems(outcomes))
      ensures evals == Gathered(order, EvaluationItems(outcomes, name, at))
      ensures |ok| == |saved| == |old(retire.pending)| && retire.pending == Kept(old(retire.pending), ok)
      ensures store.table == FlushedTable(old(store.table), old(retire.pending), ok, saved)
      ensures store.log == old(store.log) + LogOf(Landed(old(retire.pending), ok))
                           + if recorded then HistoryRows(sent, at) else []
    {
      ok, saved := retire.Flush();
      sent, evals, outcomes, after, order, recorded := EvaluateDelayed(store, answers, now, at, before, es);
    }

    /** The time a tick evaluates at, set back by the group's delay. */
    function EvalTime(now: Time): (ts: int)
      reads this`evalDelay
      ensures ts + (if evalDelay.Some? then evalDelay.value else 0) == now
    {
      if evalDelay.Some? then now - evalDelay.value else now
    }

    // ----- Live updates -----

    predicate Serves(plan: Plan)
      reads this, rules
    {
      Ids(rules) == plan.rules.Keys && Defined(rules, plan) && HasSettings(plan)
    }

    predicate HasSettings(plan: Plan)
      reads this
    {
      && plan.concurrency == concurrency && plan.limit == limit && plan.evalDelay == evalDelay
      && plan.labels == labels && plan.checksum == checksum
    }

    /** Takes over a new configuration's settings and rules. */
    method Redefine(ng: Group, ghost plan: Plan) returns (dropped: seq<AlertingRule>, ghost added: seq<AlertingRule>)
      requires Valid() && ng.Valid() && ng.Serves(plan)
      requires ng != this && forall r :: r in ng.rules ==> r !in rules
      modifies this`rules, this`concurrency, this`limit, this`evalDelay, this`labels, this`checksum, rules`definition
      ensures Fits(rules, plan) && HasSettings(plan)
      ensures rules == Sifted(old(rules), plan.rules.Keys, true) + added
      ensures dropped == Sifted(old(rules), plan.rules.Keys, false)
      ensures Ids(added) == plan.rules.Keys - Ids(old(rules)) && forall r :: r in added ==> r in ng.rules
      ensures concurrency == ng.concurrency && limit == ng.limit && evalDelay == ng.evalDelay
      ensures labels == ng.labels && checksum == ng.checksum
    {
      var merged;
      merged, dropped, added := Merge(ng, plan);
      TakeOver(ng, merged, plan);
    }

    method Merge(ng: Group, ghost plan: Plan)
      returns (merged: seq<AlertingRule>, dropped: seq<AlertingRule>, ghost added: seq<AlertingRule>)
      requires Valid() && ng.Valid() && ng.Serves(plan)
      requires forall r :: r in ng.rules ==> r !in rules
      modifies rules`definition
      ensures Fits(merged, plan)
      ensures merged == Sifted(rules, plan.rules.Keys, true) + added
      ensures dropped == Sifted(rules, plan.rules.Keys, false)
      ensures Ids(added) == plan.rules.Keys - Ids(rules) && forall r :: r in added ==> r in ng.rules
    {
      var newRules := IndexRules(ng.rules);
      IndexIsReady(newRules, ng.rules, plan);
      merged, dropped, added := MergeRules(rules, newRules, plan);
      TakenAreMembers(added, newRules, ng.rules, Ids(added));
    }

    method TakeOver(ng: Group, merged: seq<AlertingRule>, ghost plan: Plan)
      requires ng != this && ng.HasSettings(plan)
      modifies this`rules, this`concurrency, this`limit, this`evalDelay, this`labels, this`checksum
      ensures rules == merged && HasSettings(plan)
      ensures concurrency == ng.concurrency && limit == ng.limit && evalDelay == ng.evalDelay
      ensures labels == ng.labels && checksum == ng.checksum
    {
      rules, concurrency, labels, limit := merged, ng.concurrency, ng.labels, ng.limit;
      evalDelay, checksum := ng.evalDelay, ng.checksum;
    }

    /**
      Turns a running group into what a new configuration asks for. The
      dropped rules are the caller's to retire; `staying` and `leaving` are
      what the surviving and the dropped rules hold.
     */
    method UpdateWith(ng: Group, ghost plan: Plan)
      returns (dropped: seq<AlertingRule>, ghost added: seq<AlertingRule>,
               ghost staying: map<RuleId, AlertMap>, ghost leaving: map<RuleId, AlertMap>)
      requires Valid() && ng.Valid() && ng.Serves(plan)
      requires ng != this && forall r :: r in ng.rules ==> r !in rules
      modifies this`rules, this`concurrency, this`limit, this`evalDelay, this`labels, this`checksum, rules`definition
      ensures Valid() && Serves(plan)
      ensures rules == Sifted(old(rules), plan.rules.Keys, true) + added
      ensures dropped == Sifted(old(rules), plan.rules.Keys, false)
      ensures Ids(added) == plan.rules.Keys - Ids(old(rules)) && forall r :: r in added ==> r in ng.rules
      ensures old(Holds(rules, staying + leaving)) && Apart(staying, leaving)
      ensures Holds(Sifted(old(rules), plan.rules.Keys, true), staying) && Holds(dropped, leaving)
      ensures old(Serves(plan)) ==> dropped == [] && added == [] && rules == old(rules)
      ensures concurrency == ng.concurrency && limit == ng.limit && evalDelay == ng.evalDelay
      ensures labels == ng.labels && checksum == ng.checksum
    {
      ghost var was := rules;
      ghost var held := HoldingOf(rules);
      dropped, added := Redefine(ng, plan);
      if old(Serves(plan)) {
        SameIdsChangeNothing(was, plan.rules.Keys, added);
      }
      staying, leaving := SplitHolding(was, plan.rules.Keys, held);
    }

    // ----- Retirement and restoration -----

    /** The queue's tables, if there is a queue and it has any. */
    function Tables(): Store? {
      if retire == null then null else retire.store
    }

    /** What resolving `listed` at `at` does to the queue and its tables, the queue being flushed at once. */
    twostate predicate Retired(at: Time, listed: seq<Instance>, ok: seq<bool>, saved: seq<bool>)
      reads this, retire, Tables()
    {
      retire == null || Tables() == null ||
      if FiringOnly(listed) == [] then retire.pending == old(retire.pending) && unchanged(Tables())
      else
        var queued := old(retire.pending) + Submission(at, listed);
        && |ok| == |saved| == |queued|
        && retire.pending == Kept(queued, ok)
        && Tables().log == old(Tables().log) + LogOf(Landed(queued, ok))
        && Tables().table == FlushedTable(old(Tables().table), queued, ok, saved)
    }

    /** Hands the queue what rules that no longer run still hold. */
    method RetireRules(gone: seq<AlertingRule>, at: Time)
      returns (ghost held: map<RuleId, AlertMap>, ghost listed: seq<Instance>,
               ghost ok: seq<bool>, ghost saved: seq<bool>)
      requires DistinctIds(gone) && AllOwned(gone)
      requires retire != null ==> retire.Valid()
      modifies retire, Tables()
      ensures retire != null ==> retire.Valid()
      ensures Holds(gone, held) && Lists(listed, AllInstances(held))
      ensures Retired(at, listed, ok, saved)
    {
      ok, saved := [], [];
      var all, held' := LiveInstances(gone);
      held, listed := held', all;
      if |all| == 0 || retire == null {
        return;
      }
      ok, saved := retire.Resolve(at, all);
    }

    /** Restores every rule from a previous run's active instances. */
    method RestoreState(instances: seq<Instance>)
      requires Valid()
      modifies rules`alerts
      ensures Valid()
      ensures forall i :: 0 <= i < |rules| ==>
                rules[i].alerts == Restored(old(rules[i].alerts), instances, rules[i].ruleId)
    {
      var i := 0;
      while i < |rules|
        invariant 0 <= i <= |rules|
        invariant AllOwned(rules)
        invariant forall j :: i <= j < |rules| ==> rules[j].alerts == old(rules[j].alerts)
        invariant forall j :: 0 <= j < i ==>
                    rules[j].alerts == Restored(old(rules[j].alerts), instances, rules[j].ruleId)
      {
        OthersDiffer(rules, i);
        RestoredOwned(rules[i].alerts, instances, rules[i].ruleId);
        rules[i].Restore(instances);
        i := i + 1;
      }
    }
  }

  // ----- Orders in which results are taken -----

  /** Every index below `n`, once each. */
  predicate AnyOrder(order: seq<nat>, n: nat) {
    AllBelow(order, n) && multiset(order) == multiset(InOrder(n))
  }

  lemma {:induction false} InOrderIsAnyOrder(n: nat)
    ensures AnyOrder(InOrder(n), n)
  {
  }

  /** The indices taken so far, once each. */
  predicate Taken(order: seq<nat>, taken: set<nat>) {
    if order == [] then taken == {}
    else order[|order| - 1] in taken && Taken(order[..|order| - 1], taken - {order[|order| - 1]})
  }

  lemma TakeOneMore(order: seq<nat>, all: set<nat>, todo: set<nat>, i: nat)
    requires Taken(order, all - todo) && i in todo && todo <= all
    ensures Taken(order + [i], all - (todo - {i}))
  {
    assert (order + [i])[..|order|] == order;
    assert all - (todo - {i}) - {i} == all - todo;
  }

  lemma {:induction false} TakenCount(order: seq<nat>, taken: set<nat>, t: nat)
    requires Taken(order, taken)
    ensures multiset(order)[t] == if t in taken then 1 else 0
  {
    if order != [] {
      var n := |order| - 1;
      assert order == order[..n] + [order[n]];
      TakenCount(order[..n], taken - {order[n]}, t);
    }
  }

  lemma TakenIsAnyOrder(order: seq<nat>, n: nat)
    requires Taken(order, Indices(n)) && AllBelow(order, n)
    ensures AnyOrder(order, n)
  {
    forall t: nat ensures multiset(order)[t] == multiset(InOrder(n))[t] {
      TakenCount(order, Indices(n), t);
      InOrderOnce(n, t);
    }
  }

  lemma GatherOneMore(outcomes: seq<Outcome>, o: Outcome, group: string, at: Time)
    ensures var n := |outcomes|;
            && Gathered(InOrder(n + 1), AlertItems(outcomes + [o])) ==
               Gathered(InOrder(n), AlertItems(outcomes)) + (if o.error.None? then o.alerts else [])
            && Gathered(InOrder(n + 1), EvaluationItems(outcomes + [o], group, at)) ==
               Gathered(InOrder(n), EvaluationItems(outcomes, group, at)) + [EvaluationOf(o, group, at, o.matches)]
  {
    var n := |outcomes|;
    assert InOrder(n + 1)[..n] == InOrder(n);
    GatherPrefix(InOrder(n), AlertItems(outcomes), AlertItems(outcomes + [o]));
    GatherPrefix(InOrder(n), EvaluationItems(outcomes, group, at), EvaluationItems(outcomes + [o], group, at));
  }

  lemma {:induction false} GatherPrefix<T>(order: seq<nat>, items: seq<seq<T>>, items': seq<seq<T>>)
    requires AllBelow(order, |items|) && |items| <= |items'|
    requires forall i :: 0 <= i < |items| ==> items[i] == items'[i]
    ensures AllBelow(order, |items'|)
    ensures Gathered(order, items) == Gathered(order, items')
  {
    if order != [] {
      GatherPrefix(order[..|order| - 1], items, items');
    }
  }
}
