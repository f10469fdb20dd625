/** What the running groups do, as the steps that the whole-run properties are about. */
module Processes {
  import opened Alerts
  import opened RuleStep
  import opened AlertingRules
  import opened StateStore
  import opened Retirements
  import opened RetirementQueues
  import opened Scheduler
  import opened Lifecycle
  import opened NoOrphans
  import opened RuleSets
  import opened Groups
  import opened GroupRuns

  /** The system as a group sees it: its own rules, and the queue and tables it shares. */
  ghost predicate Shows(g: Group, store: Store, s: System)
    reads g, g.rules, g.retire, store
  {
    && s.up
    && g.retire != null && g.retire.Valid() && g.retire.store == store
    && g.retire.pending == s.pending && store.log == s.log && store.table == s.table
    && RulesShown(g.rules, s.rules)
  }

  ghost predicate RulesShown(rules: seq<AlertingRule>, shown: map<RuleId, AlertMap>)
    reads rules
  {
    forall i :: 0 <= i < |rules| ==> rules[i].ruleId in shown && shown[rules[i].ruleId] == rules[i].alerts
  }

  ghost predicate NoneHeld(rules: seq<AlertingRule>)
    reads rules
  {
    forall i :: 0 <= i < |rules| ==> rules[i].alerts == map[]
  }

  lemma NoneHeldByPart(part: seq<AlertingRule>, rules: seq<AlertingRule>)
    requires NoneHeld(rules) && forall r :: r in part ==> r in rules
    ensures NoneHeld(part)
  {
    assert forall i :: 0 <= i < |part| ==> part[i] in rules;
  }

  /** The promise holds: nothing the history shows firing is without a holder. */
  ghost predicate Promised(s: System) {
    WellKept(s) && NoOrphan(s)
  }

  /**
    A tick: what the group does to its rules, the queue and the tables is a
    run of the system, and a clean one if the history batch was written and
    no rule went over its limit; then the promise is kept. Whatever becomes
    active, fires or is resolved carries the tick's time less the delay.
   */
  method Tick(g: Group, store: Store, answers: seq<Answer>, now: Time, at: Time, ghost s: System)
    returns (sent: seq<Instance>, evals: seq<Evaluation>,
             ghost outcomes: seq<Outcome>, ghost recorded: bool, ghost steps: seq<Step>, ghost s': System)
    requires g.Valid() && |answers| == |g.rules|
    requires Shows(g, store, s) && g.EvalTime(now) > 0
    modifies g.rules, g.retire, store
    ensures g.Valid() && Shows(g, store, s')
    ensures |outcomes| == |g.rules|
    ensures Leads(s, steps, s', recorded && WithinLimits(outcomes))
    ensures recorded && WithinLimits(outcomes) && Promised(s) ==> Promised(s')
    ensures forall id :: id !in Ids(g.rules) ==> Get(s'.rules, id) == Get(s.rules, id)
    ensures var delay := if g.evalDelay.Some? then g.evalDelay.value else 0;
            forall i :: 0 <= i < |g.rules| ==> ChangedAt(old(g.rules[i].alerts), g.rules[i].alerts, now - delay)
  {
    ghost var before, after;
    sent, evals, outcomes, before, after, recorded, steps, s' := TickThrough(g, store, answers, now, at, s);
    assert forall i :: 0 <= i < |g.rules| ==> ChangedAt(before[i], after[i], g.EvalTime(now));
  }

  /** The tick, with what each rule held before and after. */
  method TickThrough(g: Group, store: Store, answers: seq<Answer>, now: Time, at: Time, ghost s: System)
    returns (sent: seq<Instance>, evals: seq<Evaluation>,
             ghost outcomes: seq<Outcome>, ghost before: seq<AlertMap>, ghost after: seq<AlertMap>,
             ghost recorded: bool, ghost steps: seq<Step>, ghost s': System)
    requires g.Valid() && |answers| == |g.rules|
    requires Shows(g, store, s) && g.EvalTime(now) > 0
    modifies g.rules, g.retire, store
    ensures g.Valid() && Shows(g, store, s')
    ensures |outcomes| == |g.rules|
    ensures old(g.Holding(before)) && g.Holding(after) && AllChangedAt(before, after, g.EvalTime(now))
    ensures Leads(s, steps, s', recorded && WithinLimits(outcomes))
    ensures recorded && WithinLimits(outcomes) && Promised(s) ==> Promised(s')
    ensures forall id :: id !in Ids(g.rules) ==> Get(s'.rules, id) == Get(s.rules, id)
  {
    ghost var es, order, ok, saved;
    before, es := Poise(g, answers, g.EvalTime(now));
    sent, evals, outcomes, after, order, ok, saved, recorded := g.Evaluate(store, answers, now, at, before, es);
    EvaluationsChange(before, es, after, outcomes, g.EvalTime(now));
    s' := TickIsRun(s, g.rules, before, es, after, outcomes, order, at, ok, saved, recorded);
    steps := [Lifecycle.Flush(ok, saved)] + StepsInOrder(es, outcomes, order, at, recorded);
    if recorded && WithinLimits(outcomes) && Promised(s) {
      CleanRunKeeps(s, steps, s');
    }
  }

  lemma Poise(g: Group, answers: seq<Answer>, ts: Time) returns (before: seq<AlertMap>, es: seq<Eval>)
    requires |answers| == |g.rules|
    ensures g.Holding(before) && g.Poised(es, answers, ts, g.limit)
  {
    before := seq(|g.rules|, i requires 0 <= i < |g.rules| reads g, g.rules => g.rules[i].alerts);
    es := seq(|g.rules|, i requires 0 <= i < |g.rules| == |answers| reads g, g.rules =>
                Eval(answers[i], ts, g.limit, g.rules[i].CurrentSettings()));
  }

  // ----- A reload's effect on one group -----

  /** The rules dropped are retired: what their resolution queues, and the flush that follows if it queues anything. */
  function DropSteps(gone: set<RuleId>, at: Time, listed: seq<Instance>, added: set<RuleId>,
                     ok: seq<bool>, saved: seq<bool>): seq<Step>
  {
    [Drop(gone, at, listed), Add(added)] + if FiringOnly(listed) == [] then [] else [Lifecycle.Flush(ok, saved)]
  }

  /** The system after the rules in `gone` are retired and flushed, and `added` start empty. */
  function Reloaded(s: System, gone: set<RuleId>, at: Time, listed: seq<Instance>, added: set<RuleId>,
                    ok: seq<bool>, saved: seq<bool>): System
    requires FiringOnly(listed) != [] ==> |ok| == |saved| == |s.pending + Submission(at, listed)|
  {
    var queued := s.pending + Submission(at, listed);
    var rules := s.rules - gone + Unused(added);
    if FiringOnly(listed) == [] then s.(rules := rules)
    else s.(rules := rules, pending := Kept(queued, ok), log := s.log + LogOf(Landed(queued, ok)),
            table := FlushedTable(s.table, queued, ok, saved))
  }

  lemma ReloadIsRun(s: System, gone: set<RuleId>, held: map<RuleId, AlertMap>, at: Time, listed: seq<Instance>,
                    added: set<RuleId>, ok: seq<bool>, saved: seq<bool>)
    requires s.up && held.Keys == gone
    requires forall r :: r in gone ==> Get(s.rules, r) == Some(held[r])
    requires Lists(listed, AllInstances(held))
    requires added !! s.rules.Keys - gone
    requires FiringOnly(listed) != [] ==> |ok| == |saved| == |s.pending + Submission(at, listed)|
    ensures Leads(s, DropSteps(gone, at, listed, added, ok, saved),
                  Reloaded(s, gone, at, listed, added, ok, saved), true)
  {
    assert held == Only(s.rules, gone);
    NoSteps(s);
    OneMoreStep(s, [], s, Drop(gone, at, listed), true);
    assert [] + [Drop(gone, at, listed)] == [Drop(gone, at, listed)];
    var dropped := After(s, Drop(gone, at, listed));
    OneMoreStep(s, [Drop(gone, at, listed)], dropped, Add(added), true);
    var all := After(dropped, Add(added));
    assert [Drop(gone, at, listed)] + [Add(added)] == [Drop(gone, at, listed), Add(added)];
    if FiringOnly(listed) == [] {
      assert s.pending + [] == s.pending;
      assert all == Reloaded(s, gone, at, listed, added, ok, saved);
    } else {
      OneMoreStep(s, [Drop(gone, at, listed), Add(added)], all, Lifecycle.Flush(ok, saved), true);
    }
  }

  /** Dropped rules hold what the system shows for them. */
  lemma DroppedAreShown(rules: seq<AlertingRule>, ids: set<RuleId>,
                        held: map<RuleId, AlertMap>, shown: map<RuleId, AlertMap>)
    requires RulesShown(rules, shown)
    requires Holds(Sifted(rules, ids, false), held)
    ensures forall r :: r in held.Keys ==> Get(shown, r) == Some(held[r])
  {
    var dropped := Sifted(rules, ids, false);
    IdsAreTheirs(dropped);
    SiftedMembers(rules, ids, false);
    forall r | r in held.Keys ensures Get(shown, r) == Some(held[r]) {
      var i :| 0 <= i < |dropped| && dropped[i].ruleId == r;
      var j :| 0 <= j < |rules| && rules[j] == dropped[i];
      assert rules[j].ruleId in shown;
    }
  }

  /** Surviving and added rules hold what the system shows once the dropped are gone. */
  lemma SurvivorsAreShown(rules: seq<AlertingRule>, ids: set<RuleId>, added: seq<AlertingRule>,
                          shown: map<RuleId, AlertMap>)
    requires RulesShown(rules, shown)
    requires Ids(added) == ids - Ids(rules)
    requires NoneHeld(added)
    ensures RulesShown(Sifted(rules, ids, true) + added, shown - (Ids(rules) - ids) + Unused(Ids(added)))
  {
    var kept := Sifted(rules, ids, true);
    SiftedMembers(rules, ids, true);
    IdsAreTheirs(added);
    IdsAreTheirs(rules);
    forall i | 0 <= i < |kept|
      ensures kept[i].ruleId in shown && shown[kept[i].ruleId] == kept[i].alerts
      ensures kept[i].ruleId in ids && kept[i].ruleId in Ids(rules)
    {
      var j :| 0 <= j < |rules| && rules[j] == kept[i];
      assert rules[j].ruleId in shown;
    }
  }

  /** Each of these rules is one of the old or one of the new. */
  ghost predicate DrawnFrom(rules: seq<AlertingRule>, was: seq<AlertingRule>, others: seq<AlertingRule>) {
    forall i :: 0 <= i < |rules| ==> rules[i] in was || rules[i] in others
  }

  lemma UpdatedAreDrawn(was: seq<AlertingRule>, ids: set<RuleId>, added: seq<AlertingRule>, others: seq<AlertingRule>)
    requires forall r :: r in added ==> r in others
    ensures DrawnFrom(Sifted(was, ids, true) + added, was, others)
  {
    SiftedMembers(was, ids, true);
  }

  /** The update itself: afterwards the group shows the system without the dropped rules and with the added ones. */
  method Switch(g: Group, ng: Group, ghost plan: Plan, ghost shown: map<RuleId, AlertMap>)
    returns (dropped: seq<AlertingRule>, ghost added: set<RuleId>)
    requires g.Valid() && RulesShown(g.rules, shown)
    requires ng.Valid() && ng.Serves(plan) && ng != g
    requires NoneHeld(ng.rules) && forall r :: r in ng.rules ==> r !in g.rules
    modifies g`rules, g`concurrency, g`limit, g`evalDelay, g`labels, g`checksum, g.rules`definition
    ensures g.Valid() && g.Serves(plan)
    ensures dropped == Sifted(old(g.rules), plan.rules.Keys, false)
    ensures Ids(dropped) == Ids(old(g.rules)) - plan.rules.Keys
    ensures added == plan.rules.Keys - Ids(old(g.rules))
    ensures RulesShown(g.rules, shown - Ids(dropped) + Unused(added))
    ensures DrawnFrom(g.rules, old(g.rules), ng.rules)
  {
    ghost var was := g.rules;
    ghost var more, staying, leaving;
    dropped, more, staying, leaving := g.UpdateWith(ng, plan);
    added := Ids(more);
    assert NoneHeld(ng.rules);
    NoneHeldByPart(more, ng.rules);
    assert RulesShown(was, shown);
    SurvivorsAreShown(was, plan.rules.Keys, more, shown);
    SiftedIds(was, plan.rules.Keys, false);
    UpdatedAreDrawn(was, plan.rules.Keys, more, ng.rules);
  }

  /** A live update: the dropped rules leave with their firing instances queued, the others go on as they are. */
  method Update(g: Group, ng: Group, store: Store, at: Time, ghost plan: Plan, ghost s: System)
    returns (ghost steps: seq<Step>, ghost s': System)
    requires g.Valid() && Shows(g, store, s)
    requires ng.Valid() && ng.Serves(plan) && ng != g
    requires NoneHeld(ng.rules) && forall r :: r in ng.rules ==> r !in g.rules
    requires plan.rules.Keys !! s.rules.Keys - Ids(g.rules)
    modifies g, g.rules, g.retire, store
    ensures g.Valid() && Shows(g, store, s') && Ids(g.rules) == plan.rules.Keys
    ensures DrawnFrom(g.rules, old(g.rules), ng.rules)
    ensures Leads(s, steps, s', true) && (Promised(s) ==> Promised(s'))
    ensures s'.rules == s.rules - (Ids(old(g.rules)) - plan.rules.Keys) + Unused(plan.rules.Keys - Ids(old(g.rules)))
  {
    ghost var was, added := g.rules, {};
    var dropped;
    dropped, added := Switch(g, ng, plan, s.rules);
    steps, s' := RetireBesides(g, store, was, dropped, plan.rules.Keys, added, at, s);
  }

  /** The rules dropped are retired while the group goes on with the others. */
  method RetireBesides(g: Group, store: Store, ghost was: seq<AlertingRule>, dropped: seq<AlertingRule>,
                       ghost ids: set<RuleId>, ghost added: set<RuleId>, at: Time, ghost s: System)
    returns (ghost steps: seq<Step>, ghost s': System)
    requires s.up && g.retire != null && g.retire.Valid() && g.retire.store == store
    requires g.retire.pending == s.pending && store.log == s.log && store.table == s.table
    requires RulesShown(was, s.rules) && AllOwned(was) && DistinctIds(was)
    requires dropped == Sifted(was, ids, false)
    requires added !! s.rules.Keys - Ids(dropped)
    requires g.Valid() && RulesShown(g.rules, s.rules - Ids(dropped) + Unused(added))
    modifies g.retire, store
    ensures g.Valid() && Shows(g, store, s')
    ensures Leads(s, steps, s', true) && (Promised(s) ==> Promised(s'))
    ensures s'.rules == s.rules - Ids(dropped) + Unused(added)
  {
    steps, s' := RetireDropped(g, store, was, dropped, ids, added, at, s);
    assert StaysShown(g, s'.rules);
  }

  /** A group whose rules stay as they are stays shown. */
  twostate predicate StaysShown(g: Group, new shown: map<RuleId, AlertMap>): (stay: bool)
    requires old(g.Valid() && RulesShown(g.rules, shown)) && unchanged(g) && unchanged(g.rules)
    reads *
    ensures stay
  {
    g.Valid() && RulesShown(g.rules, shown)
  }

  lemma ReloadKeeps(s: System, steps: seq<Step>, s': System)
    requires Leads(s, steps, s', true)
    ensures Promised(s) ==> Promised(s')
  {
    if Promised(s) {
      CleanRunKeeps(s, steps, s');
    }
  }

  /** Retires rules a reload dropped, or those of a group it removed; `added` start empty in their place. */
  method RetireDropped(g: Group, store: Store, ghost was: seq<AlertingRule>, dropped: seq<AlertingRule>,
                       ghost ids: set<RuleId>, ghost added: set<RuleId>, at: Time, ghost s: System)
    returns (ghost steps: seq<Step>, ghost s': System)
    requires s.up && g.retire != null && g.retire.Valid() && g.retire.store == store
    requires g.retire.pending == s.pending && store.log == s.log && store.table == s.table
    requires RulesShown(was, s.rules) && AllOwned(was) && DistinctIds(was)
    requires dropped == Sifted(was, ids, false)
    requires added !! s.rules.Keys - Ids(dropped)
    modifies g.retire, store
    ensures g.retire.Valid()
    ensures s'.up && g.retire.pending == s'.pending && store.log == s'.log && store.table == s'.table
    ensures Leads(s, steps, s', true) && (Promised(s) ==> Promised(s'))
    ensures s'.rules == s.rules - Ids(dropped) + Unused(added)
  {
    ghost var held, listed, ok, saved;
    held, listed, ok, saved := ResolveDropped(g, store, was, dropped, ids, at, s);
    steps := DropSteps(Ids(dropped), at, listed, added, ok, saved);
    s' := Reloaded(s, Ids(dropped), at, listed, added, ok, saved);
    ReloadIsRun(s, Ids(dropped), held, at, listed, added, ok, saved);
    ReloadKeeps(s, steps, s');
  }

  method ResolveDropped(g: Group, store: Store, ghost was: seq<AlertingRule>, dropped: seq<AlertingRule>,
                        ghost ids: set<RuleId>, at: Time, ghost s: System)
    returns (ghost held: map<RuleId, AlertMap>, ghost listed: seq<Instance>,
             ghost ok: seq<bool>, ghost saved: seq<bool>)
    requires g.retire != null && g.retire.Valid() && g.retire.store == store
    requires g.retire.pending == s.pending && store.log == s.log && store.table == s.table
    requires RulesShown(was, s.rules) && AllOwned(was) && DistinctIds(was)
    requires dropped == Sifted(was, ids, false)
    modifies g.retire, store
    ensures g.retire.Valid()
    ensures held.Keys == Ids(dropped) && Lists(listed, AllInstances(held))
    ensures forall r :: r in held.Keys ==> Get(s.rules, r) == Some(held[r])
    ensures FiringOnly(listed) != [] ==> |ok| == |saved| == |s.pending + Submission(at, listed)|
    ensures forall gone, added ::
              var s' := Reloaded(s, gone, at, listed, added, ok, saved);
              g.retire.pending == s'.pending && store.log == s'.log && store.table == s'.table
  {
    SiftedMembers(was, ids, false);
    SiftedDistinct(was, ids, false);
    held, listed, ok, saved := g.RetireRules(dropped, at);
    assert RulesShown(was, s.rules);
    DroppedAreShown(was, ids, held, s.rules);
  }

  /** A group removed by a reload: all its rules are dropped. */
  method Remove(g: Group, store: Store, at: Time, ghost s: System) returns (ghost steps: seq<Step>, ghost s': System)
    requires g.Valid() && Shows(g, store, s)
    modifies g.retire, store
    ensures g.retire.Valid()
    ensures s'.up && g.retire.pending == s'.pending && store.log == s'.log && store.table == s'.table
    ensures Leads(s, steps, s', true) && (Promised(s) ==> Promised(s'))
    ensures s'.rules == s.rules - Ids(g.rules)
  {
    NoneSifted(g.rules);
    steps, s' := RetireDropped(g, store, g.rules, g.rules, {}, {}, at, s);
    NoneAdded(s.rules - Ids(g.rules));
  }

  /** A group started by a reload adds its rules, which hold nothing yet. */
  lemma Launch(g: Group, store: Store, s: System) returns (s': System)
    requires s.up && g.Valid() && g.retire != null && g.retire.Valid() && g.retire.store == store
    requires g.retire.pending == s.pending && store.log == s.log && store.table == s.table
    requires NoneHeld(g.rules)
    requires Ids(g.rules) !! s.rules.Keys
    ensures Leads(s, [Add(Ids(g.rules))], s', true) && (Promised(s) ==> Promised(s'))
    ensures Shows(g, store, s') && s'.rules == s.rules + Unused(Ids(g.rules))
  {
    var step := Add(Ids(g.rules));
    NoSteps(s);
    OneMoreStep(s, [], s, step, true);
    assert [] + [step] == [step];
    s' := After(s, step);
    IdsAreTheirs(g.rules);
    ReloadKeeps(s, [step], s');
  }

  lemma NoneAdded(rules: map<RuleId, AlertMap>)
    ensures rules + Unused({}) == rules
  {
  }

  lemma {:induction false} NoneSifted(rules: seq<AlertingRule>)
    ensures Sifted(rules, {}, false) == rules
  {
    if rules != [] {
      NoneSifted(rules[..|rules| - 1]);
    }
  }

  // ----- Stopping and starting -----

  /** `rules` are the rules of all groups, group after group, those of group `i` ending before `ends[i + 1]`. */
  ghost predicate Chained(groups: seq<Group>, rules: seq<AlertingRule>, ends: seq<nat>)
    reads groups
  {
    && |ends| == |groups| + 1 && ends[0] == 0 && ends[|groups|] == |rules|
    && forall i {:trigger groups[i]} :: 0 <= i < |groups| ==>
         ends[i] <= ends[i + 1] <= |rules| && groups[i].rules == rules[ends[i]..ends[i + 1]]
  }

  /** Every instance any group holds. */
  method AllLive(groups: seq<Group>, ghost rules: seq<AlertingRule>, ghost ends: seq<nat>,
                 ghost shown: map<RuleId, AlertMap>)
    returns (all: seq<Instance>)
    requires Chained(groups, rules, ends) && DistinctIds(rules) && AllOwned(rules)
    requires Holds(rules, shown)
    ensures Lists(all, AllInstances(shown))
  {
    all := [];
    ghost var held: map<RuleId, AlertMap> := map[];
    NothingListed(rules);
    var i := 0;
    while i < |groups|
      invariant 0 <= i <= |groups|
      invariant Listed(rules, ends[i], all, held)
    {
      all, held := WithLiveOf(groups[i], rules, ends[i], ends[i + 1], all, held);
      i := i + 1;
    }
    assert rules[..|rules|] == rules;
    HeldIsShown(rules, held, shown);
  }

  method WithLiveOf(g: Group, ghost rules: seq<AlertingRule>, ghost k: nat, ghost m: nat,
                    all: seq<Instance>, ghost held: map<RuleId, AlertMap>)
    returns (all': seq<Instance>, ghost held': map<RuleId, AlertMap>)
    requires DistinctIds(rules) && AllOwned(rules)
    requires k <= m <= |rules| && g.rules == rules[k..m]
    requires Listed(rules, k, all, held)
    ensures Listed(rules, m, all', held')
  {
    PartsApart(rules, k, m);
    ghost var more;
    var live;
    live, more := LiveInstances(g.rules);
    ListStretch(rules, k, m, all, held, live, more);
    all', held' := all + live, held + more;
  }

  lemma ListStretch(rules: seq<AlertingRule>, k: nat, m: nat, all: seq<Instance>, held: map<RuleId, AlertMap>,
                    live: seq<Instance>, more: map<RuleId, AlertMap>)
    requires k <= m <= |rules| && Ids(rules[..k]) !! Ids(rules[k..m])
    requires Listed(rules, k, all, held)
    requires Holds(rules[k..m], more) && Lists(live, AllInstances(more))
    ensures Listed(rules, m, all + live, held + more)
  {
    assert rules[..m] == rules[..k] + rules[k..m];
    HoldsJoin(rules[..k], held, rules[k..m], more);
    ListsJoin(all, held, live, more);
  }

  lemma ListsJoin(all: seq<Instance>, held: map<RuleId, AlertMap>, live: seq<Instance>, more: map<RuleId, AlertMap>)
    requires held.Keys !! more.Keys
    requires Lists(all, AllInstances(held)) && Lists(live, AllInstances(more))
    ensures Lists(all + live, AllInstances(held + more))
  {
    InstancesJoin(held, more);
    ListingsJoin(all, AllInstances(held), live, AllInstances(more));
  }

  /** A graceful stop: every rule's instances and every unwritten retirement are saved in one batch. */
  method PersistAllState(groups: seq<Group>, store: Store, queue: Queue,
                         ghost rules: seq<AlertingRule>, ghost ends: seq<nat>, ghost s: System)
    returns (saveOk: bool, ghost step: Step)
    requires Chained(groups, rules, ends) && DistinctIds(rules) && AllOwned(rules)
    requires s.up && Holds(rules, s.rules)
    requires queue.pending == s.pending && store.log == s.log && store.table == s.table
    modifies store`table
    ensures step.Stop? && step.saveOk == saveOk && Can(s, step)
    ensures store.table == After(s, step).table && store.log == After(s, step).log
    ensures saveOk && Promised(s) ==> Promised(After(s, step))
  {
    var all := AllLive(groups, rules, ends, s.rules);
    var unwritten := queue.Unwritten();
    saveOk := true;
    if |all + unwritten| > 0 {
      saveOk := store.Save(all + unwritten);
    }
    step := Stop(all, saveOk);
    if saveOk && Promised(s) {
      EveryStepKeeps(s, step);
    }
  }

  lemma HoldsJoin(a: seq<AlertingRule>, m: map<RuleId, AlertMap>, b: seq<AlertingRule>, m': map<RuleId, AlertMap>)
    requires Holds(a, m) && Holds(b, m') && Ids(a) !! Ids(b)
    ensures Holds(a + b, m + m')
  {
    JoinedRules(a, b);
  }

  lemma HeldIsShown(rules: seq<AlertingRule>, m: map<RuleId, AlertMap>, m': map<RuleId, AlertMap>)
    requires Holds(rules, m) && Holds(rules, m')
    ensures m == m'
  {
    IdsAreTheirs(rules);
    forall id | id in m ensures m[id] == m'[id] {
      var i :| 0 <= i < |rules| && rules[i].ruleId == id;
    }
  }

  /** A stretch of distinct rules is distinct, and apart from what comes before it. */
  lemma PartsApart(rules: seq<AlertingRule>, k: nat, m: nat)
    requires DistinctIds(rules) && k <= m <= |rules|
    ensures DistinctIds(rules[k..m]) && Ids(rules[..k]) !! Ids(rules[k..m])
  {
    assert rules == rules[..m] + rules[m..];
    JoinedRules(rules[..m], rules[m..]);
    assert rules[..m] == rules[..k] + rules[k..m];
    JoinedRules(rules[..k], rules[k..m]);
  }

  /** The firing instances of a loaded state whose rule no group carries. */
  method UnclaimedBy(instances: seq<Instance>, groups: seq<Group>, ghost rules: seq<AlertingRule>, ghost ends: seq<nat>)
    returns (out: seq<Instance>)
    requires Chained(groups, rules, ends)
    ensures out == Lifecycle.Unclaimed(instances, Ids(rules))
  {
    var ids := AllIds(groups, rules, ends);
    out := [];
    var i := 0;
    while i < |instances|
      invariant 0 <= i <= |instances|
      invariant out == Lifecycle.Unclaimed(instances[..i], ids)
    {
      var inst := instances[i];
      assert instances[..i + 1][..i] == instances[..i];
      if inst.state == Firing && inst.ruleId !in ids {
        out := out + [inst];
      }
      i := i + 1;
    }
    assert instances[..i] == instances;
  }

  method AllIds(groups: seq<Group>, ghost rules: seq<AlertingRule>, ghost ends: seq<nat>) returns (ids: set<RuleId>)
    requires Chained(groups, rules, ends)
    ensures ids == Ids(rules)
  {
    ids := {};
    var i := 0;
    while i < |groups|
      invariant 0 <= i <= |groups| && ends[i] <= |rules|
      invariant ids == Ids(rules[..ends[i]])
    {
      var group := groups[i].rules;
      var j := 0;
      while j < |group|
        invariant 0 <= j <= |group|
        invariant ids == Ids(rules[..ends[i]]) + Ids(group[..j])
      {
        assert group[..j + 1][..j] == group[..j];
        ids := ids + {group[j].ruleId};
        j := j + 1;
      }
      assert group[..j] == group;
      assert rules[..ends[i + 1]] == rules[..ends[i]] + group;
      JoinedRules(rules[..ends[i]], group);
      i := i + 1;
    }
    assert rules[..ends[i]] == rules;
  }

  /** Restores every group from the loaded state. */
  method RestoreGroups(groups: seq<Group>, ghost rules: seq<AlertingRule>, ghost ends: seq<nat>, loaded: seq<Instance>)
    requires Chained(groups, rules, ends) && DistinctIds(rules)
    requires NoneHeld(rules)
    modifies rules`alerts
    ensures forall i :: 0 <= i < |rules| ==> rules[i].alerts == Restored(map[], loaded, rules[i].ruleId)
  {
    var i := 0;
    while i < |groups|
      invariant 0 <= i <= |groups| && ends[i] <= |rules|
      invariant forall j :: 0 <= j < ends[i] ==> rules[j].alerts == Restored(map[], loaded, rules[j].ruleId)
      invariant forall j :: ends[i] <= j < |rules| ==> rules[j].alerts == map[]
    {
      RestoreStretch(groups[i], rules, ends[i], ends[i + 1], loaded);
      i := i + 1;
    }
  }

  method RestoreStretch(g: Group, ghost rules: seq<AlertingRule>, ghost k: nat, ghost m: nat, loaded: seq<Instance>)
    requires DistinctIds(rules) && k <= m <= |rules| && g.rules == rules[k..m]
    requires forall j :: k <= j < m ==> rules[j].alerts == map[]
    modifies g.rules`alerts
    ensures forall j :: k <= j < m ==> rules[j].alerts == Restored(map[], loaded, rules[j].ruleId)
    ensures forall j :: 0 <= j < |rules| && !(k <= j < m) ==> rules[j].alerts == old(rules[j].alerts)
  {
    PartsApart(rules, k, m);
    StretchApart(rules, k, m);
    assert forall j :: 0 <= j < m - k ==> g.rules[j] == rules[k + j];
    g.RestoreState(loaded);
    assert forall j :: k <= j < m ==> rules[j] == g.rules[j - k];
  }

  /** No rule outside a stretch of distinct rules is in it. */
  lemma StretchApart(rules: seq<AlertingRule>, k: nat, m: nat)
    requires DistinctIds(rules) && k <= m <= |rules|
    ensures forall j :: 0 <= j < |rules| && !(k <= j < m) ==> rules[j] !in rules[k..m]
  {
    forall j | 0 <= j < |rules| && !(k <= j < m) ensures rules[j] !in rules[k..m] {
      OthersDiffer(rules, j);
    }
  }

  /** A start: load the active instances, restore every group, and resolve what no group claims. */
  method StartUp(groups: seq<Group>, ghost rules: seq<AlertingRule>, ghost ends: seq<nat>,
                 store: Store, queue: Queue, at: Time)
    returns (loadOk: bool, ghost steps: seq<Step>, ghost s': System)
    requires Chained(groups, rules, ends) && DistinctIds(rules)
    requires NoneHeld(rules)
    requires queue.Valid() && queue.store == store && queue.pending == []
    modifies rules`alerts, queue, store
    ensures Leads(Down(old(store.log), old(store.table)), steps, s', loadOk)
    ensures steps != [] && steps[0].Start? && steps[0].ids == Ids(rules) && steps[0].loadOk == loadOk
    ensures loadOk && Promised(Down(old(store.log), old(store.table))) ==> Promised(s')
    ensures s'.up && Chained(groups, rules, ends) && AllOwned(rules) && Holds(rules, s'.rules)
    ensures queue.Valid() && queue.pending == s'.pending && store.log == s'.log && store.table == s'.table
  {
    var loaded;
    loadOk, loaded := store.LoadActive();
    RestoreGroups(groups, rules, ends, loaded);
    var unclaimed := UnclaimedBy(loaded, groups, rules, ends);
    steps, s' := ResolveAtStart(queue, store, Start(Ids(rules), at, loaded, loadOk), at, unclaimed);
    HoldsRestored(rules, loaded);
    StartKeepsPromise(Down(old(store.log), old(store.table)), steps, s', loadOk);
  }

  lemma StartKeepsPromise(s: System, steps: seq<Step>, s': System, loadOk: bool)
    requires Leads(s, steps, s', loadOk)
    ensures loadOk && Promised(s) ==> Promised(s')
  {
    if loadOk && Promised(s) {
      CleanRunKeeps(s, steps, s');
    }
  }

  /** The system while the process is stopped. */
  function Down(log: Log, table: Table): System {
    System(false, map[], [], log, table)
  }

  /** After a start, each group is shown by the system. */
  lemma EachGroupIsShown(groups: seq<Group>, rules: seq<AlertingRule>, ends: seq<nat>, i: nat,
                          shown: map<RuleId, AlertMap>)
    requires Chained(groups, rules, ends) && i < |groups|
    requires Holds(rules, shown)
    ensures RulesShown(groups[i].rules, shown)
  {
    forall j | 0 <= j < |groups[i].rules|
      ensures var r := groups[i].rules[j]; r.ruleId in shown && shown[r.ruleId] == r.alerts
    {
      assert groups[i].rules[j] == rules[ends[i] + j];
    }
  }

  method ResolveAtStart(queue: Queue, store: Store, ghost start: Step, at: Time, unclaimed: seq<Instance>)
    returns (ghost steps: seq<Step>, ghost s': System)
    requires queue.Valid() && queue.store == store && queue.pending == []
    requires start.Start? && Can(Down(store.log, store.table), start)
    requires unclaimed == Lifecycle.Unclaimed(start.loaded, start.ids) && at == start.at
    modifies queue, store
    ensures Leads(Down(old(store.log), old(store.table)), steps, s', start.loadOk)
    ensures steps != [] && steps[0] == start && s'.up
    ensures s'.rules == RestoredAll(start.ids, start.loaded)
    ensures queue.Valid() && queue.pending == s'.pending && store.log == s'.log && store.table == s'.table
  {
    ghost var ok, saved := queue.Resolve(at, unclaimed);
    assert [] + Submission(at, unclaimed) == Submission(at, unclaimed);
    steps, s' := StartIsRun(old(store.log), old(store.table), start, ok, saved);
  }

  lemma HoldsRestored(rules: seq<AlertingRule>, loaded: seq<Instance>)
    requires forall i :: 0 <= i < |rules| ==> rules[i].alerts == Restored(map[], loaded, rules[i].ruleId)
    ensures Holds(rules, RestoredAll(Ids(rules), loaded)) && AllOwned(rules)
  {
    IdsAreTheirs(rules);
    forall i | 0 <= i < |rules| ensures Owned(rules[i].alerts, rules[i].ruleId) {
      RestoredOwned(map[], loaded, rules[i].ruleId);
    }
  }

  /** What a start leaves once the retirements it queued, if any, are flushed. */
  lemma StartIsRun(log: Log, table: Table, start: Step, ok: seq<bool>, saved: seq<bool>)
    returns (steps: seq<Step>, s': System)
    requires start.Start? && Can(Down(log, table), start)
    requires var queued := Submission(start.at, Lifecycle.Unclaimed(start.loaded, start.ids));
             queued != [] ==> |ok| == |saved| == |queued|
    ensures Leads(Down(log, table), steps, s', start.loadOk)
    ensures steps != [] && steps[0] == start
    ensures s'.up && s'.rules == RestoredAll(start.ids, start.loaded)
    ensures var queued := Submission(start.at, Lifecycle.Unclaimed(start.loaded, start.ids));
            if queued == [] then s'.pending == [] && s'.log == log && s'.table == table
            else s'.pending == Kept(queued, ok) && s'.log == log + LogOf(Landed(queued, ok))
                 && s'.table == FlushedTable(table, queued, ok, saved)
  {
    var s := Down(log, table);
    NoSteps(s);
    OneMoreStep(s, [], s, start, start.loadOk);
    steps, s' := [start], After(s, start);
    assert [] + [start] == [start];
    if s'.pending != [] {
      OneMoreStep(s, steps, s', Lifecycle.Flush(ok, saved), start.loadOk);
      steps, s' := steps + [Lifecycle.Flush(ok, saved)], After(s', Lifecycle.Flush(ok, saved));
    }
  }
}
