/** One group's part in a reload, and what its turn or its tick leaves alone. */
module Slots {
  import opened Alerts
  import opened AlertingRules
  import opened StateStore
  import opened RetirementQueues
  import opened Scheduler
  import opened Lifecycle
  import opened RuleSets
  import opened Groups
  import opened GroupRuns
  import opened Processes

  /** A group and what a reload does to it. */
  datatype Slot =
    | Stays(g: Group)
    | Changes(g: Group, ng: Group, plan: Plan)
    | Leaves(g: Group)
    | Begins(g: Group)
    | Gone(g: Group)

  /** The rule IDs of a slot, before its turn and after. */
  datatype Claim = Claim(was: set<RuleId>, will: set<RuleId>)
  {
    function Held(done: bool): set<RuleId> {
      if done then will else was
    }
  }

  // ----- In order -----

  /** The group runs over this queue and holds what the system shows. */
  ghost predicate Served(g: Group, queue: Queue, shown: map<RuleId, AlertMap>, ids: set<RuleId>)
    reads g, g.rules
  {
    g.retire == queue && g.Valid() && RulesShown(g.rules, shown) && Ids(g.rules) == ids
  }

  /** A new configuration for a group: its rules hold nothing and are objects of their own. */
  ghost predicate Prepared(g: Group, ng: Group, plan: Plan)
    reads g, ng, ng.rules
  {
    && ng != g && ng.Valid() && ng.Serves(plan)
    && NoneHeld(ng.rules) && forall r :: r in ng.rules ==> r !in g.rules
  }

  /** A new group: its rules hold nothing yet. */
  ghost predicate Unstarted(g: Group, queue: Queue, ids: set<RuleId>)
    reads g, g.rules
  {
    g.retire == queue && g.Valid() && Ids(g.rules) == ids && NoneHeld(g.rules)
  }

  predicate Running(slot: Slot, done: bool) {
    !slot.Gone? && if done then !slot.Leaves? else !slot.Begins?
  }

  function Configured(slot: Slot): Group {
    if slot.Changes? then slot.ng else slot.g
  }

  /** The rules a slot has, and those that wait for its turn. */
  ghost function Footprint(slot: Slot, done: bool): set<AlertingRule>
    reads slot.g, Configured(slot)
  {
    (set r | r in slot.g.rules) + if slot.Changes? && !done then set r | r in slot.ng.rules else {}
  }

  /** A slot before its turn, and once it is done. */
  ghost predicate SlotInOrder(slot: Slot, done: bool, queue: Queue, shown: map<RuleId, AlertMap>, claim: Claim)
    reads slot.g, Configured(slot), Footprint(slot, done)
  {
    && (Running(slot, done) ==> Served(slot.g, queue, shown, claim.Held(done)))
    && match slot
       case Stays(_) => claim.will == claim.was
       case Changes(g, ng, plan) => claim.will == plan.rules.Keys && (done || Prepared(g, ng, plan))
       case Leaves(_) => claim.will == {}
       case Begins(g) => claim.was == {} && (done || Unstarted(g, queue, claim.will))
       case Gone(_) => claim.was == claim.will == {}
  }

  /** The shared queue and tables are as the system shows them. */
  ghost predicate QueueShown(queue: Queue, store: Store, s: System)
    reads queue, store
  {
    && s.up && queue.Valid() && queue.store == store
    && queue.pending == s.pending && store.log == s.log && store.table == s.table
  }

  /** A slot in order stays so when the system changes outside its IDs. */
  lemma OutsideClaim(slot: Slot, done: bool, queue: Queue, shown: map<RuleId, AlertMap>, shown': map<RuleId, AlertMap>,
                     claim: Claim)
    requires SlotInOrder(slot, done, queue, shown, claim)
    requires forall id :: id in claim.Held(done) ==> Get(shown', id) == Get(shown, id)
    ensures SlotInOrder(slot, done, queue, shown', claim)
  {
    if Running(slot, done) {
      IdsAreTheirs(slot.g.rules);
      forall i | 0 <= i < |slot.g.rules| ensures Get(shown', slot.g.rules[i].ruleId) == Some(slot.g.rules[i].alerts) {
        assert slot.g.rules[i].ruleId in claim.Held(done);
      }
    }
  }

  /** Only the IDs in `ids` change what they show; of these, those in `now` are shown at most. */
  ghost predicate OnlyIn(shown: map<RuleId, AlertMap>, shown': map<RuleId, AlertMap>,
                         was: set<RuleId>, now: set<RuleId>)
  {
    && shown'.Keys <= shown.Keys - was + now
    && forall id :: id !in was + now ==> Get(shown', id) == Get(shown, id)
  }

  // ----- A turn -----

  /** None of `others` is the group, a rule of it, the queue or the tables. */
  ghost predicate Beside(others: set<object>, g: Group, queue: Queue, store: Store)
    reads g
  {
    forall o :: o in others ==> o != g && o !in g.rules && o != queue && o != store
  }

  method ChangeSlot(slot: Slot, queue: Queue, store: Store, at: Time, ghost claim: Claim, ghost s: System)
    returns (ghost steps: seq<Step>, ghost s': System)
    requires slot.Changes? && SlotInOrder(slot, false, queue, s.rules, claim) && QueueShown(queue, store, s)
    requires claim.will !! s.rules.Keys - claim.was
    modifies slot.g, slot.g.rules, queue, store
    ensures SlotInOrder(slot, true, queue, s'.rules, claim) && QueueShown(queue, store, s')
    ensures Footprint(slot, true) <= old(Footprint(slot, false))
    ensures Leads(s, steps, s', true) && (Promised(s) ==> Promised(s'))
    ensures OnlyIn(s.rules, s'.rules, claim.was, claim.will)
  {
    steps, s' := Update(slot.g, slot.ng, store, at, slot.plan, s);
  }

  /** What a reload does to one slot: a run of clean steps that stays within the slot's IDs. */
  method DoSlot(slot: Slot, queue: Queue, store: Store, at: Time, ghost claim: Claim, ghost s: System)
    returns (ghost steps: seq<Step>, ghost s': System)
    requires SlotInOrder(slot, false, queue, s.rules, claim) && QueueShown(queue, store, s)
    requires claim.will !! s.rules.Keys - claim.was
    modifies slot.g, slot.g.rules, queue, store
    ensures SlotInOrder(slot, true, queue, s'.rules, claim) && QueueShown(queue, store, s')
    ensures Footprint(slot, true) <= old(Footprint(slot, false))
    ensures Leads(s, steps, s', true) && (Promised(s) ==> Promised(s'))
    ensures OnlyIn(s.rules, s'.rules, claim.was, claim.will)
  {
    match slot
    case Stays(_) | Gone(_) =>
      steps, s' := [], s;
      NoSteps(s);
    case Changes(g, ng, plan) =>
      steps, s' := ChangeSlot(slot, queue, store, at, claim, s);
    case Leaves(g) =>
      steps, s' := Remove(g, store, at, s);
    case Begins(g) =>
      s' := Launch(g, store, s);
      steps := [Add(Ids(g.rules))];
  }

  /** A slot's turn beside the others. */
  method DoBesides(slot: Slot, g: Group, queue: Queue, store: Store, at: Time, ghost claim: Claim,
                   ghost others: set<object>, ghost s: System)
    returns (ghost steps: seq<Step>, ghost s': System)
    requires g == slot.g && Beside(others, g, queue, store)
    requires SlotInOrder(slot, false, queue, s.rules, claim) && QueueShown(queue, store, s)
    requires claim.will !! s.rules.Keys - claim.was
    modifies g, g.rules, queue, store
    ensures unchanged(others)
    ensures SlotInOrder(slot, true, queue, s'.rules, claim) && QueueShown(queue, store, s')
    ensures Footprint(slot, true) <= old(Footprint(slot, false))
    ensures Leads(s, steps, s', true) && (Promised(s) ==> Promised(s'))
    ensures OnlyIn(s.rules, s'.rules, claim.was, claim.will)
  {
    steps, s' := DoSlot(slot, queue, store, at, claim, s);
  }

  // ----- A tick -----

  /** A tick beside what it does not depend on. */
  method TickBesides(g: Group, queue: Queue, store: Store, answers: seq<Answer>, now: Time, at: Time,
                     ghost others: set<object>, ghost ids: set<RuleId>, ghost s: System)
    returns (sent: seq<Instance>, evals: seq<Evaluation>,
             ghost outcomes: seq<Outcome>, ghost recorded: bool, ghost steps: seq<Step>, ghost s': System)
    requires Served(g, queue, s.rules, ids) && QueueShown(queue, store, s) && Beside(others, g, queue, store)
    requires |answers| == |g.rules| && g.EvalTime(now) > 0
    modifies g.rules, queue, store
    ensures unchanged(others) && unchanged(g)
    ensures Served(g, queue, s'.rules, ids) && QueueShown(queue, store, s')
    ensures |outcomes| == |g.rules|
    ensures Leads(s, steps, s', recorded && WithinLimits(outcomes))
    ensures recorded && WithinLimits(outcomes) && Promised(s) ==> Promised(s')
    ensures OnlyIn(s.rules, s'.rules, ids, ids)
  {
    sent, evals, outcomes, recorded, steps, s' := Tick(g, store, answers, now, at, s);
    KeysOutside(s.rules, s'.rules, ids);
  }

  lemma KeysOutside(shown: map<RuleId, AlertMap>, shown': map<RuleId, AlertMap>, ids: set<RuleId>)
    requires forall id :: id !in ids ==> Get(shown', id) == Get(shown, id)
    ensures OnlyIn(shown, shown', ids, ids)
  {
    assert forall id :: id !in ids ==> Get(shown', id) == Get(shown, id);
  }

  /** The new configuration that waits for a slot's turn. */
  ghost function Awaiting(slot: Slot, done: bool): set<object>
    reads Configured(slot)
  {
    if slot.Changes? && !done then {slot.ng} + set r: AlertingRule | r in slot.ng.rules else {}
  }

  /** It is none of the group's, and while it stays as it is the slot stays in order. */
  lemma AwaitingIsBeside(slot: Slot, done: bool, queue: Queue, store: Store, shown: map<RuleId, AlertMap>, claim: Claim)
    requires SlotInOrder(slot, done, queue, shown, claim)
    ensures Beside(Awaiting(slot, done), slot.g, queue, store)
  {
  }

  twostate predicate StaysPrepared(g: Group, ng: Group, plan: Plan): (stay: bool)
    requires old(Prepared(g, ng, plan)) && unchanged(g) && unchanged(ng) && unchanged(ng.rules)
    reads *
    ensures stay
  {
    Prepared(g, ng, plan)
  }

  twostate predicate StaysInOrder(slot: Slot, done: bool, queue: Queue, shown: map<RuleId, AlertMap>,
                                  new shown': map<RuleId, AlertMap>, claim: Claim): (stay: bool)
    requires Running(slot, done) && old(SlotInOrder(slot, done, queue, shown, claim))
    requires Served(slot.g, queue, shown', claim.Held(done))
    requires unchanged(slot.g) && unchanged(old(Awaiting(slot, done)))
    reads *
    ensures stay
  {
    assert slot.Changes? && !done ==>
        unchanged(slot.ng) && unchanged(slot.ng.rules) && StaysPrepared(slot.g, slot.ng, slot.plan);
    SlotInOrder(slot, done, queue, shown', claim) && Footprint(slot, done) == old(Footprint(slot, done))
  }
}
