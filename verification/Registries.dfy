/**
  All the groups of a process together: while one ticks, is updated, stopped
  or started, the others stay what the system shows of them.
 */
module Registries {
  import opened Alerts
  import opened AlertingRules
  import opened StateStore
  import opened RetirementQueues
  import opened Scheduler
  import opened Lifecycle
  import opened RuleSets
  import opened Groups
  import opened GroupRuns
  import opened Processes
  import opened Slots

  /**
    Different slots have different groups; no two have an ID in common, before
    the reload or after it, and none takes an ID that a later slot gives up.
   */
  ghost predicate SlotsApart(slots: seq<Slot>, claims: seq<Claim>) {
    && |claims| == |slots|
    && (forall i, j :: 0 <= i < |slots| && 0 <= j < |slots| && i != j ==>
          slots[i].g != slots[j].g && Configured(slots[i]) != slots[j].g)
    && forall i, j :: 0 <= i < j < |claims| ==>
         && claims[i].was !! claims[j].was && claims[i].will !! claims[j].will
         && claims[i].will !! claims[j].was
  }

  /** No two slots depend on the same rule. */
  ghost predicate FootprintsApart(slots: seq<Slot>, done: nat)
    reads *
  {
    forall i, j :: 0 <= i < |slots| && 0 <= j < |slots| && i != j ==>
      Footprint(slots[i], i < done) !! Footprint(slots[j], j < done)
  }

  /** Every slot is in order, and no rule is shown that no slot has. */
  ghost predicate AllInOrder(slots: seq<Slot>, claims: seq<Claim>, done: nat, queue: Queue,
                             shown: map<RuleId, AlertMap>)
    requires |claims| == |slots|
    reads *
  {
    && (forall i :: 0 <= i < |slots| ==> SlotInOrder(slots[i], i < done, queue, shown, claims[i]))
    && forall id :: id in shown ==> exists i :: 0 <= i < |claims| && id in claims[i].Held(i < done)
  }

  /** The whole process: every slot in order, the first `done` of them after their turn. */
  ghost predicate Together(slots: seq<Slot>, claims: seq<Claim>, done: nat, queue: Queue, store: Store, s: System)
    reads *
  {
    && SlotsApart(slots, claims) && FootprintsApart(slots, done)
    && QueueShown(queue, store, s) && AllInOrder(slots, claims, done, queue, s.rules)
  }

  // ----- One slot and the others -----

  ghost function Depends(slot: Slot, done: bool): set<object>
    reads slot.g, Configured(slot)
  {
    {slot.g, Configured(slot)} + Footprint(slot, done)
  }

  /** All that the slots other than `i` depend on is among `others`. */
  ghost predicate Covers(others: set<object>, slots: seq<Slot>, i: nat, done: nat)
    reads *
  {
    forall j :: 0 <= j < |slots| && j != i ==> Depends(slots[j], j < done) <= others
  }

  /** Any slot can be worked on beside the others. */
  lemma OthersOf(slots: seq<Slot>, claims: seq<Claim>, i: nat, done: nat, queue: Queue, store: Store)
    returns (others: set<object>)
    requires i < |slots| && SlotsApart(slots, claims) && FootprintsApart(slots, done)
    ensures Covers(others, slots, i, done) && Beside(others, slots[i].g, queue, store)
  {
    others := {};
    for n := 0 to |slots|
      invariant forall j :: 0 <= j < n && j != i ==> Depends(slots[j], j < done) <= others
      invariant Beside(others, slots[i].g, queue, store)
    {
      if n != i {
        assert forall r :: r in slots[i].g.rules ==> r in Footprint(slots[i], i < done);
        others := others + Depends(slots[n], n < done);
      }
    }
  }

  /** A slot has the IDs it takes to itself once its turn has come. */
  lemma RoomForTurn(slots: seq<Slot>, claims: seq<Claim>, i: nat, queue: Queue, shown: map<RuleId, AlertMap>)
    requires i < |slots| && SlotsApart(slots, claims) && AllInOrder(slots, claims, i, queue, shown)
    ensures claims[i].will !! shown.Keys - claims[i].was
  {
    forall id | id in shown && id !in claims[i].was ensures id !in claims[i].will {
      var j :| 0 <= j < |claims| && id in claims[j].Held(j < i);
    }
  }

  /** The IDs one slot holds or takes are none of those another holds. */
  lemma ClaimsApart(slots: seq<Slot>, claims: seq<Claim>, i: nat, done: nat, done': nat, j: nat)
    requires i < |slots| && j < |slots| && i != j && SlotsApart(slots, claims)
    requires done' == done || done' == done + 1 == i + 1
    ensures claims[j].Held(j < done) !! claims[i].Held(i < done) + claims[i].Held(i < done')
  {
  }

  /** With slot `i` in order again and the others as they were, all are. */
  lemma AllAgain(slots: seq<Slot>, claims: seq<Claim>, i: nat, done: nat, done': nat, queue: Queue,
                 shown: map<RuleId, AlertMap>, shown': map<RuleId, AlertMap>)
    requires i < |slots| && SlotsApart(slots, claims) && (done' == done || done' == done + 1 == i + 1)
    requires forall j :: 0 <= j < |slots| && j != i ==> SlotInOrder(slots[j], j < done, queue, shown, claims[j])
    requires SlotInOrder(slots[i], i < done', queue, shown', claims[i])
    requires forall id :: id in shown ==> exists j :: 0 <= j < |claims| && id in claims[j].Held(j < done)
    requires OnlyIn(shown, shown', claims[i].Held(i < done), claims[i].Held(i < done'))
    ensures AllInOrder(slots, claims, done', queue, shown')
  {
    forall j | 0 <= j < |slots| && j != i ensures SlotInOrder(slots[j], j < done', queue, shown', claims[j]) {
      ClaimsApart(slots, claims, i, done, done', j);
      OutsideClaim(slots[j], j < done, queue, shown, shown', claims[j]);
    }
    forall id | id in shown' ensures exists j :: 0 <= j < |claims| && id in claims[j].Held(j < done') {
      if id in claims[i].Held(i < done') {
      } else {
        assert id in shown && id !in claims[i].Held(i < done);
        var j :| 0 <= j < |claims| && id in claims[j].Held(j < done);
        assert j != i && id in claims[j].Held(j < done');
      }
    }
  }

  /** Nothing that another slot depends on has changed. */
  twostate predicate OthersUntouched(slots: seq<Slot>, i: nat, done: nat)
    reads *
  {
    forall j :: 0 <= j < |slots| && j != i ==> unchanged(old(Depends(slots[j], j < done)))
  }

  twostate predicate LeaveUntouched(others: set<object>, slots: seq<Slot>, i: nat, done: nat): (untouched: bool)
    requires old(Covers(others, slots, i, done)) && unchanged(others)
    reads *
    ensures untouched
  {
    OthersUntouched(slots, i, done)
  }

  /** Then every slot but `i` stays in order. */
  twostate predicate OthersStay(slots: seq<Slot>, claims: seq<Claim>, i: nat, done: nat, queue: Queue,
                                shown: map<RuleId, AlertMap>): (stay: bool)
    requires |claims| == |slots|
    requires old(AllInOrder(slots, claims, done, queue, shown)) && OthersUntouched(slots, i, done)
    reads *
    ensures stay
  {
    forall j :: 0 <= j < |slots| && j != i ==> SlotInOrder(slots[j], j < done, queue, shown, claims[j])
  }

  /** And no two slots come to depend on the same rule if slot `i` takes up none. */
  twostate predicate StayApart(slots: seq<Slot>, i: nat, done: nat, done': nat): (stay: bool)
    requires i < |slots| && (done' == done || done' == done + 1 == i + 1)
    requires old(FootprintsApart(slots, done)) && OthersUntouched(slots, i, done)
    requires Footprint(slots[i], i < done') <= old(Footprint(slots[i], i < done))
    reads *
    ensures stay
  {
    assert forall j :: 0 <= j < |slots| && j != i ==>
        Footprint(slots[j], j < done') == old(Footprint(slots[j], j < done));
    FootprintsApart(slots, done')
  }

  // ----- A reload -----

  /** One slot's turn: the system goes on by a run of clean steps, and the process stays together. */
  method StepSlot(slots: seq<Slot>, ghost claims: seq<Claim>, i: nat, g: Group, queue: Queue, store: Store,
                  at: Time, ghost s: System)
    returns (ghost steps: seq<Step>, ghost s': System)
    requires i < |slots| && g == slots[i].g && Together(slots, claims, i, queue, store, s)
    modifies g, g.rules, queue, store
    ensures Together(slots, claims, i + 1, queue, store, s') && OthersUntouched(slots, i, i)
    ensures Leads(s, steps, s', true) && (Promised(s) ==> Promised(s'))
  {
    RoomForTurn(slots, claims, i, queue, s.rules);
    ghost var others := OthersOf(slots, claims, i, i, queue, store);
    steps, s' := DoBesides(slots[i], g, queue, store, at, claims[i], others, s);
    assert LeaveUntouched(others, slots, i, i);
    assert OthersStay(slots, claims, i, i, queue, s.rules) && StayApart(slots, i, i, i + 1);
    AllAgain(slots, claims, i, i, i + 1, queue, s.rules, s'.rules);
  }

  /** The groups of the slots from the i-th on, and the rules they have, are in `frame`. */
  ghost predicate Reached(slots: seq<Slot>, i: nat, frame: set<object>)
    reads *
  {
    forall j :: i <= j < |slots| ==>
      slots[j].g in frame && forall k :: 0 <= k < |slots[j].g.rules| ==> slots[j].g.rules[k] in frame
  }

  method StepReached(slots: seq<Slot>, ghost claims: seq<Claim>, i: nat, g: Group, queue: Queue, store: Store,
                     at: Time, ghost frame: set<object>, ghost s: System)
    returns (ghost steps: seq<Step>, ghost s': System)
    requires i < |slots| && g == slots[i].g && Together(slots, claims, i, queue, store, s)
    requires Reached(slots, i, frame)
    modifies g, g.rules, queue, store
    ensures Together(slots, claims, i + 1, queue, store, s')
    ensures Leads(s, steps, s', true) && (Promised(s) ==> Promised(s'))
    ensures Reached(slots, i + 1, frame)
  {
    steps, s' := StepSlot(slots, claims, i, g, queue, store, at, s);
  }

  /**
    A whole reload, one turn after the other: a run of clean steps, and every
    slot is done. Only the groups, the rules they had, the queue and the
    tables are touched.
   */
  method ReloadSlots(slots: seq<Slot>, ghost claims: seq<Claim>, queue: Queue, store: Store, at: Time,
                     ghost frame: set<object>, ghost s: System)
    returns (ghost steps: seq<Step>, ghost s': System)
    requires Together(slots, claims, 0, queue, store, s) && Reached(slots, 0, frame)
    modifies frame, queue, store
    ensures Together(slots, claims, |slots|, queue, store, s')
    ensures Leads(s, steps, s', true) && (Promised(s) ==> Promised(s'))
  {
    steps, s' := [], s;
    NoSteps(s);
    for i := 0 to |slots|
      invariant Together(slots, claims, i, queue, store, s') && Reached(slots, i, frame)
      invariant Leads(s, steps, s', true) && (Promised(s) ==> Promised(s'))
    {
      ghost var was, more := s', [];
      more, s' := StepReached(slots, claims, i, slots[i].g, queue, store, at, frame, was);
      RunsJoin(s, steps, was, more, s', true);
      steps := steps + more;
    }
  }

  // ----- A tick -----

  /**
    A tick of one running group between the turns of a reload, or with no
    reload at all: a run of the system, with every other group left as it was.
   */
  method TickSlot(slots: seq<Slot>, ghost claims: seq<Claim>, i: nat, done: nat, g: Group, queue: Queue,
                  store: Store, answers: seq<Answer>, now: Time, at: Time, ghost s: System)
    returns (sent: seq<Instance>, evals: seq<Evaluation>,
             ghost outcomes: seq<Outcome>, ghost recorded: bool, ghost steps: seq<Step>, ghost s': System)
    requires i < |slots| && g == slots[i].g && Running(slots[i], i < done)
    requires Together(slots, claims, done, queue, store, s)
    requires |answers| == |g.rules| && g.EvalTime(now) > 0
    modifies g.rules, queue, store
    ensures Together(slots, claims, done, queue, store, s') && OthersUntouched(slots, i, done)
    ensures |outcomes| == |g.rules|
    ensures Leads(s, steps, s', recorded && WithinLimits(outcomes))
    ensures recorded && WithinLimits(outcomes) && Promised(s) ==> Promised(s')
  {
    AwaitingIsBeside(slots[i], i < done, queue, store, s.rules, claims[i]);
    ghost var others := OthersOf(slots, claims, i, done, queue, store);
    ghost var apart := others + Awaiting(slots[i], i < done);
    sent, evals, outcomes, recorded, steps, s' :=
      TickBesides(g, queue, store, answers, now, at, apart, claims[i].Held(i < done), s);
    assert StaysInOrder(slots[i], i < done, queue, s.rules, s'.rules, claims[i]);
    assert LeaveUntouched(others, slots, i, done);
    assert OthersStay(slots, claims, i, done, queue, s.rules) && StayApart(slots, i, done, done);
    AllAgain(slots, claims, i, done, done, queue, s.rules, s'.rules);
  }

  // ----- From start to stop -----

  /** The rules of one group come before those of the next. */
  lemma {:induction false} EndsInOrder(groups: seq<Group>, rules: seq<AlertingRule>, ends: seq<nat>, i: nat, j: nat)
    requires Chained(groups, rules, ends) && i <= j <= |groups|
    ensures ends[i] <= ends[j] <= |rules|
  {
    if j > 0 {
      var last := groups[j - 1];
      if i < j {
        EndsInOrder(groups, rules, ends, i, j - 1);
      }
    }
  }

  /** Every rule is some group's. */
  lemma {:induction false} SomeGroups(groups: seq<Group>, rules: seq<AlertingRule>, ends: seq<nat>, m: nat, n: nat)
    returns (i: nat)
    requires Chained(groups, rules, ends) && n <= |groups| && m < ends[n]
    ensures i < n && ends[n] <= |rules| && rules[m] in groups[i].rules
  {
    assert n > 0;
    i := n - 1;
    var last := groups[i];
    if m >= ends[i] {
      assert last.rules[m - ends[i]] == rules[m];
    } else {
      i := SomeGroups(groups, rules, ends, m, n - 1);
    }
  }

  /** Two groups of a chain of distinct rules have no rule and no ID in common. */
  lemma GroupsApart(groups: seq<Group>, rules: seq<AlertingRule>, ends: seq<nat>, i: nat, j: nat)
    requires Chained(groups, rules, ends) && DistinctIds(rules) && i < j < |groups|
    ensures Ids(groups[i].rules) !! Ids(groups[j].rules)
    ensures forall r :: r in groups[i].rules ==> r !in groups[j].rules
  {
    EndsInOrder(groups, rules, ends, i + 1, j);
    var g, h := groups[i], groups[j];
    PartsApart(rules, ends[j], ends[j + 1]);
    IdsAreTheirs(groups[i].rules);
    IdsAreTheirs(rules[..ends[j]]);
    forall id | id in Ids(groups[i].rules) ensures id in Ids(rules[..ends[j]]) {
      var k :| 0 <= k < |groups[i].rules| && groups[i].rules[k].ruleId == id;
      assert rules[..ends[j]][ends[i] + k] == groups[i].rules[k];
    }
    NoneInCommon(groups[i].rules, groups[j].rules);
  }

  lemma NoneInCommon(a: seq<AlertingRule>, b: seq<AlertingRule>)
    requires Ids(a) !! Ids(b)
    ensures forall r :: r in a ==> r !in b
  {
    IdsAreTheirs(a);
    IdsAreTheirs(b);
  }

  /** After a start the groups are together, each to stay. */
  lemma StartsTogether(groups: seq<Group>, rules: seq<AlertingRule>, ends: seq<nat>, slots: seq<Slot>,
                       claims: seq<Claim>, queue: Queue, store: Store, s: System)
    requires Chained(groups, rules, ends) && DistinctIds(rules) && AllOwned(rules) && Holds(rules, s.rules)
    requires QueueShown(queue, store, s) && |slots| == |claims| == |groups|
    requires forall i :: 0 <= i < |groups| ==>
               && slots[i] == Stays(groups[i]) && groups[i].retire == queue
               && claims[i] == Claim(Ids(groups[i].rules), Ids(groups[i].rules))
    requires forall i, j :: 0 <= i < |groups| && 0 <= j < |groups| && i != j ==> groups[i] != groups[j]
    ensures Together(slots, claims, 0, queue, store, s)
  {
    forall i, j | 0 <= i < j < |groups|
      ensures claims[i].was !! claims[j].was
      ensures Footprint(slots[i], i < 0) !! Footprint(slots[j], j < 0)
    {
      GroupsApart(groups, rules, ends, i, j);
    }
    forall i | 0 <= i < |groups| ensures SlotInOrder(slots[i], i < 0, queue, s.rules, claims[i]) {
      EachGroupIsShown(groups, rules, ends, i, s.rules);
      PartsApart(rules, ends[i], ends[i + 1]);
    }
    forall id | id in s.rules ensures exists i :: 0 <= i < |claims| && id in claims[i].Held(i < 0) {
      IdsAreTheirs(rules);
      var m :| 0 <= m < |rules| && rules[m].ruleId == id;
      var i := SomeGroups(groups, rules, ends, m, |groups|);
      IdsAreTheirs(groups[i].rules);
      assert id in claims[i].Held(i < 0);
    }
  }

  /** A slot of the next reload goes on from the same slot once done: it is gone, or has the IDs it was left with. */
  ghost predicate GoesOn(slot: Slot, claim: Claim, next: Slot, nextClaim: Claim)
    reads slot.g, Configured(next), Configured(next).rules
  {
    && next.g == slot.g && nextClaim.was == claim.will
    && if !Running(slot, true) then next.Gone? && nextClaim.will == {}
       else match next
            case Stays(_) => nextClaim.will == nextClaim.was
            case Changes(g, ng, plan) => nextClaim.will == plan.rules.Keys && Prepared(g, ng, plan)
            case Leaves(_) => nextClaim.will == {}
            case _ => false
  }

  /** A reload follows another: the slots that ran go on, and new ones may begin. */
  lemma NextReload(slots: seq<Slot>, claims: seq<Claim>, next: seq<Slot>, nextClaims: seq<Claim>, queue: Queue,
                   store: Store, s: System)
    requires Together(slots, claims, |slots|, queue, store, s) && |slots| <= |next| == |nextClaims|
    requires forall i :: 0 <= i < |slots| ==> GoesOn(slots[i], claims[i], next[i], nextClaims[i])
    requires forall i :: |slots| <= i < |next| ==>
               next[i].Begins? && nextClaims[i].was == {} && Unstarted(next[i].g, queue, nextClaims[i].will)
    requires SlotsApart(next, nextClaims) && FootprintsApart(next, 0)
    ensures Together(next, nextClaims, 0, queue, store, s)
  {
    forall i | 0 <= i < |next| ensures SlotInOrder(next[i], i < 0, queue, s.rules, nextClaims[i]) {
      if i < |slots| {
        assert SlotInOrder(slots[i], i < |slots|, queue, s.rules, claims[i]);
      }
    }
    forall id | id in s.rules ensures exists i :: 0 <= i < |nextClaims| && id in nextClaims[i].Held(i < 0) {
      var i :| 0 <= i < |claims| && id in claims[i].Held(i < |slots|);
      assert id in nextClaims[i].Held(i < 0);
    }
  }

  /** `groups` are those of the running slots, at their places in `places`. */
  ghost predicate RunningGroups(slots: seq<Slot>, done: nat, groups: seq<Group>, places: seq<nat>) {
    && |places| == |groups|
    && (forall k :: 0 <= k < |places| ==>
          places[k] < |slots| && slots[places[k]].g == groups[k] && Running(slots[places[k]], places[k] < done))
    && (forall k, l :: 0 <= k < |places| && 0 <= l < |places| && k != l ==> places[k] != places[l])
    && forall i :: 0 <= i < |slots| && Running(slots[i], i < done) ==> i in places
  }

  /** At a stop the rules of the running groups are distinct, and all that the system shows. */
  lemma StopsTogether(slots: seq<Slot>, claims: seq<Claim>, done: nat, queue: Queue, store: Store, s: System,
                      groups: seq<Group>, places: seq<nat>, rules: seq<AlertingRule>, ends: seq<nat>)
    requires Together(slots, claims, done, queue, store, s) && RunningGroups(slots, done, groups, places)
    requires Chained(groups, rules, ends)
    ensures DistinctIds(rules) && AllOwned(rules) && Holds(rules, s.rules)
  {
    var ids := HeldByRunning(slots, claims, done, queue, s.rules, groups, places);
    AllAreShown(groups, ids, queue, s.rules, rules, ends);
  }

  lemma AllAreShown(groups: seq<Group>, ids: seq<set<RuleId>>, queue: Queue, shown: map<RuleId, AlertMap>,
                    rules: seq<AlertingRule>, ends: seq<nat>)
    requires |ids| == |groups| && AllServed(groups, ids, queue, shown) && Chained(groups, rules, ends)
    requires forall id :: id in shown ==> exists k :: 0 <= k < |ids| && id in ids[k]
    ensures DistinctIds(rules) && AllOwned(rules) && Holds(rules, shown)
  {
    ServedSoFar(groups, ids, queue, shown, rules, ends, |groups|);
    assert rules[..ends[|groups|]] == rules;
    IdsAreTheirs(rules);
  }

  /** The running groups have their IDs to themselves, and the system shows no others. */
  lemma HeldByRunning(slots: seq<Slot>, claims: seq<Claim>, done: nat, queue: Queue, shown: map<RuleId, AlertMap>,
                      groups: seq<Group>, places: seq<nat>)
    returns (ids: seq<set<RuleId>>)
    requires SlotsApart(slots, claims) && AllInOrder(slots, claims, done, queue, shown)
    requires RunningGroups(slots, done, groups, places)
    ensures |ids| == |groups| && AllServed(groups, ids, queue, shown)
    ensures forall id :: id in shown ==> exists k :: 0 <= k < |ids| && id in ids[k]
  {
    ids := seq(|groups|, k requires 0 <= k < |groups| => claims[places[k]].Held(places[k] < done));
    forall k | 0 <= k < |groups| ensures Served(groups[k], queue, shown, ids[k]) {
      RunningIsServed(slots, claims, done, queue, shown, places[k]);
    }
    forall k, l | 0 <= k < |ids| && 0 <= l < |ids| && k != l ensures ids[k] !! ids[l] {
      ClaimsApart(slots, claims, places[k], done, done, places[l]);
    }
    forall id | id in shown ensures exists k :: 0 <= k < |ids| && id in ids[k] {
      var i := HolderRuns(slots, claims, done, queue, shown, id);
      var k :| 0 <= k < |places| && places[k] == i;
      assert id in ids[k];
    }
  }

  lemma RunningIsServed(slots: seq<Slot>, claims: seq<Claim>, done: nat, queue: Queue, shown: map<RuleId, AlertMap>,
                        i: nat)
    requires |claims| == |slots| && AllInOrder(slots, claims, done, queue, shown)
    requires i < |slots| && Running(slots[i], i < done)
    ensures Served(slots[i].g, queue, shown, claims[i].Held(i < done))
  {
    assert SlotInOrder(slots[i], i < done, queue, shown, claims[i]);
  }

  lemma HolderRuns(slots: seq<Slot>, claims: seq<Claim>, done: nat, queue: Queue, shown: map<RuleId, AlertMap>,
                   id: RuleId)
    returns (i: nat)
    requires |claims| == |slots| && AllInOrder(slots, claims, done, queue, shown) && id in shown
    ensures i < |slots| && Running(slots[i], i < done) && id in claims[i].Held(i < done)
  {
    i :| 0 <= i < |claims| && id in claims[i].Held(i < done);
    assert SlotInOrder(slots[i], i < done, queue, shown, claims[i]);
  }

  /** Each group is served, and no two have an ID in common. */
  ghost predicate AllServed(groups: seq<Group>, ids: seq<set<RuleId>>, queue: Queue, shown: map<RuleId, AlertMap>)
    requires |ids| == |groups|
    reads *
  {
    && (forall k :: 0 <= k < |groups| ==> Served(groups[k], queue, shown, ids[k]))
    && forall k, l :: 0 <= k < |ids| && 0 <= l < |ids| && k != l ==> ids[k] !! ids[l]
  }

  /** The rules of the first groups are distinct and shown, and their IDs are those of the groups. */
  lemma {:induction false} ServedSoFar(groups: seq<Group>, ids: seq<set<RuleId>>, queue: Queue,
                                       shown: map<RuleId, AlertMap>, rules: seq<AlertingRule>, ends: seq<nat>, n: nat)
    requires |ids| == |groups| && AllServed(groups, ids, queue, shown)
    requires Chained(groups, rules, ends) && n <= |groups|
    ensures ends[n] <= |rules|
    ensures DistinctIds(rules[..ends[n]]) && AllOwned(rules[..ends[n]]) && RulesShown(rules[..ends[n]], shown)
    ensures forall id :: id in Ids(rules[..ends[n]]) <==> exists k :: 0 <= k < n && id in ids[k]
  {
    if n > 0 {
      ServedSoFar(groups, ids, queue, shown, rules, ends, n - 1);
      var so, last := rules[..ends[n - 1]], groups[n - 1];
      assert rules[..ends[n]] == so + last.rules;
      JoinedRules(so, last.rules);
      forall id | id in Ids(so) ensures id !in Ids(last.rules) {
        var k :| 0 <= k < n - 1 && id in ids[k];
        assert ids[k] !! ids[n - 1];
      }
    }
  }
}
