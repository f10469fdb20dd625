/**
  A group's concurrent evaluation as interleaved steps: one goroutine a rule,
  a semaphore, a buffered results channel, a goroutine that closes it, and
  the collector.
 */
module Scheduler {
  import opened Alerts
  import opened RuleStep
  import opened Arithmetic

  /** What evaluating one rule came to; `matches` is what lastMatches gives afterwards, stale if it panicked. */
  datatype Outcome = Outcome(rule: RuleId, name: string, alerts: seq<Instance>, matches: nat, error: Option<Verdict>)
  {
    predicate Panicked() {
      error == Some(QueryPanicked)
    }
  }

  /** One rule's entry in the evaluation log; its duration is left out. */
  datatype Evaluation = Evaluation(rule: RuleId, group: string, name: string, evaluatedAt: Time,
                                   ok: bool, samples: nat, error: Option<Verdict>)

  function EvaluationOf(o: Outcome, group: string, at: Time, samples: nat): Evaluation {
    Evaluation(o.rule, group, o.name, at, o.error.None?, if o.error.None? then samples else 0, o.error)
  }

  /** The match count a result carries: the recover path sends none. */
  function Samples(o: Outcome): nat {
    if o.Panicked() then 0 else o.matches
  }

  // ----- The goroutines -----

  /**
    A goroutine waits for a slot, holds it while Exec runs, reports and then
    releases it; one whose Exec panics releases first and reports from its
    recover. It is done when the wait group is told.
   */
  datatype Phase = Waiting | Holding | Reported | Unwinding | Leaving | Finished

  datatype Schedule = Schedule(phases: seq<Phase>, buffer: seq<nat>, received: seq<nat>, closed: bool)

  datatype Move =
    | Acquire(i: nat)
    | Report(i: nat)
    | Release(i: nat)
    | Panic(i: nat)
    | ReportPanic(i: nat)
    | Finish(i: nat)
    | Close
    | Receive

  predicate HoldsSlot(p: Phase) {
    p == Holding || p == Reported
  }

  predicate HasReported(p: Phase) {
    p == Reported || p == Leaving || p == Finished
  }

  function Slots(phases: seq<Phase>): set<nat> {
    set i | 0 <= i < |phases| && HoldsSlot(phases[i])
  }

  function Reporters(phases: seq<Phase>): set<nat> {
    set i | 0 <= i < |phases| && HasReported(phases[i])
  }

  predicate AllFinished(phases: seq<Phase>) {
    forall i :: 0 <= i < |phases| ==> phases[i] == Finished
  }

  /** Where goroutine `i` must be for a move of its own, and where it goes. */
  function Transfer(move: Move): (Phase, Phase)
    requires !move.Close? && !move.Receive?
  {
    match move
    case Acquire(_) => (Waiting, Holding)
    case Report(_) => (Holding, Reported)
    case Release(_) => (Reported, Leaving)
    case Panic(_) => (Holding, Unwinding)
    case ReportPanic(_) => (Unwinding, Leaving)
    case Finish(_) => (Leaving, Finished)
  }

  /** The moves that send a result into the channel. */
  predicate PutsResult(move: Move) {
    move.Report? || move.ReportPanic?
  }

  predicate Enabled(s: Schedule, panics: seq<bool>, concurrency: nat, move: Move)
    requires |panics| == |s.phases|
  {
    if move.Close? then AllFinished(s.phases) && !s.closed
    else if move.Receive? then s.buffer != []
    else
      && move.i < |s.phases|
      && s.phases[move.i] == Transfer(move).0
      && (move.Acquire? ==> |Slots(s.phases)| < concurrency)
      && (move.Report? ==> !panics[move.i])
      && (move.Panic? ==> panics[move.i])
      && (PutsResult(move) ==> HasRoom(s))
  }

  /** The results channel, made with one place a rule, can take a send. */
  predicate HasRoom(s: Schedule) {
    |s.buffer| < |s.phases|
  }

  function Do(s: Schedule, panics: seq<bool>, concurrency: nat, move: Move): Schedule
    requires |panics| == |s.phases|
    requires Enabled(s, panics, concurrency, move)
  {
    if move.Close? then s.(closed := true)
    else if move.Receive? then s.(buffer := s.buffer[1..], received := s.received + [s.buffer[0]])
    else
      s.(phases := s.phases[move.i := Transfer(move).1],
         buffer := if PutsResult(move) then s.buffer + [move.i] else s.buffer)
  }

  function Initial(n: nat): Schedule {
    Schedule(seq(n, i => Waiting), [], [], false)
  }

  /** `t` is in a results sequence this often. */
  function Sightings(s: Schedule, t: nat): nat {
    multiset(s.buffer)[t] + multiset(s.received)[t]
  }

  /** What holds at every point of every schedule. */
  ghost predicate Sound(s: Schedule, panics: seq<bool>, concurrency: nat) {
    && |panics| == |s.phases|
    && |Slots(s.phases)| <= concurrency
    && Tallied(s)
    && (s.closed ==> AllFinished(s.phases))
  }

  // ----- What every schedule keeps -----

  lemma SlotsMove(phases: seq<Phase>, i: nat, p: Phase)
    requires i < |phases|
    ensures Slots(phases[i := p]) == if HoldsSlot(p) then Slots(phases) + {i} else Slots(phases) - {i}
    ensures Reporters(phases[i := p]) == if HasReported(p) then Reporters(phases) + {i} else Reporters(phases) - {i}
  {
  }

  lemma InitialIsSound(panics: seq<bool>, concurrency: nat)
    ensures Sound(Initial(|panics|), panics, concurrency)
  {
    var s := Initial(|panics|);
    assert Slots(s.phases) == {} && Reporters(s.phases) == {};
  }

  /** Each rule that reported is in the buffer or received, once. */
  ghost predicate Tallied(s: Schedule) {
    && (forall t: nat :: Sightings(s, t) == if t in Reporters(s.phases) then 1 else 0)
    && |s.buffer| + |s.received| == |Reporters(s.phases)|
  }

  lemma SendTallies(s: Schedule, s': Schedule, i: nat)
    requires Tallied(s)
    requires i !in Reporters(s.phases) && Reporters(s'.phases) == Reporters(s.phases) + {i}
    requires s'.buffer == s.buffer + [i] && s'.received == s.received
    ensures Tallied(s')
  {
    forall t: nat ensures Sightings(s', t) == Sightings(s, t) + if t == i then 1 else 0 {
    }
  }

  lemma QuietTallies(s: Schedule, s': Schedule)
    requires Tallied(s)
    requires Reporters(s'.phases) == Reporters(s.phases)
    requires s'.buffer == s.buffer && s'.received == s.received
    ensures Tallied(s')
  {
    forall t: nat ensures Sightings(s', t) == Sightings(s, t) {
    }
  }

  lemma ReceiveTallies(s: Schedule, s': Schedule)
    requires Tallied(s)
    requires s'.phases == s.phases
    requires s.buffer != [] && s'.buffer == s.buffer[1..] && s'.received == s.received + [s.buffer[0]]
    ensures Tallied(s')
  {
    assert s.buffer == [s.buffer[0]] + s.buffer[1..];
    forall t: nat ensures Sightings(s', t) == Sightings(s, t) {
    }
  }

  lemma GoroutineKeepsSound(s: Schedule, panics: seq<bool>, concurrency: nat, move: Move)
    requires Sound(s, panics, concurrency) && Enabled(s, panics, concurrency, move)
    requires !move.Close? && !move.Receive?
    ensures Sound(Do(s, panics, concurrency, move), panics, concurrency)
  {
    var s' := Do(s, panics, concurrency, move);
    var i, to := move.i, Transfer(move).1;
    SlotsMove(s.phases, i, to);
    GoroutineTallies(s, panics, concurrency, move);
    if !move.Acquire? {
      SubsetCard(Slots(s'.phases), Slots(s.phases));
    }
  }

  lemma GoroutineTallies(s: Schedule, panics: seq<bool>, concurrency: nat, move: Move)
    requires |panics| == |s.phases| && Tallied(s) && Enabled(s, panics, concurrency, move)
    requires !move.Close? && !move.Receive?
    ensures Tallied(Do(s, panics, concurrency, move))
  {
    var s' := Do(s, panics, concurrency, move);
    SlotsMove(s.phases, move.i, Transfer(move).1);
    if PutsResult(move) {
      SendTallies(s, s', move.i);
    } else {
      assert Reporters(s'.phases) == Reporters(s.phases);
      QuietTallies(s, s');
    }
  }

  lemma EveryMoveKeepsSound(s: Schedule, panics: seq<bool>, concurrency: nat, move: Move)
    requires Sound(s, panics, concurrency) && Enabled(s, panics, concurrency, move)
    ensures Sound(Do(s, panics, concurrency, move), panics, concurrency)
  {
    var s' := Do(s, panics, concurrency, move);
    if move.Close? {
      QuietTallies(s, s');
    } else if move.Receive? {
      ReceiveTallies(s, s');
    } else {
      GoroutineKeepsSound(s, panics, concurrency, move);
    }
  }

  /** A goroutine about to report always finds room: the buffered send never blocks. */
  lemma SendNeverBlocks(s: Schedule, panics: seq<bool>, concurrency: nat, i: nat)
    requires Sound(s, panics, concurrency)
    requires i < |s.phases| && !HasReported(s.phases[i])
    ensures HasRoom(s)
  {
    IndexCard(|s.phases|);
    SubsetCard(Reporters(s.phases), Indices(|s.phases|) - {i});
  }

  function Indices(n: nat): (r: set<nat>)
    ensures forall i: nat :: i in r <==> i < n
  {
    if n == 0 then {} else Indices(n - 1) + {n - 1}
  }

  lemma {:induction false} IndexCard(n: nat)
    ensures |Indices(n)| == n
  {
    if n > 0 {
      IndexCard(n - 1);
    }
  }

  // ----- Every schedule finishes -----

  /** The collector's loop is over: the channel is closed and drained. */
  predicate Collected(s: Schedule) {
    s.closed && s.buffer == []
  }

  /** Until then some move is possible: no schedule deadlocks. */
  lemma NeverStuck(s: Schedule, panics: seq<bool>, concurrency: nat)
    requires Sound(s, panics, concurrency) && concurrency > 0
    requires !Collected(s)
    ensures exists move :: Enabled(s, panics, concurrency, move)
  {
    if s.buffer != [] {
      assert Enabled(s, panics, concurrency, Receive);
    } else if AllFinished(s.phases) {
      assert Enabled(s, panics, concurrency, Close);
    } else {
      var i :| 0 <= i < |s.phases| && s.phases[i] != Finished;
      var j: nat := i;
      if s.phases[i] == Waiting && Slots(s.phases) != {} {
        j :| j in Slots(s.phases);
      }
      match s.phases[j] {
        case Waiting => assert Enabled(s, panics, concurrency, Acquire(j));
        case Holding =>
          SendNeverBlocks(s, panics, concurrency, j);
          assert Enabled(s, panics, concurrency, if panics[j] then Panic(j) else Report(j));
        case Reported => assert Enabled(s, panics, concurrency, Release(j));
        case Unwinding =>
          SendNeverBlocks(s, panics, concurrency, j);
          assert Enabled(s, panics, concurrency, ReportPanic(j));
        case Leaving => assert Enabled(s, panics, concurrency, Finish(j));
      }
    }
  }

  function PhaseWork(p: Phase): nat {
    match p
    case Waiting => 6
    case Holding => 5
    case Reported => 3
    case Unwinding => 4
    case Leaving => 1
    case Finished => 0
  }

  function Work(phases: seq<Phase>): nat {
    if phases == [] then 0 else Work(phases[..|phases| - 1]) + PhaseWork(phases[|phases| - 1])
  }

  function Remaining(s: Schedule): nat {
    Work(s.phases) + |s.buffer| + if s.closed then 0 else 1
  }

  lemma {:induction false} WorkMove(phases: seq<Phase>, i: nat, p: Phase)
    requires i < |phases|
    ensures Work(phases[i := p]) == Work(phases) - PhaseWork(phases[i]) + PhaseWork(p)
  {
    var n := |phases| - 1;
    if i < n {
      WorkMove(phases[..n], i, p);
      assert phases[i := p][..n] == phases[..n][i := p];
    } else {
      assert phases[i := p][..n] == phases[..n];
    }
  }

  /** Every move brings the end nearer, so no schedule runs for ever. */
  lemma MovesRunOut(s: Schedule, panics: seq<bool>, concurrency: nat, move: Move)
    requires |panics| == |s.phases|
    requires Enabled(s, panics, concurrency, move)
    ensures Remaining(Do(s, panics, concurrency, move)) < Remaining(s)
  {
    if !move.Close? && !move.Receive? {
      WorkMove(s.phases, move.i, Transfer(move).1);
    }
  }

  // ----- What is collected -----

  /** What each rule contributes, gathered in the order its results are taken. */
  function Gathered<T>(order: seq<nat>, items: seq<seq<T>>): seq<T>
    requires AllBelow(order, |items|)
  {
    if order == [] then []
    else Gathered(order[..|order| - 1], items) + items[order[|order| - 1]]
  }

  /** A failed rule contributes no alerts. */
  function AlertItems(outcomes: seq<Outcome>): (r: seq<seq<Instance>>)
    ensures |r| == |outcomes|
  {
    seq(|outcomes|, i requires 0 <= i < |outcomes| => if outcomes[i].error.None? then outcomes[i].alerts else [])
  }

  /** Every rule contributes one evaluation. */
  function EvaluationItems(outcomes: seq<Outcome>, group: string, at: Time): (r: seq<seq<Evaluation>>)
    ensures |r| == |outcomes|
  {
    seq(|outcomes|, i requires 0 <= i < |outcomes| => [EvaluationOf(outcomes[i], group, at, Samples(outcomes[i]))])
  }

  function InOrder(n: nat): (r: seq<nat>)
    ensures |r| == n
    ensures forall i :: 0 <= i < n ==> r[i] == i
  {
    seq(n, i => i)
  }

  lemma {:induction false} GatherConcat<T>(a: seq<nat>, b: seq<nat>, items: seq<seq<T>>)
    requires AllBelow(a, |items|) && AllBelow(b, |items|)
    ensures AllBelow(a + b, |items|) && Gathered(a + b, items) == Gathered(a, items) + Gathered(b, items)
  {
    if b == [] {
      assert a + b == a;
    } else {
      var n := |b| - 1;
      assert (a + b)[..|a + b| - 1] == a + b[..n];
      GatherConcat(a, b[..n], items);
    }
  }

  lemma TakeOut<T>(order: seq<nat>, j: nat, items: seq<seq<T>>)
    requires AllBelow(order, |items|)
    requires j < |order|
    ensures var rest := order[..j] + order[j + 1..];
            && AllBelow(rest, |items|)
            && multiset(Gathered(order, items)) == multiset(Gathered(rest, items)) + multiset(items[order[j]])
  {
    var a, x, b := order[..j], [order[j]], order[j + 1..];
    assert order == (a + x) + b;
    GatherConcat(a, x, items);
    GatherConcat(a + x, b, items);
    GatherConcat(a, b, items);
    assert x[..0] == [];
    assert Gathered(x, items) == items[order[j]];
  }

  /** Two orders of the same rules gather the same items. */
  lemma {:induction false} OrderDoesNotMatter<T>(a: seq<nat>, b: seq<nat>, items: seq<seq<T>>)
    requires AllBelow(a, |items|)
    requires multiset(a) == multiset(b)
    ensures AllBelow(b, |items|)
    ensures multiset(Gathered(a, items)) == multiset(Gathered(b, items))
    decreases |a|
  {
    SameBelow(a, b, |items|);
    if a == [] {
      assert |multiset(b)| == 0;
    } else {
      var n := |a| - 1;
      assert a == a[..n] + [a[n]];
      assert a[n] in multiset(b);
      var j :| 0 <= j < |b| && b[j] == a[n];
      TakeOut(b, j, items);
      DropSame(a, b, j);
      OrderDoesNotMatter(a[..n], b[..j] + b[j + 1..], items);
    }
  }

  lemma DropSame(a: seq<nat>, b: seq<nat>, j: nat)
    requires multiset(a) == multiset(b)
    requires a != [] && j < |b| && b[j] == a[|a| - 1]
    ensures multiset(a[..|a| - 1]) == multiset(b[..j] + b[j + 1..])
  {
    assert a == a[..|a| - 1] + [a[|a| - 1]];
    assert b == b[..j] + [b[j]] + b[j + 1..];
    assert multiset(b) == multiset(b[..j] + b[j + 1..]) + multiset{b[j]};
    assert multiset(a) == multiset(a[..|a| - 1]) + multiset{b[j]};
    assert multiset(a) - multiset{b[j]} == multiset(a[..|a| - 1]);
    assert multiset(b) - multiset{b[j]} == multiset(b[..j] + b[j + 1..]);
  }

  lemma SameBelow(a: seq<nat>, b: seq<nat>, n: nat)
    requires multiset(a) == multiset(b)
    requires AllBelow(a, n)
    ensures AllBelow(b, n)
  {
    forall k | 0 <= k < |b| ensures b[k] < n {
      assert b[k] in multiset(b);
      assert b[k] in multiset(a);
      assert b[k] in a;
    }
  }

  /** However a schedule ran, once it is collected every rule reported exactly once. */
  lemma CollectedOnceEach(s: Schedule, panics: seq<bool>, concurrency: nat)
    requires Sound(s, panics, concurrency) && Collected(s)
    ensures multiset(s.received) == multiset(InOrder(|s.phases|))
  {
    forall t: nat ensures multiset(s.received)[t] == multiset(InOrder(|s.phases|))[t] {
      assert multiset(s.received)[t] == Sightings(s, t);
      InOrderOnce(|s.phases|, t);
    }
  }

  lemma {:induction false} InOrderOnce(n: nat, t: nat)
    ensures multiset(InOrder(n))[t] == if t < n then 1 else 0
  {
    if n > 0 {
      InOrderOnce(n - 1, t);
      assert InOrder(n) == InOrder(n - 1) + [n - 1];
    }
  }

  /** A schedule: moves from the start, each enabled where it is made. */
  predicate Runs(moves: seq<Move>, panics: seq<bool>, concurrency: nat)
    decreases |moves|, 0
  {
    moves == [] ||
    var n := |moves| - 1;
    && Runs(moves[..n], panics, concurrency)
    && |Reached(moves[..n], panics, concurrency).phases| == |panics|
    && Enabled(Reached(moves[..n], panics, concurrency), panics, concurrency, moves[n])
  }

  function Reached(moves: seq<Move>, panics: seq<bool>, concurrency: nat): Schedule
    requires Runs(moves, panics, concurrency)
    decreases |moves|, 1
  {
    if moves == [] then Initial(|panics|)
    else
      var n := |moves| - 1;
      Do(Reached(moves[..n], panics, concurrency), panics, concurrency, moves[n])
  }

  /** Every point of every schedule is sound: no slot too many, no early close, nobody reporting twice. */
  lemma {:induction false} SchedulesAreSound(moves: seq<Move>, panics: seq<bool>, concurrency: nat)
    requires Runs(moves, panics, concurrency)
    ensures Sound(Reached(moves, panics, concurrency), panics, concurrency)
  {
    if moves == [] {
      InitialIsSound(panics, concurrency);
    } else {
      var n := |moves| - 1;
      SchedulesAreSound(moves[..n], panics, concurrency);
      EveryMoveKeepsSound(Reached(moves[..n], panics, concurrency), panics, concurrency, moves[n]);
    }
  }

  /** No schedule is longer than the work there is at the start. */
  lemma {:induction false} SchedulesAreShort(moves: seq<Move>, panics: seq<bool>, concurrency: nat)
    requires Runs(moves, panics, concurrency)
    ensures |moves| + Remaining(Reached(moves, panics, concurrency)) <= Remaining(Initial(|panics|))
  {
    if moves != [] {
      var n := |moves| - 1;
      SchedulesAreShort(moves[..n], panics, concurrency);
      MovesRunOut(Reached(moves[..n], panics, concurrency), panics, concurrency, moves[n]);
    }
  }

  function Panics(outcomes: seq<Outcome>): (r: seq<bool>)
    ensures |r| == |outcomes|
  {
    seq(|outcomes|, i requires 0 <= i < |outcomes| => outcomes[i].Panicked())
  }

  /**
    The concurrent path refines the sequential one: whatever the schedule,
    the results it collects hold the alerts and evaluations that evaluating
    the rules one after the other gives.
   */
  lemma ConcurrentRefinesSequential(moves: seq<Move>, outcomes: seq<Outcome>, concurrency: nat, group: string, at: Time)
    requires Runs(moves, Panics(outcomes), concurrency)
    requires Collected(Reached(moves, Panics(outcomes), concurrency))
    ensures var order := Reached(moves, Panics(outcomes), concurrency).received;
            var n := |outcomes|;
            && AllBelow(order, n) && |order| == n
            && multiset(Gathered(order, AlertItems(outcomes))) == multiset(Gathered(InOrder(n), AlertItems(outcomes)))
            && multiset(Gathered(order, EvaluationItems(outcomes, group, at))) ==
               multiset(Gathered(InOrder(n), EvaluationItems(outcomes, group, at)))
  {
    var s := Reached(moves, Panics(outcomes), concurrency);
    SchedulesAreSound(moves, Panics(outcomes), concurrency);
    CollectedOnceEach(s, Panics(outcomes), concurrency);
    assert |multiset(s.received)| == |multiset(InOrder(|outcomes|))|;
    OrderDoesNotMatter(InOrder(|outcomes|), s.received, AlertItems(outcomes));
    OrderDoesNotMatter(InOrder(|outcomes|), s.received, EvaluationItems(outcomes, group, at));
  }
}
