/** Retirements outlive restarts until their rows are written, and are done with once both writes land. */
module Survival {
  import opened Alerts
  import opened RuleStep
  import opened AlertingRules
  import opened StateStore
  import opened Retirements
  import opened Lifecycle
  import opened NoOrphans

  /** How many history rows a key has. */
  function RowsOf(log: Log, k: Key): nat {
    if log == [] then 0
    else RowsOf(log[..|log| - 1], k) + if log[|log| - 1].key == k then 1 else 0
  }

  lemma {:induction false} RowsConcat(log: Log, more: Log, k: Key)
    ensures RowsOf(log + more, k) == RowsOf(log, k) + RowsOf(more, k)
    ensures LastState(more, k).Some? <==> RowsOf(more, k) > 0
  {
    if more == [] {
      assert log + more == log;
    } else {
      var n := |more| - 1;
      assert (log + more)[..|log + more| - 1] == log + more[..n];
      RowsConcat(log, more[..n], k);
    }
  }

  // ----- The bookkeeping every step keeps, whatever fails -----

  lemma WellKeptAlways(s: System, step: Step)
    requires WellKept(s) && Can(s, step)
    ensures WellKept(After(s, step))
  {
    var anyKey := Key(0, 0);
    match step
    case Evaluate(rule, eval, _, _, _) => NextOwned(s.rules[rule], eval, rule);
    case Flush(ok, _) => FlushByKey(s.pending, ok, anyKey);
    case Drop(_, at, dropped) => SubmitByKey(s.pending, at, dropped, anyKey);
    case Add(_) =>
    case Stop(_, _) =>
    case Start(ids, at, loaded, _) =>
      var unclaimed := Unclaimed(loaded, ids);
      assert [] + Submission(at, unclaimed) == Submission(at, unclaimed);
      SubmitByKey([], at, unclaimed, anyKey);
      forall r | r in ids ensures Owned(Restored(map[], loaded, r), r) {
        RestoredOwned(map[], loaded, r);
      }
  }

  lemma {:induction false} RunWellKept(s: System, steps: seq<Step>)
    requires WellKept(s) && Legal(s, steps)
    ensures WellKept(Run(s, steps))
    decreases |steps|
  {
    if steps != [] {
      RunWellKept(s, steps[..|steps| - 1]);
      WellKeptAlways(Run(s, steps[..|steps| - 1]), steps[|steps| - 1]);
    }
  }

  // ----- Owed until written -----

  /** The key's resolved row is still to be written: queued, or saved firing for the next start to find. */
  predicate Owed(s: System, k: Key) {
    if s.up then Queued(s.pending, k) else SavedFiring(s.table, k)
  }

  /** A row was written for the key, and it shows the key resolved. */
  predicate WrittenBy(s: System, s': System, k: Key) {
    RowsOf(s'.log, k) > RowsOf(s.log, k) && LastState(s'.log, k) == Some(Inactive)
  }

  /** What carrying state over a restart needs: the save at a stop and the load at a start succeed. */
  predicate Carried(step: Step) {
    && (step.Stop? ==> step.saveOk)
    && (step.Start? ==> step.loadOk)
  }

  predicate AllCarried(steps: seq<Step>) {
    forall i :: 0 <= i < |steps| ==> Carried(steps[i])
  }

  /** While no rule carries its ID, each step leaves an owed key owed, or writes its resolved row. */
  lemma OwedUntilWritten(s: System, step: Step, k: Key)
    requires WellKept(s) && Can(s, step) && Carried(step)
    requires k.rule !in s.rules && k.rule !in After(s, step).rules
    requires Owed(s, k)
    ensures Owed(After(s, step), k) || WrittenBy(s, After(s, step), k)
    ensures RowsOf(After(s, step).log, k) >= RowsOf(s.log, k)
  {
    match step
    case Evaluate(_, _, at, sent, _) => RowsConcat(s.log, HistoryRows(sent, at), k);
    case Flush(ok, _) =>
      FlushByKey(s.pending, ok, k);
      RowsConcat(s.log, LogOf(Landed(s.pending, ok)), k);
      LastStateConcat(s.log, LogOf(Landed(s.pending, ok)), k);
    case Drop(_, at, dropped) => SubmitByKey(s.pending, at, dropped, k);
    case Add(_) =>
    case Stop(_, _) => StopByKey(s, step, k);
    case Start(_, _, _, _) => StartByKey(s, step, k);
  }

  /** No rule of a run carries the ID. */
  ghost predicate NeverCarried(s: System, steps: seq<Step>, r: RuleId)
    requires Legal(s, steps)
    decreases |steps|
  {
    r !in Run(s, steps).rules && (steps == [] || NeverCarried(s, steps[..|steps| - 1], r))
  }

  /**
    Retirements survive restarts: across any run of stops and starts that
    save and load, with any history write failing and any rule over its
    limit, in which no rule carries its ID again, a retired key whose
    resolved row is not written is still owed, saved firing when the process
    is stopped and queued when it runs.
   */
  lemma {:induction false} RetirementSurvives(s: System, steps: seq<Step>, k: Key)
    requires WellKept(s) && Legal(s, steps) && AllCarried(steps)
    requires NeverCarried(s, steps, k.rule)
    requires Owed(s, k)
    ensures RowsOf(Run(s, steps).log, k) >= RowsOf(s.log, k)
    ensures RowsOf(Run(s, steps).log, k) == RowsOf(s.log, k) ==> Owed(Run(s, steps), k)
    decreases |steps|
  {
    if steps != [] {
      var init, last := steps[..|steps| - 1], steps[|steps| - 1];
      assert Carried(last);
      RetirementSurvives(s, init, k);
      RunWellKept(s, init);
      RowsNeverShrink(Run(s, init), last, k);
      if RowsOf(Run(s, init).log, k) == RowsOf(s.log, k) {
        OwedUntilWritten(Run(s, init), last, k);
      }
    }
  }

  lemma RowsNeverShrink(s: System, step: Step, k: Key)
    requires Can(s, step)
    ensures RowsOf(After(s, step).log, k) >= RowsOf(s.log, k)
  {
    match step
    case Evaluate(_, _, at, sent, _) => RowsConcat(s.log, HistoryRows(sent, at), k);
    case Flush(ok, _) => RowsConcat(s.log, LogOf(Landed(s.pending, ok)), k);
    case _ =>
  }

  // ----- Settled once both writes land -----

  /** Nothing is left to resolve: no rule holds the key firing, nothing queues it, and it is not saved firing. */
  predicate SettledKey(s: System, k: Key) {
    !FiresLive(s.rules, k) && !Queued(s.pending, k) && !SavedFiring(s.table, k)
  }

  lemma {:induction false} AllLandedUnqueues(pending: seq<Retirement>, ok: seq<bool>, k: Key)
    requires |ok| == |pending|
    requires AllWellFormed(pending)
    ensures !Queued(Kept(pending, ok), k) <==>
            forall i :: 0 <= i < |pending| && Mentions(pending[i].firing, k) ==> ok[i]
  {
    if pending != [] {
      var n := |pending| - 1;
      AllLandedUnqueues(pending[..n], ok[..n], k);
      assert forall i :: 0 <= i < n ==> pending[..n][i] == pending[i] && ok[..n][i] == ok[i];
      if !ok[n] {
        OneMore(Kept(pending[..n], ok[..n]), pending[n], k);
      }
    }
  }

  /** A key stays saved firing exactly if no retirement of it is both written and saved inactive. */
  lemma {:induction false} StillSavedFiring(table: Table, pending: seq<Retirement>, ok: seq<bool>,
                                            saved: seq<bool>, k: Key)
    requires |ok| == |saved| == |pending|
    requires AllWellFormed(pending)
    ensures SavedFiring(FlushedTable(table, pending, ok, saved), k) <==>
            SavedFiring(table, k) &&
            forall i :: 0 <= i < |pending| && Mentions(pending[i].firing, k) ==> !(ok[i] && saved[i])
  {
    if pending != [] {
      var n := |pending| - 1;
      StillSavedFiring(table, pending[..n], ok[..n], saved[..n], k);
      assert forall i :: 0 <= i < n ==>
        pending[..n][i] == pending[i] && ok[..n][i] == ok[i] && saved[..n][i] == saved[i];
      if ok[n] && saved[n] {
        SaveUniform(FlushedTable(table, pending[..n], ok[..n], saved[..n]), pending[n].rows, Inactive, k);
        ResolvedMentions(pending[n].firing, pending[n].at, k);
      }
    }
  }

  /**
    A flush settles a key exactly if no rule holds it firing, every
    retirement of it still queued is written, and, should the saved state
    show it firing, one of them is saved inactive too. Writes and saves of
    earlier flushes count through what is still queued and saved.
   */
  lemma BothWritesSettle(s: System, step: Step, k: Key)
    requires WellKept(s) && step.Flush? && Can(s, step)
    ensures SettledKey(After(s, step), k) <==>
            && !FiresLive(s.rules, k)
            && (forall i :: 0 <= i < |s.pending| && Mentions(s.pending[i].firing, k) ==> step.ok[i])
            && (SavedFiring(s.table, k) ==>
                  exists i :: 0 <= i < |s.pending| && Mentions(s.pending[i].firing, k) && step.ok[i] && step.saved[i])
  {
    AllLandedUnqueues(s.pending, step.ok, k);
    StillSavedFiring(s.table, s.pending, step.ok, step.saved, k);
  }

  lemma DropQueuesOnlyFiring(s: System, step: Step, k: Key)
    requires step.Drop? && Can(s, step)
    requires Mentions(FiringOnly(step.dropped), k)
    ensures FiresLive(s.rules, k)
  {
    var gone := Only(s.rules, step.gone);
    ListingIsExact(step.dropped, AllInstances(gone));
    var firing := FiringOnly(step.dropped);
    var i :| 0 <= i < |firing| && KeyOf(firing[i]) == k;
    assert firing[i] in firing;
  }

  /** A settled key stays settled through every step, store failures included, unless an evaluation fires it anew. */
  lemma SettledKept(s: System, step: Step, k: Key)
    requires WellKept(s) && Can(s, step)
    requires SettledKey(s, k) && (step.Evaluate? ==> !FiresLive(After(s, step).rules, k))
    ensures SettledKey(After(s, step), k)
  {
    match step
    case Evaluate(_, _, _, _, _) =>
    case Flush(ok, saved) =>
      FlushByKey(s.pending, ok, k);
      FlushedByKey(s.table, s.pending, ok, saved, k);
    case Drop(_, at, dropped) =>
      SubmitByKey(s.pending, at, dropped, k);
      if Mentions(FiringOnly(dropped), k) {
        DropQueuesOnlyFiring(s, step, k);
      }
    case Add(_) =>
    case Stop(_, saveOk) =>
      if saveOk {
        StopByKey(s, step, k);
        if k in AllInstances(s.rules) {
          EnumRoundTrip(AllInstances(s.rules)[k].state);
        }
      }
    case Start(_, _, _, _) => StartByKey(s, step, k);
  }

  /** No evaluation of a run leaves the key firing. */
  ghost predicate NeverFires(s: System, steps: seq<Step>, k: Key)
    requires Legal(s, steps)
    decreases |steps|
  {
    steps == [] ||
    (NeverFires(s, steps[..|steps| - 1], k)
     && (steps[|steps| - 1].Evaluate? ==> !FiresLive(Run(s, steps).rules, k)))
  }

  /** A settled key is resolved by no later restart or reload until an evaluation fires it anew. */
  lemma {:induction false} SettledForGood(s: System, steps: seq<Step>, k: Key)
    requires WellKept(s) && Legal(s, steps)
    requires SettledKey(s, k)
    requires NeverFires(s, steps, k)
    ensures SettledKey(Run(s, steps), k)
    decreases |steps|
  {
    if steps != [] {
      var init := steps[..|steps| - 1];
      SettledForGood(s, init, k);
      RunWellKept(s, init);
      SettledKept(Run(s, init), steps[|steps| - 1], k);
    }
  }
}
