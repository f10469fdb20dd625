/** A stopped rule never leaves its history firing: over every run, a key whose latest row is firing has a holder. */
module NoOrphans {
  import opened Alerts
  import opened RuleStep
  import opened RuleRuns
  import opened Sending
  import opened AlertingRules
  import opened StateStore
  import opened Retirements
  import opened Lifecycle

  predicate FiresLive(rules: map<RuleId, AlertMap>, k: Key) {
    k.rule in rules && k.inst in rules[k.rule] && rules[k.rule][k.inst].state == Firing
  }

  /** Something will still resolve the key: a live rule, a pending retirement, or, when stopped, the saved state. */
  predicate Held(s: System, k: Key) {
    FiresLive(s.rules, k) || Queued(s.pending, k) || (!s.up && SavedFiring(s.table, k))
  }

  ghost predicate NoOrphan(s: System) {
    forall k :: LastState(s.log, k) == Some(Firing) ==> Held(s, k)
  }

  ghost predicate WellKept(s: System) {
    && (forall r :: r in s.rules ==> Owned(s.rules[r], r))
    && AllWellFormed(s.pending)
    && (!s.up ==> s.rules == map[] && s.pending == [])
  }

  /** What the promise assumes of a step: its store calls land, and the active limit is not exceeded. */
  predicate Clean(s: System, step: Step) {
    match step
    case Evaluate(rule, eval, _, _, recorded) =>
      recorded && rule in s.rules && VerdictOf(s.rules[rule], eval) != TooManyActive
    case Stop(_, saveOk) => saveOk
    case Start(_, _, _, loadOk) => loadOk
    case _ => true
  }

  // ----- Evaluations -----

  lemma SentOwned(m: AlertMap, e: Eval, r: RuleId)
    requires Owned(m, r) && e.settings.ruleId == r
    ensures Owned(Sent(m, e), r)
  {
    NextOwned(m, e, r);
    forall id | id in Sent(m, e) ensures Sent(m, e)[id].id == id && Sent(m, e)[id].ruleId == r {
      SentIsNext(m, e, id);
    }
  }

  /** The sent copy of an instance agrees with the instance kept. */
  lemma SentIsNext(m: AlertMap, e: Eval, id: InstanceId)
    requires id in Sent(m, e)
    ensures id in Next(m, e)
    ensures Sent(m, e)[id].(interval := 0) == Next(m, e)[id].(interval := 0)
  {
    SendsMeansSent(m, [e], id, 0);
    assert At(m, [e], 0) == m && At(m, [e], 1) == Next(m, e);
    NextByKey(m, e, id);
  }

  lemma ResolvedIsSent(m: Moment)
    requires m.Happens() && m.Was(Firing) && !m.Is(Firing) && m.verdict != TooManyActive && m.eval.ts > 0
    ensures m.Is(Inactive) && Sends(m)
  {
  }

  /** An instance that stops firing without the limit clearing the map is in the evaluation's list, resolved. */
  lemma StopsFiringIsSent(m: AlertMap, e: Eval, id: InstanceId)
    requires e.ts > 0 && VerdictOf(m, e) != TooManyActive
    requires id in m && m[id].state == Firing
    requires id in Next(m, e) ==> Next(m, e)[id].state != Firing
    ensures id in Sent(m, e) && Sent(m, e)[id].state == Inactive
  {
    var evs := [e];
    assert At(m, evs, 0) == m && At(m, evs, 1) == Next(m, e);
    var moment := MomentOf(m, evs, id, 0);
    NextByKey(m, e, id);
    ResolvedIsSent(moment);
    SendsMeansSent(m, evs, id, 0);
  }

  /** The state of a key's latest row after an evaluation's list is recorded. */
  lemma RecordedState(s: System, step: Step, k: Key)
    requires WellKept(s) && step.Evaluate? && Can(s, step) && step.recorded
    ensures var sent := Sent(s.rules[step.rule], step.eval);
            LastState(After(s, step).log, k) ==
            if k.rule == step.rule && k.inst in sent then Some(sent[k.inst].state) else LastState(s.log, k)
  {
    var m := s.rules[step.rule];
    SentOwned(m, step.eval, step.rule);
    RowsOfSentList(step.sent, step.at, Sent(m, step.eval), step.rule, k);
    LastStateConcat(s.log, HistoryRows(step.sent, step.at), k);
  }

  lemma EvaluateKeeps(s: System, step: Step)
    requires WellKept(s) && NoOrphan(s)
    requires step.Evaluate? && Can(s, step) && Clean(s, step)
    ensures WellKept(After(s, step)) && NoOrphan(After(s, step))
  {
    var m, s' := s.rules[step.rule], After(s, step);
    NextOwned(m, step.eval, step.rule);
    forall k | LastState(s'.log, k) == Some(Firing) ensures Held(s', k) {
      RecordedState(s, step, k);
      if k.rule == step.rule {
        if k.inst in Sent(m, step.eval) {
          SentIsNext(m, step.eval, k.inst);
        } else if FiresLive(s.rules, k) && !FiresLive(s'.rules, k) {
          StopsFiringIsSent(m, step.eval, k.inst);
        }
      }
    }
  }

  /**
    When the limit clears the map, the promise survives exactly if every
    instance of the rule left firing in the history is also awaiting a
    pending retirement.
   */
  lemma OverLimitOrphans(s: System, step: Step)
    requires WellKept(s) && NoOrphan(s)
    requires step.Evaluate? && Can(s, step)
    requires VerdictOf(s.rules[step.rule], step.eval) == TooManyActive
    ensures NoOrphan(After(s, step)) <==>
            forall id :: LastState(s.log, Key(step.rule, id)) == Some(Firing) ==> Queued(s.pending, Key(step.rule, id))
  {
    var s' := After(s, step);
    assert step.sent == [];
    assert s'.log == s.log;
    assert s'.rules[step.rule] == map[];
    if NoOrphan(s') {
      forall id | LastState(s.log, Key(step.rule, id)) == Some(Firing) ensures Queued(s.pending, Key(step.rule, id)) {
        assert Held(s', Key(step.rule, id));
      }
    } else {
      var k :| LastState(s'.log, k) == Some(Firing) && !Held(s', k);
      assert Held(s, k);
      assert k == Key(step.rule, k.inst);
    }
  }

  /**
    When an evaluation's history write fails, the promise survives exactly
    if each firing instance that the evaluation ends, and the history still
    shows firing, is also awaiting a pending retirement.
   */
  lemma LostRecordOrphans(s: System, step: Step)
    requires WellKept(s) && NoOrphan(s)
    requires step.Evaluate? && Can(s, step) && !step.recorded
    ensures NoOrphan(After(s, step)) <==>
            forall id :: id in s.rules[step.rule] && EndedUnrecorded(s, step, id) ==>
              Queued(s.pending, Key(step.rule, id))
  {
    var s', m := After(s, step), s.rules[step.rule];
    assert s'.log == s.log && s'.pending == s.pending;
    forall k | LastState(s.log, k) == Some(Firing)
      ensures Held(s', k) <==>
              Queued(s.pending, k) || !(k.rule == step.rule && k.inst in m && EndedUnrecorded(s, step, k.inst))
    {
      HeldWithoutRecord(s, step, k);
    }
    if NoOrphan(s') {
      forall id | id in m && EndedUnrecorded(s, step, id) ensures Queued(s.pending, Key(step.rule, id)) {
        assert Held(s', Key(step.rule, id));
      }
    }
  }

  /** The history shows the instance firing, and the evaluation takes a branch that ends it. */
  ghost predicate EndedUnrecorded(s: System, step: Step, id: InstanceId)
    requires step.Evaluate? && step.rule in s.rules && id in s.rules[step.rule]
  {
    var a := s.rules[step.rule][id];
    && LastState(s.log, Key(step.rule, id)) == Some(Firing)
    && a.state == Firing
    && StopsFiring(a, id, VerdictOf(s.rules[step.rule], step.eval), step.eval)
  }

  lemma HeldWithoutRecord(s: System, step: Step, k: Key)
    requires NoOrphan(s) && step.Evaluate? && Can(s, step) && !step.recorded
    requires LastState(s.log, k) == Some(Firing)
    ensures Held(After(s, step), k) <==>
            || Queued(s.pending, k)
            || !(k.rule == step.rule && k.inst in s.rules[k.rule] && EndedUnrecorded(s, step, k.inst))
  {
    assert Held(s, k);
    if k.rule == step.rule && FiresLive(s.rules, k) {
      StopsFiringByBranch(s.rules[k.rule], step.eval, k.inst);
    }
  }

  // ----- Flushes and reloads -----

  lemma FlushKeeps(s: System, step: Step)
    requires WellKept(s) && NoOrphan(s)
    requires step.Flush? && Can(s, step)
    ensures WellKept(After(s, step)) && NoOrphan(After(s, step))
  {
    var s' := After(s, step);
    FlushByKey(s.pending, step.ok, Key(0, 0));
    forall k | LastState(s'.log, k) == Some(Firing) ensures Held(s', k) {
      FlushByKey(s.pending, step.ok, k);
      LastStateConcat(s.log, LogOf(Landed(s.pending, step.ok)), k);
    }
  }

  lemma {:induction false} ListedMention(list: seq<Instance>, m: map<Key, Instance>, k: Key)
    requires Lists(list, m)
    ensures Mentions(list, k) <==> k in m
    ensures k in m && m[k].state == Firing ==> Mentions(FiringOnly(list), k)
  {
    ListingIsExact(list, m);
    if k in m {
      assert m[k] in list;
      var i :| 0 <= i < |list| && list[i] == m[k];
      assert KeyOf(list[i]) == k;
      if m[k].state == Firing {
        assert m[k] in FiringOnly(list);
        var j :| 0 <= j < |FiringOnly(list)| && FiringOnly(list)[j] == m[k];
        assert KeyOf(FiringOnly(list)[j]) == k;
      }
    }
    if Mentions(list, k) {
      var i :| 0 <= i < |list| && KeyOf(list[i]) == k;
      assert list[i] in list;
    }
  }

  lemma DropKeeps(s: System, step: Step)
    requires WellKept(s) && NoOrphan(s)
    requires step.Drop? && Can(s, step)
    ensures WellKept(After(s, step)) && NoOrphan(After(s, step))
  {
    var s' := After(s, step);
    var gone := Only(s.rules, step.gone);
    SubmitByKey(s.pending, step.at, step.dropped, Key(0, 0));
    forall k | LastState(s'.log, k) == Some(Firing) ensures Held(s', k) {
      assert Held(s, k);
      SubmitByKey(s.pending, step.at, step.dropped, k);
      if FiresLive(s.rules, k) && k.rule in step.gone {
        assert k in InstanceKeys(gone);
        ListedMention(step.dropped, AllInstances(gone), k);
      }
    }
  }

  lemma AddKeeps(s: System, step: Step)
    requires WellKept(s) && NoOrphan(s)
    requires step.Add? && Can(s, step)
    ensures WellKept(After(s, step)) && NoOrphan(After(s, step))
  {
    var s' := After(s, step);
    forall k | LastState(s'.log, k) == Some(Firing) ensures Held(s', k) {
      assert Held(s, k);
    }
  }

  // ----- Stops and starts -----

  /** A graceful stop saves a live instance's state, unless a pending retirement of its key saves it as firing. */
  lemma StopByKey(s: System, step: Step, k: Key)
    requires WellKept(s)
    requires step.Stop? && Can(s, step) && step.saveOk
    ensures var table := After(s, step).table;
            if Queued(s.pending, k) then SavedFiring(table, k)
            else if k in AllInstances(s.rules) then Get(table, k) == Some(ToRow(AllInstances(s.rules)[k]))
            else Get(table, k) == Get(s.table, k)
  {
    SaveConcat(s.table, step.live, FiringOf(s.pending));
    SaveListing(s.table, step.live, AllInstances(s.rules), k);
    FiringMentions(s.pending, k);
    SaveUniform(SaveAll(s.table, step.live), FiringOf(s.pending), Firing, k);
  }

  lemma StopKeeps(s: System, step: Step)
    requires WellKept(s) && NoOrphan(s)
    requires step.Stop? && Can(s, step) && Clean(s, step)
    ensures WellKept(After(s, step)) && NoOrphan(After(s, step))
  {
    var s' := After(s, step);
    forall k | LastState(s'.log, k) == Some(Firing) ensures Held(s', k) {
      assert Held(s, k);
      StopByKey(s, step, k);
      if FiresLive(s.rules, k) {
        assert k in InstanceKeys(s.rules);
        EnumRoundTrip(Firing);
      }
    }
  }

  /** The key is among the firing rows a load returned, all of them or those read before it broke off. */
  predicate LoadedFiring(loaded: seq<Instance>, k: Key) {
    k in Read(loaded) && Read(loaded)[k].state == Firing
  }

  /** What a load returns lists active rows of the table; all of them if it succeeds. */
  lemma LoadIsRead(table: Table, loaded: seq<Instance>, loadOk: bool)
    requires if loadOk then Lists(loaded, Actives(table)) else ListsSome(loaded, Actives(table))
    ensures Lists(loaded, Read(loaded)) && forall k :: k in Read(loaded) ==> Read(loaded)[k].Active()
    ensures forall k :: LoadedFiring(loaded, k) ==> SavedFiring(table, k)
    ensures loadOk ==> forall k :: SavedFiring(table, k) ==> LoadedFiring(loaded, k)
  {
    if loadOk {
      ListingIsRead(loaded, Actives(table));
    }
    PartIsListed(loaded, Actives(table));
    forall k | k in Read(loaded) ensures k in table && Read(loaded)[k] == FromRow(k, table[k]) && ActiveRow(table[k]) {
      assert Get(Actives(table), k) == Some(Read(loaded)[k]);
    }
  }

  lemma ClaimedByKey(loaded: seq<Instance>, k: Key)
    requires Lists(loaded, Read(loaded)) && forall o :: o in Read(loaded) ==> Read(loaded)[o].Active()
    ensures var back := Restored(map[], loaded, k.rule);
            (k.inst in back && back[k.inst].state == Firing) <==> LoadedFiring(loaded, k)
  {
    RestoredByKey(loaded, Read(loaded), k.rule, k.inst);
    assert Key(k.rule, k.inst) == k;
  }

  /** A start gives a loaded firing key to its rule, or to the queue when no rule claims it; nothing else is queued. */
  lemma StartByKey(s: System, step: Step, k: Key)
    requires step.Start? && Can(s, step)
    ensures var s' := After(s, step);
            && AllWellFormed(s'.pending)
            && (FiresLive(s'.rules, k) <==> k.rule in step.ids && LoadedFiring(step.loaded, k))
            && (Queued(s'.pending, k) <==> k.rule !in step.ids && LoadedFiring(step.loaded, k))
    ensures LoadedFiring(step.loaded, k) ==> SavedFiring(s.table, k)
    ensures step.loadOk && SavedFiring(s.table, k) ==> LoadedFiring(step.loaded, k)
  {
    LoadIsRead(s.table, step.loaded, step.loadOk);
    ClaimedByKey(step.loaded, k);
    QueuedAtStart(step.loaded, step.ids, step.at, k);
  }

  lemma QueuedAtStart(loaded: seq<Instance>, ids: set<RuleId>, at: Time, k: Key)
    requires Lists(loaded, Read(loaded))
    ensures var pending := Submission(at, Unclaimed(loaded, ids));
            AllWellFormed(pending) && (Queued(pending, k) <==> k.rule !in ids && LoadedFiring(loaded, k))
  {
    var unclaimed := Unclaimed(loaded, ids);
    assert [] + Submission(at, unclaimed) == Submission(at, unclaimed);
    SubmitByKey([], at, unclaimed, k);
    UnclaimedByKey(loaded, ids, k);
  }

  lemma UnclaimedByKey(loaded: seq<Instance>, ids: set<RuleId>, k: Key)
    requires Lists(loaded, Read(loaded))
    ensures Mentions(FiringOnly(Unclaimed(loaded, ids)), k) <==> k.rule !in ids && LoadedFiring(loaded, k)
  {
    var unclaimed := FiringOnly(Unclaimed(loaded, ids));
    ListingIsExact(loaded, Read(loaded));
    if LoadedFiring(loaded, k) && k.rule !in ids {
      var a := Read(loaded)[k];
      assert a in unclaimed;
      var i :| 0 <= i < |unclaimed| && unclaimed[i] == a;
      assert KeyOf(unclaimed[i]) == k;
    }
    if Mentions(unclaimed, k) {
      var i :| 0 <= i < |unclaimed| && KeyOf(unclaimed[i]) == k;
      assert unclaimed[i] in unclaimed;
    }
  }

  lemma StartKeeps(s: System, step: Step)
    requires WellKept(s) && NoOrphan(s)
    requires step.Start? && Can(s, step) && Clean(s, step)
    ensures WellKept(After(s, step)) && NoOrphan(After(s, step))
  {
    var s' := After(s, step);
    StartByKey(s, step, Key(0, 0));
    forall r | r in s'.rules ensures Owned(s'.rules[r], r) {
      RestoredOwned(map[], step.loaded, r);
    }
    forall k | LastState(s'.log, k) == Some(Firing) ensures Held(s', k) {
      assert Held(s, k);
      StartByKey(s, step, k);
    }
  }

  /**
    A start whose load fails, with whatever rows it had read, keeps the
    promise exactly if every key the history shows firing is among them, firing.
   */
  lemma FailedLoadOrphans(s: System, step: Step)
    requires step.Start? && Can(s, step) && !step.loadOk
    ensures NoOrphan(After(s, step)) <==>
            forall k :: LastState(s.log, k) == Some(Firing) ==> LoadedFiring(step.loaded, k)
  {
    var s' := After(s, step);
    assert s'.up && s'.log == s.log;
    forall k ensures Held(s', k) <==> LoadedFiring(step.loaded, k) {
      StartByKey(s, step, k);
    }
    if NoOrphan(s') {
      forall k | LastState(s.log, k) == Some(Firing) ensures LoadedFiring(step.loaded, k) {
        assert Held(s', k);
      }
    }
  }

  /** A stop whose save fails keeps the promise exactly if an earlier save holds firing all that the history does. */
  lemma FailedSaveOrphans(s: System, step: Step)
    requires step.Stop? && Can(s, step) && !step.saveOk
    ensures NoOrphan(After(s, step)) <==> forall k :: LastState(s.log, k) == Some(Firing) ==> SavedFiring(s.table, k)
  {
    var s' := After(s, step);
    assert s'.log == s.log && s'.table == s.table && !s'.up;
    forall k ensures Held(s', k) <==> SavedFiring(s.table, k) {
    }
    if NoOrphan(s') {
      forall k | LastState(s.log, k) == Some(Firing) ensures SavedFiring(s.table, k) {
        assert Held(s', k);
      }
    }
  }

  // ----- Over runs -----

  lemma EveryStepKeeps(s: System, step: Step)
    requires WellKept(s) && NoOrphan(s)
    requires Can(s, step) && Clean(s, step)
    ensures WellKept(After(s, step)) && NoOrphan(After(s, step))
  {
    match step
    case Evaluate(_, _, _, _, _) => EvaluateKeeps(s, step);
    case Flush(_, _) => FlushKeeps(s, step);
    case Drop(_, _, _) => DropKeeps(s, step);
    case Add(_) => AddKeeps(s, step);
    case Stop(_, _) => StopKeeps(s, step);
    case Start(_, _, _, _) => StartKeeps(s, step);
  }

  ghost predicate AllClean(s: System, steps: seq<Step>)
    requires Legal(s, steps)
    decreases |steps|
  {
    steps == [] || (AllClean(s, steps[..|steps| - 1]) && Clean(Run(s, steps[..|steps| - 1]), steps[|steps| - 1]))
  }

  /**
    No orphaned firing: from the first start on, after any run of
    evaluations, flushes, reloads, graceful stops and starts, with any
    retirement writes failing, every key whose latest history row is firing
    is held firing by a live rule, by a pending retirement, or by the saved
    state while the process is stopped.
   */
  lemma NoOrphanedFiring(steps: seq<Step>)
    requires Legal(INITIAL, steps)
    requires AllClean(INITIAL, steps)
    ensures WellKept(Run(INITIAL, steps)) && NoOrphan(Run(INITIAL, steps))
  {
    EveryRunKeeps(INITIAL, steps);
  }

  /** From any point on, a run of clean steps keeps the promise. */
  lemma {:induction false} EveryRunKeeps(s: System, steps: seq<Step>)
    requires WellKept(s) && NoOrphan(s)
    requires Legal(s, steps) && AllClean(s, steps)
    ensures WellKept(Run(s, steps)) && NoOrphan(Run(s, steps))
    decreases |steps|
  {
    if steps != [] {
      var n := |steps| - 1;
      EveryRunKeeps(s, steps[..n]);
      EveryStepKeeps(Run(s, steps[..n]), steps[n]);
    }
  }
}
