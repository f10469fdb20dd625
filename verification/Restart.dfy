/** A graceful restart: what a rule's active instances look like on the other side, and after every later evaluation. */
module Restart {
  import opened Alerts
  import opened RuleStep
  import opened RuleRuns
  import opened ActiveViews
  import opened AlertingRules
  import opened StateStore
  import opened Retirements
  import opened Lifecycle
  import opened NoOrphans

  /** A graceful stop, then a start whose load succeeds, of a system in which the rule runs before and after. */
  ghost predicate Restarts(s: System, stop: Step, start: Step, r: RuleId) {
    && WellKept(s) && r in s.rules
    && stop.Stop? && stop.saveOk && Can(s, stop)
    && start.Start? && start.loadOk && r in start.ids && Can(After(s, stop), start)
  }

  /** What the rule holds once the process is up again. */
  ghost function BackAfter(s: System, stop: Step, start: Step, r: RuleId): AlertMap
    requires Restarts(s, stop, start, r)
  {
    After(After(s, stop), start).rules[r]
  }

  /** The last firing copy of an instance that a pending retirement holds. */
  function LastQueued(s: System, k: Key): Option<Instance> {
    LastIn(FiringOf(s.pending), k)
  }

  /**
    A stop leaves each key as its last queued firing copy, else as the rule
    holds it, else as the table had it.
   */
  lemma SavedByKey(s: System, stop: Step, k: Key)
    requires stop.Stop? && stop.saveOk && Can(s, stop)
    ensures Get(After(s, stop).table, k) ==
            if LastQueued(s, k).Some? then Some(ToRow(LastQueued(s, k).value))
            else if k in AllInstances(s.rules) then Some(ToRow(AllInstances(s.rules)[k]))
            else Get(s.table, k)
  {
    SavedLast(s.table, stop.live + FiringOf(s.pending), k);
    LastInConcat(stop.live, FiringOf(s.pending), k);
    LastInListing(stop.live, AllInstances(s.rules), k);
  }

  /** A row read back shows what was saved. */
  lemma ReadBack(a: Instance)
    ensures ActiveRow(ToRow(a)) <==> a.Active()
    ensures ViewOf(Some(FromRow(KeyOf(a), ToRow(a)))) == ViewOf(Some(a))
  {
    RowRoundTrip(a);
  }

  /** What a restart gives back of one instance: that last queued copy, the instance, or a stale row. */
  lemma BackByKey(s: System, stop: Step, start: Step, r: RuleId, id: InstanceId)
    requires Restarts(s, stop, start, r)
    ensures var back, k, m := Get(BackAfter(s, stop, start, r), id), Key(r, id), s.rules[r];
            if LastQueued(s, k).Some? then ViewOf(back) == ViewOf(LastQueued(s, k))
            else if id in m then ViewOf(back) == ViewOf(Some(m[id]))
            else ViewOf(back).Some? <==> k in s.table && ActiveRow(s.table[k])
  {
    var k, m, table := Key(r, id), s.rules[r], After(s, stop).table;
    SavedByKey(s, stop, k);
    RestoredByKey(start.loaded, Actives(table), r, id);
    if LastQueued(s, k).Some? {
      ReadBack(LastQueued(s, k).value);
    } else if id in m {
      assert k in InstanceKeys(s.rules) && KeyOf(m[id]) == k;
      ReadBack(m[id]);
    }
  }

  /** No active row of the rule is left in the table for an instance that it does not hold and nothing queues. */
  ghost predicate NoStaleRows(s: System, r: RuleId)
    requires r in s.rules
  {
    forall id :: var k := Key(r, id);
      LastQueued(s, k).None? && k in s.table && id !in s.rules[r] ==> !ActiveRow(s.table[k])
  }

  /** Each instance of the rule that a retirement still queues is one the rule holds firing since the same times. */
  ghost predicate QueueAgrees(s: System, r: RuleId)
    requires r in s.rules
  {
    forall id :: LastQueued(s, Key(r, id)).Some? ==> ViewOf(LastQueued(s, Key(r, id))) == ViewOf(Get(s.rules[r], id))
  }

  /**
    A graceful restart gives a rule back its active instances exactly when
    alert_state held no stale active row of the rule, and no pending
    retirement of its ID would be saved over them.
   */
  lemma RestartIsFaithful(s: System, stop: Step, start: Step, r: RuleId)
    requires Restarts(s, stop, start, r)
    ensures SameActive(s.rules[r], BackAfter(s, stop, start, r)) <==> NoStaleRows(s, r) && QueueAgrees(s, r)
  {
    var m, m' := s.rules[r], BackAfter(s, stop, start, r);
    forall id
      ensures ViewOf(Get(m, id)) == ViewOf(Get(m', id)) <==>
              var k := Key(r, id);
              if LastQueued(s, k).Some? then ViewOf(LastQueued(s, k)) == ViewOf(Get(m, id))
              else k in s.table && id !in m ==> !ActiveRow(s.table[k])
    {
      BackByKey(s, stop, start, r, id);
    }
    if SameActive(m, m') {
      forall id
        ensures var k := Key(r, id);
                LastQueued(s, k).None? && k in s.table && id !in m ==> !ActiveRow(s.table[k])
        ensures LastQueued(s, Key(r, id)).Some? ==> ViewOf(LastQueued(s, Key(r, id))) == ViewOf(Get(m, id))
      {
        assert ViewOf(Get(m, id)) == ViewOf(Get(m', id));
      }
    }
  }

  /** Then no later run of evaluations tells the restarted rule from the original. */
  lemma {:induction false} RestartIsInvisible(s: System, stop: Step, start: Step, r: RuleId, evs: seq<Eval>, k: nat)
    requires Restarts(s, stop, start, r)
    requires NoStaleRows(s, r) && QueueAgrees(s, r)
    requires k <= |evs|
    ensures SameActive(At(s.rules[r], evs, k), At(BackAfter(s, stop, start, r), evs, k))
    ensures k < |evs| ==>
              VerdictOf(At(s.rules[r], evs, k), evs[k]) == VerdictOf(At(BackAfter(s, stop, start, r), evs, k), evs[k])
  {
    var m, m' := s.rules[r], BackAfter(s, stop, start, r);
    if k == 0 {
      RestartIsFaithful(s, stop, start, r);
    } else {
      RestartIsInvisible(s, stop, start, r, evs, k - 1);
      SameActiveKept(At(m, evs, k - 1), At(m', evs, k - 1), evs[k - 1]);
    }
    if k < |evs| {
      SameVerdict(At(m, evs, k), At(m', evs, k), evs[k]);
    }
  }

  // ----- How it fails -----

  /**
    A rule dropped by one reload, whose rows fail to write, added back empty
    by the next, and then restarted.
   */
  ghost predicate ComesAndGoes(s: System, drop: Step, flush: Step, add: Step, r: RuleId) {
    && WellKept(s) && r in s.rules
    && drop.Drop? && drop.gone == {r} && Can(s, drop)
    && flush.Flush? && Can(After(s, drop), flush) && (forall i :: 0 <= i < |flush.ok| ==> !flush.ok[i])
    && add.Add? && r in add.added && Can(After(After(s, drop), flush), add)
  }

  ghost function Returned(s: System, drop: Step, flush: Step, add: Step, r: RuleId): System
    requires ComesAndGoes(s, drop, flush, add, r)
  {
    After(After(After(s, drop), flush), add)
  }

  /** The restart undoes the retirement: the rule, which held nothing, has the retired instances back firing. */
  lemma RetirementComesBack(s: System, drop: Step, flush: Step, add: Step, stop: Step, start: Step, r: RuleId,
                            id: InstanceId)
    requires ComesAndGoes(s, drop, flush, add, r)
    requires Restarts(Returned(s, drop, flush, add, r), stop, start, r)
    requires id in s.rules[r] && s.rules[r][id].state == Firing
    ensures Returned(s, drop, flush, add, r).rules[r] == map[]
    ensures var back := BackAfter(Returned(s, drop, flush, add, r), stop, start, r);
            id in back && back[id].state == Firing
  {
    DropQueues(s, drop, Key(r, id));
    FlushByKey(After(s, drop).pending, flush.ok, Key(r, id));
    NothingLands(After(s, drop).pending, flush.ok);
    QueuedComesBack(Returned(s, drop, flush, add, r), stop, start, r, id);
  }

  lemma {:induction false} NothingLands(pending: seq<Retirement>, ok: seq<bool>)
    requires |ok| == |pending| && forall i :: 0 <= i < |ok| ==> !ok[i]
    ensures Landed(pending, ok) == []
  {
    if pending != [] {
      NothingLands(pending[..|pending| - 1], ok[..|ok| - 1]);
    }
  }

  lemma DropQueues(s: System, drop: Step, k: Key)
    requires WellKept(s) && drop.Drop? && Can(s, drop)
    requires k.rule in drop.gone && FiresLive(s.rules, k)
    ensures AllWellFormed(After(s, drop).pending) && Queued(After(s, drop).pending, k)
  {
    var gone := Only(s.rules, drop.gone);
    assert k in InstanceKeys(gone);
    ListedMention(drop.dropped, AllInstances(gone), k);
    SubmitByKey(s.pending, drop.at, drop.dropped, k);
  }

  /** Whatever the rule holds, an instance of its ID still queued is firing after the restart. */
  lemma QueuedComesBack(s: System, stop: Step, start: Step, r: RuleId, id: InstanceId)
    requires Restarts(s, stop, start, r)
    requires Queued(s.pending, Key(r, id))
    ensures var back := BackAfter(s, stop, start, r);
            id in back && back[id].state == Firing
  {
    var k := Key(r, id);
    FiringMentions(s.pending, k);
    LastInMentions(FiringOf(s.pending), k);
    BackByKey(s, stop, start, r, id);
    assert ViewOf(Get(BackAfter(s, stop, start, r), id)) == ViewOf(LastQueued(s, k));
  }

  /**
    A stale row comes back too: an instance saved pending, deleted after the
    restart because its row was gone, and so never saved again, is restored
    by the second restart with its first ActiveAt, and fires on its next row
    although `for` has not elapsed since it was last absent.
   */
  lemma StalePendingFiresEarly(row: Row, st: Settings, t0: Time, t1: Time, t2: Time, loaded: seq<Instance>)
    requires 0 < t0 < t1 < t2 && t2 - t1 < st.forDur <= t2 - t0
    requires var a := Fresh(row, t0, st); Lists(loaded, Actives(SaveAll(map[], [a])))
    ensures var first := Restored(map[], loaded, st.ruleId);
            && Next(first, Eval(Rows([]), t1, 0, st)) == map[]
            && SaveAll(SaveAll(map[], [Fresh(row, t0, st)]), []) == SaveAll(map[], [Fresh(row, t0, st)])
    ensures var second := Restored(map[], loaded, st.ruleId);
            var fired := Next(second, Eval(Rows([row]), t2, 0, st));
            row.id in fired && fired[row.id].state == Firing && fired[row.id].activeAt == t0
  {
    var a, restored := Fresh(row, t0, st), Restored(map[], loaded, st.ruleId);
    forall id
      ensures ViewOf(Get(restored, id)) == ViewOf(if id == row.id then Some(a) else None)
      ensures id in restored ==> id == row.id && restored[id].state == Pending
    {
      SavedLast(map[], [a], Key(st.ruleId, id));
      RestoredByKey(loaded, Actives(SaveAll(map[], [a])), st.ruleId, id);
      ReadBack(a);
    }
    NothingAfterAbsence(restored, row.id, Eval(Rows([]), t1, 0, st));
    var matched := Eval(Rows([row]), t2, 0, st);
    AllRowsApply(matched);
    NextByKey(restored, matched, row.id);
    assert ViewOf(Get(restored, row.id)) == ViewOf(Some(a));
  }

  /** A rule that holds one pending instance holds nothing after a success without rows. */
  lemma NothingAfterAbsence(m: AlertMap, only: InstanceId, absent: Eval)
    requires absent.answer == Rows([]) && absent.limit == 0
    requires forall id :: id in m ==> id == only && m[id].state == Pending
    ensures Next(m, absent) == map[]
  {
    forall id ensures Get(Next(m, absent), id) == None {
      NextByKey(m, absent, id);
    }
    SameEntries(Next(m, absent), map[]);
  }
}
