/** Two groups that carry the same rule ID: why IDs must be distinct across groups, not only within them. */
module SharedRules {
  import opened Alerts
  import opened RuleStep
  import opened RuleRuns
  import opened StateStore
  import opened Retirements
  import opened Lifecycle
  import opened NoOrphans

  function MatchAt(row: Row, ts: Time, st: Settings): Eval {
    Eval(Rows([row]), ts, 0, st)
  }

  /** What the group that evaluated at both times holds. */
  function Early(row: Row, st: Settings, t0: Time, t1: Time): AlertMap {
    At(map[], [MatchAt(row, t0, st), MatchAt(row, t1, st)], 2)
  }

  /** What the group that evaluated at the second time only holds. */
  function Late(row: Row, st: Settings, t1: Time): AlertMap {
    At(map[], [MatchAt(row, t1, st)], 1)
  }

  /**
    One rule in two groups, both matching: the group that began earlier holds
    the instance firing when the other, begun at the moment it fired, still
    holds it pending.
   */
  lemma OneFiresOnePends(row: Row, st: Settings, t0: Time, t1: Time)
    requires 0 < t0 < t1 && 0 < st.forDur <= t1 - t0
    ensures var early, late := Early(row, st, t0, t1), Late(row, st, t1);
            && row.id in early && early[row.id].state == Firing
            && row.id in late && late[row.id].state == Pending
            && KeyOf(early[row.id]) == KeyOf(late[row.id]) == Key(st.ruleId, row.id)
  {
    var e0, e1 := MatchAt(row, t0, st), MatchAt(row, t1, st);
    var first := Next(map[], e0);
    AllRowsApply(e0);
    AllRowsApply(e1);
    NextByKey(map[], e0, row.id);
    NextByKey(first, e1, row.id);
    NextByKey(map[], e1, row.id);
    assert At(map[], [e0, e1], 0) == map[] && At(map[], [e0, e1], 1) == first;
    assert At(map[], [e0, e1], 2) == Next(first, e1);
    assert At(map[], [e1], 0) == map[] && At(map[], [e1], 1) == Next(map[], e1);
  }

  /** The system after a stop that saved `saved` and a start that loaded it back. */
  function Restarted(log: Log, table: Table, saved: seq<Instance>, loaded: seq<Instance>, ids: set<RuleId>,
                     at: Time): System
  {
    System(true, RestoredAll(ids, loaded), Submission(at, Unclaimed(loaded, ids)), log, SaveAll(table, saved))
  }

  /**
    The table has one row for the key, so whichever group's instance is saved
    last decides: if that is the pending one, every group restores it pending
    and the firing row in the history has no holder.
   */
  lemma LastSavedDecides(log: Log, table: Table, saved: seq<Instance>, loaded: seq<Instance>, ids: set<RuleId>,
                         at: Time, k: Key)
    requires Lists(loaded, Actives(SaveAll(table, saved)))
    requires k.rule in ids && LastIn(saved, k).Some?
    ensures Held(Restarted(log, table, saved, loaded, ids, at), k) <==> LastIn(saved, k).value.state == Firing
    ensures LastState(log, k) == Some(Firing) && LastIn(saved, k).value.state == Pending ==>
              !NoOrphan(Restarted(log, table, saved, loaded, ids, at))
  {
    var s := System(false, map[], [], log, SaveAll(table, saved));
    StartByKey(s, Start(ids, at, loaded, true), k);
    SavedLast(table, saved, k);
    EnumRoundTrip(LastIn(saved, k).value.state);
    var unclaimed := Unclaimed(loaded, ids);
    assert [] + Submission(at, unclaimed) == Submission(at, unclaimed);
  }

  /** Both groups stop, the pending instance saved after the firing one, and start again. */
  lemma SharedRuleOrphans(row: Row, st: Settings, t0: Time, t1: Time, log: Log, table: Table, loaded: seq<Instance>,
                          ids: set<RuleId>, at: Time)
    requires 0 < t0 < t1 && 0 < st.forDur <= t1 - t0 && st.ruleId in ids
    requires LastState(log, Key(st.ruleId, row.id)) == Some(Firing)
    requires var early, late := Early(row, st, t0, t1), Late(row, st, t1);
             row.id in early && row.id in late && Lists(loaded, Actives(SaveAll(table, [early[row.id], late[row.id]])))
    ensures var early, late := Early(row, st, t0, t1), Late(row, st, t1);
            !NoOrphan(Restarted(log, table, [early[row.id], late[row.id]], loaded, ids, at))
  {
    OneFiresOnePends(row, st, t0, t1);
    var a, b := Early(row, st, t0, t1)[row.id], Late(row, st, t1)[row.id];
    assert LastIn([a, b], Key(st.ruleId, row.id)) == Some(b);
    LastSavedDecides(log, table, [a, b], loaded, ids, at, Key(st.ruleId, row.id));
  }
}
