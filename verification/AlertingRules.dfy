/** One alerting rule: its settings, and the alert instances its evaluations move through the states. */
module AlertingRules {
  import opened Alerts
  import opened RuleStep

  /** The part of a rule's configuration a reload replaces in place. */
  datatype Definition = Definition(
    expr: string,
    forDur: int,
    keepFire: int,
    labels: Labels,
    annotations: Labels,
    debug: bool)

  datatype ExecResult = ExecFailed(reason: Verdict) | ExecSent(alerts: seq<Instance>)

  class AlertingRule {
    const ruleId: RuleId
    const name: string
    const groupName: string
    const groupInterval: int
    const resendDelay: int
    var definition: Definition
    var alerts: AlertMap
    var lastSamples: nat

    constructor (ruleId: RuleId, name: string, groupName: string, groupInterval: int, resendDelay: int,
                 definition: Definition)
      ensures this.ruleId == ruleId && this.name == name && this.groupName == groupName
      ensures this.groupInterval == groupInterval && this.resendDelay == resendDelay
      ensures this.definition == definition
      ensures alerts == map[] && Keyed(alerts)
    {
      this.ruleId := ruleId;
      this.name := name;
      this.groupName := groupName;
      this.groupInterval := groupInterval;
      this.resendDelay := resendDelay;
      this.definition := definition;
      this.alerts := map[];
      this.lastSamples := 0;
    }

    /** The settings an evaluation runs under: the rule's own as it is now, and those of its group. */
    function CurrentSettings(): (s: Settings)
      reads this
      ensures s.ruleId == ruleId && s.alertName == name && s.groupName == groupName
      ensures s.expr == definition.expr && s.forDur == definition.forDur && s.keepFire == definition.keepFire
      ensures s.groupInterval == groupInterval && s.resendDelay == resendDelay
    {
      Settings(ruleId, groupName, name, definition.expr, definition.forDur, definition.keepFire,
               groupInterval, resendDelay)
    }

    /** Evaluates the rule once, on the answer its query gave. */
    method Exec(answer: Answer, ts: Time, limit: int) returns (result: ExecResult)
      requires Keyed(alerts)
      modifies this`alerts, this`lastSamples
      ensures Keyed(alerts)
      ensures alerts == Next(old(alerts), Eval(answer, ts, limit, old(CurrentSettings())))
      ensures var e := Eval(answer, ts, limit, old(CurrentSettings()));
              match VerdictOf(old(alerts), e)
              case Succeeded => result.ExecSent? && Enumerates(result.alerts, Sent(old(alerts), e))
              case failure => result == ExecFailed(failure)
      ensures lastSamples == (match answer
                              case QueryPanics => old(lastSamples)
                              case QueryFails => 0
                              case Rows(rows) => |rows|)
    {
      ghost var before := alerts;
      ghost var s := CurrentSettings();
      ghost var e := Eval(answer, ts, limit, s);
      NextKeyed(before, e);
      if answer.QueryPanics? {
        return ExecFailed(QueryPanicked);
      }
      lastSamples := if answer.Rows? then |answer.rows| else 0;
      if answer.QueryFails? {
        return ExecFailed(QueryFailed);
      }
      var rows := answer.rows;
      if limit > 0 && |rows| > limit {
        return ExecFailed(TooManyRows);
      }
      PurgeResolved(ts);
      var seen, distinct := AbsorbRows(rows, ts);
      if !distinct {
        return ExecFailed(DuplicateLabels);
      }
      assert rows[..|rows|] == rows;
      result := Transition(before, rows, seen, ts, limit);
    }

    /** The rest of an evaluation whose rows are all distinct and absorbed. */
    method Transition(ghost before: AlertMap, rows: seq<Row>, seen: set<InstanceId>, ts: Time, limit: int)
      returns (result: ExecResult)
      requires Distinct(rows) && !(limit > 0 && |rows| > limit)
      requires seen == RowIds(rows)
      requires alerts == AfterRows(Purged(before, ts), rows, ts, CurrentSettings())
      requires Keyed(before)
      modifies this`alerts
      ensures var e := Eval(Rows(rows), ts, limit, old(CurrentSettings()));
              var stepped := Stepped(before, rows, ts, e.settings);
              if OverLimit(before, e) then
                alerts == map[] && result == ExecFailed(TooManyActive)
              else
                && alerts == MarkedAll(stepped, ts, e.settings)
                && result.ExecSent?
                && Enumerates(result.alerts, OutgoingAll(stepped, ts, e.settings))
    {
      PassesAreStep(before, rows, ts, CurrentSettings());
      SteppedKeyed(before, rows, ts, CurrentSettings());
      forall id | id in seen ensures id in alerts && alerts[id].Active() {
        RowsAreActive(Purged(before, ts), rows, ts, CurrentSettings(), id);
      }
      var numActive := SettleAlerts(seen, ts);
      if limit > 0 && numActive > limit {
        alerts := map[];
        return ExecFailed(TooManyActive);
      }
      var toSend := AlertsToSend(ts);
      return ExecSent(toSend);
    }

    /** First pass: forget resolved instances past retention. */
    method PurgeResolved(ts: Time)
      requires Keyed(alerts)
      modifies this`alerts
      ensures alerts == Purged(old(alerts), ts)
    {
      ghost var before := alerts;
      var todo := alerts.Keys;
      while todo != {}
        invariant todo <= alerts.Keys <= before.Keys
        invariant forall id :: id in alerts ==> alerts[id] == before[id]
        invariant forall id :: id in before && id !in todo ==> (id in alerts <==> !Expired(before[id], ts))
      {
        var id :| id in todo;
        todo := todo - {id};
        var a := alerts[id];
        if a.state == Inactive && ts - a.resolvedAt > RESOLVED_RETENTION {
          alerts := alerts - {id};
        }
      }
    }

    /** Second pass: create, re-activate or refresh the instance of each row, up to a repeated label set. */
    method AbsorbRows(rows: seq<Row>, ts: Time) returns (seen: set<InstanceId>, distinct: bool)
      requires Keyed(alerts)
      modifies this`alerts
      ensures distinct <==> Distinct(rows)
      ensures distinct ==> seen == RowIds(rows)
      ensures alerts == AfterRows(old(alerts), rows[..DistinctPrefix(rows)], ts, old(CurrentSettings()))
      ensures Keyed(alerts)
    {
      ghost var before := alerts;
      var s := CurrentSettings();
      seen := {};
      var i := 0;
      assert alerts == AfterRows(before, rows[..0], ts, s);
      while i < |rows|
        invariant 0 <= i <= |rows|
        invariant Distinct(rows[..i])
        invariant seen == RowIds(rows[..i])
        invariant alerts == AfterRows(before, rows[..i], ts, s)
        invariant CurrentSettings() == s
        invariant Keyed(alerts)
      {
        var m := rows[i];
        ExtendRows(before, rows, i, ts, s);
        if m.id in seen {
          RepeatEndsPrefix(rows, i);
          return seen, false;
        }
        seen := seen + {m.id};
        if m.id in alerts {
          var a := alerts[m.id];
          if a.state == Inactive {
            a := a.(state := Pending, activeAt := ts, resolvedAt := 0);
          }
          alerts := alerts[m.id := a.(value := m.value, keepFiringSince := 0)];
        } else {
          alerts := alerts[m.id := Instance(m.id, ruleId, Origin(groupName, name, m.labels, definition.expr),
                                            m.value, Pending, ts, 0, 0, 0, 0, definition.forDur, 0)];
        }
        i := i + 1;
        assert rows[..i][..i - 1] == rows[..i - 1];
      }
      assert rows[..|rows|] == rows;
      distinct := true;
    }

    /** Third pass: settle every instance, counting those that stay active. */
    method SettleAlerts(seen: set<InstanceId>, ts: Time) returns (numActive: nat)
      requires forall id :: id in seen ==> id in alerts && alerts[id].Active()
      modifies this`alerts
      ensures alerts == SettledAll(old(alerts), seen, ts, old(CurrentSettings()))
      ensures numActive == |ActiveIds(alerts)|
    {
      ghost var before := alerts;
      ghost var f := SettleEach(seen, ts, CurrentSettings());
      numActive := 0;
      var todo := alerts.Keys;
      NoneRewritten(before, f);
      while todo != {}
        invariant todo <= before.Keys
        invariant alerts == Rewritten(before, todo, f)
        invariant numActive == ActiveCount(alerts, todo)
      {
        var id :| id in todo;
        CountRewritten(before, todo, id, f);
        todo := todo - {id};
        var active := SettleOne(id, id in seen, ts);
        if active {
          numActive := numActive + 1;
        }
      }
      CountAll(alerts);
    }

    /** Delete, keep firing or resolve an instance that had no row; promote one pending long enough. */
    method SettleOne(id: InstanceId, seen: bool, ts: Time) returns (active: bool)
      requires id in alerts
      requires seen ==> alerts[id].Active()
      modifies this`alerts
      ensures var settled := Settled(old(alerts)[id], seen, ts, old(CurrentSettings()));
              && alerts == WithEntry(old(alerts), id, settled)
              && (active <==> settled.Some? && settled.value.Active())
    {
      var a := alerts[id];
      active := false;
      if !seen {
        match a.state {
          case Pending =>
            alerts := alerts - {id};
            return;
          case Firing =>
            if definition.keepFire > 0 {
              if a.keepFiringSince == 0 {
                a := a.(keepFiringSince := ts);
              }
              if ts - a.keepFiringSince < definition.keepFire {
                alerts := alerts[id := a];
                return true;
              }
            }
            alerts := alerts[id := a.(state := Inactive, resolvedAt := ts)];
            return;
          case Inactive =>
        }
      } else {
        active := true;
      }
      if a.state == Pending && ts - a.activeAt >= definition.forDur {
        a := a.(state := Firing, firedAt := ts);
      }
      alerts := alerts[id := a];
    }

    /** Chooses what goes to the notifier and stamps it as sent. */
    method AlertsToSend(ts: Time) returns (out: seq<Instance>)
      requires Keyed(alerts)
      modifies this`alerts
      ensures alerts == MarkedAll(old(alerts), ts, old(CurrentSettings()))
      ensures Enumerates(out, OutgoingAll(old(alerts), ts, old(CurrentSettings())))
    {
      ghost var before := alerts;
      ghost var mark, copy := MarkEach(ts, CurrentSettings()), CopyEach(ts, CurrentSettings());
      out := [];
      var todo := alerts.Keys;
      assert alerts == Rewritten(before, todo, mark);
      assert Rewritten(before, todo, copy) - todo == map[];
      while todo != {}
        invariant todo <= before.Keys
        invariant alerts == Rewritten(before, todo, mark)
        invariant Enumerates(out, Rewritten(before, todo, copy) - todo)
      {
        var id :| id in todo;
        RewriteOneMore(before, todo, id, mark);
        CollectOneMore(before, todo, id, out, copy);
        todo := todo - {id};
        var inst := SendOne(id, ts);
        if inst.Some? {
          out := out + [inst.value];
        }
      }
      assert Rewritten(before, todo, copy) - todo == Rewritten(before, {}, copy);
    }

    /** Stamps one instance as sent and copies it, unless it is pending or was sent recently. */
    method SendOne(id: InstanceId, ts: Time) returns (inst: Option<Instance>)
      requires id in alerts
      modifies this`alerts
      ensures var a, s := old(alerts)[id], old(CurrentSettings());
              && alerts == WithEntry(old(alerts), id, Some(Marked(a, ts, s)))
              && inst == (if Due(a, ts, s) then Some(Outgoing(a, ts, s)) else None)
    {
      var a := alerts[id];
      if a.state == Pending {
        return None;
      }
      if a.state == Firing {
        if a.lastSent != 0 && a.lastSent > a.firedAt && ts - a.lastSent < resendDelay {
          return None;
        }
        a := a.(lastSent := ts);
        alerts := alerts[id := a];
        return Some(a.(interval := groupInterval));
      } else if a.state == Inactive && a.resolvedAt != 0 {
        a := a.(lastSent := ts);
        alerts := alerts[id := a];
        return Some(a.(interval := groupInterval));
      }
      return None;
    }

    /** A snapshot of every instance, in no particular order. */
    method GetAlerts() returns (out: seq<Instance>)
      requires Keyed(alerts)
      ensures Enumerates(out, alerts)
    {
      out := [];
      ghost var listed: AlertMap := map[];
      var todo := alerts.Keys;
      while todo != {}
        invariant todo <= alerts.Keys
        invariant forall id :: id in listed <==> id in alerts && id !in todo
        invariant forall id :: id in listed ==> listed[id] == alerts[id]
        invariant Enumerates(out, listed)
      {
        var id :| id in todo;
        todo := todo - {id};
        EnumerateOneMore(out, listed, alerts[id]);
        out, listed := out + [alerts[id]], listed[id := alerts[id]];
      }
      assert listed == alerts;
    }

    /** Brings back the active instances of a previous run that belong to this rule. */
    method Restore(instances: seq<Instance>)
      requires Keyed(alerts)
      modifies this`alerts
      ensures alerts == Restored(old(alerts), instances, ruleId)
      ensures Keyed(alerts)
    {
      ghost var before := alerts;
      var i := 0;
      while i < |instances|
        invariant 0 <= i <= |instances|
        invariant alerts == Restored(before, instances[..i], ruleId)
        invariant Keyed(alerts)
      {
        var inst := instances[i];
        assert instances[..i + 1][..i] == instances[..i];
        i := i + 1;
        if inst.ruleId != ruleId {
          continue;
        }
        if inst.state == Pending || inst.state == Firing {
          alerts := alerts[inst.id := inst];
        }
      }
      assert instances[..i] == instances;
    }
  }

  /** The map after restoring a list of instances into a rule, later entries winning. */
  function Restored(m: AlertMap, instances: seq<Instance>, ruleId: RuleId): AlertMap {
    if instances == [] then m
    else
      var init := Restored(m, instances[..|instances| - 1], ruleId);
      var last := instances[|instances| - 1];
      if last.ruleId == ruleId && last.Active() then init[last.id := last] else init
  }

  /** Whether restoring rule `r` takes this instance: it carries the rule's ID and is pending or firing. */
  predicate TakesIn(a: Instance, r: RuleId) {
    a.ruleId == r && (a.state == Pending || a.state == Firing)
  }

  /** Restoring gives an identity the last instance of the list that the rule takes. */
  lemma {:induction false} LastTakenWins(m: AlertMap, instances: seq<Instance>, r: RuleId, i: nat)
    requires i < |instances| && TakesIn(instances[i], r)
    requires forall j :: i < j < |instances| && instances[j].id == instances[i].id ==> !TakesIn(instances[j], r)
    ensures Get(Restored(m, instances, r), instances[i].id) == Some(instances[i])
  {
    if i < |instances| - 1 {
      LastTakenWins(m, instances[..|instances| - 1], r, i);
    }
  }

  /** An identity of which it takes none stays as it was. */
  lemma {:induction false} NoneTakenStays(m: AlertMap, instances: seq<Instance>, r: RuleId, id: InstanceId)
    requires forall j :: 0 <= j < |instances| && instances[j].id == id ==> !TakesIn(instances[j], r)
    ensures Get(Restored(m, instances, r), id) == Get(m, id)
  {
    if instances != [] {
      NoneTakenStays(m, instances[..|instances| - 1], r, id);
    }
  }

  lemma {:induction false} RestoredOwned(m: AlertMap, instances: seq<Instance>, r: RuleId)
    requires Owned(m, r)
    ensures Owned(Restored(m, instances, r), r)
  {
    if instances != [] {
      RestoredOwned(m, instances[..|instances| - 1], r);
    }
  }

  /** Absorbing one more row with a new identity changes that instance alone. */
  lemma ExtendRows(m: AlertMap, rows: seq<Row>, i: nat, ts: Time, s: Settings)
    requires i < |rows|
    ensures RowIds(rows[..i + 1]) == RowIds(rows[..i]) + {rows[i].id}
    ensures AfterRows(m, rows[..i + 1], ts, s) ==
            AfterRows(m, rows[..i], ts, s)[rows[i].id := Matched(Get(m, rows[i].id), rows[i], ts, s)]
  {
    var more := rows[..i + 1];
    assert more[..i] == rows[..i];
    assert more == rows[..i] + [rows[i]];
  }
}
