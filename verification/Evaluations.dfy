/**
  One evaluation in plain terms: how it ends, and what it makes of each
  instance, field by field and with its times written out.
 */
module Evaluations {
  import opened Alerts
  import opened RuleStep

  // ----- How it ends -----

  predicate Repeats(rows: seq<Row>) {
    exists i, j :: 0 <= i < j < |rows| && rows[i].id == rows[j].id
  }

  lemma {:induction false} DistinctRepeatsNothing(rows: seq<Row>)
    ensures Distinct(rows) <==> !Repeats(rows)
  {
    if rows != [] {
      var n := |rows| - 1;
      DistinctRepeatsNothing(rows[..n]);
      if !Distinct(rows) && Distinct(rows[..n]) {
        var i :| 0 <= i < n && rows[..n][i].id == rows[n].id;
        assert rows[i].id == rows[n].id;
      }
      if Repeats(rows[..n]) {
        var i, j :| 0 <= i < j < n && rows[..n][i].id == rows[..n][j].id;
        assert rows[i].id == rows[j].id;
      }
      if i, j :| 0 <= i < j < |rows| && rows[i].id == rows[j].id {
        assert rows[..n][i] == rows[i];
        if j < n {
          assert rows[..n][j] == rows[j];
        }
      }
    }
  }

  /** The query returned more rows than the limit allows. */
  predicate TooMany(e: Eval) {
    e.answer.Rows? && e.limit > 0 && |e.answer.rows| > e.limit
  }

  /** The instances left active: those with a row, and those kept firing without one. */
  ghost function Staying(m: AlertMap, e: Eval): set<InstanceId>
    requires e.answer.Rows?
  {
    (set i | 0 <= i < |e.answer.rows| :: e.answer.rows[i].id)
    + (set id | id in m && m[id].state == Firing && e.settings.keepFire > 0
                && (m[id].keepFiringSince == 0 || e.ts - m[id].keepFiringSince < e.settings.keepFire))
  }

  /** Exactly how an evaluation ends. */
  lemma VerdictIsExact(m: AlertMap, e: Eval)
    ensures VerdictOf(m, e) == QueryPanicked <==> e.answer.QueryPanics?
    ensures VerdictOf(m, e) == QueryFailed <==> e.answer.QueryFails?
    ensures VerdictOf(m, e) == TooManyRows <==> TooMany(e)
    ensures VerdictOf(m, e) == DuplicateLabels <==> e.answer.Rows? && !TooMany(e) && Repeats(e.answer.rows)
    ensures VerdictOf(m, e) == TooManyActive <==>
            e.answer.Rows? && !TooMany(e) && !Repeats(e.answer.rows) && e.limit > 0 && |Staying(m, e)| > e.limit
  {
    if e.answer.Rows? {
      DistinctRepeatsNothing(e.answer.rows);
      StayingAreActive(m, e);
    }
  }

  lemma StayingAreActive(m: AlertMap, e: Eval)
    requires e.answer.Rows?
    ensures ActiveIds(Stepped(m, e.answer.rows, e.ts, e.settings)) == Staying(m, e)
  {
    var stepped := Stepped(m, e.answer.rows, e.ts, e.settings);
    forall id ensures id in ActiveIds(stepped) <==> id in Staying(m, e) {
      var next := Step(Get(m, id), RowOf(e.answer.rows, id), e.ts, e.settings);
      assert Get(stepped, id) == next;
    }
  }

  // ----- What a success makes of an instance -----

  /** Whether a firing instance is sent: at first, when it has just fired, or after the resend delay. */
  predicate SendDue(lastSent: Time, firedAt: Time, ts: Time, s: Settings) {
    lastSent == 0 || lastSent <= firedAt || ts - lastSent >= s.resendDelay
  }

  lemma SuccessByKey(m: AlertMap, e: Eval, id: InstanceId)
    requires VerdictOf(m, e) == Succeeded
    ensures Get(Next(m, e), id) == KeyNext(Get(m, id), RowOf(e.answer.rows, id), Succeeded, e)
    ensures id in Next(m, e) ==> Get(Next(m, e), id) == Some(Next(m, e)[id])
  {
    NextByKey(m, e, id);
    AllRowsApply(e);
  }

  /** The one row of an identity among rows that repeat none. */
  lemma {:induction false} OneRowEach(rows: seq<Row>, i: nat)
    requires i < |rows| && Distinct(rows)
    ensures RowOf(rows, rows[i].id) == Some(rows[i])
  {
    var n := |rows| - 1;
    if i < n {
      OneRowEach(rows[..n], i);
      assert rows[..n][i].id in RowIds(rows[..n]);
    }
  }

  /** A row of an unknown identity, or of one resolved more than 15 minutes ago, makes a new instance. */
  lemma RowCreates(m: AlertMap, e: Eval, i: nat)
    requires VerdictOf(m, e) == Succeeded && i < |e.answer.rows|
    requires var id := e.answer.rows[i].id;
             id !in m || (m[id].state == Inactive && e.ts - m[id].resolvedAt > 900_000)
    ensures var row, s := e.answer.rows[i], e.settings;
            var fires := s.forDur <= 0;
            && row.id in Next(m, e)
            && Next(m, e)[row.id] ==
               Instance(row.id, s.ruleId, Origin(s.groupName, s.alertName, row.labels, s.expr), row.value,
                        if fires then Firing else Pending, e.ts, if fires then e.ts else 0, 0,
                        if fires then e.ts else 0, 0, s.forDur, 0)
  {
    OneRowEach(e.answer.rows, i);
    SuccessByKey(m, e, e.answer.rows[i].id);
  }

  /** A row of an instance resolved within the last 15 minutes makes it pending anew, firing at once without a `for`. */
  lemma RowReactivates(m: AlertMap, e: Eval, i: nat)
    requires VerdictOf(m, e) == Succeeded && i < |e.answer.rows|
    requires var id := e.answer.rows[i].id;
             id in m && m[id].state == Inactive && e.ts - m[id].resolvedAt <= 900_000
    ensures var row, s := e.answer.rows[i], e.settings;
            var a := m[row.id];
            && row.id in Next(m, e)
            && Next(m, e)[row.id] ==
               if s.forDur > 0 then
                 a.(value := row.value, state := Pending, activeAt := e.ts, resolvedAt := 0, keepFiringSince := 0)
               else
                 a.(value := row.value, state := Firing, activeAt := e.ts, firedAt := e.ts, resolvedAt := 0,
                    keepFiringSince := 0, lastSent := if SendDue(a.lastSent, e.ts, e.ts, s) then e.ts else a.lastSent)
  {
    OneRowEach(e.answer.rows, i);
    SuccessByKey(m, e, e.answer.rows[i].id);
  }

  /** A row of a pending instance takes its value over, and fires it once `for` has passed since it became active. */
  lemma RowOfPending(m: AlertMap, e: Eval, i: nat)
    requires VerdictOf(m, e) == Succeeded && i < |e.answer.rows|
    requires e.answer.rows[i].id in m && m[e.answer.rows[i].id].state == Pending
    ensures var row, s := e.answer.rows[i], e.settings;
            var a := m[row.id];
            && row.id in Next(m, e)
            && Next(m, e)[row.id] ==
               if e.ts - a.activeAt < s.forDur then a.(value := row.value, keepFiringSince := 0)
               else
                 a.(value := row.value, keepFiringSince := 0, state := Firing, firedAt := e.ts,
                    lastSent := if SendDue(a.lastSent, e.ts, e.ts, s) then e.ts else a.lastSent)
  {
    OneRowEach(e.answer.rows, i);
    SuccessByKey(m, e, e.answer.rows[i].id);
  }

  /** A row of a firing instance takes its value over and stops its keep-firing clock. */
  lemma RowOfFiring(m: AlertMap, e: Eval, i: nat)
    requires VerdictOf(m, e) == Succeeded && i < |e.answer.rows|
    requires e.answer.rows[i].id in m && m[e.answer.rows[i].id].state == Firing
    ensures var row := e.answer.rows[i];
            var a := m[row.id];
            && row.id in Next(m, e)
            && Next(m, e)[row.id] ==
               a.(value := row.value, keepFiringSince := 0,
                  lastSent := if SendDue(a.lastSent, a.firedAt, e.ts, e.settings) then e.ts else a.lastSent)
  {
    OneRowEach(e.answer.rows, i);
    SuccessByKey(m, e, e.answer.rows[i].id);
  }

  predicate HasRow(rows: seq<Row>, id: InstanceId) {
    exists i :: 0 <= i < |rows| && rows[i].id == id
  }

  /** Without a row nothing new appears, a pending instance goes, and a firing one is kept or resolved. */
  lemma NoRowOfActive(m: AlertMap, e: Eval, id: InstanceId)
    requires VerdictOf(m, e) == Succeeded && !HasRow(e.answer.rows, id)
    ensures id !in m ==> id !in Next(m, e)
    ensures id in m && m[id].state == Pending ==> id !in Next(m, e)
    ensures id in m && m[id].state == Firing ==>
              && id in Next(m, e)
              && var a, s, keep := m[id], e.settings, e.settings.keepFire;
                 var since := if keep <= 0 || a.keepFiringSince != 0 then a.keepFiringSince else e.ts;
                 Next(m, e)[id] ==
                 if keep > 0 && e.ts - since < keep then
                   a.(keepFiringSince := since,
                      lastSent := if SendDue(a.lastSent, a.firedAt, e.ts, s) then e.ts else a.lastSent)
                 else
                   a.(keepFiringSince := since, state := Inactive, resolvedAt := e.ts,
                      lastSent := if e.ts != 0 then e.ts else a.lastSent)
  {
    SuccessByKey(m, e, id);
  }

  /** Without a row a resolved instance stays exactly for 15 minutes, and is stamped as sent. */
  lemma NoRowOfResolved(m: AlertMap, e: Eval, id: InstanceId)
    requires VerdictOf(m, e) == Succeeded && !HasRow(e.answer.rows, id)
    requires id in m && m[id].state == Inactive
    ensures id in Next(m, e) <==> e.ts - m[id].resolvedAt <= 900_000
    ensures id in Next(m, e) ==>
              Next(m, e)[id] == m[id].(lastSent := if m[id].resolvedAt != 0 then e.ts else m[id].lastSent)
  {
    SuccessByKey(m, e, id);
  }

  /** A success returns exactly the instances it stamps: firing ones that are due, and all resolved ones. */
  lemma SentIsExact(m: AlertMap, e: Eval, id: InstanceId)
    requires VerdictOf(m, e) == Succeeded
    ensures id in Sent(m, e) <==>
            && id in Next(m, e)
            && match Next(m, e)[id].state
               case Pending => false
               case Firing =>
                 SendDue(if id in m then m[id].lastSent else 0, Next(m, e)[id].firedAt, e.ts, e.settings)
                 || (id in m && m[id].state == Inactive && e.ts - m[id].resolvedAt > 900_000)
               case Inactive => Next(m, e)[id].resolvedAt != 0
    ensures id in Sent(m, e) ==>
              Sent(m, e)[id] == Next(m, e)[id].(lastSent := e.ts, interval := e.settings.groupInterval)
  {
    SuccessByKey(m, e, id);
    assert Get(Stepped(m, e.answer.rows, e.ts, e.settings), id) ==
           Step(Get(m, id), RowOf(e.answer.rows, id), e.ts, e.settings);
  }

  // ----- What the other exits leave -----

  /** A query that panics, fails or returns too many rows changes nothing; too many active instances clear the map. */
  lemma OtherExits(m: AlertMap, e: Eval)
    ensures e.answer.QueryPanics? || e.answer.QueryFails? || TooMany(e) ==> Next(m, e) == m
    ensures VerdictOf(m, e) == TooManyActive ==> Next(m, e) == map[]
    ensures VerdictOf(m, e) != Succeeded ==> Sent(m, e) == map[]
  {
  }

  /**
    Where a label set is repeated, the rows before the repetition are taken
    in, without firing anything; nothing without such a row is touched but
    for the resolved instances past their 15 minutes.
   */
  lemma RepeatedLabels(m: AlertMap, e: Eval, id: InstanceId, k: nat)
    requires VerdictOf(m, e) == DuplicateLabels && k < |e.answer.rows|
    requires !Repeats(e.answer.rows[..k]) && HasRow(e.answer.rows[..k], e.answer.rows[k].id)
    ensures forall i :: 0 <= i < k && e.answer.rows[i].id == id ==>
              && id in Next(m, e)
              && var row, s := e.answer.rows[i], e.settings;
                 Next(m, e)[id] ==
                 if id !in m || (m[id].state == Inactive && e.ts - m[id].resolvedAt > 900_000) then
                   Instance(id, s.ruleId, Origin(s.groupName, s.alertName, row.labels, s.expr), row.value,
                            Pending, e.ts, 0, 0, 0, 0, s.forDur, 0)
                 else if m[id].state == Inactive then
                   m[id].(value := row.value, state := Pending, activeAt := e.ts, resolvedAt := 0, keepFiringSince := 0)
                 else m[id].(value := row.value, keepFiringSince := 0)
    ensures !HasRow(e.answer.rows[..k], id) ==>
              && (id in Next(m, e) <==> id in m && (m[id].state == Inactive ==> e.ts - m[id].resolvedAt <= 900_000))
              && (id in Next(m, e) ==> Next(m, e)[id] == m[id])
  {
    var rows := e.answer.rows[..k];
    DistinctRepeatsNothing(rows);
    RepeatEndsPrefix(e.answer.rows, k);
    NextByKey(m, e, id);
    forall i | 0 <= i < k && rows[i].id == id ensures RowOf(rows, id) == Some(e.answer.rows[i]) {
      OneRowEach(rows, i);
    }
    assert id in Next(m, e) ==> Get(Next(m, e), id) == Some(Next(m, e)[id]);
  }
}
