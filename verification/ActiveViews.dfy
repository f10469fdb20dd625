/** Rules compared by their pending and firing instances, and why later evaluations cannot tell them apart. */
module ActiveViews {
  import opened Alerts
  import opened RuleStep

  /** What is compared of an active instance. */
  datatype View = View(state: State, activeAt: Time, firedAt: Time, keepFiringSince: Time, value: real)

  function ViewOf(a: Option<Instance>): Option<View> {
    if a.Some? && a.value.Active() then
      Some(View(a.value.state, a.value.activeAt, if a.value.state == Firing then a.value.firedAt else 0,
                a.value.keepFiringSince, a.value.value))
    else None
  }

  /** The same pending and firing instances, in the same state since the same times. */
  ghost predicate SameActive(m: AlertMap, m': AlertMap) {
    forall id :: ViewOf(Get(m, id)) == ViewOf(Get(m', id))
  }

  lemma StepKeepsView(a: Option<Instance>, a': Option<Instance>, row: Option<Row>, ts: Time, s: Settings)
    requires ViewOf(a) == ViewOf(a')
    ensures ViewOf(Step(a, row, ts, s)) == ViewOf(Step(a', row, ts, s))
  {
  }

  lemma KeyNextKeepsView(a: Option<Instance>, a': Option<Instance>, row: Option<Row>, v: Verdict, e: Eval)
    requires ViewOf(a) == ViewOf(a')
    ensures ViewOf(KeyNext(a, row, v, e)) == ViewOf(KeyNext(a', row, v, e))
  {
    if v == Succeeded {
      StepKeepsView(a, a', row, e.ts, e.settings);
    }
  }

  lemma SameActiveIds(m: AlertMap, m': AlertMap)
    requires SameActive(m, m')
    ensures ActiveIds(m) == ActiveIds(m')
  {
    forall id ensures id in ActiveIds(m) <==> id in ActiveIds(m') {
      assert ViewOf(Get(m, id)) == ViewOf(Get(m', id));
    }
  }

  /** The same active instances lead to the same verdict. */
  lemma SameVerdict(m: AlertMap, m': AlertMap, e: Eval)
    requires SameActive(m, m')
    ensures VerdictOf(m, e) == VerdictOf(m', e)
  {
    if e.answer.Rows? {
      var s, s' := Stepped(m, e.answer.rows, e.ts, e.settings), Stepped(m', e.answer.rows, e.ts, e.settings);
      forall id ensures ViewOf(Get(s, id)) == ViewOf(Get(s', id)) {
        assert ViewOf(Get(m, id)) == ViewOf(Get(m', id));
        StepKeepsView(Get(m, id), Get(m', id), RowOf(e.answer.rows, id), e.ts, e.settings);
        SteppedByKey(m, e.answer.rows, e.ts, e.settings, id);
        SteppedByKey(m', e.answer.rows, e.ts, e.settings, id);
      }
      SameActiveIds(s, s');
    }
  }

  lemma SteppedByKey(m: AlertMap, rows: seq<Row>, ts: Time, s: Settings, id: InstanceId)
    ensures Get(Stepped(m, rows, ts, s), id) == Step(Get(m, id), RowOf(rows, id), ts, s)
  {
  }

  /** Every evaluation, on success and error exits alike, keeps the relation. */
  lemma SameActiveKept(m: AlertMap, m': AlertMap, e: Eval)
    requires SameActive(m, m')
    ensures SameActive(Next(m, e), Next(m', e))
  {
    SameVerdict(m, m', e);
    forall id ensures ViewOf(Get(Next(m, e), id)) == ViewOf(Get(Next(m', e), id)) {
      assert ViewOf(Get(m, id)) == ViewOf(Get(m', id));
      NextByKey(m, e, id);
      NextByKey(m', e, id);
      KeyNextKeepsView(Get(m, id), Get(m', id), RowOf(AppliedRows(e), id), VerdictOf(m, e), e);
    }
  }
}
