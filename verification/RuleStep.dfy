/** What one evaluation does to one instance, and from that to a rule's whole map. */
module RuleStep {
  import opened Alerts

  /** A resolved instance past retention, which the next evaluation deletes. */
  predicate Expired(a: Instance, ts: Time) {
    a.state == Inactive && ts - a.resolvedAt > RESOLVED_RETENTION
  }

  function Fresh(row: Row, ts: Time, s: Settings): Instance {
    Instance(row.id, s.ruleId, Origin(s.groupName, s.alertName, row.labels, s.expr), row.value,
             Pending, ts, 0, 0, 0, 0, s.forDur, 0)
  }

  /** An instance after its row is processed, before any transition to firing. */
  function Matched(was: Option<Instance>, row: Row, ts: Time, s: Settings): Instance {
    match was
    case None => Fresh(row, ts, s)
    case Some(a) =>
      var b := if a.state == Inactive then a.(state := Pending, activeAt := ts, resolvedAt := 0) else a;
      b.(value := row.value, keepFiringSince := 0)
  }

  function Promoted(a: Instance, ts: Time, s: Settings): Instance {
    if a.state == Pending && ts - a.activeAt >= s.forDur then a.(state := Firing, firedAt := ts) else a
  }

  /** A firing instance without a row: kept firing for keep_firing_for, then resolved. */
  function Lapsed(a: Instance, ts: Time, s: Settings): Instance {
    var since := if a.keepFiringSince == 0 then ts else a.keepFiringSince;
    if s.keepFire > 0 && ts - since < s.keepFire then
      a.(keepFiringSince := since)
    else if s.keepFire > 0 then
      a.(keepFiringSince := since, state := Inactive, resolvedAt := ts)
    else
      a.(state := Inactive, resolvedAt := ts)
  }

  /**
    The state machine's table, one row per old state: what a successful
    evaluation makes of an instance, given its row if the query returned one.
   */
  function Step(was: Option<Instance>, row: Option<Row>, ts: Time, s: Settings): Option<Instance> {
    match (was, row)
    case (None, None) => None
    case (None, Some(r)) => Some(Promoted(Fresh(r, ts, s), ts, s))
    case (Some(a), None) =>
      (match a.state
       case Inactive => if Expired(a, ts) then None else was
       case Pending => None
       case Firing => Some(Lapsed(a, ts, s)))
    case (Some(a), Some(r)) =>
      var prior := if Expired(a, ts) then None else was;
      Some(Promoted(Matched(prior, r, ts, s), ts, s))
  }

  // ----- Sending -----

  /** Whether a settled instance goes to the notifier in this evaluation. */
  predicate Due(a: Instance, ts: Time, s: Settings) {
    match a.state
    case Pending => false
    case Firing => !(a.lastSent != 0 && a.lastSent > a.firedAt && ts - a.lastSent < s.resendDelay)
    case Inactive => a.resolvedAt != 0
  }

  function Marked(a: Instance, ts: Time, s: Settings): Instance {
    if Due(a, ts, s) then a.(lastSent := ts) else a
  }

  /** The copy of a sent instance the notifier and the history get. */
  function Outgoing(a: Instance, ts: Time, s: Settings): Instance {
    a.(lastSent := ts, interval := s.groupInterval)
  }

  // ----- Rows -----

  function RowIds(rows: seq<Row>): set<InstanceId> {
    set i | 0 <= i < |rows| :: rows[i].id
  }

  /** No row repeats the identity of an earlier one. */
  predicate Distinct(rows: seq<Row>) {
    rows == [] || (Distinct(rows[..|rows| - 1]) && rows[|rows| - 1].id !in RowIds(rows[..|rows| - 1]))
  }

  function RowOf(rows: seq<Row>, id: InstanceId): (r: Option<Row>)
    ensures r.Some? <==> id in RowIds(rows)
    ensures r.Some? ==> r.value in rows && r.value.id == id
  {
    if rows == [] then None
    else if rows[|rows| - 1].id == id then Some(rows[|rows| - 1])
    else
      assert rows == rows[..|rows| - 1] + [rows[|rows| - 1]];
      RowOf(rows[..|rows| - 1], id)
  }

  /** How many rows are processed: all of them, or those before the first repeated identity. */
  function DistinctPrefix(rows: seq<Row>): (k: nat)
    ensures k <= |rows|
    ensures k == |rows| <==> Distinct(rows)
  {
    if rows == [] then 0
    else
      var init := rows[..|rows| - 1];
      var k := DistinctPrefix(init);
      if k == |init| && rows[|rows| - 1].id !in RowIds(init) then |rows| else k
  }

  /** The processed rows are distinct, and the first one left out repeats one of them. */
  lemma {:induction false} DistinctPrefixIsLongest(rows: seq<Row>)
    ensures var k := DistinctPrefix(rows);
            && Distinct(rows[..k])
            && (k < |rows| ==> rows[k].id in RowIds(rows[..k]))
  {
    if rows != [] {
      var init := rows[..|rows| - 1];
      DistinctPrefixIsLongest(init);
      var k := DistinctPrefix(rows);
      if k < |rows| {
        assert init[..k] == rows[..k];
      } else {
        assert rows[..k] == rows;
      }
    }
  }

  /** The prefix does not depend on what follows a repetition. */
  lemma {:induction false} RepeatEndsPrefix(rows: seq<Row>, i: nat)
    requires i < |rows|
    requires Distinct(rows[..i])
    requires rows[i].id in RowIds(rows[..i])
    ensures !Distinct(rows)
    ensures DistinctPrefix(rows) == i
  {
    var init := rows[..|rows| - 1];
    if i == |init| {
      assert init == rows[..i];
    } else {
      assert init[..i] == rows[..i];
      RepeatEndsPrefix(init, i);
    }
  }

  /** The rows an evaluation acts on: none unless the query answered within the limit. */
  function AppliedRows(e: Eval): seq<Row> {
    if e.answer.Rows? && !(e.limit > 0 && |e.answer.rows| > e.limit) then
      e.answer.rows[..DistinctPrefix(e.answer.rows)]
    else []
  }

  // ----- The passes over the map -----

  function Purged(m: AlertMap, ts: Time): AlertMap {
    map id | id in m && !Expired(m[id], ts) :: m[id]
  }

  function AfterRows(m: AlertMap, rows: seq<Row>, ts: Time, s: Settings): AlertMap {
    map id | id in m.Keys + RowIds(rows) ::
      var row := RowOf(rows, id);
      if row.Some? then Matched(Get(m, id), row.value, ts, s) else m[id]
  }

  function Stepped(m: AlertMap, rows: seq<Row>, ts: Time, s: Settings): AlertMap {
    map id | id in m.Keys + RowIds(rows) && Step(Get(m, id), RowOf(rows, id), ts, s).Some? ::
      Step(Get(m, id), RowOf(rows, id), ts, s).value
  }

  function MarkEach(ts: Time, s: Settings): (InstanceId, Instance) -> Option<Instance> {
    (id, a) => Some(Marked(a, ts, s))
  }

  function MarkedAll(m: AlertMap, ts: Time, s: Settings): AlertMap {
    Rewritten(m, {}, MarkEach(ts, s))
  }

  function CopyEach(ts: Time, s: Settings): (InstanceId, Instance) -> Option<Instance> {
    (id, a) => if Due(a, ts, s) then Some(Outgoing(a, ts, s)) else None
  }

  function OutgoingAll(m: AlertMap, ts: Time, s: Settings): AlertMap {
    Rewritten(m, {}, CopyEach(ts, s))
  }

  // ----- The evaluation -----

  /** How an evaluation ends. */
  datatype Verdict =
    | QueryPanicked
    | QueryFailed
    | TooManyRows
    | DuplicateLabels
    | TooManyActive
    | Succeeded

  function VerdictOf(m: AlertMap, e: Eval): Verdict {
    match e.answer
    case QueryPanics => QueryPanicked
    case QueryFails => QueryFailed
    case Rows(rows) =>
      if e.limit > 0 && |rows| > e.limit then TooManyRows
      else if !Distinct(rows) then DuplicateLabels
      else if OverLimit(m, e) then TooManyActive
      else Succeeded
  }

  /** The rule's map after an evaluation. */
  function Next(m: AlertMap, e: Eval): AlertMap {
    match VerdictOf(m, e)
    case QueryPanicked => m
    case QueryFailed => m
    case TooManyRows => m
    case DuplicateLabels => AfterRows(Purged(m, e.ts), AppliedRows(e), e.ts, e.settings)
    case TooManyActive => map[]
    case Succeeded => MarkedAll(Stepped(m, e.answer.rows, e.ts, e.settings), e.ts, e.settings)
  }

  /** What a successful evaluation returns for the notifier, by instance. */
  function Sent(m: AlertMap, e: Eval): AlertMap {
    if VerdictOf(m, e) == Succeeded then
      OutgoingAll(Stepped(m, e.answer.rows, e.ts, e.settings), e.ts, e.settings)
    else map[]
  }

  /** Whether the evaluation leaves more active instances than its limit allows. */
  predicate OverLimit(m: AlertMap, e: Eval)
    requires e.answer.Rows?
  {
    e.limit > 0 && |ActiveIds(Stepped(m, e.answer.rows, e.ts, e.settings))| > e.limit
  }

  // ----- One instance at a time -----

  /** What an evaluation that ended in verdict `v` makes of one instance. */
  function KeyNext(was: Option<Instance>, row: Option<Row>, v: Verdict, e: Eval): Option<Instance> {
    match v
    case QueryPanicked => was
    case QueryFailed => was
    case TooManyRows => was
    case DuplicateLabels =>
      var prior := if was.Some? && Expired(was.value, e.ts) then None else was;
      if row.Some? then Some(Matched(prior, row.value, e.ts, e.settings)) else prior
    case TooManyActive => None
    case Succeeded =>
      var next := Step(was, row, e.ts, e.settings);
      if next.Some? then Some(Marked(next.value, e.ts, e.settings)) else None
  }

  /** The passes act on each instance by itself: no other instance matters beyond the verdict. */
  lemma NextByKey(m: AlertMap, e: Eval, id: InstanceId)
    ensures Get(Next(m, e), id) == KeyNext(Get(m, id), RowOf(AppliedRows(e), id), VerdictOf(m, e), e)
  {
    if VerdictOf(m, e) == Succeeded {
      AllRowsApply(e);
    }
  }

  /** Within keep_firing_for, a firing instance without a row goes on firing. */
  predicate KeptFiring(a: Instance, ts: Time, s: Settings) {
    s.keepFire > 0 && ts - (if a.keepFiringSince == 0 then ts else a.keepFiringSince) < s.keepFire
  }

  /** The branches that end a firing instance: the limit clears the map, or a success without its row resolves it. */
  predicate StopsFiring(a: Instance, id: InstanceId, v: Verdict, e: Eval) {
    v == TooManyActive
    || (v == Succeeded && e.answer.Rows? && id !in RowIds(e.answer.rows) && !KeptFiring(a, e.ts, e.settings))
  }

  /** A firing instance stops firing exactly by those branches. */
  lemma StopsFiringByBranch(m: AlertMap, e: Eval, id: InstanceId)
    requires id in m && m[id].state == Firing
    ensures (id in Next(m, e) && Next(m, e)[id].state == Firing) <==> !StopsFiring(m[id], id, VerdictOf(m, e), e)
  {
    NextByKey(m, e, id);
    assert Get(Next(m, e), id).Some? ==> Get(Next(m, e), id).value == Next(m, e)[id];
    if VerdictOf(m, e) == Succeeded {
      AllRowsApply(e);
    }
  }

  lemma KeyNextKeepsId(was: Option<Instance>, row: Option<Row>, v: Verdict, e: Eval, id: InstanceId)
    requires was.Some? ==> was.value.id == id
    requires row.Some? ==> row.value.id == id
    ensures var next := KeyNext(was, row, v, e); next.Some? ==> next.value.id == id
  {
  }

  /** Evaluations keep every instance under its own ID. */
  lemma NextKeyed(m: AlertMap, e: Eval)
    requires Keyed(m)
    ensures Keyed(Next(m, e))
  {
    var m' := Next(m, e);
    forall id | id in m' ensures m'[id].id == id {
      NextByKey(m, e, id);
      KeyNextKeepsId(Get(m, id), RowOf(AppliedRows(e), id), VerdictOf(m, e), e, id);
      assert Get(m', id) == Some(m'[id]);
    }
  }

  lemma KeyNextKeepsRule(was: Option<Instance>, row: Option<Row>, v: Verdict, e: Eval)
    requires was.Some? ==> was.value.ruleId == e.settings.ruleId
    ensures var next := KeyNext(was, row, v, e); next.Some? ==> next.value.ruleId == e.settings.ruleId
  {
  }

  /** Every instance is filed under its own ID and carries the rule's. */
  predicate Owned(m: AlertMap, r: RuleId) {
    forall id :: id in m ==> m[id].id == id && m[id].ruleId == r
  }

  lemma NextOwned(m: AlertMap, e: Eval, r: RuleId)
    requires Owned(m, r) && e.settings.ruleId == r
    ensures Owned(Next(m, e), r)
  {
    NextKeyed(m, e);
    var m' := Next(m, e);
    forall id | id in m' ensures m'[id].ruleId == r {
      NextByKey(m, e, id);
      assert Get(m', id) == Some(m'[id]);
      KeyNextKeepsRule(Get(m, id), RowOf(AppliedRows(e), id), VerdictOf(m, e), e);
    }
  }

  lemma SteppedKeyed(m: AlertMap, rows: seq<Row>, ts: Time, s: Settings)
    requires Keyed(m)
    ensures Keyed(Stepped(m, rows, ts, s))
  {
  }

  lemma RowsAreActive(m: AlertMap, rows: seq<Row>, ts: Time, s: Settings, id: InstanceId)
    requires id in RowIds(rows)
    ensures id in AfterRows(m, rows, ts, s) && AfterRows(m, rows, ts, s)[id].Active()
  {
  }

  lemma AllRowsApply(e: Eval)
    requires e.answer.Rows? && !(e.limit > 0 && |e.answer.rows| > e.limit)
    requires Distinct(e.answer.rows)
    ensures AppliedRows(e) == e.answer.rows
  {
    assert e.answer.rows[..|e.answer.rows|] == e.answer.rows;
  }

  /** The third pass on one instance: absence, then promotion. */
  function Settled(a: Instance, seen: bool, ts: Time, s: Settings): Option<Instance> {
    if !seen && a.state == Pending then None
    else if !seen && a.state == Firing then Some(Lapsed(a, ts, s))
    else Some(Promoted(a, ts, s))
  }

  function SettleEach(seen: set<InstanceId>, ts: Time, s: Settings): (InstanceId, Instance) -> Option<Instance> {
    (id, a) => Settled(a, id in seen, ts, s)
  }

  function SettledAll(m: AlertMap, seen: set<InstanceId>, ts: Time, s: Settings): AlertMap {
    Rewritten(m, {}, SettleEach(seen, ts, s))
  }

  /**
    Purging, absorbing the rows, then settling absences and transitions,
    each over the whole map, amounts to one table lookup per instance.
   */
  lemma PassesAreStep(m: AlertMap, rows: seq<Row>, ts: Time, s: Settings)
    ensures SettledAll(AfterRows(Purged(m, ts), rows, ts, s), RowIds(rows), ts, s) == Stepped(m, rows, ts, s)
  {
    var purged := Purged(m, ts);
    var absorbed := AfterRows(purged, rows, ts, s);
    var settled := SettledAll(absorbed, RowIds(rows), ts, s);
    forall id
      ensures Get(settled, id) == Get(Stepped(m, rows, ts, s), id)
    {
      var row := RowOf(rows, id);
      assert Get(absorbed, id) ==
             if row.Some? then Some(Matched(Get(purged, id), row.value, ts, s)) else Get(purged, id);
      assert Get(settled, id) == if id in absorbed then Settled(absorbed[id], row.Some?, ts, s) else None;
    }
    SameEntries(settled, Stepped(m, rows, ts, s));
  }

  lemma SameEntries(m: AlertMap, m': AlertMap)
    requires forall id :: Get(m, id) == Get(m', id)
    ensures m == m'
  {
    forall id | id in m ensures id in m' && m[id] == m'[id] {
      assert Get(m, id) == Get(m', id);
    }
    forall id | id in m' ensures id in m {
      assert Get(m, id) == Get(m', id);
    }
  }
}
