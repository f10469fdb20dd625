/** The retry queue of resolved history rows for rules that stopped running. */
module Retirements {
  import opened Alerts
  import opened StateStore
  import opened Selections

  /** One write of resolved rows, all stamped `at`, and the firing instances they resolve. */
  datatype Retirement = Retirement(at: Time, rows: seq<Instance>, firing: seq<Instance>)
  {
    predicate WellFormed() {
      && rows == ResolvedAll(firing, at)
      && firing != []
      && forall a :: a in firing ==> a.state == Firing
    }
  }

  function Resolved(a: Instance, at: Time): Instance {
    a.(state := Inactive, resolvedAt := at)
  }

  function ResolvedAll(list: seq<Instance>, at: Time): seq<Instance> {
    seq(|list|, i requires 0 <= i < |list| => Resolved(list[i], at))
  }

  function FiringOnly(list: seq<Instance>): (r: seq<Instance>)
    ensures forall a :: a in r <==> a in list && a.state == Firing
  {
    if list == [] then []
    else
      var n := |list| - 1;
      assert list == list[..n] + [list[n]];
      if list[n].state == Firing then FiringOnly(list[..n]) + [list[n]] else FiringOnly(list[..n])
  }

  /** What resolving a list of instances adds to the queue: nothing when none of them fires. */
  function Submission(at: Time, instances: seq<Instance>): seq<Retirement> {
    var firing := FiringOnly(instances);
    if firing == [] then [] else [Retirement(at, ResolvedAll(firing, at), firing)]
  }

  /** The write's rows are its firing instances, inactive and resolved at `at`, which is also its stamp. */
  predicate StampedAt(p: Retirement, at: Time) {
    && p.at == at && |p.rows| == |p.firing|
    && forall i :: 0 <= i < |p.rows| ==>
         p.firing[i].state == Firing && p.rows[i] == p.firing[i].(state := Inactive, resolvedAt := at)
  }

  lemma OwnRowsStamped(p: Retirement)
    requires p.WellFormed()
    ensures StampedAt(p, p.at)
  {
  }

  /** The places of the firing instances. */
  function FiringPlaces(list: seq<Instance>): set<nat> {
    set k: nat | k < |list| && list[k].state == Firing
  }

  lemma {:induction false} FiringInOrder(list: seq<Instance>) returns (places: seq<nat>)
    ensures InPlace(places, FiringPlaces(list)) && PickedFrom(FiringOnly(list), list, places)
  {
    if list == [] {
      places := [];
    } else {
      var n := |list| - 1;
      var init := list[..n];
      places := FiringInOrder(init);
      PickNext(FiringOnly(init), init, places, FiringPlaces(init), list[n]);
      assert init + [list[n]] == list;
      if list[n].state == Firing {
        places := places + [n];
        assert FiringPlaces(list) == FiringPlaces(init) + {n};
      } else {
        assert FiringPlaces(list) == FiringPlaces(init);
      }
    }
  }

  /**
    Resolving a list at `at` queues one write of one row for each firing
    instance, in order: the instance as it was, but inactive and resolved at
    `at`. Without a firing one nothing is queued.
   */
  lemma SubmissionIsStamped(at: Time, list: seq<Instance>) returns (places: seq<nat>)
    ensures InPlace(places, FiringPlaces(list))
    ensures places == [] ==> Submission(at, list) == []
    ensures places != [] ==>
              && |Submission(at, list)| == 1
              && var p := Submission(at, list)[0];
                 StampedAt(p, at) && PickedFrom(p.firing, list, places)
  {
    places := FiringInOrder(list);
  }

  // ----- A flush, given which writes land -----

  function Kept<T>(pending: seq<T>, ok: seq<bool>): seq<T>
    requires |ok| == |pending|
  {
    if pending == [] then []
    else
      var n := |pending| - 1;
      if ok[n] then Kept(pending[..n], ok[..n]) else Kept(pending[..n], ok[..n]) + [pending[n]]
  }

  function Landed<T>(pending: seq<T>, ok: seq<bool>): seq<T>
    requires |ok| == |pending|
  {
    if pending == [] then []
    else
      var n := |pending| - 1;
      if ok[n] then Landed(pending[..n], ok[..n]) + [pending[n]] else Landed(pending[..n], ok[..n])
  }

  lemma {:induction false} KeptAreMembers<T>(pending: seq<T>, ok: seq<bool>)
    requires |ok| == |pending|
    ensures forall p :: p in Kept(pending, ok) ==> p in pending
  {
    if pending != [] {
      KeptAreMembers(pending[..|pending| - 1], ok[..|pending| - 1]);
    }
  }

  function LogOf(list: seq<Retirement>): Log {
    if list == [] then []
    else
      var n := |list| - 1;
      LogOf(list[..n]) + HistoryRows(list[n].rows, list[n].at)
  }

  /** alert_state after a flush: each landed write saves its instances inactive, if that save lands too. */
  function FlushedTable(table: Table, pending: seq<Retirement>, ok: seq<bool>, saved: seq<bool>): Table
    requires |ok| == |saved| == |pending|
  {
    if pending == [] then table
    else
      var n := |pending| - 1;
      var before := FlushedTable(table, pending[..n], ok[..n], saved[..n]);
      if ok[n] && saved[n] then SaveAll(before, pending[n].rows) else before
  }

  /** The history after a flush: the rows of the landed writes, in order. */
  function FlushedLog(log: Log, pending: seq<Retirement>, ok: seq<bool>): Log
    requires |ok| == |pending|
  {
    log + LogOf(Landed(pending, ok))
  }

  /** One more write: what it keeps, logs and saves. */
  lemma FlushOneMore(log: Log, table: Table, pending: seq<Retirement>, p: Retirement,
                     ok: seq<bool>, saved: seq<bool>, landed: bool, stored: bool)
    requires |ok| == |saved| == |pending|
    ensures Kept(pending + [p], ok + [landed]) == if landed then Kept(pending, ok) else Kept(pending, ok) + [p]
    ensures FlushedLog(log, pending + [p], ok + [landed]) ==
            if landed then FlushedLog(log, pending, ok) + HistoryRows(p.rows, p.at) else FlushedLog(log, pending, ok)
    ensures FlushedTable(table, pending + [p], ok + [landed], saved + [stored]) ==
            var before := FlushedTable(table, pending, ok, saved);
            if landed && stored then SaveAll(before, p.rows) else before
  {
    var n := |pending|;
    assert (pending + [p])[..n] == pending && (ok + [landed])[..n] == ok && (saved + [stored])[..n] == saved;
    var list := Landed(pending, ok);
    assert (list + [p])[..|list|] == list;
    assert log + (LogOf(list) + HistoryRows(p.rows, p.at)) == (log + LogOf(list)) + HistoryRows(p.rows, p.at);
  }

  function RowCount(list: seq<Retirement>): nat {
    if list == [] then 0
    else
      var n := |list| - 1;
      RowCount(list[..n]) + |list[n].rows|
  }

  function FiringOf(list: seq<Retirement>): seq<Instance> {
    if list == [] then []
    else
      var n := |list| - 1;
      FiringOf(list[..n]) + list[n].firing
  }
}
