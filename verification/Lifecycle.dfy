/**
  The running system as steps: evaluations, flushes, reloads, graceful stops
  and starts, over the two state tables. Each step is one call that the
  source makes with nothing else of the same rule in between.
 */
module Lifecycle {
  import opened Alerts
  import opened RuleStep
  import opened AlertingRules
  import opened StateStore
  import opened Retirements

  /** `rules` holds the instances of every rule of every running group; rule IDs are distinct across groups. */
  datatype System = System(
    up: bool,
    rules: map<RuleId, AlertMap>,
    pending: seq<Retirement>,
    log: Log,
    table: Table)

  datatype Step =
    /** A rule evaluated; `sent` is its list, written to the history at `at` if `recorded`. */
    | Evaluate(rule: RuleId, eval: Eval, at: Time, sent: seq<Instance>, recorded: bool)
    /** Pending retirements retried, with the fate of each history write and each save. */
    | Flush(ok: seq<bool>, saved: seq<bool>)
    /** Rules dropped by a reload and retired together; `dropped` lists their instances. */
    | Drop(gone: set<RuleId>, at: Time, dropped: seq<Instance>)
    /** Rules a reload adds. */
    | Add(added: set<RuleId>)
    /** A graceful stop; `live` lists every rule's instances, and the final Save may fail. */
    | Stop(live: seq<Instance>, saveOk: bool)
    /** A start with these rules; `loaded` is LoadActive's answer, some of the rows when it fails. */
    | Start(ids: set<RuleId>, at: Time, loaded: seq<Instance>, loadOk: bool)

  const INITIAL: System := System(false, map[], [], [], map[])

  /** Every rule's instances, by key. */
  function AllInstances(rules: map<RuleId, AlertMap>): map<Key, Instance> {
    map k | k in InstanceKeys(rules) :: rules[k.rule][k.inst]
  }

  function InstanceKeys(rules: map<RuleId, AlertMap>): set<Key> {
    set r, i | r in rules && i in rules[r] :: Key(r, i)
  }

  function Only(rules: map<RuleId, AlertMap>, ids: set<RuleId>): map<RuleId, AlertMap> {
    map r | r in rules && r in ids :: rules[r]
  }

  /** Rules that hold nothing yet. */
  function Unused(ids: set<RuleId>): map<RuleId, AlertMap> {
    map r | r in ids :: map[]
  }

  function RestoredAll(ids: set<RuleId>, loaded: seq<Instance>): map<RuleId, AlertMap> {
    map r | r in ids :: Restored(map[], loaded, r)
  }

  /** The firing instances among a restart's loaded state whose rule no group carries. */
  function Unclaimed(loaded: seq<Instance>, ids: set<RuleId>): (r: seq<Instance>)
    ensures forall a :: a in r <==> a in loaded && a.state == Firing && a.ruleId !in ids
  {
    if loaded == [] then []
    else
      var init, last := loaded[..|loaded| - 1], loaded[|loaded| - 1];
      assert loaded == init + [last];
      if last.state == Firing && last.ruleId !in ids then Unclaimed(init, ids) + [last] else Unclaimed(init, ids)
  }

  ghost predicate Can(s: System, step: Step) {
    match step
    case Evaluate(rule, eval, at, sent, recorded) =>
      && s.up && rule in s.rules
      && eval.settings.ruleId == rule && eval.ts > 0
      && Enumerates(sent, Sent(s.rules[rule], eval))
    case Flush(ok, saved) =>
      s.up && |ok| == |saved| == |s.pending|
    case Drop(gone, at, dropped) =>
      s.up && Lists(dropped, AllInstances(Only(s.rules, gone)))
    case Add(added) =>
      s.up && added !! s.rules.Keys
    case Stop(live, saveOk) =>
      s.up && Lists(live, AllInstances(s.rules))
    case Start(ids, at, loaded, loadOk) =>
      !s.up && if loadOk then Lists(loaded, Actives(s.table)) else ListsSome(loaded, Actives(s.table))
  }

  function After(s: System, step: Step): System
    requires Can(s, step)
  {
    match step
    case Evaluate(rule, eval, at, sent, recorded) =>
      s.(rules := s.rules[rule := Next(s.rules[rule], eval)],
         log := if recorded then s.log + HistoryRows(sent, at) else s.log)
    case Flush(ok, saved) =>
      s.(pending := Kept(s.pending, ok),
         log := s.log + LogOf(Landed(s.pending, ok)),
         table := FlushedTable(s.table, s.pending, ok, saved))
    case Drop(gone, at, dropped) =>
      s.(rules := s.rules - gone, pending := s.pending + Submission(at, dropped))
    case Add(added) =>
      s.(rules := s.rules + Unused(added))
    case Stop(live, saveOk) =>
      System(false, map[], [], s.log, if saveOk then SaveAll(s.table, live + FiringOf(s.pending)) else s.table)
    case Start(ids, at, loaded, loadOk) =>
      System(true, RestoredAll(ids, loaded), Submission(at, Unclaimed(loaded, ids)), s.log, s.table)
  }

  /** A run: each step possible where it is taken. */
  ghost predicate Legal(s: System, steps: seq<Step>)
    decreases |steps|, 0
  {
    steps == [] || (Legal(s, steps[..|steps| - 1]) && Can(Run(s, steps[..|steps| - 1]), steps[|steps| - 1]))
  }

  ghost function Run(s: System, steps: seq<Step>): System
    requires Legal(s, steps)
    decreases |steps|, 1
  {
    if steps == [] then s else After(Run(s, steps[..|steps| - 1]), steps[|steps| - 1])
  }

  // ----- The history -----

  /** The state in the latest history row of a key. */
  function LastState(log: Log, k: Key): Option<State> {
    if log == [] then None
    else if log[|log| - 1].key == k then Some(log[|log| - 1].state)
    else LastState(log[..|log| - 1], k)
  }

  lemma {:induction false} LastStateConcat(log: Log, more: Log, k: Key)
    ensures LastState(log + more, k) ==
            if LastState(more, k).Some? then LastState(more, k) else LastState(log, k)
  {
    if more == [] {
      assert log + more == log;
    } else {
      var n := |more| - 1;
      assert (log + more)[..|log + more| - 1] == log + more[..n];
      LastStateConcat(log, more[..n], k);
    }
  }

  /** Where a key is named in a list of instances. */
  predicate Mentions(list: seq<Instance>, k: Key) {
    exists i :: 0 <= i < |list| && KeyOf(list[i]) == k
  }

  lemma {:induction false} RowsOfUniformList(list: seq<Instance>, at: Time, st: State, k: Key)
    requires forall i :: 0 <= i < |list| ==> list[i].state == st
    ensures LastState(HistoryRows(list, at), k) == if Mentions(list, k) then Some(st) else None
  {
    if list != [] {
      var n := |list| - 1;
      assert HistoryRows(list, at)[..n] == HistoryRows(list[..n], at);
      RowsOfUniformList(list[..n], at, st, k);
      if Mentions(list, k) && KeyOf(list[n]) != k {
        var i :| 0 <= i < |list| && KeyOf(list[i]) == k;
        assert KeyOf(list[..n][i]) == k;
      }
      if Mentions(list[..n], k) {
        var i :| 0 <= i < n && KeyOf(list[..n][i]) == k;
        assert KeyOf(list[i]) == k;
      }
    }
  }

  /** One evaluation's list writes at most one row per key: the state the instance is sent in. */
  lemma {:induction false} RowsOfSentList(list: seq<Instance>, at: Time, m: AlertMap, r: RuleId, k: Key)
    requires Enumerates(list, m)
    requires Owned(m, r)
    ensures LastState(HistoryRows(list, at), k) ==
            if k.rule == r && k.inst in m then Some(m[k.inst].state) else None
  {
    if list != [] {
      var n := |list| - 1;
      assert HistoryRows(list, at)[..n] == HistoryRows(list[..n], at);
      RowsOfSentList(list[..n], at, m - {list[n].id}, r, k);
    }
  }

  // ----- The queue -----

  /** A pending retirement holds the key. */
  predicate Queued(pending: seq<Retirement>, k: Key) {
    pending != [] && (Queued(pending[..|pending| - 1], k) || Mentions(pending[|pending| - 1].firing, k))
  }

  predicate AllWellFormed(pending: seq<Retirement>) {
    pending == [] || (AllWellFormed(pending[..|pending| - 1]) && pending[|pending| - 1].WellFormed())
  }

  /** One more well-formed retirement: what it queues, and what its write would log. */
  lemma OneMore(list: seq<Retirement>, p: Retirement, k: Key)
    requires p.WellFormed()
    ensures AllWellFormed(list) ==> AllWellFormed(list + [p])
    ensures Queued(list + [p], k) <==> Queued(list, k) || Mentions(p.firing, k)
    ensures LastState(LogOf(list + [p]), k) ==
            if Mentions(p.firing, k) then Some(Inactive) else LastState(LogOf(list), k)
  {
    assert (list + [p])[..|list|] == list;
    LastStateConcat(LogOf(list), HistoryRows(p.rows, p.at), k);
    RowsOfUniformList(p.rows, p.at, Inactive, k);
    ResolvedMentions(p.firing, p.at, k);
  }

  /** A flush leaves a key queued, or lands it; the rows it writes are all resolved. */
  lemma {:induction false} FlushByKey(pending: seq<Retirement>, ok: seq<bool>, k: Key)
    requires |ok| == |pending|
    requires AllWellFormed(pending)
    ensures AllWellFormed(Kept(pending, ok))
    ensures Queued(pending, k) <==> Queued(Kept(pending, ok), k) || Queued(Landed(pending, ok), k)
    ensures LastState(LogOf(Landed(pending, ok)), k) == if Queued(Landed(pending, ok), k) then Some(Inactive) else None
  {
    if pending != [] {
      var n := |pending| - 1;
      FlushByKey(pending[..n], ok[..n], k);
      if ok[n] {
        OneMore(Landed(pending[..n], ok[..n]), pending[n], k);
      } else {
        OneMore(Kept(pending[..n], ok[..n]), pending[n], k);
      }
    }
  }

  lemma ResolvedMentions(list: seq<Instance>, at: Time, k: Key)
    ensures Mentions(ResolvedAll(list, at), k) <==> Mentions(list, k)
  {
    forall i | 0 <= i < |list| ensures KeyOf(ResolvedAll(list, at)[i]) == KeyOf(list[i]) {
    }
    if Mentions(list, k) {
      var i :| 0 <= i < |list| && KeyOf(list[i]) == k;
      assert KeyOf(ResolvedAll(list, at)[i]) == k;
    }
  }

  lemma SubmitByKey(pending: seq<Retirement>, at: Time, list: seq<Instance>, k: Key)
    requires AllWellFormed(pending)
    ensures AllWellFormed(pending + Submission(at, list))
    ensures Queued(pending + Submission(at, list), k) <==> Queued(pending, k) || Mentions(FiringOnly(list), k)
  {
    var more := Submission(at, list);
    if more == [] {
      assert pending + more == pending;
    } else {
      OneMore(pending, more[0], k);
    }
  }

  lemma {:induction false} FiringMentions(pending: seq<Retirement>, k: Key)
    requires AllWellFormed(pending)
    ensures Mentions(FiringOf(pending), k) <==> Queued(pending, k)
    ensures forall i :: 0 <= i < |FiringOf(pending)| ==> FiringOf(pending)[i].state == Firing
  {
    if pending != [] {
      var n := |pending| - 1;
      FiringMentions(pending[..n], k);
      MentionsConcat(FiringOf(pending[..n]), pending[n].firing, k);
    }
  }

  lemma MentionsConcat(a: seq<Instance>, b: seq<Instance>, k: Key)
    ensures Mentions(a + b, k) <==> Mentions(a, k) || Mentions(b, k)
  {
    if Mentions(a, k) {
      var i :| 0 <= i < |a| && KeyOf(a[i]) == k;
      assert KeyOf((a + b)[i]) == k;
    }
    if Mentions(b, k) {
      var i :| 0 <= i < |b| && KeyOf(b[i]) == k;
      assert KeyOf((a + b)[|a| + i]) == k;
    }
  }

  // ----- alert_state -----

  predicate SavedFiring(table: Table, k: Key) {
    k in table && EnumToState(table[k].state) == Firing
  }

  lemma EnumRoundTrip(s: State)
    ensures EnumToState(StateToEnum(s)) == s
  {
    assert "firing"[0] != "pending"[0];
    assert "firing"[0] != "inactive"[0] && "pending"[0] != "inactive"[0];
  }

  /** Saving instances all in one state puts each key they name in that state and leaves the rest. */
  lemma {:induction false} SaveUniform(table: Table, list: seq<Instance>, st: State, k: Key)
    requires forall i :: 0 <= i < |list| ==> list[i].state == st
    ensures if Mentions(list, k) then k in SaveAll(table, list) && EnumToState(SaveAll(table, list)[k].state) == st
            else Get(SaveAll(table, list), k) == Get(table, k)
  {
    if list != [] {
      var n := |list| - 1;
      EnumRoundTrip(st);
      SaveUniform(table, list[..n], st, k);
      assert list == list[..n] + [list[n]];
      MentionsConcat(list[..n], [list[n]], k);
      assert Mentions([list[n]], k) <==> KeyOf(list[n]) == k by {
        assert KeyOf([list[n]][0]) == KeyOf(list[n]);
      }
    }
  }

  lemma {:induction false} SaveConcat(table: Table, a: seq<Instance>, b: seq<Instance>)
    ensures SaveAll(table, a + b) == SaveAll(SaveAll(table, a), b)
  {
    if b == [] {
      assert a + b == a;
    } else {
      assert (a + b)[..|a + b| - 1] == a + b[..|b| - 1];
      SaveConcat(table, a, b[..|b| - 1]);
    }
  }

  /** Saving a listing stores each listed instance's state. */
  lemma {:induction false} SaveListing(table: Table, list: seq<Instance>, m: map<Key, Instance>, k: Key)
    requires Lists(list, m)
    ensures if k in m then Get(SaveAll(table, list), k) == Some(ToRow(m[k]))
            else Get(SaveAll(table, list), k) == Get(table, k)
  {
    if list != [] {
      var last := list[|list| - 1];
      SaveListing(table, list[..|list| - 1], m - {KeyOf(last)}, k);
    }
  }

  /** The last instance of a key in a list. */
  function LastIn(list: seq<Instance>, k: Key): (r: Option<Instance>)
    ensures r.Some? ==> KeyOf(r.value) == k
  {
    if list == [] then None
    else if KeyOf(list[|list| - 1]) == k then Some(list[|list| - 1])
    else LastIn(list[..|list| - 1], k)
  }

  lemma {:induction false} LastInMentions(list: seq<Instance>, k: Key)
    ensures LastIn(list, k).Some? <==> Mentions(list, k)
    ensures LastIn(list, k).Some? ==> LastIn(list, k).value in list
  {
    if list != [] {
      var n := |list| - 1;
      LastInMentions(list[..n], k);
      assert list == list[..n] + [list[n]];
      MentionsConcat(list[..n], [list[n]], k);
      assert Mentions([list[n]], k) <==> KeyOf(list[n]) == k by {
        assert KeyOf([list[n]][0]) == KeyOf(list[n]);
      }
    }
  }

  lemma {:induction false} LastInConcat(a: seq<Instance>, b: seq<Instance>, k: Key)
    ensures LastIn(a + b, k) == if LastIn(b, k).Some? then LastIn(b, k) else LastIn(a, k)
  {
    if b == [] {
      assert a + b == a;
    } else {
      assert (a + b)[..|a + b| - 1] == a + b[..|b| - 1];
      LastInConcat(a, b[..|b| - 1], k);
    }
  }

  lemma {:induction false} LastInListing(list: seq<Instance>, m: map<Key, Instance>, k: Key)
    requires Lists(list, m)
    ensures LastIn(list, k) == Get(m, k)
  {
    if list != [] {
      LastInListing(list[..|list| - 1], m - {KeyOf(list[|list| - 1])}, k);
    }
  }

  /** A batch leaves a key as its last instance in it, or untouched. */
  lemma {:induction false} SavedLast(table: Table, list: seq<Instance>, k: Key)
    ensures Get(SaveAll(table, list), k) ==
            if LastIn(list, k).Some? then Some(ToRow(LastIn(list, k).value)) else Get(table, k)
  {
    if list != [] {
      SavedLast(table, list[..|list| - 1], k);
    }
  }

  /** What a fresh rule holds after restoring a listing of active rows. */
  lemma {:induction false} RestoredByKey(loaded: seq<Instance>, rows: map<Key, Instance>, r: RuleId, id: InstanceId)
    requires Lists(loaded, rows)
    requires forall k :: k in rows ==> rows[k].Active()
    ensures Get(Restored(map[], loaded, r), id) == Get(rows, Key(r, id))
  {
    if loaded != [] {
      var last, init := loaded[|loaded| - 1], loaded[..|loaded| - 1];
      RestoredByKey(init, rows - {KeyOf(last)}, r, id);
    }
  }

  lemma {:induction false} FlushedByKey(table: Table, pending: seq<Retirement>, ok: seq<bool>, saved: seq<bool>, k: Key)
    requires |ok| == |saved| == |pending|
    requires AllWellFormed(pending)
    ensures var table' := FlushedTable(table, pending, ok, saved);
            || Get(table', k) == Get(table, k)
            || (k in table' && EnumToState(table'[k].state) == Inactive)
    ensures SavedFiring(FlushedTable(table, pending, ok, saved), k) ==> SavedFiring(table, k)
    ensures forall i :: 0 <= i < |pending| && ok[i] && saved[i] && Mentions(pending[i].firing, k) ==>
              !SavedFiring(FlushedTable(table, pending, ok, saved), k)
  {
    if pending != [] {
      var n := |pending| - 1;
      var before := FlushedTable(table, pending[..n], ok[..n], saved[..n]);
      FlushedByKey(table, pending[..n], ok[..n], saved[..n], k);
      if ok[n] && saved[n] {
        SaveUniform(before, pending[n].rows, Inactive, k);
        ResolvedMentions(pending[n].firing, pending[n].at, k);
      }
      forall i | 0 <= i < n && ok[i] && saved[i] && Mentions(pending[i].firing, k)
        ensures !SavedFiring(before, k)
      {
        assert pending[..n][i] == pending[i] && ok[..n][i] && saved[..n][i];
      }
    }
  }
}
