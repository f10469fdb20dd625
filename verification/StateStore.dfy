/** The two state tables: alert_state, where the last write of a key wins, and the append-only alert_history. */
module StateStore {
  import opened Alerts

  /** alert_state's primary key. */
  datatype Key = Key(rule: RuleId, inst: InstanceId)

  function KeyOf(a: Instance): Key {
    Key(a.ruleId, a.id)
  }

  function StateToEnum(s: State): string {
    match s
    case Firing => "firing"
    case Pending => "pending"
    case Inactive => "inactive"
  }

  function EnumToState(s: string): State {
    if s == "firing" then Firing
    else if s == "pending" then Pending
    else Inactive
  }

  /** A row of alert_state; the nullable times are NULL for the zero time. */
  datatype SavedRow = SavedRow(
    origin: Origin,
    state: string,
    value: real,
    activeAt: Time,
    firedAt: Option<Time>,
    resolvedAt: Option<Time>,
    keepFiringSince: Option<Time>)

  function Nullable(t: Time): Option<Time> {
    if t == 0 then None else Some(t)
  }

  function OrZero(t: Option<Time>): Time {
    if t.Some? then t.value else 0
  }

  function ToRow(a: Instance): SavedRow {
    SavedRow(a.origin, StateToEnum(a.state), a.value, a.activeAt,
             Nullable(a.firedAt), Nullable(a.resolvedAt), Nullable(a.keepFiringSince))
  }

  function FromRow(k: Key, r: SavedRow): Instance {
    Instance(k.inst, k.rule, r.origin, r.value, EnumToState(r.state), r.activeAt,
             OrZero(r.firedAt), OrZero(r.resolvedAt), 0, OrZero(r.keepFiringSince), 0, 0)
  }

  /** Everything survives the table but the last send, the `for` and the interval, which it does not hold. */
  lemma RowRoundTrip(a: Instance)
    ensures FromRow(KeyOf(a), ToRow(a)) == a.(lastSent := 0, forDur := 0, interval := 0)
  {
    assert "firing"[0] != "pending"[0];
    assert "firing"[0] != "inactive"[0] && "pending"[0] != "inactive"[0];
  }

  /** A row of alert_history. */
  datatype HistoryRow = HistoryRow(key: Key, origin: Origin, state: State, value: real, evaluatedAt: Time)

  type Table = map<Key, SavedRow>

  type Log = seq<HistoryRow>

  function HistoryRows(list: seq<Instance>, at: Time): Log {
    seq(|list|, i requires 0 <= i < |list| =>
      HistoryRow(KeyOf(list[i]), list[i].origin, list[i].state, list[i].value, at))
  }

  /** alert_state after a batch, its rows applied in order. */
  function SaveAll(table: Table, list: seq<Instance>): Table {
    if list == [] then table
    else
      var last := list[|list| - 1];
      SaveAll(table, list[..|list| - 1])[KeyOf(last) := ToRow(last)]
  }

  /** The last row a batch has for a key is what the table then holds, its times NULL where they are never. */
  lemma {:induction false} LastRowWins(table: Table, list: seq<Instance>, i: nat)
    requires i < |list|
    requires forall j :: i < j < |list| ==> list[j].ruleId != list[i].ruleId || list[j].id != list[i].id
    ensures var k, a := Key(list[i].ruleId, list[i].id), list[i];
            && k in SaveAll(table, list)
            && var row := SaveAll(table, list)[k];
               && row.origin == a.origin && row.value == a.value && row.activeAt == a.activeAt
               && row.state == (match a.state
                                case Firing => "firing"
                                case Pending => "pending"
                                case Inactive => "inactive")
               && row.firedAt == (if a.firedAt == 0 then None else Some(a.firedAt))
               && row.resolvedAt == (if a.resolvedAt == 0 then None else Some(a.resolvedAt))
               && row.keepFiringSince == (if a.keepFiringSince == 0 then None else Some(a.keepFiringSince))
  {
    if i < |list| - 1 {
      LastRowWins(table, list[..|list| - 1], i);
    }
  }

  /** A key the batch has no row for is left alone. */
  lemma {:induction false} OthersAreLeft(table: Table, list: seq<Instance>, k: Key)
    requires forall i :: 0 <= i < |list| ==> list[i].ruleId != k.rule || list[i].id != k.inst
    ensures Get(SaveAll(table, list), k) == Get(table, k)
  {
    if list != [] {
      OthersAreLeft(table, list[..|list| - 1], k);
    }
  }

  predicate ActiveRow(r: SavedRow) {
    EnumToState(r.state) != Inactive
  }

  /** The instances of the pending and firing rows, by key. */
  function Actives(table: Table): map<Key, Instance> {
    map k | k in table && ActiveRow(table[k]) :: FromRow(k, table[k])
  }

  /** What is loaded: the rows whose state reads pending or firing, with a NULL time as never. */
  lemma LoadedAsSaved(table: Table, k: Key)
    ensures k in Actives(table) <==> k in table && (table[k].state == "pending" || table[k].state == "firing")
    ensures k in Actives(table) ==>
              var a, row := Actives(table)[k], table[k];
              && a.id == k.inst && a.ruleId == k.rule && a.origin == row.origin && a.value == row.value
              && a.state == (if row.state == "firing" then Firing else Pending)
              && a.activeAt == row.activeAt && a.lastSent == 0
              && a.firedAt == (if row.firedAt.None? then 0 else row.firedAt.value)
              && a.resolvedAt == (if row.resolvedAt.None? then 0 else row.resolvedAt.value)
              && a.keepFiringSince == (if row.keepFiringSince.None? then 0 else row.keepFiringSince.value)
  {
    assert "firing"[0] != "pending"[0];
    assert "firing"[0] != "inactive"[0] && "pending"[0] != "inactive"[0];
  }

  /** `list` holds each value of `m` exactly once, in some order. */
  predicate Lists(list: seq<Instance>, m: map<Key, Instance>) {
    if list == [] then m == map[]
    else
      var last := list[|list| - 1];
      KeyOf(last) in m && m[KeyOf(last)] == last && Lists(list[..|list| - 1], m - {KeyOf(last)})
  }

  /** `list` holds some of the values of `m`, none twice: what a read that broke off had got to. */
  predicate ListsSome(list: seq<Instance>, m: map<Key, Instance>) {
    list == [] ||
    var last := list[|list| - 1];
    KeyOf(last) in m && m[KeyOf(last)] == last && ListsSome(list[..|list| - 1], m - {KeyOf(last)})
  }

  /** The instances of a list, by key. */
  function Read(list: seq<Instance>): map<Key, Instance> {
    if list == [] then map[] else Read(list[..|list| - 1])[KeyOf(list[|list| - 1]) := list[|list| - 1]]
  }

  /** Some of the values are all the values of a part. */
  lemma {:induction false} PartIsListed(list: seq<Instance>, m: map<Key, Instance>)
    requires ListsSome(list, m)
    ensures Lists(list, Read(list))
    ensures forall k :: k in Read(list) ==> Get(m, k) == Some(Read(list)[k])
  {
    if list != [] {
      var last, init := list[|list| - 1], list[..|list| - 1];
      PartIsListed(init, m - {KeyOf(last)});
      assert KeyOf(last) !in Read(init) by {
        assert Get(m - {KeyOf(last)}, KeyOf(last)) == None;
      }
      assert Read(list) - {KeyOf(last)} == Read(init);
    }
  }

  lemma {:induction false} ListingIsRead(list: seq<Instance>, m: map<Key, Instance>)
    requires Lists(list, m)
    ensures ListsSome(list, m) && Read(list) == m
  {
    if list != [] {
      ListingIsRead(list[..|list| - 1], m - {KeyOf(list[|list| - 1])});
    }
  }

  lemma ListSomeMore(list: seq<Instance>, m: map<Key, Instance>, more: map<Key, Instance>)
    requires Lists(list, m) && forall k :: k in m ==> Get(more, k) == Some(m[k])
    ensures ListsSome(list, more)
    decreases |list|
  {
    if list != [] {
      var k := KeyOf(list[|list| - 1]);
      ListSomeMore(list[..|list| - 1], m - {k}, more - {k});
    }
  }

  lemma ListOneMore(list: seq<Instance>, m: map<Key, Instance>, a: Instance)
    requires Lists(list, m)
    requires KeyOf(a) !in m
    ensures Lists(list + [a], m[KeyOf(a) := a])
  {
    assert (list + [a])[..|list|] == list;
    assert m[KeyOf(a) := a] - {KeyOf(a)} == m;
  }

  lemma {:induction false} ListingIsExact(list: seq<Instance>, m: map<Key, Instance>)
    requires Lists(list, m)
    ensures forall k :: k in m ==> m[k] in list && KeyOf(m[k]) == k
    ensures forall a :: a in list ==> KeyOf(a) in m && m[KeyOf(a)] == a
  {
    if list != [] {
      var last, init := list[|list| - 1], list[..|list| - 1];
      assert list == init + [last];
      var m' := m - {KeyOf(last)};
      ListingIsExact(init, m');
      forall k | k in m ensures m[k] in list && KeyOf(m[k]) == k {
        if k != KeyOf(last) {
          assert m'[k] in init;
        }
      }
    }
  }

  /** The tables, and the calls that write and read them; any call may fail, and then changes nothing. */
  class Store {
    var table: Table
    var log: Log

    constructor ()
      ensures table == map[] && log == []
    {
      table, log := map[], [];
    }

    /** Writes a batch of instances to alert_state. */
    method Save(instances: seq<Instance>) returns (ok: bool)
      modifies this`table
      ensures table == if ok then SaveAll(old(table), instances) else old(table)
      ensures instances == [] ==> ok
    {
      if |instances| == 0 {
        return true;
      }
      var i, batch := 0, table;
      while i < |instances|
        invariant 0 <= i <= |instances|
        invariant batch == SaveAll(old(table), instances[..i])
      {
        assert instances[..i + 1][..i] == instances[..i];
        batch := batch[KeyOf(instances[i]) := ToRow(instances[i])];
        i := i + 1;
      }
      assert instances[..i] == instances;
      ok := *;
      if ok {
        table := batch;
      }
    }

    /**
      Reads the pending and firing rows, in no particular order. A read that
      breaks off fails with the rows it has got to, which may be none.
     */
    method LoadActive() returns (ok: bool, instances: seq<Instance>)
      ensures if ok then Lists(instances, Actives(table)) else ListsSome(instances, Actives(table))
    {
      instances := [];
      ghost var listed: map<Key, Instance> := map[];
      var todo := table.Keys;
      while todo != {}
        invariant todo <= table.Keys
        invariant listed == Actives(table) - todo
        invariant Lists(instances, listed)
      {
        var broken := *;
        if broken {
          ListSomeMore(instances, listed, Actives(table));
          return false, instances;
        }
        var k :| k in todo;
        todo := todo - {k};
        if ActiveRow(table[k]) {
          ListOneMore(instances, listed, FromRow(k, table[k]));
          instances, listed := instances + [FromRow(k, table[k])], listed[k := FromRow(k, table[k])];
        }
      }
      assert listed == Actives(table);
      ok := *;
      if !ok {
        ListSomeMore(instances, listed, Actives(table));
      }
    }

    /** Appends one row per instance to alert_history, all stamped with the same time. */
    method RecordHistory(at: Time, instances: seq<Instance>) returns (ok: bool)
      modifies this`log
      ensures log == if ok then old(log) + HistoryRows(instances, at) else old(log)
      ensures ok ==> |log| == |old(log)| + |instances|
      ensures ok ==> forall i :: 0 <= i < |instances| ==>
                var a, row := instances[i], log[|old(log)| + i];
                && row.key == Key(a.ruleId, a.id) && row.origin == a.origin
                && row.state == a.state && row.value == a.value && row.evaluatedAt == at
      ensures instances == [] ==> ok
    {
      if |instances| == 0 {
        return true;
      }
      var i, batch := 0, [];
      while i < |instances|
        invariant 0 <= i <= |instances|
        invariant batch == HistoryRows(instances[..i], at)
      {
        var a := instances[i];
        batch := batch + [HistoryRow(KeyOf(a), a.origin, a.state, a.value, at)];
        i := i + 1;
      }
      assert instances[..i] == instances;
      ok := *;
      if ok {
        log := log + batch;
      }
    }
  }
}
