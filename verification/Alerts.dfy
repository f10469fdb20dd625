/** The vocabulary of the alert engine: states, alert instances, query answers and a rule's settings. */
module Alerts {

  datatype Option<+T> = None | Some(value: T)

  /** Milliseconds; 0 is Go's zero time, "never". */
  type Time = nat

  /** Hashes are modelled as collision-free identities. */
  type RuleId = nat
  type InstanceId = nat

  type Labels = map<string, string>

  /** How long a resolved instance stays in memory: 15 minutes. */
  const RESOLVED_RETENTION: Time := 15 * 60 * 1000

  datatype State = Inactive | Pending | Firing

  /** What an instance carries unchanged from its creation. */
  datatype Origin = Origin(groupName: string, alertName: string, labels: Labels, expr: string)

  datatype Instance = Instance(
    id: InstanceId,
    ruleId: RuleId,
    origin: Origin,
    value: real,
    state: State,
    activeAt: Time,
    firedAt: Time,
    resolvedAt: Time,
    lastSent: Time,
    keepFiringSince: Time,
    forDur: int,
    interval: int)
  {
    /** Pending or firing: the instances a restart brings back. */
    predicate Active() {
      state != Inactive
    }
  }

  type AlertMap = map<InstanceId, Instance>

  /** One row of a query's answer, under the identity its label set hashes to. */
  datatype Row = Row(id: InstanceId, labels: Labels, value: real)

  /** What a query does: panic, fail, or answer with rows. */
  datatype Answer = QueryPanics | QueryFails | Rows(rows: seq<Row>)

  /** What an evaluation reads from its rule and from the process flags. */
  datatype Settings = Settings(
    ruleId: RuleId,
    groupName: string,
    alertName: string,
    expr: string,
    forDur: int,
    keepFire: int,
    groupInterval: int,
    resendDelay: int)

  /** One call of Exec: its answer, timestamp and limit, and the settings in force. */
  datatype Eval = Eval(answer: Answer, ts: Time, limit: int, settings: Settings)

  function Get<K, V>(m: map<K, V>, k: K): (r: Option<V>)
    ensures r.Some? <==> k in m
    ensures k in m ==> r == Some(m[k])
  {
    if k in m then Some(m[k]) else None
  }

  /** Every instance is filed under its own ID. */
  predicate Keyed(m: AlertMap) {
    forall id :: id in m ==> m[id].id == id
  }

  /**
    A pass over a map partway through: `todo` still to visit, every other
    entry replaced or dropped as `f` says.
   */
  function Rewritten(m: AlertMap, todo: set<InstanceId>, f: (InstanceId, Instance) -> Option<Instance>): AlertMap {
    map id | id in m && (id in todo || f(id, m[id]).Some?) :: if id in todo then m[id] else f(id, m[id]).value
  }

  function WithEntry(m: AlertMap, id: InstanceId, v: Option<Instance>): AlertMap {
    if v.Some? then m[id := v.value] else m - {id}
  }

  lemma RewriteOneMore(m: AlertMap, todo: set<InstanceId>, id: InstanceId,
                       f: (InstanceId, Instance) -> Option<Instance>)
    requires id in todo && id in m
    ensures id in Rewritten(m, todo, f) && Rewritten(m, todo, f)[id] == m[id]
    ensures Rewritten(m, todo - {id}, f) == WithEntry(Rewritten(m, todo, f), id, f(id, m[id]))
  {
  }

  function ActiveIds(m: AlertMap): set<InstanceId> {
    set id | id in m && m[id].Active()
  }

  /** The active instances a pass has already visited. */
  function ActiveCount(m: AlertMap, todo: set<InstanceId>): nat {
    |ActiveIds(m) - todo|
  }

  lemma CountOneMore(m: AlertMap, todo: set<InstanceId>, id: InstanceId, v: Option<Instance>)
    requires id in todo
    ensures ActiveCount(WithEntry(m, id, v), todo - {id}) ==
            ActiveCount(m, todo) + if v.Some? && v.value.Active() then 1 else 0
  {
    var was, now := ActiveIds(m) - todo, ActiveIds(WithEntry(m, id, v)) - (todo - {id});
    if v.Some? && v.value.Active() {
      assert now == was + {id};
      assert id !in was;
    } else {
      assert now == was;
    }
  }

  lemma CountAll(m: AlertMap)
    ensures ActiveCount(m, {}) == |ActiveIds(m)|
    ensures ActiveCount(m, m.Keys) == 0
  {
    assert ActiveIds(m) - {} == ActiveIds(m);
    assert ActiveIds(m) - m.Keys == {};
  }

  /** One more entry rewritten and counted. */
  lemma CountRewritten(m: AlertMap, todo: set<InstanceId>, id: InstanceId,
                       f: (InstanceId, Instance) -> Option<Instance>)
    requires id in todo && id in m
    ensures id in Rewritten(m, todo, f) && Rewritten(m, todo, f)[id] == m[id]
    ensures Rewritten(m, todo - {id}, f) == WithEntry(Rewritten(m, todo, f), id, f(id, m[id]))
    ensures var v := f(id, m[id]);
            ActiveCount(Rewritten(m, todo - {id}, f), todo - {id}) ==
            ActiveCount(Rewritten(m, todo, f), todo) + if v.Some? && v.value.Active() then 1 else 0
  {
    RewriteOneMore(m, todo, id, f);
    CountOneMore(Rewritten(m, todo, f), todo, id, f(id, m[id]));
  }

  lemma NoneRewritten(m: AlertMap, f: (InstanceId, Instance) -> Option<Instance>)
    ensures Rewritten(m, m.Keys, f) == m && ActiveCount(m, m.Keys) == 0
  {
    CountAll(m);
  }

  /** `list` holds each value of `m` exactly once, in some order. */
  predicate Enumerates(list: seq<Instance>, m: AlertMap) {
    if list == [] then m == map[]
    else
      var last := list[|list| - 1];
      last.id in m && m[last.id] == last && Enumerates(list[..|list| - 1], m - {last.id})
  }

  lemma EnumerateOneMore(list: seq<Instance>, m: AlertMap, a: Instance)
    requires Enumerates(list, m)
    requires a.id !in m
    ensures Enumerates(list + [a], m[a.id := a])
  {
    assert (list + [a])[..|list|] == list;
    assert m[a.id := a] - {a.id} == m;
  }

  /** A pass that collects what `f` makes of each entry lists its result map. */
  lemma CollectOneMore(m: AlertMap, todo: set<InstanceId>, id: InstanceId, list: seq<Instance>,
                       f: (InstanceId, Instance) -> Option<Instance>)
    requires id in todo && id in m
    requires Enumerates(list, Rewritten(m, todo, f) - todo)
    requires f(id, m[id]).Some? ==> f(id, m[id]).value.id == id
    ensures var v := f(id, m[id]);
            Enumerates(if v.Some? then list + [v.value] else list, Rewritten(m, todo - {id}, f) - (todo - {id}))
  {
    var v := f(id, m[id]);
    var now, after := Rewritten(m, todo, f) - todo, Rewritten(m, todo - {id}, f) - (todo - {id});
    if v.Some? {
      assert after == now[id := v.value];
      EnumerateOneMore(list, now, v.value);
    } else {
      assert after == now;
    }
  }

  /** What enumerating means: every entry is listed, nothing else is, and nothing twice. */
  lemma {:induction false} EnumerationIsExact(list: seq<Instance>, m: AlertMap)
    requires Enumerates(list, m)
    ensures |list| == |m|
    ensures forall id :: id in m ==> m[id] in list
    ensures forall a :: a in list ==> a.id in m && m[a.id] == a
  {
    if list != [] {
      var last, init := list[|list| - 1], list[..|list| - 1];
      assert list == init + [last];
      var m' := m - {last.id};
      assert m' .Keys == m.Keys - {last.id};
      EnumerationIsExact(init, m');
      forall id | id in m ensures m[id] in list {
        if id != last.id {
          assert m'[id] in init;
        }
      }
    }
  }
}
