/** Sequences of rules, told apart by their IDs. */
module RuleSets {
  import opened Alerts
  import opened RuleStep
  import opened AlertingRules
  import opened StateStore
  import opened Selections
  import opened Lifecycle

  function Ids(rules: seq<AlertingRule>): set<RuleId> {
    if rules == [] then {} else Ids(rules[..|rules| - 1]) + {rules[|rules| - 1].ruleId}
  }

  lemma {:induction false} IdsAreTheirs(rules: seq<AlertingRule>)
    ensures forall i :: 0 <= i < |rules| ==> rules[i].ruleId in Ids(rules)
    ensures forall id :: id in Ids(rules) ==> exists i :: 0 <= i < |rules| && rules[i].ruleId == id
  {
    if rules != [] {
      var init, n := rules[..|rules| - 1], |rules| - 1;
      IdsAreTheirs(init);
      forall i | 0 <= i < |rules| ensures rules[i].ruleId in Ids(rules) {
        assert i < n ==> init[i].ruleId in Ids(init);
      }
      forall id | id in Ids(rules) ensures exists i :: 0 <= i < |rules| && rules[i].ruleId == id {
        if id in Ids(init) {
          var i :| 0 <= i < |init| && init[i].ruleId == id;
          assert rules[i].ruleId == id;
        } else {
          assert rules[n].ruleId == id;
        }
      }
    }
  }

  /** No two rules of the sequence share an ID. */
  predicate DistinctIds(rules: seq<AlertingRule>) {
    rules == [] || (DistinctIds(rules[..|rules| - 1]) && rules[|rules| - 1].ruleId !in Ids(rules[..|rules| - 1]))
  }

  /** No other rule of the sequence is the one at `i`. */
  lemma {:induction false} OthersDiffer(rules: seq<AlertingRule>, i: nat)
    requires DistinctIds(rules) && i < |rules|
    ensures forall j :: 0 <= j < |rules| && j != i ==> rules[j].ruleId != rules[i].ruleId
  {
    var n := |rules| - 1;
    if i < n {
      OthersDiffer(rules[..n], i);
    }
    IdsAreTheirs(rules[..n]);
    forall j | 0 <= j < |rules| && j != i ensures rules[j].ruleId != rules[i].ruleId {
      if i == n {
        assert rules[..n][j].ruleId == rules[j].ruleId;
      } else if j == n {
        assert rules[..n][i].ruleId == rules[i].ruleId;
      } else {
        assert rules[..n][j] == rules[j];
      }
    }
  }

  lemma OthersAreOthers(rules: seq<AlertingRule>, i: nat)
    requires DistinctIds(rules) && i < |rules|
    ensures forall j :: 0 <= j < |rules| && j != i ==> rules[j] != rules[i]
  {
    OthersDiffer(rules, i);
  }

  lemma OneMoreRule(rules: seq<AlertingRule>, r: AlertingRule)
    ensures Ids(rules + [r]) == Ids(rules) + {r.ruleId}
    ensures DistinctIds(rules + [r]) <==> DistinctIds(rules) && r.ruleId !in Ids(rules)
  {
    assert (rules + [r])[..|rules|] == rules;
  }

  lemma {:induction false} JoinedRules(a: seq<AlertingRule>, b: seq<AlertingRule>)
    ensures Ids(a + b) == Ids(a) + Ids(b)
    ensures DistinctIds(a + b) <==> DistinctIds(a) && DistinctIds(b) && Ids(a) !! Ids(b)
  {
    if b == [] {
      assert a + b == a;
    } else {
      var n := |b| - 1;
      assert (a + b)[..|a + b| - 1] == a + b[..n];
      JoinedRules(a, b[..n]);
    }
  }

  /** The rules whose ID is in `ids`, in order; with `!keep`, the others. */
  function Sifted(rules: seq<AlertingRule>, ids: set<RuleId>, keep: bool): (r: seq<AlertingRule>) {
    if rules == [] then []
    else
      var init, last := Sifted(rules[..|rules| - 1], ids, keep), rules[|rules| - 1];
      if (last.ruleId in ids) == keep then init + [last] else init
  }

  lemma {:induction false} SiftedIds(rules: seq<AlertingRule>, ids: set<RuleId>, keep: bool)
    ensures Ids(Sifted(rules, ids, keep)) == if keep then Ids(rules) * ids else Ids(rules) - ids
  {
    if rules != [] {
      var init, last := rules[..|rules| - 1], rules[|rules| - 1];
      SiftedIds(init, ids, keep);
      if (last.ruleId in ids) == keep {
        OneMoreRule(Sifted(init, ids, keep), last);
      }
    }
  }

  /** Sifting repeats no rule. */
  lemma {:induction false} SiftedDistinct(rules: seq<AlertingRule>, ids: set<RuleId>, keep: bool)
    requires DistinctIds(rules)
    ensures DistinctIds(Sifted(rules, ids, keep))
  {
    if rules != [] {
      var init, last := rules[..|rules| - 1], rules[|rules| - 1];
      SiftedDistinct(init, ids, keep);
      SiftedIds(init, ids, keep);
      if (last.ruleId in ids) == keep {
        OneMoreRule(Sifted(init, ids, keep), last);
      }
    }
  }

  lemma {:induction false} SiftedMembers(rules: seq<AlertingRule>, ids: set<RuleId>, keep: bool)
    ensures var sifted := Sifted(rules, ids, keep);
            && (forall i :: 0 <= i < |sifted| ==> sifted[i] in rules && (sifted[i].ruleId in ids) == keep)
            && (forall i :: 0 <= i < |rules| && (rules[i].ruleId in ids) == keep ==> rules[i] in sifted)
  {
    if rules != [] {
      SiftedMembers(rules[..|rules| - 1], ids, keep);
      assert rules == rules[..|rules| - 1] + [rules[|rules| - 1]];
    }
  }

  function SiftedPlaces(rules: seq<AlertingRule>, ids: set<RuleId>, keep: bool): set<nat> {
    set k: nat | k < |rules| && (rules[k].ruleId in ids) == keep
  }

  /** The rules sifted out are those whose ID is in `ids`, or is not, in order. */
  lemma {:induction false} SiftedInOrder(rules: seq<AlertingRule>, ids: set<RuleId>, keep: bool)
    returns (places: seq<nat>)
    ensures InPlace(places, SiftedPlaces(rules, ids, keep)) && PickedFrom(Sifted(rules, ids, keep), rules, places)
  {
    if rules == [] {
      places := [];
    } else {
      var n := |rules| - 1;
      var init := rules[..n];
      places := SiftedInOrder(init, ids, keep);
      PickNext(Sifted(init, ids, keep), init, places, SiftedPlaces(init, ids, keep), rules[n]);
      assert init + [rules[n]] == rules;
      if (rules[n].ruleId in ids) == keep {
        places := places + [n];
        assert SiftedPlaces(rules, ids, keep) == SiftedPlaces(init, ids, keep) + {n};
      } else {
        assert SiftedPlaces(rules, ids, keep) == SiftedPlaces(init, ids, keep);
      }
    }
  }

  /** Nothing is sifted out when every ID is wanted. */
  lemma {:induction false} NothingSifted(rules: seq<AlertingRule>, ids: set<RuleId>)
    requires Ids(rules) <= ids
    ensures Sifted(rules, ids, true) == rules && Sifted(rules, ids, false) == []
  {
    if rules != [] {
      assert rules == rules[..|rules| - 1] + [rules[|rules| - 1]];
      NothingSifted(rules[..|rules| - 1], ids);
    }
  }

  predicate AllOwned(rules: seq<AlertingRule>)
    reads rules
  {
    forall r :: r in rules ==> Owned(r.alerts, r.ruleId)
  }

  /** `held` is what the rules hold, by rule ID. */
  predicate Holds(rules: seq<AlertingRule>, held: map<RuleId, AlertMap>)
    reads rules
  {
    && held.Keys == Ids(rules)
    && forall i :: 0 <= i < |rules| ==> rules[i].ruleId in held && held[rules[i].ruleId] == rules[i].alerts
  }

  // ----- Listing what rules hold -----

  /** One rule's instances, by key. */
  function Placed(r: RuleId, m: AlertMap): map<Key, Instance> {
    AllInstances(map[r := m])
  }

  lemma {:induction false} EnumerationIsListing(list: seq<Instance>, m: AlertMap, r: RuleId)
    requires Enumerates(list, m) && Owned(m, r)
    ensures Lists(list, Placed(r, m))
  {
    if list == [] {
      assert Placed(r, m) == map[];
    } else {
      var last := list[|list| - 1];
      assert Key(r, last.id) in InstanceKeys(map[r := m]);
      assert Placed(r, m) - {KeyOf(last)} == Placed(r, m - {last.id});
      EnumerationIsListing(list[..|list| - 1], m - {last.id}, r);
    }
  }

  lemma {:induction false} ListingsJoin(a: seq<Instance>, m: map<Key, Instance>,
                                       b: seq<Instance>, m': map<Key, Instance>)
    requires Lists(a, m) && Lists(b, m')
    requires m.Keys !! m'.Keys
    ensures Lists(a + b, m + m')
  {
    if b == [] {
      assert a + b == a && m + m' == m;
    } else {
      var n, last := |b| - 1, b[|b| - 1];
      ListingsJoin(a, m, b[..n], m' - {KeyOf(last)});
      assert (a + b)[..|a + b| - 1] == a + b[..n];
      assert (m + m') - {KeyOf(last)} == m + (m' - {KeyOf(last)});
    }
  }

  lemma InstancesJoin(rules: map<RuleId, AlertMap>, more: map<RuleId, AlertMap>)
    requires rules.Keys !! more.Keys
    ensures AllInstances(rules + more) == AllInstances(rules) + AllInstances(more)
    ensures AllInstances(rules).Keys !! AllInstances(more).Keys
  {
  }

  /** Sifting rules splits what they hold: each instance stays or leaves with its rule, none does both. */
  lemma SiftingSplits(rules: seq<AlertingRule>, ids: set<RuleId>, held: map<RuleId, AlertMap>)
    requires Holds(rules, held)
    ensures Holds(Sifted(rules, ids, true), Only(held, ids)) && Holds(Sifted(rules, ids, false), held - ids)
    ensures held == Only(held, ids) + (held - ids)
    ensures AllInstances(held) == AllInstances(Only(held, ids)) + AllInstances(held - ids)
    ensures AllInstances(Only(held, ids)).Keys !! AllInstances(held - ids).Keys
  {
    SiftedHolds(rules, ids, true, held, Only(held, ids));
    SiftedHolds(rules, ids, false, held, held - ids);
    assert held == Only(held, ids) + (held - ids);
    InstancesJoin(Only(held, ids), held - ids);
  }

  lemma SiftedHolds(rules: seq<AlertingRule>, ids: set<RuleId>, keep: bool,
                    held: map<RuleId, AlertMap>, part: map<RuleId, AlertMap>)
    requires Holds(rules, held)
    requires forall id :: Get(part, id) == if id in held && (id in ids) == keep then Some(held[id]) else None
    ensures Holds(Sifted(rules, ids, keep), part)
  {
    var sifted := Sifted(rules, ids, keep);
    SiftedIds(rules, ids, keep);
    SiftedMembers(rules, ids, keep);
    IdsAreTheirs(rules);
    forall id ensures id in part.Keys <==> id in Ids(sifted) {
      assert Get(part, id).Some? <==> id in held && (id in ids) == keep;
    }
    forall i | 0 <= i < |sifted|
      ensures sifted[i].ruleId in part && part[sifted[i].ruleId] == sifted[i].alerts
    {
      var j :| 0 <= j < |rules| && rules[j] == sifted[i];
      assert rules[j].ruleId in held;
      assert Get(part, sifted[i].ruleId) == Some(held[rules[j].ruleId]);
    }
  }

  /** What the rules hold, by rule ID. */
  lemma {:induction false} HoldingOf(rules: seq<AlertingRule>) returns (held: map<RuleId, AlertMap>)
    requires DistinctIds(rules)
    ensures Holds(rules, held)
  {
    if rules == [] {
      held := map[];
    } else {
      var n := |rules| - 1;
      var init := HoldingOf(rules[..n]);
      NotAmongEarlier(rules, n);
      HoldOneMore(rules, n, init);
      assert rules[..n + 1] == rules;
      held := init[rules[n].ruleId := rules[n].alerts];
    }
  }

  /** One more rule's snapshot extends a listing of what the rules before it hold. */
  lemma ListOneRule(all: seq<Instance>, held: map<RuleId, AlertMap>, alerts: seq<Instance>, r: RuleId, m: AlertMap)
    requires Lists(all, AllInstances(held)) && r !in held
    requires Enumerates(alerts, m) && Owned(m, r)
    ensures Lists(all + alerts, AllInstances(held[r := m]))
  {
    assert held[r := m] == held + map[r := m];
    EnumerationIsListing(alerts, m, r);
    InstancesJoin(held, map[r := m]);
    ListingsJoin(all, AllInstances(held), alerts, Placed(r, m));
  }

  lemma HoldOneMore(rules: seq<AlertingRule>, i: nat, held: map<RuleId, AlertMap>)
    requires i < |rules|
    requires Holds(rules[..i], held) && rules[i].ruleId !in held
    ensures Holds(rules[..i + 1], held[rules[i].ruleId := rules[i].alerts])
  {
    assert rules[..i + 1] == rules[..i] + [rules[i]];
    OneMoreRule(rules[..i], rules[i]);
  }

  lemma {:induction false} NotAmongEarlier(rules: seq<AlertingRule>, i: nat)
    requires DistinctIds(rules) && i < |rules|
    ensures rules[i].ruleId !in Ids(rules[..i])
  {
    if i < |rules| - 1 {
      NotAmongEarlier(rules[..|rules| - 1], i);
      assert rules[..|rules| - 1][..i] == rules[..i];
    }
  }

  /** `all` lists what the first `k` rules hold. */
  predicate Listed(rules: seq<AlertingRule>, k: nat, all: seq<Instance>, held: map<RuleId, AlertMap>)
    reads rules
  {
    k <= |rules| && Holds(rules[..k], held) && Lists(all, AllInstances(held))
  }

  lemma NothingListed(rules: seq<AlertingRule>)
    ensures Listed(rules, 0, [], map[])
  {
    assert AllInstances(map[]) == map[];
  }

  /** Appends one rule's snapshot. */
  method WithAlertsOf(ghost rules: seq<AlertingRule>, ghost i: nat, r: AlertingRule, all: seq<Instance>,
                      ghost held: map<RuleId, AlertMap>)
    returns (more: seq<Instance>)
    requires DistinctIds(rules) && i < |rules| && rules[i] == r && Owned(r.alerts, r.ruleId)
    requires Listed(rules, i, all, held)
    ensures Listed(rules, i + 1, more, held[r.ruleId := r.alerts])
  {
    NotAmongEarlier(rules, i);
    HoldOneMore(rules, i, held);
    var alerts := r.GetAlerts();
    ListOneRule(all, held, alerts, r.ruleId, r.alerts);
    more := all + alerts;
  }

  /** Every instance the rules hold, rule after rule. */
  method LiveInstances(rules: seq<AlertingRule>) returns (all: seq<Instance>, ghost held: map<RuleId, AlertMap>)
    requires DistinctIds(rules) && AllOwned(rules)
    ensures Holds(rules, held)
    ensures Lists(all, AllInstances(held))
  {
    all, held := [], map[];
    NothingListed(rules);
    var i := 0;
    while i < |rules|
      invariant 0 <= i <= |rules|
      invariant Listed(rules, i, all, held)
    {
      all := WithAlertsOf(rules, i, rules[i], all, held);
      held := held[rules[i].ruleId := rules[i].alerts];
      i := i + 1;
    }
    assert rules[..i] == rules;
  }

  /** When every ID goes on, nothing is dropped, and nothing is left to add. */
  lemma SameIdsChangeNothing(rules: seq<AlertingRule>, ids: set<RuleId>, added: seq<AlertingRule>)
    requires Ids(rules) == ids && Ids(added) == ids - Ids(rules)
    ensures Sifted(rules, ids, false) == [] && added == [] && Sifted(rules, ids, true) + added == rules
  {
    NothingSifted(rules, ids);
    assert Ids(added) == {};
  }
}
