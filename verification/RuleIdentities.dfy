/** Rule IDs: taken from the normalized query and checked to be distinct within each group. */
module RuleIdentities {
  import opened Alerts
  import opened ByteStrings
  import opened LabelSets

  /** A rule as configured; its ID is filled in place. */
  class RuleConfig {
    const expr: string
    const alert: string
    const record: string
    const labels: Labels
    var id: RuleId

    constructor (expr: string, alert: string, record: string, labels: Labels, id: RuleId)
      ensures this.expr == expr && this.alert == alert && this.record == record
      ensures this.labels == labels && this.id == id
    {
      this.expr, this.alert, this.record, this.labels, this.id := expr, alert, record, labels, id;
    }

    /** What the ID is hashed from besides the query's own hash: kind, name and labels, with nothing between them. */
    ghost function Described(): string {
      Kind() + (Name() + HashInput(labels))
    }

    function Kind(): string {
      if record != "" then "recording" else "alerting"
    }

    function Name(): string {
      if record != "" then record else alert
    }

    method Describe() returns (text: string)
      ensures text == Described()
    {
      var fed := HashLabels(labels);
      text := Kind() + (Name() + fed);
    }
  }

  /** ClickHouse's normalized query hash, which may fail. */
  type QueryHash = string -> Option<nat>

  type IdHash = (nat, string) -> RuleId

  /** The ID a rule gets, if its query can be hashed. */
  ghost function IdOf(r: RuleConfig, queryHash: QueryHash, hash: IdHash): Option<RuleId> {
    var h := queryHash(r.expr);
    if h.None? then None else Some(hash(h.value, r.Described()))
  }

  ghost function IdsOf(rules: seq<RuleConfig>, queryHash: QueryHash, hash: IdHash): set<Option<RuleId>> {
    if rules == [] then {}
    else IdsOf(rules[..|rules| - 1], queryHash, hash) + {IdOf(rules[|rules| - 1], queryHash, hash)}
  }

  /** Every rule of the group can be given an ID, and no two the same one. */
  ghost predicate Identifiable(rules: seq<RuleConfig>, queryHash: QueryHash, hash: IdHash) {
    if rules == [] then true
    else
      var init, last := rules[..|rules| - 1], IdOf(rules[|rules| - 1], queryHash, hash);
      Identifiable(init, queryHash, hash) && last.Some? && last !in IdsOf(init, queryHash, hash)
  }

  // ----- When rules share an ID -----

  /** No two inputs hash alike. */
  ghost predicate Injective(hash: IdHash) {
    forall h, t, h', t' :: hash(h, t) == hash(h', t') ==> h == h' && t == t'
  }

  /** Rules share an ID exactly if queries hash alike, both alert or both record, and name and labels read alike. */
  lemma IdsShared(a: RuleConfig, b: RuleConfig, queryHash: QueryHash, hash: IdHash)
    requires Injective(hash) && queryHash(a.expr).Some? && queryHash(b.expr).Some?
    ensures IdOf(a, queryHash, hash) == IdOf(b, queryHash, hash) <==>
            && queryHash(a.expr) == queryHash(b.expr)
            && (a.record == "" <==> b.record == "")
            && (if a.record == "" then a.alert else a.record) + HashInput(a.labels) ==
               (if b.record == "" then b.alert else b.record) + HashInput(b.labels)
  {
    var ta, tb := a.Name() + HashInput(a.labels), b.Name() + HashInput(b.labels);
    if a.Kind() == b.Kind() {
      assert (a.Kind() + ta)[|a.Kind()|..] == ta && (b.Kind() + tb)[|b.Kind()|..] == tb;
      assert "recording"[0] != "alerting"[0];
    } else {
      assert (a.Kind() + ta)[0] != (b.Kind() + tb)[0];
    }
  }

  /** Rules of one name and the same label names share an ID only if their labels are the same. */
  lemma NamesakesApart(a: RuleConfig, b: RuleConfig, queryHash: QueryHash, hash: IdHash)
    requires Injective(hash) && queryHash(a.expr).Some? && queryHash(b.expr).Some?
    requires a.record == b.record && a.alert == b.alert
    requires a.labels.Keys == b.labels.Keys && Marked(a.labels) && Marked(b.labels)
    requires IdOf(a, queryHash, hash) == IdOf(b, queryHash, hash)
    ensures a.labels == b.labels
  {
    IdsShared(a, b, queryHash, hash);
    RunTogether(a.Name(), HashInput(a.labels), b.Name(), HashInput(b.labels));
    HashInputsApart(a.labels, b.labels);
  }

  /** The smallest case: alert "a" with label b="bx" and alert "ab" with b="x" share an ID if their queries do. */
  lemma NameRunsIntoLabels(r: RuleConfig, o: RuleConfig, queryHash: QueryHash, hash: IdHash)
    requires r.alert == "a" && r.labels == map["b" := "bx"] && o.alert == "ab" && o.labels == map["b" := "x"]
    requires r.record == "" && o.record == "" && r.expr == o.expr
    ensures IdOf(r, queryHash, hash) == IdOf(o, queryHash, hash)
    ensures !Identifiable([r, o], queryHash, hash)
  {
    SingleKey("b", "bx");
    SingleKey("b", "x");
    assert "a" + ("b" + "bx" + [SEPARATOR]) == "ab" + ("b" + "x" + [SEPARATOR]);
    assert [r, o][..1] == [r] && [r][..0] == [];
    assert IdsOf([], queryHash, hash) == {};
    assert IdsOf([r], queryHash, hash) == {IdOf(r, queryHash, hash)};
  }

  lemma {:induction false} PrefixIdentifiable(rules: seq<RuleConfig>, i: nat, queryHash: QueryHash, hash: IdHash)
    requires i <= |rules| && Identifiable(rules, queryHash, hash)
    ensures Identifiable(rules[..i], queryHash, hash)
  {
    if i < |rules| {
      PrefixIdentifiable(rules[..|rules| - 1], i, queryHash, hash);
      assert rules[..|rules| - 1][..i] == rules[..i];
    } else {
      assert rules[..i] == rules;
    }
  }

  /** What identifying means: any two rules have different IDs. */
  lemma {:induction false} IdentifiedApart(rules: seq<RuleConfig>, i: nat, j: nat, queryHash: QueryHash, hash: IdHash)
    requires i < j < |rules| && Identifiable(rules, queryHash, hash)
    ensures IdOf(rules[i], queryHash, hash).Some? && IdOf(rules[i], queryHash, hash) != IdOf(rules[j], queryHash, hash)
  {
    var n := |rules| - 1;
    if j < n {
      IdentifiedApart(rules[..n], i, j, queryHash, hash);
    } else {
      EarlierIn(rules[..n], i, queryHash, hash);
    }
  }

  /** And any rules that can be given IDs, no two the same, are a group that passes. */
  lemma {:induction false} ApartIsIdentifiable(rules: seq<RuleConfig>, queryHash: QueryHash, hash: IdHash)
    requires forall i :: 0 <= i < |rules| ==> IdOf(rules[i], queryHash, hash).Some?
    requires forall i, j :: 0 <= i < j < |rules| ==>
               IdOf(rules[i], queryHash, hash) != IdOf(rules[j], queryHash, hash)
    ensures Identifiable(rules, queryHash, hash)
    ensures forall o :: o in IdsOf(rules, queryHash, hash) ==>
              exists i :: 0 <= i < |rules| && IdOf(rules[i], queryHash, hash) == o
  {
    if rules != [] {
      var n := |rules| - 1;
      var init := rules[..n];
      ApartIsIdentifiable(init, queryHash, hash);
      forall o | o in IdsOf(rules, queryHash, hash)
        ensures exists i :: 0 <= i < |rules| && IdOf(rules[i], queryHash, hash) == o
      {
        if o in IdsOf(init, queryHash, hash) {
          var i :| 0 <= i < n && IdOf(init[i], queryHash, hash) == o;
          assert IdOf(rules[i], queryHash, hash) == o;
        } else {
          assert IdOf(rules[n], queryHash, hash) == o;
        }
      }
    }
  }

  lemma {:induction false} EarlierIn(rules: seq<RuleConfig>, i: nat, queryHash: QueryHash, hash: IdHash)
    requires i < |rules| && Identifiable(rules, queryHash, hash)
    ensures IdOf(rules[i], queryHash, hash).Some? && IdOf(rules[i], queryHash, hash) in IdsOf(rules, queryHash, hash)
  {
    if i < |rules| - 1 {
      EarlierIn(rules[..|rules| - 1], i, queryHash, hash);
    }
  }

  /** The cache holds what the query hash answers. */
  ghost predicate Truthful(cache: map<string, nat>, queryHash: QueryHash) {
    forall e :: e in cache ==> queryHash(e) == Some(cache[e])
  }

  ghost predicate AllIdentifiable(groups: seq<seq<RuleConfig>>, queryHash: QueryHash, hash: IdHash) {
    groups == [] ||
    (AllIdentifiable(groups[..|groups| - 1], queryHash, hash) && Identifiable(groups[|groups| - 1], queryHash, hash))
  }

  /** A group among them must be identifiable if all are. */
  lemma {:induction false} NextGroup(groups: seq<seq<RuleConfig>>, i: nat, queryHash: QueryHash, hash: IdHash)
    requires i < |groups|
    ensures AllIdentifiable(groups, queryHash, hash) ==> Identifiable(groups[i], queryHash, hash)
  {
    if i < |groups| - 1 {
      NextGroup(groups[..|groups| - 1], i, queryHash, hash);
    }
  }

  /** Every rule has the ID its query and configuration give. */
  ghost predicate AllIdentified(rules: set<RuleConfig>, queryHash: QueryHash, hash: IdHash)
    reads rules
  {
    forall r :: r in rules ==> Some(r.id) == IdOf(r, queryHash, hash)
  }

  function RulesOf(groups: seq<seq<RuleConfig>>): set<RuleConfig> {
    set g, r | g in groups && r in g :: r
  }

  lemma OneMoreGroup(groups: seq<seq<RuleConfig>>, i: nat, queryHash: QueryHash, hash: IdHash)
    requires i < |groups|
    ensures AllIdentifiable(groups[..i + 1], queryHash, hash) <==>
            AllIdentifiable(groups[..i], queryHash, hash) && Identifiable(groups[i], queryHash, hash)
    ensures RulesOf(groups[..i + 1]) == RulesOf(groups[..i]) + set r | r in groups[i]
    ensures (set r | r in groups[i]) <= RulesOf(groups)
  {
    assert groups[..i + 1] == groups[..i] + [groups[i]];
    assert groups[..i + 1][..i] == groups[..i];
  }

  /** Gives every rule its ID; fails exactly when some group is not identifiable. */
  method NormalizeRuleIDs(groups: seq<seq<RuleConfig>>, queryHash: QueryHash, hash: IdHash) returns (ok: bool)
    modifies RulesOf(groups)
    ensures ok <==> AllIdentifiable(groups, queryHash, hash)
    ensures ok ==> AllIdentified(RulesOf(groups), queryHash, hash)
  {
    var cache: map<string, nat> := map[];
    ghost var done := {};
    var i := 0;
    while i < |groups|
      invariant 0 <= i <= |groups|
      invariant Truthful(cache, queryHash)
      invariant AllIdentifiable(groups[..i], queryHash, hash)
      invariant done == RulesOf(groups[..i]) && done <= RulesOf(groups) && AllIdentified(done, queryHash, hash)
    {
      OneMoreGroup(groups, i, queryHash, hash);
      NextGroup(groups, i, queryHash, hash);
      ok, cache := NormalizeGroup(groups[i], cache, queryHash, hash);
      if !ok {
        return;
      }
      done := done + set r | r in groups[i];
      i := i + 1;
    }
    assert groups[..i] == groups;
    ok := true;
  }

  /** A group is identifiable only if its next rule has an ID none before it has. */
  lemma OneMoreIdentifiable(rules: seq<RuleConfig>, j: nat, queryHash: QueryHash, hash: IdHash)
    requires j < |rules| && Identifiable(rules[..j], queryHash, hash)
    ensures var id := IdOf(rules[j], queryHash, hash);
            var isNew := id.Some? && id !in IdsOf(rules[..j], queryHash, hash);
            && IdsOf(rules[..j + 1], queryHash, hash) == IdsOf(rules[..j], queryHash, hash) + {id}
            && (Identifiable(rules[..j + 1], queryHash, hash) <==> isNew)
            && (Identifiable(rules, queryHash, hash) ==> isNew)
  {
    assert rules[..j + 1][..j] == rules[..j];
    if Identifiable(rules, queryHash, hash) {
      PrefixIdentifiable(rules, j + 1, queryHash, hash);
    }
  }

  /** Gives one rule its ID, asking for its query's hash unless the cache has it. */
  method Identify(r: RuleConfig, known: map<string, nat>, queryHash: QueryHash, hash: IdHash)
    returns (ok: bool, cache: map<string, nat>)
    requires Truthful(known, queryHash)
    modifies r
    ensures Truthful(cache, queryHash)
    ensures ok <==> IdOf(r, queryHash, hash).Some?
    ensures if ok then Some(r.id) == IdOf(r, queryHash, hash) else r.id == old(r.id)
  {
    cache := known;
    if r.expr !in cache {
      var h := queryHash(r.expr);
      if h.None? {
        return false, cache;
      }
      cache := cache[r.expr := h.value];
    }
    var text := r.Describe();
    r.id := hash(cache[r.expr], text);
    ok := true;
  }

  /** The first `j` rules have their IDs, all different, and `seen` holds these. */
  ghost predicate Numbered(rules: seq<RuleConfig>, j: nat, seen: set<RuleId>, queryHash: QueryHash, hash: IdHash)
    reads rules
  {
    && j <= |rules| && Identifiable(rules[..j], queryHash, hash)
    && (forall id :: id in seen <==> Some(id) in IdsOf(rules[..j], queryHash, hash))
    && (forall k :: 0 <= k < j ==> Some(rules[k].id) == IdOf(rules[k], queryHash, hash))
  }

  method NumberNext(rules: seq<RuleConfig>, j: nat, known: map<string, nat>, before: set<RuleId>,
                    queryHash: QueryHash, hash: IdHash)
    returns (ok: bool, cache: map<string, nat>, seen: set<RuleId>)
    requires j < |rules| && Truthful(known, queryHash)
    requires Numbered(rules, j, before, queryHash, hash)
    modifies rules[j]
    ensures Truthful(cache, queryHash)
    ensures if ok then Numbered(rules, j + 1, seen, queryHash, hash) else !Identifiable(rules, queryHash, hash)
    ensures rules[j].id == old(rules[j].id) || Some(rules[j].id) == IdOf(rules[j], queryHash, hash)
  {
    OneMoreIdentifiable(rules, j, queryHash, hash);
    seen := before;
    ok, cache := Identify(rules[j], known, queryHash, hash);
    if !ok {
      return;
    }
    if rules[j].id in seen {
      return false, cache, seen;
    }
    seen := seen + {rules[j].id};
  }

  method NormalizeGroup(rules: seq<RuleConfig>, known: map<string, nat>, queryHash: QueryHash, hash: IdHash)
    returns (ok: bool, cache: map<string, nat>)
    requires Truthful(known, queryHash)
    modifies rules
    ensures Truthful(cache, queryHash)
    ensures ok <==> Identifiable(rules, queryHash, hash)
    ensures ok ==> AllIdentified((set r | r in rules), queryHash, hash)
    ensures forall r :: r in rules ==> r.id == old(r.id) || Some(r.id) == IdOf(r, queryHash, hash)
  {
    cache := known;
    var seen: set<RuleId> := {};
    var j := 0;
    while j < |rules|
      invariant 0 <= j <= |rules|
      invariant Truthful(cache, queryHash)
      invariant Numbered(rules, j, seen, queryHash, hash)
      invariant forall r :: r in rules ==> r.id == old(r.id) || Some(r.id) == IdOf(r, queryHash, hash)
    {
      ok, cache, seen := NumberNext(rules, j, cache, seen, queryHash, hash);
      if !ok {
        return;
      }
      j := j + 1;
    }
    assert rules[..j] == rules;
    ok := true;
  }
}
