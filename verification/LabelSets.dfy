/** An alert's label set: a row's labels merged with the rule's, and the bytes it is hashed from. */
module LabelSets {
  import opened Alerts
  import opened ByteStrings

  datatype Label = Label(name: string, value: string)

  const EXPORTED := "exported_"

  const ALERTNAME := "alertname"

  // ----- Merging -----

  /** A row's labels, a repeated name keeping its last value. */
  function RowLabels(row: seq<Label>): Labels {
    if row == [] then map[]
    else
      var last := row[|row| - 1];
      RowLabels(row[..|row| - 1])[last.name := last.value]
  }

  /** One configured label laid over the set built so far; an empty value configures nothing. */
  function Laid(labels: Labels, k: string, v: string): Labels {
    if v == "" then labels
    else if k in labels && labels[k] != v then labels[EXPORTED + k := labels[k]][k := v]
    else labels[k := v]
  }

  /** Configured labels laid over one after the other. */
  function LaidAll(labels: Labels, order: seq<string>, config: Labels): Labels
    requires forall k :: k in order ==> k in config
  {
    if order == [] then labels
    else
      var last := order[|order| - 1];
      Laid(LaidAll(labels, order[..|order| - 1], config), last, config[last])
  }

  function Named(labels: Labels, name: string): Labels {
    if name == "" then labels else labels[ALERTNAME := name]
  }

  /** An order a pass over a map may take: each key once. */
  predicate OrderOf(order: seq<string>, keys: set<string>) {
    if order == [] then keys == {}
    else
      var last := order[|order| - 1];
      last in keys && OrderOf(order[..|order| - 1], keys - {last})
  }

  lemma {:induction false} OrderMembers(order: seq<string>, keys: set<string>)
    requires OrderOf(order, keys)
    ensures forall k :: k in order <==> k in keys
  {
    if order != [] {
      var last := order[|order| - 1];
      assert order == order[..|order| - 1] + [last];
      OrderMembers(order[..|order| - 1], keys - {last});
    }
  }

  lemma {:induction false} OrdersJoin(a: seq<string>, ks: set<string>, b: seq<string>, ks': set<string>)
    requires OrderOf(a, ks) && OrderOf(b, ks') && ks !! ks'
    ensures OrderOf(a + b, ks + ks')
  {
    if b == [] {
      assert a + b == a && ks + ks' == ks;
    } else {
      var n := |b| - 1;
      OrdersJoin(a, ks, b[..n], ks' - {b[n]});
      assert (a + b)[..|a + b| - 1] == a + b[..n];
      assert ks + ks' - {b[n]} == ks + (ks' - {b[n]});
    }
  }

  lemma {:induction false} SomeOrder(ks: set<string>) returns (order: seq<string>)
    ensures OrderOf(order, ks)
  {
    if ks == {} {
      order := [];
    } else {
      var k :| k in ks;
      var init := SomeOrder(ks - {k});
      order := init + [k];
    }
  }

  method BuildLabels(row: seq<Label>, config: Labels, name: string) returns (labels: Labels, ghost order: seq<string>)
    ensures OrderOf(order, config.Keys) && forall k :: k in order ==> k in config
    ensures labels == Named(LaidAll(RowLabels(row), order, config), name)
    ensures Independent(config) ==> labels == Merged(RowLabels(row), config, name)
    ensures name != "" ==> "alertname" in labels && labels["alertname"] == name
  {
    labels, order := map[], [];
    var i := 0;
    while i < |row|
      invariant 0 <= i <= |row|
      invariant labels == RowLabels(row[..i])
    {
      assert row[..i + 1][..i] == row[..i];
      labels := labels[row[i].name := row[i].value];
      i := i + 1;
    }
    assert row[..i] == row;
    ghost var mine := labels;
    labels, order := LayAll(labels, config);
    if Independent(config) {
      AnyOrderMerges(mine, order, config);
    }
    if name != "" {
      labels := labels[ALERTNAME := name];
    }
  }

  /** Lays the configured labels over a row's, in no particular order. */
  method LayAll(row: Labels, config: Labels) returns (labels: Labels, ghost order: seq<string>)
    ensures OrderOf(order, config.Keys) && forall k :: k in order ==> k in config
    ensures labels == LaidAll(row, order, config)
  {
    labels, order := row, [];
    var todo := config.Keys;
    while todo != {}
      invariant todo <= config.Keys
      invariant OrderOf(order, config.Keys - todo) && forall k :: k in order ==> k in config
      invariant labels == LaidAll(row, order, config)
    {
      var k :| k in todo;
      OrdersJoin(order, config.Keys - todo, [k], {k});
      assert config.Keys - todo + {k} == config.Keys - (todo - {k});
      assert (order + [k])[..|order|] == order;
      order := order + [k];
      todo := todo - {k};
      labels := LayOne(labels, k, config[k]);
    }
    assert config.Keys - todo == config.Keys;
  }

  method LayOne(labels: Labels, k: string, v: string) returns (laid: Labels)
    ensures laid == Laid(labels, k, v)
  {
    laid := labels;
    if v == "" {
      return;
    }
    if k in laid && laid[k] != v {
      laid := laid[EXPORTED + k := laid[k]];
    }
    laid := laid[k := v];
  }

  // ----- What merging comes to -----

  /** The labels a configuration sets. */
  function Set(config: Labels): set<string> {
    set k | k in config && config[k] != ""
  }

  /** No label a configuration sets is where it would move another. */
  predicate Independent(config: Labels) {
    forall k :: k in Set(config) ==> EXPORTED + k !in Set(config)
  }

  /** The label that would move to `x`. */
  function Moved(x: string): (k: Option<string>)
    ensures k.Some? ==> x == EXPORTED + k.value
    ensures forall y :: x == EXPORTED + y ==> k == Some(y)
  {
    if |x| >= |EXPORTED| && x[..|EXPORTED|] == EXPORTED then
      assert x == EXPORTED + x[|EXPORTED|..];
      assert forall y :: x == EXPORTED + y ==> y == x[|EXPORTED|..];
      Some(x[|EXPORTED|..])
    else
      assert forall y :: x == EXPORTED + y ==> x[..|EXPORTED|] == EXPORTED;
      None
  }

  /** One label of the merged set: configured, moved aside by a configured one, or the row's own. */
  function MergedAt(row: Labels, config: Labels, ks: set<string>, x: string): Option<string> {
    var k := Moved(x);
    if x in config && x in ks && config[x] != "" then Some(config[x])
    else if k.Some? && k.value in config && k.value in ks && config[k.value] != ""
            && k.value in row && row[k.value] != config[k.value] then Some(row[k.value])
    else Get(row, x)
  }

  function Candidates(row: Labels, config: Labels): set<string> {
    row.Keys + config.Keys + set k | k in config :: EXPORTED + k
  }

  function Merged(row: Labels, config: Labels, name: string): Labels {
    Named(map x | x in Candidates(row, config) && MergedAt(row, config, config.Keys, x).Some? ::
            MergedAt(row, config, config.Keys, x).value, name)
  }

  /** A row's label keeps the last value the row gives it. */
  lemma {:induction false} LastValueStays(row: seq<Label>, i: nat)
    requires i < |row| && forall j :: i < j < |row| ==> row[j].name != row[i].name
    ensures Get(RowLabels(row), row[i].name) == Some(row[i].value)
  {
    if i < |row| - 1 {
      LastValueStays(row[..|row| - 1], i);
    }
  }

  lemma {:induction false} NoOtherLabels(row: seq<Label>, name: string)
    requires forall i :: 0 <= i < |row| ==> row[i].name != name
    ensures name !in RowLabels(row)
  {
    if row != [] {
      NoOtherLabels(row[..|row| - 1], name);
    }
  }

  /** Laying one label: an empty value does nothing, another one is set, and a different value it finds moves aside. */
  lemma LaidMoves(labels: Labels, k: string, v: string, x: string)
    ensures v == "" ==> Laid(labels, k, v) == labels
    ensures v != "" && x == k ==> Get(Laid(labels, k, v), x) == Some(v)
    ensures v != "" && k in labels && labels[k] != v && x == "exported_" + k ==>
              Get(Laid(labels, k, v), x) == Some(labels[k])
    ensures x != k && (x != "exported_" + k || k !in labels || labels[k] == v) ==>
              Get(Laid(labels, k, v), x) == Get(labels, x)
  {
    assert |"exported_" + k| > |k|;
  }

  /**
    The merged set, label by label: the alert's name, else the configured
    value, else the row's value that a configured one displaced, else the
    row's own.
   */
  lemma MergedByLabel(row: Labels, config: Labels, name: string, x: string)
    ensures x == "alertname" && name != "" ==> Get(Merged(row, config, name), x) == Some(name)
    ensures (x != "alertname" || name == "") && x in config && config[x] != "" ==>
              Get(Merged(row, config, name), x) == Some(config[x])
    ensures (x != "alertname" || name == "") && !(x in config && config[x] != "") ==>
              forall k :: x == "exported_" + k && k in config && config[k] != "" && k in row && row[k] != config[k] ==>
                Get(Merged(row, config, name), x) == Some(row[k])
    ensures (x != "alertname" || name == "") && !(x in config && config[x] != "")
            && (forall k :: x == "exported_" + k && k in config && config[k] != "" && k in row ==>
                  row[k] == config[k]) ==>
              Get(Merged(row, config, name), x) == Get(row, x)
  {
    var merged := Merged(row, config, "");
    assert Get(merged, x) == MergedAt(row, config, config.Keys, x);
    assert Merged(row, config, name) == Named(merged, name);
    var k := Moved(x);
    assert k.Some? ==> x == "exported_" + k.value;
  }

  /** Without interference, each label laid so far is where the merged set has it. */
  lemma {:induction false} LaidByKey(row: Labels, order: seq<string>, config: Labels, ks: set<string>, x: string)
    requires OrderOf(order, ks) && ks <= config.Keys
    requires forall k :: k in order ==> k in config
    requires Independent(config)
    ensures Get(LaidAll(row, order, config), x) == MergedAt(row, config, ks, x)
  {
    if order != [] {
      var n := |order| - 1;
      var last := order[n];
      var before := LaidAll(row, order[..n], config);
      LaidByKey(row, order[..n], config, ks - {last}, x);
      LaidByKey(row, order[..n], config, ks - {last}, last);
      if config[last] != "" {
        assert last in Set(config);
        assert MergedAt(row, config, ks - {last}, last) == Get(row, last) by {
          var k := Moved(last);
          assert k.Some? ==> k.value !in Set(config);
        }
      }
    }
  }

  lemma AnyOrderMerges(row: Labels, order: seq<string>, config: Labels)
    requires OrderOf(order, config.Keys) && forall k :: k in order ==> k in config
    requires Independent(config)
    ensures forall name :: Named(LaidAll(row, order, config), name) == Merged(row, config, name)
  {
    var laid := LaidAll(row, order, config);
    var merged := Merged(row, config, "");
    forall x ensures Get(laid, x) == Get(merged, x) {
      LaidByKey(row, order, config, config.Keys, x);
    }
    assert laid == merged by {
      forall x | x in laid ensures x in merged && merged[x] == laid[x] {
        assert Get(laid, x) == Get(merged, x);
      }
      forall x | x in merged ensures x in laid {
        assert Get(laid, x) == Get(merged, x);
      }
    }
  }

  // ----- Order -----

  /** The order configured labels are laid in never shows. */
  ghost predicate OrderNeverShows(config: Labels) {
    forall row: Labels, a: seq<string>, b: seq<string>, name: string ::
      OrderOf(a, config.Keys) && OrderOf(b, config.Keys)
      && (forall k :: k in a ==> k in config) && (forall k :: k in b ==> k in config)
      ==> Named(LaidAll(row, a, config), name) == Named(LaidAll(row, b, config), name)
  }

  lemma {:induction false} LaterKeysKeep(row: Labels, first: seq<string>, rest: seq<string>, config: Labels, x: string)
    requires (forall k :: k in first ==> k in config) && (forall k :: k in rest ==> k in config)
    requires x !in rest && forall k :: k in rest ==> EXPORTED + k != x
    ensures forall k :: k in first + rest ==> k in config
    ensures Get(LaidAll(row, first + rest, config), x) == Get(LaidAll(row, first, config), x)
  {
    if rest == [] {
      assert first + rest == first;
    } else {
      var n := |rest| - 1;
      assert rest == rest[..n] + [rest[n]];
      assert (first + rest)[..|first + rest| - 1] == first + rest[..n];
      forall k | k in rest[..n] ensures k in config && EXPORTED + k != x {
        assert k in rest;
      }
      LaterKeysKeep(row, first, rest[..n], config, x);
      assert EXPORTED + rest[n] != x;
    }
  }

  /** The interfering pair first, one way round or the other. */
  lemma PairFirst(k: string, y: string, config: Labels, rest: seq<string>)
    requires k in config && y in config && k != y
    requires OrderOf(rest, config.Keys - {k, y})
    ensures OrderOf([k, y] + rest, config.Keys)
    ensures forall x :: x in [k, y] + rest ==> x in config
  {
    assert OrderOf([k], {k}) && OrderOf([y], {y});
    OrdersJoin([k], {k}, [y], {y});
    assert [k] + [y] == [k, y] && {k} + {y} == {k, y};
    OrdersJoin([k, y], {k, y}, rest, config.Keys - {k, y});
    assert {k, y} + (config.Keys - {k, y}) == config.Keys;
    OrderMembers([k, y] + rest, config.Keys);
  }

  /** Two labels of which one moves onto the other: some row shows which was laid first. */
  lemma InterferenceShows(config: Labels, k: string)
    requires k in Set(config) && EXPORTED + k in Set(config)
    ensures !OrderNeverShows(config)
  {
    var y := EXPORTED + k;
    assert |y| > |k|;
    var w := config[k] + config[y] + "'";
    assert w != config[k] && w != config[y];
    var row: Labels := map[k := w];
    var rest := SomeOrder(config.Keys - {k, y});
    OrderMembers(rest, config.Keys - {k, y});
    PairFirst(k, y, config, rest);
    assert {y, k} == {k, y};
    PairFirst(y, k, config, rest);
    var a, b := [k, y] + rest, [y, k] + rest;
    forall j | j in rest ensures j != y && EXPORTED + j != y {
      assert (EXPORTED + j)[|EXPORTED|..] == j;
      assert y[|EXPORTED|..] == k;
    }
    LaterKeysKeep(row, [k, y], rest, config, y);
    LaterKeysKeep(row, [y, k], rest, config, y);
    PairShows(row, k, w, config);
    assert y != ALERTNAME by {
      assert y[0] == 'e';
    }
    assert Get(Named(LaidAll(row, a, config), ""), y) != Get(Named(LaidAll(row, b, config), ""), y);
  }

  lemma PairShows(row: Labels, k: string, w: string, config: Labels)
    requires k in Set(config) && EXPORTED + k in Set(config)
    requires row == map[k := w] && w != config[k] && w != config[EXPORTED + k]
    ensures var y := EXPORTED + k;
            Get(LaidAll(row, [k, y], config), y) == Some(config[y]) && Get(LaidAll(row, [y, k], config), y) == Some(w)
  {
    var y := EXPORTED + k;
    assert |y| > |k|;
    assert |EXPORTED + y| > |y|;
    assert [k, y][..1] == [k] && [y, k][..1] == [y] && [k][..0] == [] && [y][..0] == [];
    assert LaidAll(row, [], config) == row;
    assert LaidAll(row, [k], config) == Laid(row, k, config[k]);
    assert LaidAll(row, [y], config) == Laid(row, y, config[y]);
    assert LaidAll(row, [k, y], config) == Laid(Laid(row, k, config[k]), y, config[y]);
    assert LaidAll(row, [y, k], config) == Laid(Laid(row, y, config[y]), k, config[k]);
  }

  /** The order never shows exactly when no configured label is where another moves to. */
  lemma OrderShowsOnlyByInterference(config: Labels)
    ensures OrderNeverShows(config) <==> Independent(config)
  {
    if Independent(config) {
      forall row: Labels, a: seq<string>, b: seq<string>, name: string |
        OrderOf(a, config.Keys) && OrderOf(b, config.Keys)
        && (forall k :: k in a ==> k in config) && (forall k :: k in b ==> k in config)
        ensures Named(LaidAll(row, a, config), name) == Named(LaidAll(row, b, config), name)
      {
        AnyOrderMerges(row, a, config);
        AnyOrderMerges(row, b, config);
      }
    } else {
      var k :| k in Set(config) && EXPORTED + k in Set(config);
      InterferenceShows(config, k);
    }
  }

  // ----- Identity -----

  /** The row's label names clash with nothing merging writes. */
  predicate Plain(names: set<string>, config: Labels) {
    ALERTNAME !in names && forall k :: k in Set(config) ==> EXPORTED + k !in names
  }

  /** The configured label a chain of exported_ names starts from. */
  function Root(config: Labels, k: string): (r: string)
    ensures |r| <= |k|
    decreases |k|
  {
    var below := Moved(k);
    if below.Some? && below.value in Set(config) then Root(config, below.value) else k
  }

  /**
    Along a chain k, exported_k, exported_exported_k, ... of configured
    labels all values are the same, unless the chain starts at alertname,
    which no row may carry.
   */
  predicate Steady(config: Labels) {
    forall k :: k in Set(config) && EXPORTED + k in Set(config) && Root(config, k) != ALERTNAME ==>
      config[k] == config[EXPORTED + k]
  }

  /** Rows with the same plain label names merge to the same set, in whatever orders, only if they are equal. */
  ghost predicate RowsStayApart(config: Labels) {
    forall r1: Labels, r2: Labels, a: seq<string>, b: seq<string>, name: string ::
      r1.Keys == r2.Keys && Plain(r1.Keys, config)
      && OrderOf(a, config.Keys) && OrderOf(b, config.Keys)
      && (forall k :: k in a ==> k in config) && (forall k :: k in b ==> k in config)
      && Named(LaidAll(r1, a, config), name) == Named(LaidAll(r2, b, config), name)
      ==> r1 == r2
  }

  /** A label `x` and the names its value can be moved to, one configured label after the other. */
  predicate Trail(config: Labels, x: string, y: string)
    decreases |y|
  {
    y == x || (var below := Moved(y); below.Some? && below.value in Set(config) && Trail(config, x, below.value))
  }

  lemma {:induction false} TrailRoot(config: Labels, x: string, y: string)
    requires x in Set(config) && Root(config, x) == x && Trail(config, x, y) && y in Set(config)
    ensures Root(config, y) == x
    decreases |y|
  {
    if y != x {
      TrailRoot(config, x, Moved(y).value);
    }
  }

  lemma {:induction false} TrailIsSteady(config: Labels, x: string, y: string)
    requires Steady(config) && x != ALERTNAME
    requires x in Set(config) && Root(config, x) == x && Trail(config, x, y) && y in Set(config)
    ensures config[y] == config[x]
    decreases |y|
  {
    if y != x {
      var below := Moved(y).value;
      TrailIsSteady(config, x, below);
      TrailRoot(config, x, below);
    }
  }

  /** A label's value `w` is kept somewhere along its trail, among copies of the configured `v`. */
  ghost predicate Traced(config: Labels, x: string, v: string, w: string, labels: Labels) {
    && (forall y :: y in labels && Trail(config, x, y) ==> labels[y] == w || labels[y] == v)
    && (w != v ==> exists y :: y in labels && Trail(config, x, y) && labels[y] == w)
  }

  /** Laying the same value on a label of the trail moves what it held to the next. */
  lemma TraceMoves(config: Labels, x: string, v: string, w: string, labels: Labels, k: string)
    requires k in Set(config) && Trail(config, x, k) && v != ""
    requires Traced(config, x, v, w, labels)
    ensures Traced(config, x, v, w, Laid(labels, k, v))
  {
    var laid, up := Laid(labels, k, v), EXPORTED + k;
    assert Moved(up) == Some(k);
    assert Trail(config, x, up);
    if w != v {
      var y :| y in labels && Trail(config, x, y) && labels[y] == w;
      var kept := if k in labels && labels[k] != v then up else y;
      assert kept in laid && Trail(config, x, kept) && laid[kept] == w;
    }
  }

  /** Laying a label off the trail changes nothing on it. */
  lemma TraceStays(config: Labels, x: string, v: string, w: string, labels: Labels, k: string, u: string)
    requires !Trail(config, x, k) && !Trail(config, x, EXPORTED + k)
    requires Traced(config, x, v, w, labels)
    ensures Traced(config, x, v, w, Laid(labels, k, u))
  {
    if w != v {
      var y :| y in labels && Trail(config, x, y) && labels[y] == w;
      assert y in Laid(labels, k, u) && Laid(labels, k, u)[y] == w;
    }
  }

  lemma TraceKept(config: Labels, x: string, w: string, labels: Labels, k: string)
    requires Steady(config) && x != ALERTNAME
    requires x in Set(config) && Root(config, x) == x && k in config
    requires Traced(config, x, config[x], w, labels)
    ensures Traced(config, x, config[x], w, Laid(labels, k, config[k]))
  {
    if k in Set(config) {
      if Trail(config, x, k) {
        TrailIsSteady(config, x, k);
        TraceMoves(config, x, config[x], w, labels, k);
      } else {
        NotOnTrail(config, x, k);
        TraceStays(config, x, config[x], w, labels, k, config[k]);
      }
    }
  }

  lemma NotOnTrail(config: Labels, x: string, k: string)
    requires x in Set(config) && Root(config, x) == x && k in Set(config) && !Trail(config, x, k)
    ensures !Trail(config, x, EXPORTED + k)
  {
    var up := EXPORTED + k;
    assert Moved(up) == Some(k);
    assert up != x;
  }

  lemma {:induction false} TraceThrough(config: Labels, x: string, row: Labels, order: seq<string>)
    requires Steady(config) && Plain(row.Keys, config)
    requires x in Set(config) && x in row
    requires forall k :: k in order ==> k in config
    ensures Root(config, x) == x && x != ALERTNAME
    ensures Traced(config, x, config[x], row[x], LaidAll(row, order, config))
  {
    if order == [] {
      forall y | y in row && Trail(config, x, y) ensures y == x {
      }
    } else {
      TraceThrough(config, x, row, order[..|order| - 1]);
      TraceKept(config, x, row[x], LaidAll(row, order[..|order| - 1], config), order[|order| - 1]);
    }
  }

  /** A label that is not configured, and that nothing is moved to, is left alone. */
  lemma {:induction false} LeftAlone(config: Labels, x: string, row: Labels, order: seq<string>)
    requires Plain(row.Keys, config) && x in row && x !in Set(config)
    requires forall k :: k in order ==> k in config
    ensures Get(LaidAll(row, order, config), x) == Some(row[x])
  {
    if order != [] {
      LeftAlone(config, x, row, order[..|order| - 1]);
    }
  }

  lemma MergingKeepsRowsApart(r1: Labels, r2: Labels, a: seq<string>, b: seq<string>, config: Labels, name: string)
    requires Steady(config)
    requires r1.Keys == r2.Keys && Plain(r1.Keys, config)
    requires (forall k :: k in a ==> k in config) && (forall k :: k in b ==> k in config)
    requires Named(LaidAll(r1, a, config), name) == Named(LaidAll(r2, b, config), name)
    ensures r1 == r2
  {
    var l1, l2 := LaidAll(r1, a, config), LaidAll(r2, b, config);
    forall x | x in r1 ensures r1[x] == r2[x] {
      assert forall y :: y != ALERTNAME ==> Get(l1, y) == Get(Named(l1, name), y) == Get(l2, y);
      if x in Set(config) {
        TraceThrough(config, x, r1, a);
        TraceThrough(config, x, r2, b);
        assert !Trail(config, x, ALERTNAME) by {
          assert ALERTNAME[0] != EXPORTED[0];
          assert Moved(ALERTNAME).None?;
        }
        SameTrace(config, x, r1[x], r2[x], l1, l2);
      } else {
        LeftAlone(config, x, r1, a);
        LeftAlone(config, x, r2, b);
      }
    }
  }

  lemma SameTrace(config: Labels, x: string, w1: string, w2: string, l1: Labels, l2: Labels)
    requires x in Set(config) && Traced(config, x, config[x], w1, l1) && Traced(config, x, config[x], w2, l2)
    requires forall y :: Trail(config, x, y) ==> Get(l1, y) == Get(l2, y)
    ensures w1 == w2
  {
    if w1 != config[x] {
      var y :| y in l1 && Trail(config, x, y) && l1[y] == w1;
      assert Get(l1, y) == Get(l2, y);
    }
    if w2 != config[x] {
      var y :| y in l2 && Trail(config, x, y) && l2[y] == w2;
      assert Get(l1, y) == Get(l2, y);
    }
  }

  /** The configured labels of a chain up to `k`, its start first. */
  function Chain(config: Labels, k: string): seq<string>
    decreases |k|
  {
    var below := Moved(k);
    if below.Some? && below.value in Set(config) then Chain(config, below.value) + [k] else [k]
  }

  function ChainKeys(config: Labels, k: string): set<string>
    decreases |k|
  {
    var below := Moved(k);
    if below.Some? && below.value in Set(config) then ChainKeys(config, below.value) + {k} else {k}
  }

  lemma {:induction false} ChainIsOrder(config: Labels, k: string)
    requires k in Set(config)
    ensures OrderOf(Chain(config, k), ChainKeys(config, k)) && ChainKeys(config, k) <= Set(config)
    ensures forall j :: j in Chain(config, k) ==> j in config
    ensures forall j :: j in ChainKeys(config, k) ==> |j| <= |k|
    decreases |k|
  {
    var below := Moved(k);
    if below.Some? && below.value in Set(config) {
      ChainIsOrder(config, below.value);
      assert OrderOf([k], {k});
      OrdersJoin(Chain(config, below.value), ChainKeys(config, below.value), [k], {k});
    }
    OrderMembers(Chain(config, k), ChainKeys(config, k));
  }

  /** Up to `k` the chain has one value. */
  predicate Level(config: Labels, k: string)
    requires k in Set(config)
    decreases |k|
  {
    var below := Moved(k);
    below.Some? && below.value in Set(config) ==> Level(config, below.value) && config[k] == config[below.value]
  }

  /** Where a chain first changes its value. */
  lemma {:induction false} FirstChange(config: Labels, k: string) returns (j: string)
    requires k in Set(config) && !Level(config, k)
    ensures j in Set(config) && EXPORTED + j in Set(config)
    ensures Level(config, j) && config[EXPORTED + j] != config[j] && Root(config, j) == Root(config, k)
    decreases |k|
  {
    var below := Moved(k).value;
    if Level(config, below) {
      j := below;
    } else {
      j := FirstChange(config, below);
    }
  }

  /** Laid up a level chain, another value than the configured one ends up right above it. */
  lemma LaidAbove(plain: Labels, k: string, v: string, w: string)
    requires v != "" && w != v
    requires forall j :: j in plain ==> |j| < |k|
    ensures Laid(plain[k := w], k, v) == Laid(plain, k, v)[EXPORTED + k := w]
    ensures Laid(plain, k, v) == plain[k := v]
  {
    assert |EXPORTED + k| > |k|;
  }

  lemma {:induction false} LaidUp(config: Labels, k: string, w: string)
    requires k in Set(config) && Level(config, k) && w != config[k]
    requires forall j :: j in Chain(config, k) ==> j in config
    ensures var x := Root(config, k);
            var plain := LaidAll(map[x := config[k]], Chain(config, k), config);
            && LaidAll(map[x := w], Chain(config, k), config) == plain[EXPORTED + k := w]
            && k in plain && forall j :: j in plain ==> |j| <= |k|
    decreases |k|
  {
    var below := Moved(k);
    if below.Some? && below.value in Set(config) {
      var b := below.value;
      var init := Chain(config, b);
      assert Chain(config, k)[..|init|] == init;
      assert forall j :: j in init ==> j in Chain(config, k);
      LaidUp(config, b, w);
      var plain := LaidAll(map[Root(config, b) := config[b]], init, config);
      LaidAbove(plain, k, config[k], w);
    } else {
      assert Chain(config, k) == [k] && [k][..0] == [];
      assert LaidAll(map[k := w], [], config) == map[k := w];
      assert LaidAll(map[k := config[k]], [], config) == map[k := config[k]];
    }
  }

  lemma {:induction false} SameFromThere(r1: Labels, r2: Labels, first: seq<string>, rest: seq<string>, config: Labels)
    requires forall k :: k in first + rest ==> k in config
    requires (forall k :: k in first ==> k in config) && LaidAll(r1, first, config) == LaidAll(r2, first, config)
    ensures LaidAll(r1, first + rest, config) == LaidAll(r2, first + rest, config)
  {
    if rest == [] {
      assert first + rest == first;
    } else {
      var n := |rest| - 1;
      assert (first + rest)[..|first + rest| - 1] == first + rest[..n];
      assert first + rest == (first + rest[..n]) + [rest[n]];
      assert forall k :: k in first + rest[..n] ==> k in first + rest;
      SameFromThere(r1, r2, first, rest[..n], config);
    }
  }

  /** Where a chain changes its value, laying it makes the row holding the new value like the row holding the old. */
  lemma ChangeMerges(config: Labels, j: string)
    requires j in Set(config) && EXPORTED + j in Set(config)
    requires Level(config, j) && config[EXPORTED + j] != config[j]
    ensures var x, y := Root(config, j), EXPORTED + j;
            && OrderOf(Chain(config, y), ChainKeys(config, y)) && ChainKeys(config, y) <= config.Keys
            && (forall k :: k in Chain(config, y) ==> k in config)
            && LaidAll(map[x := config[y]], Chain(config, y), config) ==
               LaidAll(map[x := config[j]], Chain(config, y), config)
  {
    var y := EXPORTED + j;
    assert Moved(y) == Some(j) && |y| > |j|;
    ChainIsOrder(config, y);
    ChainIsOrder(config, j);
    LaidUp(config, j, config[y]);
    var first := Chain(config, y);
    assert first == Chain(config, j) + [y];
    assert first[..|first| - 1] == Chain(config, j);
  }

  /** Any order of some of the keys can be followed by the rest. */
  lemma Completed(first: seq<string>, ks: set<string>, keys: set<string>) returns (rest: seq<string>)
    requires OrderOf(first, ks) && ks <= keys
    ensures OrderOf(first + rest, keys)
    ensures forall k :: k in first + rest ==> k in keys
  {
    rest := SomeOrder(keys - ks);
    OrdersJoin(first, ks, rest, keys - ks);
    assert ks + (keys - ks) == keys;
    OrderMembers(first + rest, keys);
  }

  lemma ChangeCollides(config: Labels, j: string)
    requires j in Set(config) && EXPORTED + j in Set(config)
    requires Level(config, j) && config[EXPORTED + j] != config[j] && Root(config, j) != ALERTNAME
    ensures !RowsStayApart(config)
  {
    var x, y := Root(config, j), EXPORTED + j;
    var r1: Labels, r2: Labels := map[x := config[y]], map[x := config[j]];
    ChangeMerges(config, j);
    var rest := Completed(Chain(config, y), ChainKeys(config, y), config.Keys);
    SameFromThere(r1, r2, Chain(config, y), rest, config);
    RootIsPlain(config, j);
    assert r1[x] != r2[x] && r1.Keys == {x} == r2.Keys;
    NotApart(r1, r2, Chain(config, y) + rest, config);
  }

  lemma NotApart(r1: Labels, r2: Labels, order: seq<string>, config: Labels)
    requires r1 != r2 && r1.Keys == r2.Keys && Plain(r1.Keys, config)
    requires OrderOf(order, config.Keys) && forall k :: k in order ==> k in config
    requires LaidAll(r1, order, config) == LaidAll(r2, order, config)
    ensures !RowsStayApart(config)
  {
    assert Named(LaidAll(r1, order, config), "") == Named(LaidAll(r2, order, config), "");
  }

  lemma {:induction false} RootIsPlain(config: Labels, k: string)
    ensures var below := Moved(Root(config, k)); below.Some? ==> below.value !in Set(config)
    ensures Root(config, k) != ALERTNAME ==> Plain({Root(config, k)}, config)
    decreases |k|
  {
    var below := Moved(k);
    if below.Some? && below.value in Set(config) {
      RootIsPlain(config, below.value);
    }
  }

  /**
    Merging tells rows with the same plain label names apart exactly if the
    configuration's chains are steady.
   */
  lemma RowsStayApartIfSteady(config: Labels)
    ensures RowsStayApart(config) <==> Steady(config)
  {
    if Steady(config) {
      forall r1: Labels, r2: Labels, a: seq<string>, b: seq<string>, name: string |
        r1.Keys == r2.Keys && Plain(r1.Keys, config)
        && OrderOf(a, config.Keys) && OrderOf(b, config.Keys)
        && (forall k :: k in a ==> k in config) && (forall k :: k in b ==> k in config)
        && Named(LaidAll(r1, a, config), name) == Named(LaidAll(r2, b, config), name)
        ensures r1 == r2
      {
        MergingKeepsRowsApart(r1, r2, a, b, config, name);
      }
    } else {
      var k :| k in Set(config) && EXPORTED + k in Set(config) && Root(config, k) != ALERTNAME
               && config[k] != config[EXPORTED + k];
      var y := EXPORTED + k;
      assert Moved(y) == Some(k);
      assert !Level(config, y);
      var j := FirstChange(config, y);
      ChangeCollides(config, j);
    }
  }

  /** The smallest case: two rows, one alert identity, whichever label is laid first. */
  lemma TwoRowsOneSet(k: string, v0: string, v1: string)
    requires v0 != "" && v1 != "" && v0 != v1
    ensures var y := EXPORTED + k;
            var config: Labels := map[k := v0, y := v1];
            && LaidAll(map[k := v0], [k, y], config) == config == LaidAll(map[k := v1], [k, y], config)
            && LaidAll(map[k := v0], [y, k], config) == config == LaidAll(map[k := v1], [y, k], config)
  {
    PairHides(k, v0, v1, v0);
    PairHides(k, v0, v1, v1);
  }

  lemma PairHides(k: string, v0: string, v1: string, w: string)
    requires v0 != "" && v1 != "" && v0 != v1 && (w == v0 || w == v1)
    ensures var y := EXPORTED + k;
            var config: Labels := map[k := v0, y := v1];
            LaidAll(map[k := w], [k, y], config) == config == LaidAll(map[k := w], [y, k], config)
  {
    var y := EXPORTED + k;
    var config: Labels := map[k := v0, y := v1];
    assert |y| > |k|;
    TwoLaid(map[k := w], k, y, config);
    TwoLaid(map[k := w], y, k, config);
  }

  lemma TwoLaid(row: Labels, a: string, b: string, config: Labels)
    requires a in config && b in config
    ensures LaidAll(row, [a, b], config) == Laid(Laid(row, a, config[a]), b, config[b])
  {
    assert [a, b][..1] == [a] && [a][..0] == [];
    assert LaidAll(row, [], config) == row;
    assert LaidAll(row, [a], config) == Laid(row, a, config[a]);
  }

  // ----- Hashing -----

  /** The bytes a label map feeds the hash: each entry's name and value, then the separator. */
  function Fed(labels: Labels, keys: seq<string>): string
    requires forall k :: k in keys ==> k in labels
  {
    if keys == [] then "" else keys[0] + labels[keys[0]] + [SEPARATOR] + Fed(labels, keys[1..])
  }

  ghost function HashInput(labels: Labels): string {
    SortedKeeps(labels.Keys);
    Fed(labels, Sorted(labels.Keys))
  }

  /** Feeds a label map to the hash. */
  method HashLabels(labels: Labels) returns (input: string)
    ensures input == HashInput(labels)
  {
    var keys := SortStrings(labels.Keys);
    SortedKeeps(labels.Keys);
    input := "";
    var i := 0;
    while i < |keys|
      invariant 0 <= i <= |keys|
      invariant input + Fed(labels, keys[i..]) == Fed(labels, keys)
    {
      var entry := keys[i] + labels[keys[i]] + [SEPARATOR];
      assert keys[i..][1..] == keys[i + 1..];
      assert input + (entry + Fed(labels, keys[i + 1..])) == (input + entry) + Fed(labels, keys[i + 1..]);
      input := input + entry;
      i := i + 1;
    }
    assert keys[i..] == [];
  }

  predicate Marked(labels: Labels) {
    forall k :: k in labels ==> SEPARATOR !in labels[k]
  }

  lemma {:induction false} FedApart(m1: Labels, m2: Labels, keys: seq<string>)
    requires forall k :: k in keys ==> k in m1 && k in m2
    requires Marked(m1) && Marked(m2)
    requires Fed(m1, keys) == Fed(m2, keys)
    ensures forall k :: k in keys ==> m1[k] == m2[k]
  {
    if keys != [] {
      var k, rest := keys[0], keys[1..];
      var rest1, rest2 := Fed(m1, rest), Fed(m2, rest);
      assert Fed(m1, keys)[|k|..] == m1[k] + [SEPARATOR] + rest1;
      assert Fed(m2, keys)[|k|..] == m2[k] + [SEPARATOR] + rest2;
      MarkEndsText(m1[k], m2[k], SEPARATOR, rest1, rest2);
      FedApart(m1, m2, rest);
    }
  }

  /** Label sets with the same names hash from different bytes unless they are equal. */
  lemma HashInputsApart(m1: Labels, m2: Labels)
    requires m1.Keys == m2.Keys && Marked(m1) && Marked(m2)
    requires HashInput(m1) == HashInput(m2)
    ensures m1 == m2
  {
    SortedKeeps(m1.Keys);
    FedApart(m1, m2, Sorted(m1.Keys));
  }

  /** With different names the bytes can agree: name and value are not told apart. */
  lemma NamesAndValuesRunTogether()
    ensures HashInput(map["a" := "bc"]) == HashInput(map["ab" := "c"])
  {
    SingleKey("a", "bc");
    SingleKey("ab", "c");
    assert "a" + "bc" == "ab" + "c";
  }

  /** Two labels: the lesser name first, each name and value followed by 0xFF. */
  lemma TwoKeys(k1: string, v1: string, k2: string, v2: string)
    requires Before(k1, k2)
    ensures k1 != k2 && HashInput(map[k1 := v1, k2 := v2]) == k1 + v1 + ['\U{FF}'] + k2 + v2 + ['\U{FF}']
  {
    BeforeIsTotal(k1, k2);
    BeforeIsTotal(k1, k1);
    var m: Labels := map[k1 := v1, k2 := v2];
    assert m.Keys == {k1, k2} && m.Keys - {k1} == {k2} && {k2} - {k2} == {};
    LeastIsUnique(k1, Sorted(m.Keys)[0], m.Keys);
    LeastIsUnique(k2, Sorted({k2})[0], {k2});
    assert Sorted({k2}) == [k2] && Sorted(m.Keys) == [k1, k2] && [k1, k2][1..] == [k2];
    assert Fed(m, []) == "";
    assert Fed(m, [k2]) == k2 + v2 + [SEPARATOR];
    var rest := Fed(m, [k2]);
    assert Fed(m, [k1, k2]) == k1 + v1 + [SEPARATOR] + rest;
    assert k1 + v1 + [SEPARATOR] + (k2 + v2 + [SEPARATOR]) == k1 + v1 + [SEPARATOR] + k2 + v2 + [SEPARATOR];
  }

  lemma SingleKey(k: string, v: string)
    ensures HashInput(map[k := v]) == k + v + [SEPARATOR]
  {
    var m: Labels := map[k := v];
    SortedKeeps(m.Keys);
    assert m.Keys == {k};
    var keys := Sorted(m.Keys);
    assert keys == [keys[0]] && keys[0] in keys;
    assert Fed(m, []) == "";
  }
}
