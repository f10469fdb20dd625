/** What a retirement writes: which rows, in which order, with which stamps. */
module RetiredRows {
  import opened Alerts
  import opened StateStore
  import opened Selections
  import opened Retirements
  import opened Lifecycle

  /** The history rows of a list of writes: theirs in order, each with its own write's stamp. */
  lemma {:induction false} LoggedInOrder(list: seq<Retirement>, i: nat, j: nat)
    requires i < |list| && j < |list[i].rows|
    ensures |LogOf(list)| == RowCount(list)
    ensures RowCount(list[..i]) + j < RowCount(list)
    ensures var row, a := LogOf(list)[RowCount(list[..i]) + j], list[i].rows[j];
            && row.key == Key(a.ruleId, a.id) && row.state == a.state && row.evaluatedAt == list[i].at
            && row.origin == a.origin && row.value == a.value
  {
    var n := |list| - 1;
    LogCount(list);
    LogCount(list[..n]);
    if i < n {
      LoggedInOrder(list[..n], i, j);
      assert list[..n][..i] == list[..i];
    }
  }

  lemma {:induction false} LogCount(list: seq<Retirement>)
    ensures |LogOf(list)| == RowCount(list)
  {
    if list != [] {
      LogCount(list[..|list| - 1]);
    }
  }

  /** A key's row in the saved state after a flush: inactive since the last write of it that landed and was saved. */
  lemma {:induction false} SavedIsStamped(table: Table, pending: seq<Retirement>, ok: seq<bool>, saved: seq<bool>,
                                          k: Key, i: nat)
    requires |ok| == |saved| == |pending| && AllWellFormed(pending)
    requires i < |pending| && ok[i] && saved[i] && Mentions(pending[i].firing, k)
    requires forall j :: i < j < |pending| && ok[j] && saved[j] ==> !Mentions(pending[j].firing, k)
    ensures var after := FlushedTable(table, pending, ok, saved);
            && k in after && after[k].state == "inactive"
            && after[k].resolvedAt == if pending[i].at == 0 then None else Some(pending[i].at)
  {
    var n := |pending| - 1;
    var before := FlushedTable(table, pending[..n], ok[..n], saved[..n]);
    if i < n {
      SavedIsStamped(table, pending[..n], ok[..n], saved[..n], k, i);
      if ok[n] && saved[n] {
        ResolvedMentions(pending[n].firing, pending[n].at, k);
        UnmentionedIsLeft(before, pending[n].rows, k);
      }
    } else {
      ResolvedIsSaved(before, pending[n].firing, pending[n].at, k);
    }
  }

  lemma UnmentionedIsLeft(table: Table, list: seq<Instance>, k: Key)
    requires !Mentions(list, k)
    ensures Get(SaveAll(table, list), k) == Get(table, k)
  {
    forall i | 0 <= i < |list| ensures list[i].ruleId != k.rule || list[i].id != k.inst {
      assert KeyOf(list[i]) != k;
    }
    OthersAreLeft(table, list, k);
  }

  lemma {:induction false} ResolvedIsSaved(table: Table, firing: seq<Instance>, at: Time, k: Key)
    requires Mentions(firing, k)
    ensures var after := SaveAll(table, ResolvedAll(firing, at));
            && k in after && after[k].state == "inactive"
            && after[k].resolvedAt == if at == 0 then None else Some(at)
  {
    var n := |firing| - 1;
    var i :| 0 <= i < |firing| && KeyOf(firing[i]) == k;
    assert ResolvedAll(firing, at)[..n] == ResolvedAll(firing[..n], at);
    if KeyOf(firing[n]) != k {
      assert KeyOf(firing[..n][i]) == k;
      ResolvedIsSaved(table, firing[..n], at, k);
    }
  }

  /** The saved state of a key no write that lands and is saved mentions. */
  lemma {:induction false} UnsavedIsLeft(table: Table, pending: seq<Retirement>, ok: seq<bool>, saved: seq<bool>,
                                         k: Key)
    requires |ok| == |saved| == |pending| && AllWellFormed(pending)
    requires forall j :: 0 <= j < |pending| && ok[j] && saved[j] ==> !Mentions(pending[j].firing, k)
    ensures Get(FlushedTable(table, pending, ok, saved), k) == Get(table, k)
  {
    if pending != [] {
      var n := |pending| - 1;
      UnsavedIsLeft(table, pending[..n], ok[..n], saved[..n], k);
      if ok[n] && saved[n] {
        ResolvedMentions(pending[n].firing, pending[n].at, k);
        UnmentionedIsLeft(FlushedTable(table, pending[..n], ok[..n], saved[..n]), pending[n].rows, k);
      }
    }
  }

  // ----- Order -----

  /** The places in `ok` that hold `b`. */
  function FatePlaces(ok: seq<bool>, b: bool): set<nat> {
    set k: nat | k < |ok| && ok[k] == b
  }

  /** A flush keeps the writes that failed and lands the others, each in the order they were queued. */
  lemma {:induction false} FlushKeepsPlaces<T>(pending: seq<T>, ok: seq<bool>)
    returns (kept: seq<nat>, landed: seq<nat>)
    requires |ok| == |pending|
    ensures InPlace(kept, FatePlaces(ok, false)) && PickedFrom(Kept(pending, ok), pending, kept)
    ensures InPlace(landed, FatePlaces(ok, true)) && PickedFrom(Landed(pending, ok), pending, landed)
  {
    if pending == [] {
      kept, landed := [], [];
    } else {
      var n := |pending| - 1;
      var init, fates := pending[..n], ok[..n];
      kept, landed := FlushKeepsPlaces(init, fates);
      PickNext(Kept(init, fates), init, kept, FatePlaces(fates, false), pending[n]);
      PickNext(Landed(init, fates), init, landed, FatePlaces(fates, true), pending[n]);
      assert init + [pending[n]] == pending;
      if ok[n] {
        landed := landed + [n];
        assert FatePlaces(ok, true) == FatePlaces(fates, true) + {n};
        assert FatePlaces(ok, false) == FatePlaces(fates, false);
      } else {
        kept := kept + [n];
        assert FatePlaces(ok, false) == FatePlaces(fates, false) + {n};
        assert FatePlaces(ok, true) == FatePlaces(fates, true);
      }
    }
  }

  /** What awaits writing: the firing instances of each retirement, one retirement after the other. */
  lemma {:induction false} AwaitedInOrder(list: seq<Retirement>, i: nat, j: nat)
    requires i < |list| && j < |list[i].firing|
    ensures |FiringOf(list[..i])| + j < |FiringOf(list)|
    ensures FiringOf(list)[|FiringOf(list[..i])| + j] == list[i].firing[j]
    ensures |FiringOf(list[..i + 1])| == |FiringOf(list[..i])| + |list[i].firing|
  {
    var n := |list| - 1;
    assert list[..i + 1][..i] == list[..i];
    if i < n {
      AwaitedInOrder(list[..n], i, j);
      assert list[..n][..i] == list[..i];
    }
  }

  // ----- At a restart -----

  function UnclaimedPlaces(loaded: seq<Instance>, ids: set<RuleId>): set<nat> {
    set k: nat | k < |loaded| && loaded[k].state == Firing && loaded[k].ruleId !in ids
  }

  /** The unclaimed instances are the loaded firing ones that no rule carries, in the order loaded. */
  lemma {:induction false} UnclaimedInOrder(loaded: seq<Instance>, ids: set<RuleId>) returns (places: seq<nat>)
    ensures InPlace(places, UnclaimedPlaces(loaded, ids)) && PickedFrom(Unclaimed(loaded, ids), loaded, places)
  {
    if loaded == [] {
      places := [];
    } else {
      var n := |loaded| - 1;
      var init := loaded[..n];
      places := UnclaimedInOrder(init, ids);
      PickNext(Unclaimed(init, ids), init, places, UnclaimedPlaces(init, ids), loaded[n]);
      assert init + [loaded[n]] == loaded;
      if loaded[n].state == Firing && loaded[n].ruleId !in ids {
        places := places + [n];
        assert UnclaimedPlaces(loaded, ids) == UnclaimedPlaces(init, ids) + {n};
      } else {
        assert UnclaimedPlaces(loaded, ids) == UnclaimedPlaces(init, ids);
      }
    }
  }
}
