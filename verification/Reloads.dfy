/**
  Reloading: the registry of running groups, updates handed over to their
  loops, and the check that skips a reload when no file changed.
 */
module Reloads {
  import opened Alerts
  import opened Snapshots
  import opened GroupKeys

  // ----- One group's loop -----

  /** What a loop runs, and an update it has received and not yet applied. */
  datatype Loop = Loop(content: string, handed: Option<string>)
  {
    /** What it runs once it has applied what it was handed. */
    function Target(): string {
      if handed.Some? then handed.value else content
    }

    function Applied(): Loop {
      Loop(Target(), None)
    }

    /** An update handed over: the loop receives it only when done with the one before. */
    function HandedOver(content': string): Loop {
      Loop(Target(), Some(content'))
    }

    /**
      What a reload that wants `wanted` makes of it: the checksum is the
      running content's, so while the loop lags it is the one from before the
      update it was handed.
     */
    function Reloaded(wanted: string, lags: bool): Loop {
      var seen := if lags then this else Applied();
      if seen.content == wanted then seen else seen.HandedOver(wanted)
    }
  }

  /** The reload takes a checksum for current although another update is on its way. */
  predicate Missed(l: Loop, wanted: string, lags: bool) {
    lags && l.content == wanted && l.handed.Some? && l.handed.value != wanted
  }

  /** A reload gets a group to run what it wants exactly unless it is missed. */
  lemma ReloadReachesUnlessMissed(l: Loop, wanted: string, lags: bool)
    ensures l.Reloaded(wanted, lags).Target() == wanted <==> !Missed(l, wanted, lags)
  {
  }

  /**
    The failing run: A is running, B is loaded, and A is loaded again before
    the loop has applied B. The reload sees A's checksum and hands over
    nothing; the loop goes on to B, and as the files are unchanged no
    periodic check looks again. A forced reload puts it right.
   */
  lemma LagLosesAnUpdate(parse: Parser, files: Files, a: string, b: string)
    requires a != b
    ensures var l := Loop(a, None).Reloaded(b, false).Reloaded(a, true);
            && l.Applied() == Loop(b, None)
            && l.Reloaded(a, false).Target() == a
    ensures forall lagging, idsOk :: !Loads(parse, files, Trigger(Some(files), false, idsOk, lagging))
  {
  }

  /** The loop takes a second update only once it runs the first, so one is on its way at most and the last one wins. */
  lemma SecondUpdateWaits(l: Loop, a: string, b: string)
    ensures l.HandedOver(a).HandedOver(b) == Loop(a, Some(b))
    ensures l.HandedOver(a).HandedOver(b).Applied() == Loop(b, None)
  {
  }

  /** A group's evaluation loop as the registry handles it. */
  class RunningGroup {
    const key: GroupKey
    var loop: Loop
    var started: bool
    var closed: bool
    var retired: bool

    constructor (key: GroupKey, content: string)
      ensures this.key == key && loop == Loop(content, None) && !started && !closed && !retired
    {
      this.key, this.loop := key, Loop(content, None);
      started, closed, retired := false, false, false;
    }

    predicate Running()
      reads this
    {
      started && !closed && !retired
    }

    method Start()
      requires !started && !closed && !retired
      modifies this`started
      ensures Running()
    {
      started := true;
    }

    /** The loop applies what it was handed. */
    method Settle()
      modifies this`loop
      ensures loop == old(loop).Applied()
    {
      loop := loop.Applied();
    }

    /** The checksum of what the loop runs, read while it may lag. */
    method Checksum() returns (content: string)
      ensures content == loop.content
    {
      content := loop.content;
    }

    /** Stops the loop and waits for it, so what it was handed is applied; closing twice would panic. */
    method Close()
      requires Running()
      modifies this`closed, this`loop
      ensures closed && loop == old(loop).Applied()
    {
      loop := loop.Applied();
      closed := true;
    }

    /** Resolves the firing instances of a group whose loop has ended. */
    method Retire()
      requires closed && !retired
      modifies this`retired
      ensures retired
    {
      retired := true;
    }

    /** Hands the loop a new definition, once it is ready; with the loop gone this would block for ever. */
    method UpdateWith(content: string)
      requires Running()
      modifies this`loop
      ensures loop == old(loop).HandedOver(content)
    {
      loop := loop.HandedOver(content);
    }

    /** What a reload does to a group that goes on. */
    method Reload(wanted: string, lags: bool)
      requires Running()
      modifies this`loop
      ensures loop == old(loop).Reloaded(wanted, lags)
    {
      if !lags {
        Settle();
      }
      var checksum := Checksum();
      if checksum != wanted {
        UpdateWith(wanted);
      }
    }
  }

  type Groups = map<GroupKey, RunningGroup>

  predicate AllRunning(groups: Groups)
    reads groups.Values
  {
    forall k :: k in groups ==> groups[k].key == k && groups[k].Running()
  }

  /** Each of these groups runs this content, or will once it has applied what it was handed. */
  predicate Serves(groups: Groups, wanted: map<GroupKey, string>)
    reads groups.Values
  {
    groups.Keys == wanted.Keys && forall k :: k in groups ==> groups[k].loop.Target() == wanted[k]
  }

  /** What each group is to run, built in one pass over the parsed groups. */
  method NewRegistry(specs: seq<Spec>, flags: Flags) returns (registry: map<GroupKey, string>)
    ensures registry == Wanted(specs, flags)
  {
    registry := map[];
    var i := 0;
    while i < |specs|
      invariant 0 <= i <= |specs|
      invariant registry == Wanted(specs[..i], flags)
    {
      assert specs[..i + 1][..i] == specs[..i];
      registry := registry[KeyOf(specs[i], flags) := specs[i].content];
      i := i + 1;
    }
    assert specs[..i] == specs;
  }

  /** Closes and retires each group that is no longer wanted. */
  method StopRemoved(existing: Groups, wanted: set<GroupKey>) returns (groups: Groups)
    requires AllRunning(existing)
    modifies existing.Values
    ensures groups == map k | k in existing && k in wanted :: existing[k]
    ensures AllRunning(groups)
    ensures forall k :: k in existing ==>
              if k in wanted then unchanged(existing[k])
              else existing[k].closed && existing[k].retired && existing[k].loop == old(existing[k].loop).Applied()
  {
    groups := existing;
    var todo := existing.Keys;
    while todo != {}
      invariant todo <= existing.Keys
      invariant groups == map k | k in existing && (k in todo || k in wanted) :: existing[k]
      invariant forall k :: k in existing ==>
                  existing[k].key == k && if k in todo || k in wanted then unchanged(existing[k])
                  else existing[k].closed && existing[k].retired && existing[k].loop == old(existing[k].loop).Applied()
    {
      var k :| k in todo;
      todo := todo - {k};
      if k !in wanted {
        StopGroup(existing[k]);
        groups := groups - {k};
      }
    }
  }

  method StopGroup(group: RunningGroup)
    requires group.Running()
    modifies group
    ensures group.closed && group.retired && group.loop == old(group.loop).Applied()
  {
    group.Close();
    group.Retire();
  }

  /** Reloads each group that goes on, some of which lag, and starts each new one. */
  method UpdateOrStart(existing: Groups, wanted: map<GroupKey, string>, lagging: set<GroupKey>) returns (groups: Groups)
    requires AllRunning(existing) && existing.Keys <= wanted.Keys
    modifies existing.Values`loop
    ensures AllRunning(groups) && groups.Keys == wanted.Keys
    ensures forall k :: k in groups ==>
              if k in existing then
                groups[k] == existing[k] && groups[k].loop == old(existing[k].loop).Reloaded(wanted[k], k in lagging)
              else fresh(groups[k]) && groups[k].loop == Loop(wanted[k], None)
  {
    groups := existing;
    var todo := wanted.Keys;
    while todo != {}
      invariant todo <= wanted.Keys
      invariant forall k :: k in groups <==> k in existing || (k in wanted && k !in todo)
      invariant AllRunning(groups)
      invariant forall k :: k in groups && k in existing ==>
                  && groups[k] == existing[k]
                  && groups[k].loop == if k in todo then old(existing[k].loop)
                                       else old(existing[k].loop).Reloaded(wanted[k], k in lagging)
      invariant forall k :: k in groups && k !in existing ==>
                  fresh(groups[k]) && groups[k].loop == Loop(wanted[k], None)
    {
      var k :| k in todo;
      todo := todo - {k};
      if k in groups {
        groups[k].Reload(wanted[k], k in lagging);
      } else {
        var group := new RunningGroup(k, wanted[k]);
        group.Start();
        groups := groups[k := group];
      }
    }
  }

  /** Brings the running groups in line with a configuration; those in `lagging` have an update still to apply. */
  method ReloadGroups(existing: Groups, specs: seq<Spec>, flags: Flags, lagging: set<GroupKey>) returns (groups: Groups)
    requires AllRunning(existing)
    modifies existing.Values
    ensures AllRunning(groups) && groups.Keys == Wanted(specs, flags).Keys
    ensures forall k :: k in groups ==>
              if k in existing then
                && groups[k] == existing[k]
                && groups[k].loop == old(existing[k].loop).Reloaded(Wanted(specs, flags)[k], k in lagging)
              else fresh(groups[k]) && groups[k].loop == Loop(Wanted(specs, flags)[k], None)
    ensures forall k :: k in existing && k !in groups ==>
              existing[k].closed && existing[k].retired && existing[k].loop == old(existing[k].loop).Applied()
  {
    var registry := NewRegistry(specs, flags);
    var staying := StopRemoved(existing, registry.Keys);
    groups := UpdateOrStart(staying, registry, lagging);
  }

  // ----- Triggers -----

  /**
    One trigger: what reading the files gave, whether it must reload, whether
    the queries could be hashed, and which loops have not yet applied an
    update handed to them.
   */
  datatype Trigger = Trigger(read: Option<Files>, force: bool, idsOk: bool, lagging: set<GroupKey>)

  /** Parsing depends on nothing but the content read. */
  type Parser = Files -> Option<seq<Spec>>

  /** Whether a trigger loads the files it read. */
  ghost predicate Loads(parse: Parser, current: Files, t: Trigger) {
    && t.read.Some?
    && (t.force || FingerprintInput(t.read.value) != FingerprintInput(current))
    && parse(t.read.value).Some? && t.idsOk
  }

  /** Exactly when a trigger loads, for files free of NULs: nothing failed, and it is forced or the files changed. */
  lemma LoadsWhenChanged(parse: Parser, current: Files, t: Trigger)
    ensures Loads(parse, current, t) ==>
              t.read.Some? && parse(t.read.value).Some? && t.idsOk && (t.force || t.read.value != current)
    ensures t.read.Some? && parse(t.read.value).Some? && t.idsOk
            && (t.force || (NulFree(t.read.value) && NulFree(current) && t.read.value != current)) ==>
              Loads(parse, current, t)
  {
    if t.read.Some? && NulFree(t.read.value) && NulFree(current) {
      FingerprintTellsApart(t.read.value, current);
    }
  }

  /** The snapshot last loaded, after a sequence of triggers. */
  ghost function LastLoaded(parse: Parser, first: Files, triggers: seq<Trigger>): Files {
    if triggers == [] then first
    else
      var n := |triggers| - 1;
      var before := LastLoaded(parse, first, triggers[..n]);
      if Loads(parse, before, triggers[n]) then triggers[n].read.value else before
  }

  class Reloader {
    const parse: Parser
    const flags: Flags
    var groups: Groups
    var lastFingerprint: string
    ghost var loaded: Files

    /** The running groups are those of the snapshot last loaded, and the fingerprint is its. */
    ghost predicate Valid()
      reads this, groups.Values
    {
      && AllRunning(groups)
      && lastFingerprint == FingerprintInput(loaded)
      && parse(loaded).Some?
      && groups.Keys == Wanted(parse(loaded).value, flags).Keys
    }

    /** Each of them runs what that snapshot says, or will once it has applied what it was handed. */
    ghost predicate Current()
      reads this, groups.Values
    {
      parse(loaded).Some? && Serves(groups, Wanted(parse(loaded).value, flags))
    }

    constructor (parse: Parser, flags: Flags, files: Files)
      requires parse(files).Some?
      ensures Valid() && Current() && fresh(groups.Values)
      ensures loaded == files && this.parse == parse && this.flags == flags
    {
      var started := ReloadGroups(map[], parse(files).value, flags, {});
      var fp := Fingerprint(files);
      this.parse, this.flags, this.groups, this.lastFingerprint, this.loaded := parse, flags, started, fp, files;
    }

    method Reload(t: Trigger)
      requires Valid()
      modifies this, groups.Values
      ensures Valid() && fresh(groups.Values - old(groups.Values))
      ensures t.read.None? || parse(t.read.value).None? || !t.idsOk || (!t.force && t.read.value == old(loaded)) ==>
                && loaded == old(loaded) && lastFingerprint == old(lastFingerprint)
                && groups == old(groups) && forall k :: k in groups ==> unchanged(groups[k])
      ensures t.read.Some? && parse(t.read.value).Some? && t.idsOk
              && (t.force || (NulFree(t.read.value) && NulFree(old(loaded)) && t.read.value != old(loaded))) ==>
                && loaded == t.read.value && lastFingerprint == FingerprintInput(t.read.value)
                && groups.Keys == Wanted(parse(t.read.value).value, flags).Keys
      ensures Loads(parse, old(loaded), t) ==> loaded == t.read.value && (Current() <==> !old(MissesOne(t)))
      ensures !Loads(parse, old(loaded), t) ==>
                loaded == old(loaded) && groups == old(groups) && forall k :: k in groups ==> unchanged(groups[k])
      ensures Loads(parse, old(loaded), t) && t.read.value == old(loaded) && old(Current()) && t.lagging == {} ==>
                groups == old(groups) && forall k :: k in groups ==> groups[k].loop == old(groups[k].loop).Applied()
    {
      if t.read.None? {
        return;
      }
      LoadsWhenChanged(parse, loaded, t);
      var files := t.read.value;
      var fp := Fingerprint(files);
      if !t.force && fp == lastFingerprint {
        return;
      }
      var specs := parse(files);
      if specs.None? {
        return;
      }
      if !t.idsOk {
        return;
      }
      Load(files, specs.value, fp, t.lagging);
    }

    /** Some group that goes on is running what the trigger wants, with another update on its way. */
    ghost predicate MissesOne(t: Trigger)
      reads this, groups.Values
    {
      && t.read.Some? && parse(t.read.value).Some?
      && var wanted := Wanted(parse(t.read.value).value, flags);
         exists k :: k in groups && k in wanted && Missed(groups[k].loop, wanted[k], k in t.lagging)
    }

    method Load(files: Files, specs: seq<Spec>, fp: string, lagging: set<GroupKey>)
      requires Valid() && parse(files) == Some(specs) && fp == FingerprintInput(files)
      modifies this, groups.Values
      ensures Valid() && loaded == files && fresh(groups.Values - old(groups.Values))
      ensures Current() <==> forall k :: k in old(groups) && k in Wanted(specs, flags) ==>
                               !Missed(old(groups[k].loop), Wanted(specs, flags)[k], k in lagging)
      ensures forall k :: k in old(groups) && k in groups ==>
                && groups[k] == old(groups)[k]
                && groups[k].loop == old(groups[k].loop).Reloaded(Wanted(specs, flags)[k], k in lagging)
    {
      ghost var was, wanted := groups, Wanted(specs, flags);
      groups := ReloadGroups(groups, specs, flags, lagging);
      lastFingerprint, loaded := fp, files;
      forall k | k in groups
        ensures groups[k].loop.Target() == wanted[k] <==>
                !(k in was && Missed(old(was[k].loop), wanted[k], k in lagging))
      {
        if k in was {
          ReloadReachesUnlessMissed(old(was[k].loop), wanted[k], k in lagging);
        }
      }
    }

    /**
      Whatever the triggers, the registry has the groups of the snapshot last
      loaded; and if no loop lags at any of them, each runs its content.
     */
    method Run(triggers: seq<Trigger>)
      requires Valid()
      modifies this, groups.Values
      ensures Valid()
      ensures loaded == LastLoaded(parse, old(loaded), triggers)
      ensures old(Current()) && NoneLags(triggers) ==> Current()
    {
      var i := 0;
      while i < |triggers|
        invariant 0 <= i <= |triggers|
        invariant Valid() && fresh(groups.Values - old(groups.Values))
        invariant loaded == LastLoaded(parse, old(loaded), triggers[..i])
        invariant old(Current()) && NoneLags(triggers) ==> Current()
      {
        assert triggers[..i + 1][..i] == triggers[..i];
        Reload(triggers[i]);
        i := i + 1;
      }
      assert triggers[..i] == triggers;
    }
  }

  /** Every update handed over is applied before the next reload reads checksums. */
  predicate NoneLags(triggers: seq<Trigger>) {
    forall i :: 0 <= i < |triggers| ==> triggers[i].lagging == {}
  }

  /** A periodic check that skips has read what is already loaded. */
  lemma SkippedIsCurrent(parse: Parser, current: Files, t: Trigger)
    requires t.read.Some? && NulFree(t.read.value) && NulFree(current)
    requires parse(t.read.value).Some? && t.idsOk && !Loads(parse, current, t)
    ensures t.read.value == current
  {
    FingerprintTellsApart(t.read.value, current);
  }
}
