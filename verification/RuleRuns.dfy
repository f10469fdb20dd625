/** Whole runs of one rule: what its evaluations, failed and partly applied ones included, keep and justify. */
module RuleRuns {
  import opened Alerts
  import opened RuleStep

  /** The rule's map after the first `k` evaluations. */
  function At(m0: AlertMap, evs: seq<Eval>, k: nat): AlertMap
    requires k <= |evs|
  {
    if k == 0 then m0 else Next(At(m0, evs, k - 1), evs[k - 1])
  }

  predicate NonDecreasing(evs: seq<Eval>) {
    forall k :: 0 < k < |evs| ==> evs[k - 1].ts <= evs[k].ts
  }

  // ----- The story of one instance -----

  /** What one evaluation did to one instance. */
  datatype Moment = Moment(was: Option<Instance>, now: Option<Instance>, row: Option<Row>, verdict: Verdict, eval: Eval)
  {
    predicate Ok() {
      verdict == Succeeded
    }

    predicate WasActive() {
      was.Some? && was.value.Active()
    }

    predicate IsActive() {
      now.Some? && now.value.Active()
    }

    predicate Was(s: State) {
      was.Some? && was.value.state == s
    }

    predicate Is(s: State) {
      now.Some? && now.value.state == s
    }

    /** The moment is one an evaluation can produce. */
    predicate Happens() {
      && now == KeyNext(was, row, verdict, eval)
      && (verdict in {QueryPanicked, QueryFailed, TooManyRows} ==> row.None?)
    }
  }

  /** An instance through the evaluations of a run. */
  type Story = seq<Moment>

  predicate Follows(s: Story, k: nat)
    requires 0 < k < |s|
  {
    s[k].was == s[k - 1].now
  }

  predicate Lived(s: Story) {
    && (forall k {:trigger s[k].Happens()} :: 0 <= k < |s| ==> s[k].Happens())
    && (forall k {:trigger Follows(s, k)} :: 0 < k < |s| ==> Follows(s, k))
  }

  function MomentOf(m0: AlertMap, evs: seq<Eval>, id: InstanceId, k: nat): Moment
    requires k < |evs|
  {
    Moment(Get(At(m0, evs, k), id), Get(At(m0, evs, k + 1), id), RowOf(AppliedRows(evs[k]), id),
           VerdictOf(At(m0, evs, k), evs[k]), evs[k])
  }

  function StoryOf(m0: AlertMap, evs: seq<Eval>, id: InstanceId): (s: Story)
    ensures |s| == |evs|
    ensures forall k :: 0 <= k < |s| ==> s[k] == MomentOf(m0, evs, id, k)
  {
    seq(|evs|, k requires 0 <= k < |evs| => MomentOf(m0, evs, id, k))
  }

  lemma MomentHappens(m0: AlertMap, evs: seq<Eval>, id: InstanceId, k: nat)
    requires k < |evs|
    ensures MomentOf(m0, evs, id, k).Happens()
  {
    NextByKey(At(m0, evs, k), evs[k], id);
  }

  /** Every run gives every instance, present or not, a story made of evaluation steps. */
  lemma RunsAreStories(m0: AlertMap, evs: seq<Eval>, id: InstanceId)
    ensures Lived(StoryOf(m0, evs, id))
  {
    var s := StoryOf(m0, evs, id);
    forall k | 0 <= k < |s| ensures s[k].Happens() {
      MomentHappens(m0, evs, id, k);
    }
  }

  // ----- Firing is sound -----

  /** The moves one evaluation can make with an instance that ends up active. */
  lemma ActiveMove(m: Moment)
    requires m.Happens() && m.IsActive()
    ensures m.now.value.activeAt == if m.WasActive() then m.was.value.activeAt else m.eval.ts
    ensures !m.WasActive() || (m.Ok() && !m.Was(Firing)) ==> m.row.Some?
    ensures m.Is(Firing) && m.Was(Firing) ==> m.now.value.firedAt == m.was.value.firedAt
    ensures m.Is(Firing) && !m.Was(Firing) ==>
              m.Ok() && m.now.value.firedAt == m.eval.ts && m.eval.ts - m.now.value.activeAt >= m.eval.settings.forDur
    ensures m.Was(Firing) ==> m.Is(Firing)
  {
  }

  /** Moment `c` began an active episode, and every successful evaluation from it up to `n` matched. */
  predicate MatchedFrom(s: Story, c: nat, n: nat) {
    && c < n <= |s|
    && !s[c].WasActive()
    && s[c].row.Some?
    && (forall k :: c <= k < n && s[k].Ok() ==> s[k].row.Some?)
  }

  /** Moment `f` fired the instance, its `for` having elapsed since `activeAt`, and it fires up to `n`. */
  predicate FiredIn(s: Story, f: nat, n: nat, activeAt: Time) {
    && f < n <= |s|
    && s[f].Ok() && !s[f].Was(Firing)
    && s[f].eval.ts - activeAt >= s[f].eval.settings.forDur
    && (forall k :: f <= k < n ==> s[k].Is(Firing))
  }

  lemma {:induction false} EpisodeIsJustified(s: Story, n: nat) returns (c: nat, f: nat)
    requires Lived(s)
    requires 0 < n <= |s|
    requires !s[0].WasActive()
    requires s[n - 1].IsActive()
    ensures c < n && s[n - 1].now.value.activeAt == s[c].eval.ts
    ensures s[n - 1].Is(Pending) ==> MatchedFrom(s, c, n)
    ensures s[n - 1].Is(Firing) ==>
              && FiredIn(s, f, n, s[n - 1].now.value.activeAt)
              && s[n - 1].now.value.firedAt == s[f].eval.ts
              && c <= f && MatchedFrom(s, c, f + 1)
  {
    var m := s[n - 1];
    assert m.Happens();
    ActiveMove(m);
    if m.WasActive() {
      assert Follows(s, n - 1);
      c, f := EpisodeIsJustified(s, n - 1);
      if m.Was(Pending) {
        f := n - 1;
      }
    } else {
      c, f := n - 1, n - 1;
    }
  }

  /**
    Firing is sound: whatever evaluations a run interleaves, an instance that
    ends up firing was matched by every successful evaluation from the one
    that made it pending through the one that fired it, at least `for` later.
   */
  lemma FiringIsSound(m0: AlertMap, evs: seq<Eval>, id: InstanceId) returns (c: nat, f: nat)
    requires id !in ActiveIds(m0)
    requires id in At(m0, evs, |evs|) && At(m0, evs, |evs|)[id].state == Firing
    ensures var s, a := StoryOf(m0, evs, id), At(m0, evs, |evs|)[id];
            && c <= f < |evs|
            && a.activeAt == evs[c].ts && a.firedAt == evs[f].ts
            && a.firedAt - a.activeAt >= evs[f].settings.forDur
            && MatchedFrom(s, c, f + 1)
            && FiredIn(s, f, |evs|, a.activeAt)
  {
    RunsAreStories(m0, evs, id);
    c, f := EpisodeIsJustified(StoryOf(m0, evs, id), |evs|);
  }

  // ----- Resolution is sound -----

  /** No evaluation from `b` up to `n` acted on a row of the instance, and it fired throughout; `b` succeeded. */
  predicate AbsentFrom(s: Story, b: nat, n: nat) {
    && b < n <= |s|
    && s[b].Ok()
    && (forall k :: b <= k < n ==> s[k].row.None? && s[k].Was(Firing))
  }

  /** The keep-firing clock: started by a success without a row, cleared by any row, kept otherwise. */
  lemma KeepFiringMove(m: Moment)
    requires m.Happens() && m.Was(Firing)
    requires m.Is(Firing) || m.Is(Inactive)
    ensures var since := m.was.value.keepFiringSince;
            var since' := m.now.value.keepFiringSince;
            && (m.Is(Inactive) ==> m.Ok() && m.row.None?)
            && (m.row.Some? ==> since' == 0)
            && (m.row.None? && !m.Ok() ==> since' == since)
            && (m.row.None? && m.Ok() && m.eval.settings.keepFire > 0 ==>
                  since' == (if since == 0 then m.eval.ts else since))
            && (m.Is(Inactive) && m.eval.settings.keepFire > 0 ==> m.eval.ts - since' >= m.eval.settings.keepFire)
  {
  }

  /** A running keep-firing clock was started by a success after which the instance had no row. */
  lemma {:induction false} ClockIsJustified(s: Story, n: nat) returns (b: nat)
    requires Lived(s)
    requires 0 < n <= |s|
    requires forall k :: 0 <= k < n ==> s[k].eval.settings.keepFire > 0 && s[k].eval.ts > 0
    requires s[0].Was(Firing) ==> s[0].was.value.keepFiringSince == 0
    requires s[n - 1].Was(Firing)
    requires s[n - 1].Is(Firing) || s[n - 1].Is(Inactive)
    requires s[n - 1].now.value.keepFiringSince != 0
    ensures AbsentFrom(s, b, n) && s[n - 1].now.value.keepFiringSince == s[b].eval.ts
  {
    var m := s[n - 1];
    assert m.Happens();
    KeepFiringMove(m);
    if m.was.value.keepFiringSince == 0 {
      b := n - 1;
    } else {
      assert Follows(s, n - 1);
      var p := s[n - 2];
      assert p.Happens();
      FiresWithZeroClock(p);
      b := ClockIsJustified(s, n - 1);
    }
  }

  /** An instance that was not firing fires with its keep-firing clock stopped. */
  lemma FiresWithZeroClock(m: Moment)
    requires m.Happens() && m.Is(Firing)
    ensures !m.Was(Firing) ==> m.now.value.keepFiringSince == 0
  {
  }

  /**
    Resolution is sound: with keep_firing_for set, the evaluation that
    resolves a firing instance ends an unbroken stretch without any row of
    it, aborted evaluations included, whose first success lies at least
    keep_firing_for back.
   */
  lemma ResolutionIsSound(m0: AlertMap, evs: seq<Eval>, id: InstanceId, keepFire: int) returns (b: nat)
    requires keepFire > 0
    requires forall k :: 0 <= k < |evs| ==> evs[k].settings.keepFire == keepFire && evs[k].ts > 0
    requires id in m0 && m0[id].state == Firing ==> m0[id].keepFiringSince == 0
    requires |evs| > 0
    requires StoryOf(m0, evs, id)[|evs| - 1].Was(Firing) && StoryOf(m0, evs, id)[|evs| - 1].Is(Inactive)
    ensures AbsentFrom(StoryOf(m0, evs, id), b, |evs|)
    ensures evs[|evs| - 1].ts - evs[b].ts >= keepFire
  {
    RunsAreStories(m0, evs, id);
    MomentHappens(m0, evs, id, |evs| - 1);
    KeepFiringMove(MomentOf(m0, evs, id, |evs| - 1));
    b := ClockIsJustified(StoryOf(m0, evs, id), |evs|);
  }

  // ----- After a successful evaluation -----

  /** No instance carries a time later than `now`. */
  predicate NotAfter(a: Instance, now: Time) {
    a.activeAt <= now && a.firedAt <= now && a.resolvedAt <= now && a.lastSent <= now && a.keepFiringSince <= now
  }

  predicate AllNotAfter(m: AlertMap, now: Time) {
    forall id :: id in m ==> NotAfter(m[id], now)
  }

  /** What a success at `ts` leaves an instance in, given whether it had a row. */
  predicate SettledState(a: Instance, matched: bool, ts: Time, s: Settings) {
    match a.state
    case Pending => matched && ts - a.activeAt < s.forDur
    case Firing => if matched then a.keepFiringSince == 0
                   else s.keepFire > 0 && 0 <= ts - a.keepFiringSince < s.keepFire
    case Inactive => !matched && 0 <= ts - a.resolvedAt <= RESOLVED_RETENTION
  }

  lemma TimesMove(m: Moment)
    requires m.Happens()
    requires m.was.Some? ==> NotAfter(m.was.value, m.eval.ts)
    ensures m.now.Some? ==> NotAfter(m.now.value, m.eval.ts)
    ensures m.now.Some? && m.Ok() ==> SettledState(m.now.value, m.row.Some?, m.eval.ts, m.eval.settings)
  {
    if m.Ok() {
      StepSettles(m.was, m.row, m.eval.ts, m.eval.settings);
    }
  }

  lemma StepSettles(was: Option<Instance>, row: Option<Row>, ts: Time, s: Settings)
    requires was.Some? ==> NotAfter(was.value, ts)
    ensures var next := Step(was, row, ts, s);
            next.Some? ==> NotAfter(next.value, ts) && SettledState(next.value, row.Some?, ts, s)
  {
    if row.Some? {
      RowSettles(if was.Some? && Expired(was.value, ts) then None else was, row.value, ts, s);
    } else if was.Some? && was.value.state == Firing {
      LapseSettles(was.value, ts, s);
    }
  }

  lemma RowSettles(prior: Option<Instance>, row: Row, ts: Time, s: Settings)
    requires prior.Some? ==> NotAfter(prior.value, ts)
    ensures var a := Promoted(Matched(prior, row, ts, s), ts, s);
            NotAfter(a, ts) && SettledState(a, true, ts, s)
  {
  }

  lemma LapseSettles(a: Instance, ts: Time, s: Settings)
    requires a.state == Firing && NotAfter(a, ts)
    ensures NotAfter(Lapsed(a, ts, s), ts) && SettledState(Lapsed(a, ts, s), false, ts, s)
  {
  }

  lemma {:induction false} TimesAreBounded(m0: AlertMap, evs: seq<Eval>, n: nat)
    requires 0 < n <= |evs|
    requires NonDecreasing(evs)
    requires AllNotAfter(m0, evs[0].ts)
    ensures AllNotAfter(At(m0, evs, n - 1), evs[n - 1].ts)
    ensures AllNotAfter(At(m0, evs, n), evs[n - 1].ts)
  {
    if n > 1 {
      TimesAreBounded(m0, evs, n - 1);
    }
    var m, m' := At(m0, evs, n - 1), At(m0, evs, n);
    forall id | id in m' ensures NotAfter(m'[id], evs[n - 1].ts) {
      NextByKey(m, evs[n - 1], id);
      TimesMove(MomentOf(m0, evs, id, n - 1));
    }
  }

  /** Every successful evaluation of a run whose clock never steps back leaves each instance settled. */
  lemma SuccessSettles(m0: AlertMap, evs: seq<Eval>, n: nat, id: InstanceId)
    requires 0 < n <= |evs|
    requires NonDecreasing(evs)
    requires AllNotAfter(m0, evs[0].ts)
    requires VerdictOf(At(m0, evs, n - 1), evs[n - 1]) == Succeeded
    requires id in At(m0, evs, n)
    ensures var e := evs[n - 1];
            SettledState(At(m0, evs, n)[id], id in RowIds(e.answer.rows), e.ts, e.settings)
  {
    TimesAreBounded(m0, evs, n);
    NextByKey(At(m0, evs, n - 1), evs[n - 1], id);
    AllRowsApply(evs[n - 1]);
    TimesMove(MomentOf(m0, evs, id, n - 1));
  }

  /** A success under a limit leaves at most that many active instances. */
  lemma SuccessIsWithinLimit(m: AlertMap, e: Eval)
    requires VerdictOf(m, e) == Succeeded
    ensures ActiveIds(Next(m, e)) == ActiveIds(Stepped(m, e.answer.rows, e.ts, e.settings))
    ensures e.limit > 0 ==> |ActiveIds(Next(m, e))| <= e.limit
  {
    var stepped := Stepped(m, e.answer.rows, e.ts, e.settings);
    assert forall id :: id in Next(m, e) <==> id in stepped;
  }
}
