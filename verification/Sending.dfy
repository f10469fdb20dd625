/** What reaches the notifier over a run: every transition, at a bounded rate, before it would auto-resolve. */
module Sending {
  import opened Alerts
  import opened RuleStep
  import opened RuleRuns
  import Arithmetic

  /** The evaluation returned this instance for the notifier. */
  predicate Sends(m: Moment) {
    && m.Ok()
    && var settled := Step(m.was, m.row, m.eval.ts, m.eval.settings);
       settled.Some? && Due(settled.value, m.eval.ts, m.eval.settings)
  }

  /** `Sends` is membership in the list the evaluation returns. */
  lemma SendsMeansSent(m0: AlertMap, evs: seq<Eval>, id: InstanceId, k: nat)
    requires k < |evs|
    ensures Sends(MomentOf(m0, evs, id, k)) <==> id in Sent(At(m0, evs, k), evs[k])
    ensures id in Sent(At(m0, evs, k), evs[k]) ==>
              Sent(At(m0, evs, k), evs[k])[id] ==
              Get(At(m0, evs, k + 1), id).value.(interval := evs[k].settings.groupInterval)
  {
    var m, e := At(m0, evs, k), evs[k];
    NextByKey(m, e, id);
    if VerdictOf(m, e) == Succeeded {
      AllRowsApply(e);
      assert Get(Stepped(m, e.answer.rows, e.ts, e.settings), id) ==
             Step(Get(m, id), RowOf(e.answer.rows, id), e.ts, e.settings);
    }
  }

  /** A transition to firing, or from firing to resolved, is sent by the evaluation that makes it. */
  lemma TransitionsAreSent(m: Moment)
    requires m.Happens() && m.Ok() && m.eval.ts > 0
    requires m.was.Some? ==> NotAfter(m.was.value, m.eval.ts)
    ensures !m.Was(Firing) && m.Is(Firing) ==> Sends(m)
    ensures m.Was(Firing) && m.Is(Inactive) ==> Sends(m)
  {
  }

  /** Over any run with a clock that never steps back, no transition goes unsent. */
  lemma EveryTransitionIsSent(m0: AlertMap, evs: seq<Eval>, id: InstanceId, n: nat)
    requires 0 < n <= |evs|
    requires NonDecreasing(evs) && evs[n - 1].ts > 0
    requires AllNotAfter(m0, evs[0].ts)
    requires VerdictOf(At(m0, evs, n - 1), evs[n - 1]) == Succeeded
    requires var m := MomentOf(m0, evs, id, n - 1);
             (!m.Was(Firing) && m.Is(Firing)) || (m.Was(Firing) && m.Is(Inactive))
    ensures id in Sent(At(m0, evs, n - 1), evs[n - 1])
    ensures Sent(At(m0, evs, n - 1), evs[n - 1])[id].state == At(m0, evs, n)[id].state
  {
    TimesAreBounded(m0, evs, n);
    MomentHappens(m0, evs, id, n - 1);
    TransitionsAreSent(MomentOf(m0, evs, id, n - 1));
    SendsMeansSent(m0, evs, id, n - 1);
  }

  // ----- The rate of sending -----

  /** What one evaluation does to the stamps of an instance that keeps firing. */
  lemma FiringMove(m: Moment)
    requires m.Happens() && m.Was(Firing) && m.Is(Firing)
    ensures var was, now := m.was.value, m.now.value;
            && now.firedAt == was.firedAt
            && now.lastSent == (if Sends(m) then m.eval.ts else was.lastSent)
            && (Sends(m) && was.lastSent != 0 && was.lastSent > was.firedAt ==>
                  m.eval.ts - was.lastSent >= m.eval.settings.resendDelay)
            && (!Sends(m) && m.Ok() ==>
                  was.lastSent > was.firedAt && m.eval.ts - was.lastSent < m.eval.settings.resendDelay)
  {
  }

  /** How many of the moments from `b` up to `n` send. */
  function SendCount(s: Story, b: nat, n: nat): nat
    requires b <= n <= |s|
  {
    if b == n then 0 else SendCount(s, b, n - 1) + if Sends(s[n - 1]) then 1 else 0
  }

  /** Moment `f` fires the instance and it stays firing up to `n`, on a clock that only advances. */
  predicate FiringEpisode(s: Story, f: nat, n: nat, resendDelay: int) {
    && f < n <= |s|
    && Lived(s)
    && resendDelay > 0
    && !s[f].Was(Firing)
    && s[f].eval.ts > 0
    && (s[f].was.Some? ==> NotAfter(s[f].was.value, s[f].eval.ts))
    && (forall k :: f <= k < n ==> s[k].Is(Firing) && s[k].eval.settings.resendDelay == resendDelay)
    && (forall k :: f < k < n ==> s[k - 1].eval.ts < s[k].eval.ts)
  }

  /** How far the stamp of an instance fired at `fired` has moved on after `c` sends. */
  predicate Spaced(a: Instance, fired: Time, c: int, resendDelay: int) {
    && a.firedAt == fired <= a.lastSent
    && c >= 1
    && if c == 1 then a.lastSent == fired else a.lastSent - fired > (c - 2) * resendDelay
  }

  /** After its first send, each send of an episode moves the stamp on by the resend delay, bar the second. */
  lemma {:induction false} SendsAreSpaced(s: Story, f: nat, n: nat, resendDelay: int)
    requires FiringEpisode(s, f, n, resendDelay)
    ensures Spaced(s[n - 1].now.value, s[f].eval.ts, SendCount(s, f, n), resendDelay)
    ensures s[n - 1].now.value.lastSent <= s[n - 1].eval.ts
  {
    var m := s[n - 1];
    assert m.Happens();
    if f == n - 1 {
      ActiveMove(m);
      FirstSend(m);
      assert SendCount(s, f, f) == 0;
    } else {
      SendsAreSpaced(s, f, n - 1, resendDelay);
      assert Follows(s, n - 1);
      SpacingMove(m, s[f].eval.ts, SendCount(s, f, n - 1), resendDelay);
    }
  }

  lemma SpacingMove(m: Moment, fired: Time, c: int, resendDelay: int)
    requires m.Happens() && m.Was(Firing) && m.Is(Firing)
    requires m.eval.settings.resendDelay == resendDelay > 0
    requires m.was.value.lastSent < m.eval.ts
    requires Spaced(m.was.value, fired, c, resendDelay)
    ensures Spaced(m.now.value, fired, if Sends(m) then c + 1 else c, resendDelay)
    ensures m.now.value.lastSent <= m.eval.ts
  {
    FiringMove(m);
    if c >= 2 {
      Arithmetic.OneMoreTimes(c - 2, resendDelay);
      assert m.was.value.lastSent > fired by {
        Arithmetic.ProductMonotone(0, c - 2, resendDelay);
      }
    }
  }

  lemma FirstSend(m: Moment)
    requires m.Happens() && m.eval.ts > 0 && !m.Was(Firing) && m.Is(Firing)
    requires m.was.Some? ==> NotAfter(m.was.value, m.eval.ts)
    ensures Sends(m) && m.now.value.lastSent == m.now.value.firedAt == m.eval.ts
  {
  }

  /** The most often an episode of length `length` can be sent. */
  function MostSends(length: nat, resendDelay: int): int
    requires resendDelay > 0
  {
    if length == 0 then 1 else 2 + (length - 1) / resendDelay
  }

  /** A firing episode of length T is sent once if T is 0, else at most 2 + (T - 1) / ResendDelay times. */
  lemma SendRateIsBounded(s: Story, f: nat, n: nat, resendDelay: int)
    requires FiringEpisode(s, f, n, resendDelay)
    ensures s[f].eval.ts <= s[n - 1].eval.ts
    ensures SendCount(s, f, n) <= MostSends(s[n - 1].eval.ts - s[f].eval.ts, resendDelay)
    ensures SendCount(s, f, n) <= 2 + (s[n - 1].eval.ts - s[f].eval.ts) / resendDelay
  {
    SendsAreSpaced(s, f, n, resendDelay);
    var c, length := SendCount(s, f, n), s[n - 1].eval.ts - s[f].eval.ts;
    if c > 1 {
      Arithmetic.QuotientAtLeast(length, c - 2, resendDelay);
      Arithmetic.QuotientAtLeast(length - 1, c - 2, resendDelay);
    } else {
      Arithmetic.QuotientAtLeast(length, 0, resendDelay);
      if length > 0 {
        Arithmetic.QuotientAtLeast(length - 1, 0, resendDelay);
      }
    }
  }

  /** When the `k`-th send of the densest episode comes: on firing, 1 ms later, then a delay apart each. */
  function SendTime(k: nat, resendDelay: int): Time
    requires resendDelay > 0
  {
    if k == 0 then 1
    else
      Arithmetic.ProductMonotone(0, k - 1, resendDelay);
      2 + (k - 1) * resendDelay
  }

  function DenseSettings(resendDelay: int): Settings {
    Settings(1, "g", "a", "e", 0, 0, 60, resendDelay)
  }

  function DenseInstance(k: nat, resendDelay: int): Instance
    requires resendDelay > 0
  {
    Fresh(Row(7, map[], 1.0), 1, DenseSettings(resendDelay))
      .(state := Firing, firedAt := 1, lastSent := SendTime(k, resendDelay))
  }

  function DenseMoment(k: nat, resendDelay: int): Moment
    requires resendDelay > 0
  {
    var row := Row(7, map[], 1.0);
    Moment(if k == 0 then None else Some(DenseInstance(k - 1, resendDelay)), Some(DenseInstance(k, resendDelay)),
           Some(row), Succeeded, Eval(Rows([row]), SendTime(k, resendDelay), 0, DenseSettings(resendDelay)))
  }

  lemma DenseMomentSends(k: nat, resendDelay: int)
    requires resendDelay > 0
    ensures DenseMoment(k, resendDelay).Happens() && Sends(DenseMoment(k, resendDelay))
    ensures k > 0 ==> SendTime(k - 1, resendDelay) < SendTime(k, resendDelay)
  {
    if k > 1 {
      assert (k - 1) * resendDelay == (k - 2) * resendDelay + resendDelay;
    }
  }

  /** The bound is met for every delay and every number of sends, since the second send waits for no delay. */
  lemma SendRateIsTight(resendDelay: int, c: nat) returns (s: Story)
    requires resendDelay > 0 && c > 0
    ensures FiringEpisode(s, 0, c, resendDelay) && SendCount(s, 0, c) == c
    ensures s[0].eval.ts <= s[c - 1].eval.ts
    ensures c == MostSends(s[c - 1].eval.ts - s[0].eval.ts, resendDelay)
  {
    s := seq(c, k requires 0 <= k < c => DenseMoment(k, resendDelay));
    forall k | 0 <= k < c
      ensures s[k].Happens() && Sends(s[k]) && (k > 0 ==> s[k - 1].eval.ts < s[k].eval.ts)
    {
      DenseMomentSends(k, resendDelay);
    }
    AllSend(s, c);
    if c > 1 {
      Arithmetic.ProductMonotone(0, c - 2, resendDelay);
      Arithmetic.WholeQuotient(c - 2, resendDelay);
    }
  }

  lemma {:induction false} AllSend(s: Story, n: nat)
    requires n <= |s| && forall k :: 0 <= k < n ==> Sends(s[k])
    ensures SendCount(s, 0, n) == n
  {
    if n > 0 {
      AllSend(s, n - 1);
    }
  }

  // ----- Resolved instances -----

  /** A success sends a resolved instance if it carries the time it was resolved. */
  lemma StampedIsSent(m: Moment)
    requires m.Happens() && m.Ok() && m.Is(Inactive)
    ensures Sends(m) <==> m.now.value.resolvedAt != 0
  {
  }

  lemma StampMove(m: Moment)
    requires m.Happens() && m.eval.ts > 0 && m.Is(Inactive)
    requires m.Was(Inactive) ==> m.was.value.resolvedAt != 0
    ensures m.now.value.resolvedAt != 0
  {
  }

  /** Over a run in which the clock has started, a resolved instance carries the time it was resolved. */
  lemma {:induction false} ResolvedIsStamped(s: Story, n: nat)
    requires Lived(s) && 0 < n <= |s|
    requires forall k :: 0 <= k < n ==> s[k].eval.ts > 0
    requires s[0].Was(Inactive) ==> s[0].was.value.resolvedAt != 0
    requires s[n - 1].Is(Inactive)
    ensures s[n - 1].now.value.resolvedAt != 0
  {
    var m := s[n - 1];
    assert m.Happens();
    if n > 1 && m.Was(Inactive) {
      assert Follows(s, n - 1);
      ResolvedIsStamped(s, n - 1);
    }
    StampMove(m);
  }

  /**
    Every success sends every resolved instance again for as long as it is
    retained: one that a run finds resolved after a success is in its list.
   */
  lemma ResolvedIsSentEachTime(m0: AlertMap, evs: seq<Eval>, id: InstanceId, n: nat)
    requires 0 < n <= |evs| && forall k :: 0 <= k < n ==> evs[k].ts > 0
    requires id in m0 && m0[id].state == Inactive ==> m0[id].resolvedAt != 0
    requires VerdictOf(At(m0, evs, n - 1), evs[n - 1]) == Succeeded
    requires id in At(m0, evs, n) && At(m0, evs, n)[id].state == Inactive
    ensures id in Sent(At(m0, evs, n - 1), evs[n - 1]) && Sent(At(m0, evs, n - 1), evs[n - 1])[id].state == Inactive
  {
    RunsAreStories(m0, evs, id);
    ResolvedIsStamped(StoryOf(m0, evs, id), n);
    MomentHappens(m0, evs, id, n - 1);
    StampedIsSent(MomentOf(m0, evs, id, n - 1));
    SendsMeansSent(m0, evs, id, n - 1);
  }

  // ----- No premature auto-resolve -----

  /** The latest success at or before `k`, `b` being one. */
  function LastSuccess(s: Story, b: nat, k: nat): (p: nat)
    requires b <= k < |s| && s[b].Ok()
    ensures b <= p <= k && s[p].Ok()
  {
    if s[k].Ok() then k else LastSuccess(s, b, k - 1)
  }

  /** Each success after `b` up to `n` comes at most `gap` after the one before it. */
  predicate SuccessesWithin(s: Story, b: nat, n: nat, gap: int) {
    && b < n < |s|
    && s[b].Ok() && s[n].Ok()
    && (forall q :: b < q <= n && s[q].Ok() ==> s[q].eval.ts - s[LastSuccess(s, b, q - 1)].eval.ts <= gap)
  }

  /** Two sends of an instance with none between, while it fires. */
  predicate ConsecutiveSends(s: Story, b: nat, n: nat, resendDelay: int) {
    && b < n < |s|
    && Lived(s)
    && resendDelay > 0
    && Sends(s[b]) && Sends(s[n])
    && (forall k :: b < k < n ==> !Sends(s[k]))
    && (forall k :: b <= k <= n ==> s[k].Is(Firing) && s[k].eval.settings.resendDelay == resendDelay)
  }

  lemma {:induction false} StampHolds(s: Story, b: nat, n: nat)
    requires b < n <= |s|
    requires Lived(s)
    requires Sends(s[b])
    requires forall k :: b < k < n ==> !Sends(s[k])
    requires forall k :: b <= k < n ==> s[k].Is(Firing)
    ensures s[n - 1].Is(Firing) && s[n - 1].now.value.lastSent == s[b].eval.ts
  {
    assert s[n - 1].Happens();
    if n > b + 1 {
      StampHolds(s, b, n - 1);
      assert Follows(s, n - 1);
      FiringMove(s[n - 1]);
    }
  }

  /** With successes at most `gap` apart, a firing instance is sent again within ResendDelay + gap. */
  lemma SendsComeInTime(s: Story, b: nat, n: nat, resendDelay: int, gap: int)
    requires ConsecutiveSends(s, b, n, resendDelay)
    requires SuccessesWithin(s, b, n, gap)
    ensures s[n].eval.ts - s[b].eval.ts < resendDelay + gap
  {
    var p := LastSuccess(s, b, n - 1);
    assert s[n].eval.ts - s[p].eval.ts <= gap;
    if p > b {
      StampHolds(s, b, p);
      assert Follows(s, p);
      assert s[p].Happens();
      FiringMove(s[p]);
    }
  }
}
