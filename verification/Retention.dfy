/** How long a resolved instance goes on being sent. */
module Retention {
  import opened Alerts
  import opened RuleStep
  import opened RuleRuns
  import opened Sending

  /** Moment `r` resolves the instance, and none after it takes in a row of it, on a clock that never steps back. */
  predicate GoneSince(s: Story, r: nat, n: nat) {
    && r < n <= |s| && Lived(s)
    && s[r].Was(Firing) && s[r].Is(Inactive) && s[r].eval.ts > 0
    && (forall k :: r < k < n ==> s[k].row.None?)
    && forall j, k :: r <= j <= k < n ==> s[j].eval.ts <= s[k].eval.ts
  }

  /** No moment after `r`, before `n`, clears the map for too many active instances. */
  predicate NeverCleared(s: Story, r: nat, n: nat) {
    forall k :: r < k < n <= |s| ==> s[k].verdict != TooManyActive
  }

  lemma ResolvingMove(m: Moment)
    requires m.Happens() && m.Was(Firing) && m.Is(Inactive)
    ensures m.Ok() && m.row.None? && m.now.value.resolvedAt == m.eval.ts
    ensures m.eval.ts > 0 ==> Sends(m)
  {
  }

  /** One evaluation without a row of it: a resolved instance is left as it was, forgotten, or cleared. */
  lemma ResolvedMove(m: Moment)
    requires m.Happens() && m.row.None?
    requires m.was.Some? ==> m.was.value.state == Inactive
    ensures m.now.Some? ==>
              && m.was.Some? && m.verdict != TooManyActive
              && m.now.value.state == Inactive && m.now.value.resolvedAt == m.was.value.resolvedAt
    ensures m.was.Some? && m.verdict != TooManyActive && m.eval.ts - m.was.value.resolvedAt <= 900_000 ==> m.now.Some?
    ensures m.Ok() && m.now.Some? ==> m.eval.ts - m.was.value.resolvedAt <= 900_000
    ensures Sends(m) <==> m.Ok() && m.now.Some? && m.now.value.resolvedAt != 0
  {
  }

  /** Up to moment `n` the instance is as it was resolved if it is still there, and it is there for 15 minutes. */
  lemma {:induction false} ThereFor15Minutes(s: Story, r: nat, n: nat)
    requires GoneSince(s, r, n)
    ensures s[r].eval.ts <= s[n - 1].eval.ts
    ensures s[n - 1].now.Some? ==>
              && s[n - 1].Is(Inactive) && s[n - 1].now.value.resolvedAt == s[r].eval.ts && NeverCleared(s, r, n)
    ensures NeverCleared(s, r, n) && s[n - 1].eval.ts - s[r].eval.ts <= 900_000 ==> s[n - 1].now.Some?
  {
    assert s[n - 1].Happens();
    if n == r + 1 {
      ResolvingMove(s[r]);
    } else {
      ThereFor15Minutes(s, r, n - 1);
      assert Follows(s, n - 1);
      ResolvedMove(s[n - 1]);
    }
  }

  lemma SentFor15Minutes(s: Story, r: nat, n: nat)
    requires GoneSince(s, r, n) && s[n - 1].Ok()
    ensures Sends(s[n - 1]) <==> s[n - 1].eval.ts - s[r].eval.ts <= 900_000 && NeverCleared(s, r, n)
    ensures Sends(s[n - 1]) ==> s[n - 1].Is(Inactive) && s[n - 1].now.value.resolvedAt == s[r].eval.ts
  {
    assert s[n - 1].Happens();
    ThereFor15Minutes(s, r, n);
    if n == r + 1 {
      ResolvingMove(s[r]);
    } else {
      ThereFor15Minutes(s, r, n - 1);
      assert Follows(s, n - 1);
      ResolvedMove(s[n - 1]);
    }
  }

  /** A run in which evaluation `r` resolves an instance that has no row from then on, as a story of it. */
  lemma ResolvedInRun(m0: AlertMap, evs: seq<Eval>, id: InstanceId, r: nat, n: nat)
    requires r < n <= |evs| && evs[r].ts > 0 && forall j, k :: r <= j <= k < n ==> evs[j].ts <= evs[k].ts
    requires MomentOf(m0, evs, id, r).Was(Firing) && MomentOf(m0, evs, id, r).Is(Inactive)
    requires forall k :: r < k < n ==> id !in RowIds(AppliedRows(evs[k]))
    ensures GoneSince(StoryOf(m0, evs, id), r, n)
  {
    RunsAreStories(m0, evs, id);
    var s := StoryOf(m0, evs, id);
    forall k | r < k < n ensures s[k].row.None? {
      assert id !in RowIds(AppliedRows(evs[k]));
    }
  }

  /** The list `sent` has the instance exactly if the moment sends it, as the moment leaves it. */
  predicate SentAs(m: Moment, id: InstanceId, sent: AlertMap) {
    && (id in sent <==> Sends(m))
    && (id in sent ==> m.now.Some? && sent[id].state == m.now.value.state
                       && sent[id].resolvedAt == m.now.value.resolvedAt)
  }

  /** The story is that of the instance in this run. */
  predicate Tells(s: Story, m0: AlertMap, evs: seq<Eval>, id: InstanceId) {
    |s| == |evs| && forall k {:trigger MomentOf(m0, evs, id, k)} :: 0 <= k < |s| ==> s[k] == MomentOf(m0, evs, id, k)
  }

  lemma MomentIsSent(s: Story, m0: AlertMap, evs: seq<Eval>, id: InstanceId, k: nat)
    requires k < |evs| && Tells(s, m0, evs, id)
    ensures SentAs(s[k], id, Sent(At(m0, evs, k), evs[k]))
    ensures s[k].verdict == VerdictOf(At(m0, evs, k), evs[k])
  {
    SendsMeansSent(m0, evs, id, k);
    MomentHappens(m0, evs, id, k);
  }

  /** Sent by moment `n - 1` exactly within 15 minutes of `r`, as `r` resolved it, bar a clearing in between. */
  predicate SentWhileRetained(s: Story, r: nat, n: nat, id: InstanceId, sent: AlertMap)
    requires r < n <= |s|
  {
    && (id in sent <==> s[n - 1].eval.ts - s[r].eval.ts <= 900_000 && NeverCleared(s, r, n))
    && (id in sent ==> sent[id].state == Inactive && sent[id].resolvedAt == s[r].eval.ts)
  }

  lemma SentInStory(s: Story, r: nat, n: nat, id: InstanceId, sent: AlertMap)
    requires GoneSince(s, r, n) && s[n - 1].Ok()
    requires SentAs(s[n - 1], id, sent)
    ensures SentWhileRetained(s, r, n, id, sent)
  {
    SentFor15Minutes(s, r, n);
  }

  lemma SentInRun(s: Story, m0: AlertMap, evs: seq<Eval>, id: InstanceId, r: nat, n: nat)
    requires Tells(s, m0, evs, id) && GoneSince(s, r, n)
    requires VerdictOf(At(m0, evs, n - 1), evs[n - 1]) == Succeeded
    ensures SentWhileRetained(s, r, n, id, Sent(At(m0, evs, n - 1), evs[n - 1]))
  {
    MomentIsSent(s, m0, evs, id, n - 1);
    SentInStory(s, r, n, id, Sent(At(m0, evs, n - 1), evs[n - 1]));
  }

  /**
    Over any run: a resolved instance with no row is sent, resolved, by
    exactly the successes of the 15 minutes after it was resolved, unless
    the limit has cleared the map in between.
   */
  lemma ResolvedIsSentFor15Minutes(m0: AlertMap, evs: seq<Eval>, id: InstanceId, r: nat, n: nat)
    requires r < n <= |evs| && evs[r].ts > 0 && forall j, k :: r <= j <= k < n ==> evs[j].ts <= evs[k].ts
    requires MomentOf(m0, evs, id, r).Was(Firing) && MomentOf(m0, evs, id, r).Is(Inactive)
    requires forall k :: r < k < n ==> id !in RowIds(AppliedRows(evs[k]))
    requires VerdictOf(At(m0, evs, n - 1), evs[n - 1]) == Succeeded
    ensures SentWhileRetained(StoryOf(m0, evs, id), r, n, id, Sent(At(m0, evs, n - 1), evs[n - 1]))
  {
    ResolvedInRun(m0, evs, id, r, n);
    SentInRun(StoryOf(m0, evs, id), m0, evs, id, r, n);
  }
}
