/** The Alertmanager payload of the alerts an evaluation sends. */
module Notifier {
  import opened Alerts
  import opened RuleStep
  import opened RuleRuns
  import opened Sending
  import opened Selections

  datatype Status = StatusFiring | StatusResolved

  datatype Payload = Payload(id: InstanceId, status: Status, labels: Labels, startsAt: Time, endsAt: int)

  /** How long after a send Alertmanager resolves a firing alert by itself: 4 intervals, or 4 minutes. */
  function AutoResolveDelay(interval: int): int {
    if interval > 0 then 4 * interval else 4 * 60 * 1000
  }

  /** The entry of one alert, `now` being the clock when it is built; pending alerts have none. */
  function Entry(a: Instance, now: Time): Option<Payload> {
    match a.state
    case Firing => Some(Payload(a.id, StatusFiring, a.origin.labels, a.activeAt, now + AutoResolveDelay(a.interval)))
    case Inactive => Some(Payload(a.id, StatusResolved, a.origin.labels, a.activeAt, a.resolvedAt))
    case Pending => None
  }

  function Entries(alerts: seq<Instance>, clock: seq<Time>): seq<Payload>
    requires |clock| == |alerts|
  {
    if alerts == [] then []
    else
      var n := |alerts| - 1;
      var e := Entry(alerts[n], clock[n]);
      Entries(alerts[..n], clock[..n]) + if e.Some? then [e.value] else []
  }

  /** Builds the payload; `clock` is what time.Now gives while each alert is visited. */
  method BuildPayload(alerts: seq<Instance>, clock: seq<Time>) returns (payload: seq<Payload>, ghost places: seq<nat>)
    requires |clock| == |alerts|
    ensures payload == Entries(alerts, clock)
    ensures InPlace(places, SettledPlaces(alerts)) && |payload| == |places|
    ensures forall i :: 0 <= i < |places| ==>
              places[i] < |alerts| && Tells(payload[i], alerts[places[i]], clock[places[i]])
  {
    payload := [];
    var i := 0;
    while i < |alerts|
      invariant 0 <= i <= |alerts|
      invariant payload == Entries(alerts[..i], clock[..i])
    {
      var a := alerts[i];
      var status, endsAt := StatusResolved, 0;
      assert alerts[..i + 1][..i] == alerts[..i] && clock[..i + 1][..i] == clock[..i];
      match a.state {
        case Firing =>
          var delta := 4 * 60 * 1000;
          if a.interval > 0 {
            delta := 4 * a.interval;
          }
          status, endsAt := StatusFiring, clock[i] + delta;
          payload := payload + [Payload(a.id, status, a.origin.labels, a.activeAt, endsAt)];
        case Inactive =>
          endsAt := a.resolvedAt;
          payload := payload + [Payload(a.id, status, a.origin.labels, a.activeAt, endsAt)];
        case Pending =>
      }
      i := i + 1;
    }
    assert alerts[..i] == alerts && clock[..i] == clock;
    places := EntriesInOrder(alerts, clock);
  }

  /** What an entry tells: which alert it is, since when it is active, and how and until when it stands at `now`. */
  predicate Tells(p: Payload, a: Instance, now: Time) {
    && p.id == a.id && p.labels == a.origin.labels && p.startsAt == a.activeAt
    && (a.state == Firing ==>
          p.status == StatusFiring && p.endsAt == now + if a.interval > 0 then 4 * a.interval else 240_000)
    && (a.state == Inactive ==> p.status == StatusResolved && p.endsAt == a.resolvedAt)
  }

  lemma EntryTells(a: Instance, now: Time)
    ensures Entry(a, now).Some? <==> a.state != Pending
    ensures a.state != Pending ==> Tells(Entry(a, now).value, a, now)
  {
  }

  /** The places of the firing and the resolved alerts. */
  function SettledPlaces(alerts: seq<Instance>): set<nat> {
    set k: nat | k < |alerts| && alerts[k].state != Pending
  }

  /** There is one entry for each alert that is not pending, in order. */
  lemma {:induction false} EntriesInOrder(alerts: seq<Instance>, clock: seq<Time>) returns (places: seq<nat>)
    requires |clock| == |alerts|
    ensures InPlace(places, SettledPlaces(alerts)) && |Entries(alerts, clock)| == |places|
    ensures forall i :: 0 <= i < |places| ==>
              places[i] < |alerts| && Tells(Entries(alerts, clock)[i], alerts[places[i]], clock[places[i]])
  {
    if alerts == [] {
      places := [];
    } else {
      var n := |alerts| - 1;
      places := EntriesInOrder(alerts[..n], clock[..n]);
      EntryTells(alerts[n], clock[n]);
      if alerts[n].state != Pending {
        assert SettledPlaces(alerts) == SettledPlaces(alerts[..n]) + {n};
        PlaceNext(places, SettledPlaces(alerts[..n]), n);
        places := places + [n];
      } else {
        assert SettledPlaces(alerts) == SettledPlaces(alerts[..n]);
      }
    }
  }

  lemma SentIsSettled(m: AlertMap, e: Eval, id: InstanceId)
    requires id in Sent(m, e)
    ensures Sent(m, e)[id].state != Pending
  {
  }

  /** What a successful evaluation returns is never dropped from the payload: none of it is pending. */
  lemma {:induction false} NothingSentIsDropped(m: AlertMap, e: Eval, list: seq<Instance>, clock: seq<Time>)
    requires Enumerates(list, Sent(m, e))
    requires |clock| == |list|
    ensures |Entries(list, clock)| == |list|
    ensures forall i :: 0 <= i < |list| ==> Some(Entries(list, clock)[i]) == Entry(list[i], clock[i])
  {
    EnumerationIsExact(list, Sent(m, e));
    forall a | a in list ensures a.state != Pending {
      SentIsSettled(m, e, a.id);
    }
    NonPendingAllKept(list, clock);
  }

  lemma {:induction false} NonPendingAllKept(list: seq<Instance>, clock: seq<Time>)
    requires |clock| == |list|
    requires forall a :: a in list ==> a.state != Pending
    ensures |Entries(list, clock)| == |list|
    ensures forall i :: 0 <= i < |list| ==> Some(Entries(list, clock)[i]) == Entry(list[i], clock[i])
  {
    if list != [] {
      var n := |list| - 1;
      NonPendingAllKept(list[..n], clock[..n]);
      assert list[n] in list;
    }
  }

  /**
    On one clock, with successful evaluations at most `gap` apart and
    ResendDelay + gap within the auto-resolve delay, the notifier gets a
    firing instance's next send before the previous one's EndsAt.
   */
  lemma NoPrematureAutoResolve(s: Story, b: nat, n: nat, resendDelay: int, gap: int)
    requires ConsecutiveSends(s, b, n, resendDelay)
    requires SuccessesWithin(s, b, n, gap)
    requires var interval := s[b].eval.settings.groupInterval;
             resendDelay + gap <= AutoResolveDelay(interval)
    ensures var e := s[b].eval;
            var sent := Outgoing(s[b].now.value, e.ts, e.settings);
            Entry(sent, e.ts).Some? && s[n].eval.ts < Entry(sent, e.ts).value.endsAt
  {
    SendsComeInTime(s, b, n, resendDelay, gap);
  }
}
