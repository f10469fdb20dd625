/** Which elements of a list a pass picks: their places, in order. */
module Selections {

  /** The places in `chosen`, each once, from first to last. */
  predicate InPlace(places: seq<nat>, chosen: set<nat>) {
    && (forall i, j :: 0 <= i < j < |places| ==> places[i] < places[j])
    && (forall i :: 0 <= i < |places| ==> places[i] in chosen)
    && forall k :: k in chosen ==> k in places
  }

  /** `picked` holds the elements of `list` at these places. */
  predicate PickedFrom<T(==)>(picked: seq<T>, list: seq<T>, places: seq<nat>) {
    |picked| == |places| && forall i :: 0 <= i < |places| ==> places[i] < |list| && picked[i] == list[places[i]]
  }

  lemma PlaceNext(places: seq<nat>, chosen: set<nat>, n: nat)
    requires InPlace(places, chosen) && forall k :: k in chosen ==> k < n
    ensures InPlace(places + [n], chosen + {n})
  {
    var more := places + [n];
    forall k | k in chosen + {n} ensures k in more {
      if k == n {
        assert more[|places|] == k;
      } else {
        var i :| 0 <= i < |places| && places[i] == k;
        assert more[i] == k;
      }
    }
  }

  lemma PickNext<T>(picked: seq<T>, list: seq<T>, places: seq<nat>, chosen: set<nat>, x: T)
    requires PickedFrom(picked, list, places) && InPlace(places, chosen)
    requires forall k :: k in chosen ==> k < |list|
    ensures PickedFrom(picked, list + [x], places)
    ensures PickedFrom(picked + [x], list + [x], places + [|list|]) && InPlace(places + [|list|], chosen + {|list|})
  {
    PlaceNext(places, chosen, |list|);
  }
}
