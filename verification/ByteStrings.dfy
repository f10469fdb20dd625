/** Go strings, a character standing for a byte, and their sorted order. */
module ByteStrings {

  /** 0xFF, which ends what is hashed one piece after the other. */
  const SEPARATOR: char := '\U{FF}'

  /** sort.Strings' order: by first difference, a proper prefix first. */
  predicate Before(a: string, b: string) {
    b != [] && (a == [] || a[0] < b[0] || (a[0] == b[0] && Before(a[1..], b[1..])))
  }

  lemma {:induction false} BeforeIsTotal(a: string, b: string)
    ensures a != b ==> Before(a, b) != Before(b, a)
    ensures !Before(a, a)
  {
    if a != [] && b != [] && a[0] == b[0] {
      assert a == [a[0]] + a[1..] && b == [b[0]] + b[1..];
      BeforeIsTotal(a[1..], b[1..]);
    }
    if a != [] {
      BeforeIsTotal(a[1..], a[1..]);
    }
  }

  lemma {:induction false} BeforeIsTransitive(a: string, b: string, c: string)
    requires Before(a, b) && Before(b, c)
    ensures Before(a, c)
  {
    if a != [] && a[0] == b[0] && b[0] == c[0] {
      BeforeIsTransitive(a[1..], b[1..], c[1..]);
    }
  }

  predicate IsLeast(k: string, ks: set<string>) {
    k in ks && forall o :: o in ks && o != k ==> Before(k, o)
  }

  lemma {:induction false} LeastExists(ks: set<string>) returns (k: string)
    requires ks != {}
    ensures IsLeast(k, ks)
  {
    k :| k in ks;
    if ks != {k} {
      var rest := ks - {k};
      assert rest != {};
      var r := LeastExists(rest);
      BeforeIsTotal(k, r);
      if Before(k, r) {
        forall o | o in ks && o != k ensures Before(k, o) {
          if o != r {
            BeforeIsTransitive(k, r, o);
          }
        }
      } else {
        k := r;
      }
    }
  }

  /** The keys in sort.Strings' order. */
  ghost function Sorted(ks: set<string>): seq<string> {
    if ks == {} then []
    else
      assert exists k :: IsLeast(k, ks) by { var k := LeastExists(ks); }
      var k :| IsLeast(k, ks);
      [k] + Sorted(ks - {k})
  }

  /** Sorting keeps every key, once. */
  lemma {:induction false} SortedKeeps(ks: set<string>)
    ensures |Sorted(ks)| == |ks|
    ensures forall k :: k in Sorted(ks) <==> k in ks
  {
    if ks != {} {
      SortedKeeps(ks - {Sorted(ks)[0]});
    }
  }

  /** Sorting orders the keys. */
  lemma {:induction false} SortedIsOrdered(ks: set<string>, i: nat, j: nat)
    requires i < j < |Sorted(ks)|
    ensures Before(Sorted(ks)[i], Sorted(ks)[j])
  {
    var k := Sorted(ks)[0];
    if i > 0 {
      SortedIsOrdered(ks - {k}, i - 1, j - 1);
    } else {
      SortedKeeps(ks - {k});
      assert Sorted(ks - {k})[j - 1] in Sorted(ks - {k});
    }
  }

  lemma LeastIsUnique(a: string, b: string, ks: set<string>)
    requires IsLeast(a, ks) && IsLeast(b, ks)
    ensures a == b
  {
    if a != b {
      BeforeIsTotal(a, b);
    }
  }

  /** sort.Strings on a map's keys. */
  method SortStrings(ks: set<string>) returns (sorted: seq<string>)
    ensures sorted == Sorted(ks)
  {
    sorted := [];
    var todo := ks;
    while todo != {}
      invariant sorted + Sorted(todo) == Sorted(ks)
    {
      var k := FindLeast(todo);
      LeastIsUnique(k, Sorted(todo)[0], todo);
      assert sorted + ([k] + Sorted(todo - {k})) == sorted + [k] + Sorted(todo - {k});
      sorted, todo := sorted + [k], todo - {k};
    }
  }

  method FindLeast(ks: set<string>) returns (least: string)
    requires ks != {}
    ensures IsLeast(least, ks)
  {
    least :| least in ks;
    var todo := ks - {least};
    while todo != {}
      invariant todo <= ks
      invariant IsLeast(least, ks - todo)
    {
      var k :| k in todo;
      BeforeIsTotal(least, k);
      if Before(k, least) {
        forall o | o in ks - todo && o != least ensures Before(k, o) {
          BeforeIsTransitive(k, least, o);
        }
        least := k;
      }
      todo := todo - {k};
    }
    assert ks - todo == ks;
  }

  /** Two texts of two pieces each are the same if the longer first piece takes up the start of the other's second. */
  lemma RunTogether(a: string, restA: string, b: string, restB: string)
    requires |a| <= |b|
    ensures a + restA == b + restB <==> exists x :: b == a + x && restA == x + restB
    ensures a + restA == b + restB && a == b ==> restA == restB
  {
    if a + restA == b + restB {
      var x := b[|a|..];
      assert (a + restA)[..|a|] == a && (b + restB)[..|a|] == b[..|a|];
      assert b == a + x;
      assert (a + restA)[|a|..] == restA && (b + restB)[|a|..] == x + restB;
    }
    if x :| b == a + x && restA == x + restB {
      assert a + (x + restB) == (a + x) + restB;
    }
  }

  /** The first mark ends the text before it. */
  lemma {:induction false} MarkEndsText(a: string, b: string, mark: char, restA: string, restB: string)
    requires mark !in a && mark !in b
    requires a + [mark] + restA == b + [mark] + restB
    ensures a == b && restA == restB
  {
    var left, right := a + [mark] + restA, b + [mark] + restB;
    assert left[0] == if a == [] then mark else a[0];
    assert right[0] == if b == [] then mark else b[0];
    if a == [] {
      assert restA == left[1..] && restB == right[1..];
    } else {
      assert left[1..] == a[1..] + [mark] + restA;
      assert right[1..] == b[1..] + [mark] + restB;
      MarkEndsText(a[1..], b[1..], mark, restA, restB);
      assert a == [a[0]] + a[1..] && b == [b[0]] + b[1..];
    }
  }
}
