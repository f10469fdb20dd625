/** What tells groups apart: the text their IDs are hashed from, and when two groups share it. */
module GroupKeys {
  import opened Alerts
  import opened ByteStrings

  /** A group's ID is hashed from this text. */
  type GroupKey = string

  /** A group as parsed; `content` is the text its checksum is taken from. */
  datatype Spec = Spec(file: string, name: string, interval: int, content: string)

  /** The default interval, and how a duration is written out. */
  datatype Flags = Flags(interval: int, spell: int -> string)

  function IntervalOf(spec: Spec, flags: Flags): int {
    if spec.interval == 0 then flags.interval else spec.interval
  }

  /** Name and interval follow each other with nothing between them. */
  function Tail(spec: Spec, flags: Flags): string {
    spec.name + flags.spell(IntervalOf(spec, flags))
  }

  function KeyOf(spec: Spec, flags: Flags): GroupKey {
    spec.file + [SEPARATOR] + Tail(spec, flags)
  }

  /** The content each group is to run, by key, a later group of the same key winning. */
  function Wanted(specs: seq<Spec>, flags: Flags): map<GroupKey, string> {
    if specs == [] then map[]
    else
      var last := specs[|specs| - 1];
      Wanted(specs[..|specs| - 1], flags)[KeyOf(last, flags) := last.content]
  }

  // ----- When groups share a key -----

  /** Two groups share a key exactly if they are of one file and name and interval run together to the same text. */
  lemma KeysShared(a: Spec, b: Spec, flags: Flags)
    requires SEPARATOR !in a.file && SEPARATOR !in b.file
    ensures KeyOf(a, flags) == KeyOf(b, flags) <==> a.file == b.file && Tail(a, flags) == Tail(b, flags)
  {
    if KeyOf(a, flags) == KeyOf(b, flags) {
      MarkEndsText(a.file, b.file, SEPARATOR, Tail(a, flags), Tail(b, flags));
    }
  }

  /** No two durations are written alike. */
  ghost predicate Injective(spell: int -> string) {
    forall i, j :: spell(i) == spell(j) ==> i == j
  }

  /** Of two groups of one file that share a key, the longer name goes on with what the other's interval starts with. */
  lemma SharedNamesOverlap(a: Spec, b: Spec, flags: Flags)
    requires Injective(flags.spell) && a.file == b.file && |a.name| <= |b.name|
    ensures KeyOf(a, flags) == KeyOf(b, flags) <==>
            exists x ::
              b.name == a.name + x && flags.spell(IntervalOf(a, flags)) == x + flags.spell(IntervalOf(b, flags))
    ensures KeyOf(a, flags) == KeyOf(b, flags) && a.name == b.name ==> IntervalOf(a, flags) == IntervalOf(b, flags)
  {
    var ta, tb := flags.spell(IntervalOf(a, flags)), flags.spell(IntervalOf(b, flags));
    TailsShared(a, b, flags);
    RunTogether(a.name, ta, b.name, tb);
  }

  lemma TailsShared(a: Spec, b: Spec, flags: Flags)
    requires a.file == b.file
    ensures KeyOf(a, flags) == KeyOf(b, flags) <==> Tail(a, flags) == Tail(b, flags)
  {
    var head := a.file + [SEPARATOR];
    assert (head + Tail(a, flags))[|head|..] == Tail(a, flags);
    assert (head + Tail(b, flags))[|head|..] == Tail(b, flags);
  }

  /** The smallest case: "tier1" every 5 minutes and "tier" every 15 share a key, and only the later one runs. */
  lemma TierSwallowsTier1(file: string, c1: string, c: string, flags: Flags)
    requires flags.spell(300_000) == "5m0s" && flags.spell(900_000) == "15m0s"
    ensures var a, b := Spec(file, "tier1", 300_000, c1), Spec(file, "tier", 900_000, c);
            && KeyOf(a, flags) == KeyOf(b, flags)
            && Wanted([a, b], flags) == map[KeyOf(a, flags) := c]
  {
    var a, b := Spec(file, "tier1", 300_000, c1), Spec(file, "tier", 900_000, c);
    assert "tier1" + "5m0s" == "tier" + "15m0s";
    assert [a, b][..1] == [a] && [a][..0] == [];
    assert Wanted([a], flags) == map[KeyOf(a, flags) := c1];
  }

  /** A group without an interval has the key of the same group at the default one. */
  lemma DefaultInterval(spec: Spec, flags: Flags)
    ensures spec.interval == 0 ==> KeyOf(spec, flags) == KeyOf(spec.(interval := flags.interval), flags)
    ensures spec.interval != 0 ==> forall other :: KeyOf(spec, flags.(interval := other)) == KeyOf(spec, flags)
  {
  }

  predicate KeysDiffer(specs: seq<Spec>, flags: Flags) {
    forall i, j :: 0 <= i < j < |specs| ==> KeyOf(specs[i], flags) != KeyOf(specs[j], flags)
  }

  /** The wanted keys are those of the parsed groups. */
  lemma {:induction false} WantedKeys(specs: seq<Spec>, flags: Flags)
    ensures forall i :: 0 <= i < |specs| ==> KeyOf(specs[i], flags) in Wanted(specs, flags)
    ensures forall k :: k in Wanted(specs, flags) ==> exists i :: 0 <= i < |specs| && KeyOf(specs[i], flags) == k
  {
    if specs != [] {
      var n := |specs| - 1;
      var init := specs[..n];
      WantedKeys(init, flags);
      forall i | 0 <= i < |specs| ensures KeyOf(specs[i], flags) in Wanted(specs, flags) {
        assert i < n ==> KeyOf(init[i], flags) in Wanted(init, flags);
      }
      forall k | k in Wanted(specs, flags) ensures exists i :: 0 <= i < |specs| && KeyOf(specs[i], flags) == k {
        if k in Wanted(init, flags) {
          var i :| 0 <= i < n && KeyOf(init[i], flags) == k;
          assert KeyOf(specs[i], flags) == k;
        } else {
          assert KeyOf(specs[n], flags) == k;
        }
      }
    }
  }

  lemma PutCount(m: map<GroupKey, string>, k: GroupKey, v: string)
    ensures |m[k := v]| == if k in m then |m| else |m| + 1
  {
    assert m[k := v].Keys == m.Keys + {k};
    assert |m.Keys| == |m| && |m[k := v].Keys| == |m[k := v]|;
    assert k in m ==> m.Keys + {k} == m.Keys;
  }

  /** As many groups are wanted as were parsed exactly if no two share a key. */
  lemma {:induction false} EveryGroupIsWanted(specs: seq<Spec>, flags: Flags)
    ensures |Wanted(specs, flags)| <= |specs|
    ensures |Wanted(specs, flags)| == |specs| <==> KeysDiffer(specs, flags)
  {
    if specs != [] {
      var n := |specs| - 1;
      EveryGroupIsWanted(specs[..n], flags);
      PutCount(Wanted(specs[..n], flags), KeyOf(specs[n], flags), specs[n].content);
      DiffersOneMore(specs, flags);
      LastIsNew(specs, flags);
    }
  }

  lemma LastIsNew(specs: seq<Spec>, flags: Flags)
    requires specs != []
    ensures var n := |specs| - 1;
            KeyOf(specs[n], flags) !in Wanted(specs[..n], flags) <==>
            forall i :: 0 <= i < n ==> KeyOf(specs[i], flags) != KeyOf(specs[n], flags)
  {
    var n := |specs| - 1;
    WantedKeys(specs[..n], flags);
    forall i | 0 <= i < n ensures KeyOf(specs[i], flags) in Wanted(specs[..n], flags) {
      assert specs[..n][i] == specs[i];
    }
  }

  /** A group's content is the one wanted under its key if no later group shares the key. */
  lemma {:induction false} LaterGroupWins(specs: seq<Spec>, flags: Flags, i: nat)
    requires i < |specs|
    requires forall j :: i < j < |specs| ==> KeyOf(specs[j], flags) != KeyOf(specs[i], flags)
    ensures Get(Wanted(specs, flags), KeyOf(specs[i], flags)) == Some(specs[i].content)
  {
    var n := |specs| - 1;
    if i < n {
      LaterGroupWins(specs[..n], flags, i);
    }
  }

  lemma DiffersOneMore(specs: seq<Spec>, flags: Flags)
    requires specs != []
    ensures var n := |specs| - 1;
            KeysDiffer(specs, flags) <==>
            KeysDiffer(specs[..n], flags) && forall i :: 0 <= i < n ==> KeyOf(specs[i], flags) != KeyOf(specs[n], flags)
  {
    var n := |specs| - 1;
    if KeysDiffer(specs[..n], flags) && forall i :: 0 <= i < n ==> KeyOf(specs[i], flags) != KeyOf(specs[n], flags) {
      forall i, j | 0 <= i < j < |specs| ensures KeyOf(specs[i], flags) != KeyOf(specs[j], flags) {
        assert j < n ==> specs[..n][i] == specs[i] && specs[..n][j] == specs[j];
      }
    }
    if KeysDiffer(specs, flags) {
      forall i, j | 0 <= i < j < n ensures KeyOf(specs[..n][i], flags) != KeyOf(specs[..n][j], flags) {
      }
    }
  }
}
