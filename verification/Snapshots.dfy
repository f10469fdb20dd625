/** A snapshot of the rule files and the fingerprint that says whether they changed. */
module Snapshots {
  import opened ByteStrings

  /** Rule files by path. */
  type Files = map<string, string>

  const NUL: char := '\0'

  /** Each file's path and content, each ended by a NUL. */
  function Written(files: Files, paths: seq<string>): string
    requires forall p :: p in paths ==> p in files
  {
    if paths == [] then ""
    else paths[0] + [NUL] + (files[paths[0]] + [NUL] + Written(files, paths[1..]))
  }

  /** What the fingerprint hashes. */
  ghost function FingerprintInput(files: Files): string {
    SortedKeeps(files.Keys);
    Written(files, Sorted(files.Keys))
  }

  method Fingerprint(files: Files) returns (input: string)
    ensures input == FingerprintInput(files)
  {
    var paths := SortStrings(files.Keys);
    SortedKeeps(files.Keys);
    input := "";
    var i := 0;
    while i < |paths|
      invariant 0 <= i <= |paths|
      invariant input + Written(files, paths[i..]) == Written(files, paths)
    {
      var path, content := paths[i], files[paths[i]];
      ghost var rest := Written(files, paths[i + 1..]);
      assert paths[i..][1..] == paths[i + 1..];
      Regroup(input, path, content, rest);
      input := input + path + [NUL] + content + [NUL];
      i := i + 1;
    }
    assert paths[i..] == [];
  }

  lemma Regroup(input: string, path: string, content: string, rest: string)
    ensures input + (path + [NUL] + (content + [NUL] + rest)) == (input + path + [NUL] + content + [NUL]) + rest
  {
  }

  /** No path and no content holds a NUL. */
  predicate NulFree(files: Files) {
    forall p :: p in files ==> NUL !in p && NUL !in files[p]
  }

  lemma {:induction false} WrittenApart(f: Files, ps: seq<string>, g: Files, qs: seq<string>)
    requires NulFree(f) && NulFree(g)
    requires (forall p :: p in ps ==> p in f) && (forall q :: q in qs ==> q in g)
    requires Written(f, ps) == Written(g, qs)
    ensures ps == qs && forall p :: p in ps ==> p in g && f[p] == g[p]
  {
    if ps != [] && qs != [] {
      var p, q := ps[0], qs[0];
      MarkEndsText(p, q, NUL, f[p] + [NUL] + Written(f, ps[1..]), g[q] + [NUL] + Written(g, qs[1..]));
      MarkEndsText(f[p], g[q], NUL, Written(f, ps[1..]), Written(g, qs[1..]));
      WrittenApart(f, ps[1..], g, qs[1..]);
      assert ps == [p] + ps[1..] && qs == [q] + qs[1..];
    }
  }

  /** Snapshots without NULs have the same fingerprint input only if they are the same. */
  lemma FingerprintTellsApart(f: Files, g: Files)
    requires NulFree(f) && NulFree(g)
    ensures FingerprintInput(f) == FingerprintInput(g) <==> f == g
  {
    SortedKeeps(f.Keys);
    SortedKeeps(g.Keys);
    if FingerprintInput(f) == FingerprintInput(g) {
      WrittenApart(f, Sorted(f.Keys), g, Sorted(g.Keys));
      forall p ensures p in f.Keys <==> p in g.Keys {
        assert p in Sorted(f.Keys) <==> p in Sorted(g.Keys);
      }
    }
  }

  /** With one, two different snapshots can look the same. */
  lemma NulHidesAChange()
    ensures FingerprintInput(map["a" := "x\0b\0y"]) == FingerprintInput(map["a" := "x", "b" := "y"])
  {
    var f: Files, g: Files := map["a" := "x\0b\0y"], map["a" := "x", "b" := "y"];
    assert f.Keys == {"a"} && g.Keys == {"a", "b"};
    assert Before("a", "b");
    LeastIsUnique("a", Sorted({"a"})[0], {"a"});
    LeastIsUnique("a", Sorted({"a", "b"})[0], {"a", "b"});
    LeastIsUnique("b", Sorted({"b"})[0], {"b"});
    assert {"a", "b"} - {"a"} == {"b"} && {"a"} - {"a"} == {} && {"b"} - {"b"} == {};
    assert Sorted(f.Keys) == ["a"] && Sorted(g.Keys) == ["a", "b"];
    assert ["a", "b"][1..] == ["b"];
    assert Written(g, ["b"]) == "b\0y\0";
    assert Written(g, ["a", "b"]) == "a\0x\0b\0y\0";
    assert Written(f, ["a"]) == "a\0x\0b\0y\0";
  }
}
