/** Replacing %{NAME} in a rule file by environment values. */
module Substitution {
  import opened Alerts

  predicate OpensAt(s: string, i: int) {
    0 <= i && i + 1 < |s| && s[i] == '%' && s[i + 1] == '{'
  }

  /** Index of the first "%{". */
  function Opening(s: string): (r: Option<nat>)
    ensures r.Some? ==> OpensAt(s, r.value) && forall j :: j < r.value ==> !OpensAt(s, j)
    ensures r.None? ==> forall j :: !OpensAt(s, j)
  {
    OpeningFrom(s, 0)
  }

  function OpeningFrom(s: string, from: nat): (r: Option<nat>)
    ensures r.Some? ==> from <= r.value && OpensAt(s, r.value) && forall j :: from <= j < r.value ==> !OpensAt(s, j)
    ensures r.None? ==> forall j :: from <= j ==> !OpensAt(s, j)
    decreases |s| - from
  {
    if from >= |s| then None else if OpensAt(s, from) then Some(from) else OpeningFrom(s, from + 1)
  }

  /** Index of the first "}" from `from` on. */
  function Closing(s: string, from: nat): (r: Option<nat>)
    requires from <= |s|
    ensures r.Some? ==> from <= r.value < |s| && s[r.value] == '}' && forall j :: from <= j < r.value ==> s[j] != '}'
    ensures r.None? ==> forall j :: from <= j < |s| ==> s[j] != '}'
    decreases |s| - from
  {
    if from == |s| then None else if s[from] == '}' then Some(from) else Closing(s, from + 1)
  }

  /** One replacement: the first "%{" and the first "}" after it. */
  function Once(s: string, env: string -> string): Option<string> {
    var start := Opening(s);
    if start.None? then None
    else
      var end := Closing(s, start.value);
      if end.None? || end.value < start.value + 2 then None
      else Some(s[..start.value] + env(s[start.value + 2..end.value]) + s[end.value + 1..])
  }

  /** A complete placeholder. */
  ghost predicate HasPlaceholder(s: string) {
    exists i, j :: OpensAt(s, i) && i < j < |s| && s[j] == '}'
  }

  /** There is something to replace exactly while a complete placeholder is left. */
  lemma OnceWhilePlaceholder(s: string, env: string -> string)
    ensures Once(s, env).Some? <==> HasPlaceholder(s)
  {
    var start := Opening(s);
    if start.Some? {
      var end := Closing(s, start.value);
      if end.Some? {
        assert OpensAt(s, start.value) && s[end.value] == '}';
      }
    }
    if HasPlaceholder(s) {
      var i, j :| OpensAt(s, i) && i < j < |s| && s[j] == '}';
      assert start.Some? && start.value <= i;
    }
  }

  /** No value holds the character. */
  ghost predicate FreeOf(env: string -> string, c: char) {
    forall name :: c !in env(name)
  }

  ghost predicate PercentFree(env: string -> string) {
    FreeOf(env, '%')
  }

  /** The characters that every placeholder has. */
  predicate Marks(c: char) {
    c == '%' || c == '{' || c == '}'
  }

  function Count(s: string, c: char): nat {
    multiset(s)[c]
  }

  /** Each replacement uses up one of each mark that no value brings back, though the text may grow. */
  lemma OnceUsesMark(s: string, env: string -> string, c: char)
    requires Marks(c) && FreeOf(env, c)
    requires Once(s, env).Some?
    ensures Count(Once(s, env).value, c) < Count(s, c)
  {
    var start, end := Opening(s).value, Closing(s, Opening(s).value).value;
    var value := env(s[start + 2..end]);
    var a, b, rest := s[..start], s[start..end + 1], s[end + 1..];
    Cut(s, start, end + 1);
    assert b[0] == '%' && b[1] == '{' && b[|b| - 1] == '}';
    assert c in b;
    assert Count(b, c) > 0 && Count(value, c) == 0;
    CountJoin(a, b, rest, c);
    CountJoin(a, value, rest, c);
  }

  lemma Cut(s: string, i: nat, j: nat)
    requires i <= j <= |s|
    ensures s == s[..i] + s[i..j] + s[j..]
  {
  }

  lemma CountJoin(a: string, b: string, rest: string, c: char)
    ensures Count(a + b + rest, c) == Count(a, c) + Count(b, c) + Count(rest, c)
  {
  }

  /** Replacing until nothing is left to replace, which ends if some mark is never brought back. */
  ghost function Substituted(s: string, env: string -> string, c: char): string
    requires Marks(c) && FreeOf(env, c)
    decreases Count(s, c)
  {
    if Once(s, env).None? then s
    else
      OnceUsesMark(s, env, c);
      Substituted(Once(s, env).value, env, c)
  }

  lemma OneStep(s: string, next: string, env: string -> string, c: char)
    requires Marks(c) && FreeOf(env, c)
    requires Once(s, env) == Some(next)
    ensures Substituted(s, env, c) == Substituted(next, env, c) && Count(next, c) < Count(s, c)
  {
    OnceUsesMark(s, env, c);
  }

  method EnvSubstitute(data: string, env: string -> string, ghost c: char) returns (s: string)
    requires Marks(c) && FreeOf(env, c)
    ensures s == Substituted(data, env, c)
    ensures !HasPlaceholder(s)
  {
    s := data;
    while true
      invariant Substituted(s, env, c) == Substituted(data, env, c)
      decreases Count(s, c)
    {
      OnceWhilePlaceholder(s, env);
      var start := Opening(s);
      if start.None? {
        break;
      }
      var end := Closing(s, start.value);
      if end.None? {
        break;
      }
      var next := s[..start.value] + env(s[start.value + 2..end.value]) + s[end.value + 1..];
      OneStep(s, next, env, c);
      s := next;
    }
  }

  /** A value that names its own placeholder is replaced by itself for ever. */
  lemma SelfReferenceLoops(env: string -> string)
    requires env("A") == "%{A}"
    ensures Once("%{A}", env) == Some("%{A}")
  {
    var s := "%{A}";
    FirstAt(s, 0, 3);
    assert s[2..3] == "A";
    assert s[..0] + "%{A}" + s[4..] == "%{A}";
  }

  // ----- One pass -----

  /** What a single pass makes of a text: replaced values are not looked at again. */
  function OnePass(s: string, env: string -> string): string
    decreases |s|
  {
    var start := Opening(s);
    if start.None? then s
    else
      var end := Closing(s, start.value);
      if end.None? || end.value < start.value + 2 then s
      else s[..start.value] + env(s[start.value + 2..end.value]) + OnePass(s[end.value + 1..], env)
  }

  /** No percent sign stands right before a placeholder. */
  ghost predicate Apart(s: string) {
    forall i :: 0 < i && OpensAt(s, i) ==> s[i - 1] != '%'
  }

  /** Text already passed: no placeholder opens in it, nor could one open across its end. */
  ghost predicate Passed(p: string) {
    (forall j :: !OpensAt(p, j)) && (p != [] ==> p[|p| - 1] != '%')
  }

  lemma OpeningAfter(p: string, t: string)
    requires Passed(p)
    ensures Opening(p + t) == if Opening(t).None? then None else Some(|p| + Opening(t).value)
  {
    forall j | OpensAt(p + t, j) ensures j >= |p| && OpensAt(t, j - |p|) {
      assert !OpensAt(p, j);
    }
    if Opening(t).Some? {
      assert OpensAt(p + t, |p| + Opening(t).value);
    }
  }

  lemma {:induction false} ClosingAfter(p: string, t: string, from: nat)
    requires from <= |t|
    ensures Closing(p + t, |p| + from) == if Closing(t, from).None? then None else Some(|p| + Closing(t, from).value)
    decreases |t| - from
  {
    if from < |t| && t[from] != '}' {
      ClosingAfter(p, t, from + 1);
    }
  }

  /** Replacing over and over is a single pass, unless a percent sign touches a placeholder. */
  lemma SubstitutionIsOnePass(s: string, env: string -> string)
    requires PercentFree(env) && Apart(s)
    ensures Substituted(s, env, '%') == OnePass(s, env)
  {
    RestIsOnePass([], s, env);
    NothingBefore(s);
    NothingBefore(OnePass(s, env));
  }

  lemma NothingBefore(s: string)
    ensures [] + s == s
  {
  }

  lemma CutBehind(p: string, t: string, i: nat, j: nat, k: nat)
    requires i <= j <= k < |t|
    ensures (p + t)[..|p| + i] == p + t[..i]
    ensures (p + t)[|p| + j..|p| + k] == t[j..k]
    ensures (p + t)[|p| + k + 1..] == t[k + 1..]
  {
  }

  lemma Join(p: string, a: string, b: string, c: string)
    ensures (p + a) + b + c == p + (a + b + c)
  {
  }

  /** A replacement behind passed text leaves that text alone. */
  lemma OnceAfter(p: string, t: string, env: string -> string)
    requires Passed(p)
    ensures Once(p + t, env) == if Once(t, env).None? then None else Some(p + Once(t, env).value)
  {
    OpeningAfter(p, t);
    var start := Opening(t);
    if start.Some? {
      ClosingAfter(p, t, start.value);
      var end := Closing(t, start.value);
      if end.Some? && end.value >= start.value + 2 {
        var value := env(t[start.value + 2..end.value]);
        CutBehind(p, t, start.value, start.value + 2, end.value);
        Join(p, t[..start.value], value, t[end.value + 1..]);
      }
    }
  }

  lemma ApartAfter(t: string, k: nat)
    requires Apart(t) && k <= |t|
    ensures Apart(t[k..])
  {
    forall i | 0 < i && OpensAt(t[k..], i) ensures t[k..][i - 1] != '%' {
      assert OpensAt(t, k + i);
    }
  }

  lemma {:induction false} RestIsOnePass(p: string, t: string, env: string -> string)
    requires PercentFree(env) && Passed(p) && Apart(t)
    ensures Substituted(p + t, env, '%') == p + OnePass(t, env)
    decreases |t|
  {
    OnceAfter(p, t, env);
    if Once(t, env).None? {
      NothingLeft(t, env);
    } else {
      var p', rest := PassOn(p, t, env);
      RestIsOnePass(p', rest, env);
      OneStep(p + t, p' + rest, env, '%');
    }
  }

  lemma NothingLeft(t: string, env: string -> string)
    requires Once(t, env).None?
    ensures OnePass(t, env) == t
  {
  }

  /** One replacement moves the passed text on; what is left is shorter and still apart. */
  lemma PassOn(p: string, t: string, env: string -> string) returns (p': string, rest: string)
    requires PercentFree(env) && Passed(p) && Apart(t) && Once(t, env).Some?
    ensures Passed(p') && Apart(rest) && |rest| < |t|
    ensures p + Once(t, env).value == p' + rest
    ensures p + OnePass(t, env) == p' + OnePass(rest, env)
  {
    var start, end, value := FirstStep(t, env);
    var front := t[..start] + value;
    p', rest := p + front, t[end + 1..];
    ApartAfter(t, end + 1);
    PassedGrows(p, t, start, value);
    assert (p + t[..start]) + value == p + front;
    Regroup(p, front, rest, OnePass(rest, env));
  }

  lemma Regroup(p: string, front: string, rest: string, passed: string)
    ensures p + (front + rest) == (p + front) + rest
    ensures p + (front + passed) == (p + front) + passed
  {
  }

  /** Looping and passing once take the same first step: what is replaced, then what follows it. */
  lemma FirstStep(t: string, env: string -> string) returns (start: nat, end: nat, value: string)
    requires PercentFree(env) && Once(t, env).Some?
    ensures start < end < |t| && Opening(t) == Some(start) && '%' !in value
    ensures Once(t, env) == Some(t[..start] + value + t[end + 1..])
    ensures OnePass(t, env) == t[..start] + value + OnePass(t[end + 1..], env)
  {
    start, end := Opening(t).value, Closing(t, Opening(t).value).value;
    value := env(t[start + 2..end]);
    PassStep(t, env, start, end);
  }

  lemma PassStep(t: string, env: string -> string, start: nat, end: nat)
    requires Opening(t) == Some(start) && Closing(t, start) == Some(end) && end >= start + 2
    ensures OnePass(t, env) == t[..start] + env(t[start + 2..end]) + OnePass(t[end + 1..], env)
  {
  }

  lemma PassedGrows(p: string, t: string, start: nat, value: string)
    requires Passed(p) && Apart(t) && '%' !in value
    requires Opening(t) == Some(start)
    ensures Passed(p + t[..start] + value)
  {
    var p' := p + t[..start] + value;
    assert start > 0 ==> t[start - 1] != '%';
    forall j ensures !OpensAt(p', j) {
      assert !OpensAt(p, j);
      assert j - |p| < start ==> !OpensAt(t, j - |p|);
      if |p| + start <= j < |p'| {
        assert p'[j] == value[j - |p| - start];
      }
    }
    if value != [] {
      assert p'[|p'| - 1] == value[|value| - 1];
    }
  }

  lemma FirstAt(s: string, start: nat, end: nat)
    requires OpensAt(s, start) && forall j :: 0 <= j < start ==> !OpensAt(s, j)
    requires start < end < |s| && s[end] == '}' && forall j :: start <= j < end ==> s[j] != '}'
    ensures Opening(s) == Some(start) && Closing(s, start) == Some(end)
  {
  }

  /** Where one does, a single pass can leave a placeholder that the loop goes on to replace. */
  lemma TouchingPercentGoesOn(env: string -> string)
    requires env("A") == ""
    ensures !Apart("%%{A}{B}")
    ensures Once("%%{A}{B}", env) == Some("%{B}") && HasPlaceholder("%{B}")
    ensures OnePass("%%{A}{B}", env) == "%{B}"
  {
    var s, rest := "%%{A}{B}", "{B}";
    TouchingText();
    FirstAt(s, 1, 4);
    assert s[3..4] == "A" && s[..1] == "%" && s[5..] == rest;
    NoOpening(rest);
    assert OnePass(rest, env) == rest;
    assert "%" + "" + rest == "%{B}";
  }

  lemma TouchingText()
    ensures OpensAt("%%{A}{B}", 1) && !OpensAt("%%{A}{B}", 0) && !Apart("%%{A}{B}")
    ensures forall j :: 1 <= j < 4 ==> "%%{A}{B}"[j] != '}'
    ensures HasPlaceholder("%{B}")
  {
    var s := "%%{A}{B}";
    assert OpensAt(s, 1) && s[0] == '%';
    assert OpensAt("%{B}", 0) && "%{B}"[3] == '}';
  }

  lemma NoOpening(s: string)
    requires |s| > 0 && forall j :: 0 <= j < |s| ==> s[j] != '%'
    ensures Opening(s).None?
  {
  }
}
