/** The environment layer: prefixed variables, each set at its own path of one nested dictionary. */
module EnvTree {
  import opened Common
  import opened ConfigMerge

  datatype Fault = PlainValueInTheWay

  type Keys = p: Path | p != [] witness [""]

  datatype Var = Var(path: Keys, value: Scalar)

  /******* Setting one path *******/

  // A missing section is made on the way down; a plain value on the way raises.
  function SetNested(d: Value, keys: Keys, value: Scalar): (r: Result<Value, Fault>)
    requires d.Dict?
    ensures r.Ok? ==> r.value.Dict?
    decreases |keys|
  {
    if |keys| == 1 then Ok(Dict(d.entries[keys[0] := Leaf(value)]))
    else
      var section := if keys[0] in d.entries then d.entries[keys[0]] else EMPTY;
      if section.Leaf? then Err(PlainValueInTheWay)
      else
        match SetNested(section, keys[1..], value)
        case Ok(inner) => Ok(Dict(d.entries[keys[0] := inner]))
        case Err(e) => Err(e)
  }

  // What a tree shows at a path, without what is below.
  datatype Kind = Absent | Plain(scalar: Scalar) | Section

  function KindAt(v: Value, p: Path): Kind {
    match At(v, p)
    case None => Absent
    case Some(Leaf(s)) => Plain(s)
    case Some(Dict(_)) => Section
  }

  /** Setting a path fails exactly when a plain value stands above it. */
  lemma {:induction false} SetNestedFails(d: Value, keys: Keys, value: Scalar)
    requires d.Dict?
    ensures SetNested(d, keys, value).Err? <==> Covers(d, keys)
    decreases |keys|
  {
    if |keys| == 1 {
      assert keys == [keys[0]];
      OneKey(d, keys[0]);
    } else if keys[0] !in d.entries {
      SetNestedFails(EMPTY, keys[1..], value);
      NothingInEmpty(keys[1..]);
    } else if d.entries[keys[0]].Dict? {
      SetNestedFails(d.entries[keys[0]], keys[1..], value);
    } else {
      Below(d.entries[keys[0]], keys[1..]);
    }
  }

  // What a dictionary shows after one of its entries is set.
  lemma KindBelow(d: Value, key: string, inner: Value, p: Path)
    requires d.Dict?
    ensures KindAt(Dict(d.entries[key := inner]), p) ==
            if p == [] then Section else if p[0] == key then KindAt(inner, p[1..]) else KindAt(d, p)
  {
  }

  // Comparing two paths with the same first key compares what follows it.
  lemma SameFirst(p: Path, keys: Path)
    requires p != [] && keys != [] && p[0] == keys[0]
    ensures (p == keys <==> p[1..] == keys[1..]) && (p < keys <==> p[1..] < keys[1..])
    ensures keys < p <==> keys[1..] < p[1..]
  {
    assert p == [p[0]] + p[1..] && keys == [keys[0]] + keys[1..];
  }

  lemma KindOfLeaf(value: Scalar, p: Path)
    ensures KindAt(Leaf(value), p) == if p == [] then Plain(value) else Absent
  {
  }

  // One step down the path: the section under the first key, made if it is missing.
  lemma SetStep(d: Value, keys: Keys, value: Scalar) returns (section: Value, inner: Value)
    requires d.Dict? && |keys| > 1 && SetNested(d, keys, value).Ok?
    ensures section == (if keys[0] in d.entries then d.entries[keys[0]] else EMPTY) && section.Dict?
    ensures SetNested(section, keys[1..], value) == Ok(inner)
    ensures SetNested(d, keys, value) == Ok(Dict(d.entries[keys[0] := inner]))
    ensures forall p: Path :: p != [] && p[0] == keys[0] ==> KindAt(d, p) == KindAt(section, p[1..]) || p[1..] == []
  {
    section := if keys[0] in d.entries then d.entries[keys[0]] else EMPTY;
    inner := SetNested(section, keys[1..], value).value;
    forall p: Path | p != [] && p[0] == keys[0] && p[1..] != [] ensures KindAt(d, p) == KindAt(section, p[1..]) {
      NothingInEmpty(p[1..]);
    }
  }

  /** Otherwise it changes that path, the sections above it and what was below it, and nothing else. */
  lemma {:induction false} SetNestedAt(d: Value, keys: Keys, value: Scalar, p: Path)
    requires d.Dict? && SetNested(d, keys, value).Ok?
    ensures KindAt(SetNested(d, keys, value).value, p) ==
              if p == keys then Plain(value)
              else if p < keys then Section
              else if keys < p then Absent
              else KindAt(d, p)
    decreases |keys|
  {
    hide KindAt;
    if p != [] && p[0] == keys[0] {
      SameFirst(p, keys);
    }
    if |keys| == 1 {
      KindBelow(d, keys[0], Leaf(value), p);
      if p != [] {
        KindOfLeaf(value, p[1..]);
      }
    } else {
      hide SetNested;
      var section, inner := SetStep(d, keys, value);
      KindBelow(d, keys[0], inner, p);
      if p != [] {
        SetNestedAt(section, keys[1..], value, p[1..]);
      }
    }
  }

  lemma NothingInEmpty(p: Path)
    ensures p != [] ==> At(EMPTY, p).None? && !Covers(EMPTY, p)
  {
  }

  // A path is covered exactly when a plain value stands at some proper prefix.
  lemma {:induction false} CoveredBy(v: Value, p: Path) returns (q: Path)
    requires Covers(v, p)
    ensures q < p && KindAt(v, q).Plain?
  {
    if v.Leaf? {
      q := [];
    } else {
      var below := CoveredBy(v.entries[p[0]], p[1..]);
      q := [p[0]] + below;
      assert q[1..] == below;
    }
  }

  /******* All the variables *******/

  function Extended(r: Result<Value, Fault>, x: Var): (s: Result<Value, Fault>)
    requires r.Ok? ==> r.value.Dict?
    ensures s.Ok? ==> s.value.Dict?
  {
    if r.Err? then r else SetNested(r.value, x.path, x.value)
  }

  // Each variable in turn, from the empty dictionary.
  function Assembled(items: seq<Var>): (r: Result<Value, Fault>)
    ensures r.Ok? ==> r.value.Dict?
  {
    if items == [] then Ok(EMPTY) else Extended(Assembled(items[..|items| - 1]), items[|items| - 1])
  }

  const PREFIX := "QUANTFLOW_"

  function Lower(name: string): (r: string)
    ensures |r| == |name|
  {
    seq(|name|, k requires 0 <= k < |name| => if 'A' <= name[k] <= 'Z' then name[k] - 'A' + 'a' else name[k])
  }

  // Splitting at each double underscore, from the left and without overlap.
  function Split(s: string): (parts: Keys) {
    if |s| < 2 then [s]
    else if s[..2] == "__" then [""] + Split(s[2..])
    else
      var rest := Split(s[1..]);
      [[s[0]] + rest[0]] + rest[1..]
  }

  function Join(parts: seq<string>): string {
    if parts == [] then ""
    else if |parts| == 1 then parts[0]
    else parts[0] + "__" + Join(parts[1..])
  }

  lemma JoinEmptyFirst(rest: seq<string>)
    requires rest != []
    ensures Join([""] + rest) == "__" + Join(rest)
  {
    assert ([""] + rest)[1..] == rest;
    assert "" + "__" + Join(rest) == "__" + Join(rest);
  }

  lemma JoinLongerFirst(c: char, rest: seq<string>)
    requires rest != []
    ensures Join([[c] + rest[0]] + rest[1..]) == [c] + Join(rest)
  {
    var longer := [[c] + rest[0]] + rest[1..];
    assert longer[1..] == rest[1..] && longer[0] == [c] + rest[0] && |longer| == |rest|;
    if |rest| > 1 {
      var tail := Join(rest[1..]);
      assert ([c] + rest[0]) + "__" + tail == [c] + (rest[0] + "__" + tail);
    }
  }

  /** Splitting loses nothing, so variables whose names differ other than in case have different paths. */
  lemma {:induction false} JoinSplit(s: string)
    ensures Join(Split(s)) == s
  {
    if |s| >= 2 {
      hide Join;
      if s[..2] == "__" {
        JoinSplit(s[2..]);
        JoinEmptyFirst(Split(s[2..]));
        assert s == s[..2] + s[2..];
      } else {
        JoinSplit(s[1..]);
        JoinLongerFirst(s[0], Split(s[1..]));
        assert s == [s[0]] + s[1..];
      }
    }
  }

  // The variables the loader looks at, in the order of the environment.
  function Vars(environ: seq<(string, string)>, parse: string -> Scalar): seq<Var> {
    if environ == [] then []
    else
      var (name, raw) := environ[|environ| - 1];
      Vars(environ[..|environ| - 1], parse) +
      if PREFIX <= name then [Var(Split(Lower(name[|PREFIX|..])), parse(raw))] else []
  }

  lemma AssembledStep(items: seq<Var>, x: Var)
    ensures Assembled(items + [x]) == Extended(Assembled(items), x)
  {
    assert (items + [x])[..|items|] == items;
  }

  lemma VarsStep(environ: seq<(string, string)>, i: nat, parse: string -> Scalar)
    requires i < |environ|
    ensures Vars(environ[..i + 1], parse) ==
            if PREFIX <= environ[i].0
            then Vars(environ[..i], parse) + [Var(Split(Lower(environ[i].0[|PREFIX|..])), parse(environ[i].1))]
            else Vars(environ[..i], parse)
  {
    assert environ[..i + 1][..i] == environ[..i];
  }

  /** The loader's loop: it stops with an error at the first path it cannot walk. */
  method LoadEnvOverrides(environ: seq<(string, string)>, parse: string -> Scalar)
      returns (result: Result<Value, Fault>)
    ensures result == Assembled(Vars(environ, parse))
  {
    hide Vars, Assembled, SetNested, Split, Lower;
    var tree := EMPTY;
    var i := 0;
    assert Vars(environ[..0], parse) == [] && Assembled([]) == Ok(EMPTY) by {
      NothingYet(environ, parse);
    }
    while i < |environ|
      invariant 0 <= i <= |environ| && tree.Dict?
      invariant Assembled(Vars(environ[..i], parse)) == Ok(tree)
    {
      var (name, raw) := environ[i];
      VarsStep(environ, i, parse);
      if PREFIX <= name {
        var path := Split(Lower(name[|PREFIX|..]));
        var grown := SetNested(tree, path, parse(raw));
        AssembledStep(Vars(environ[..i], parse), Var(path, parse(raw)));
        if grown.Err? {
          VarsPrefix(environ, i + 1, parse);
          var met := Vars(environ[..i + 1], parse);
          var unmet := Vars(environ, parse)[|met|..];
          assert met + unmet == Vars(environ, parse);
          ErrorStays(met, unmet);
          return grown;
        }
        tree := grown.value;
      }
      i := i + 1;
    }
    assert environ[..i] == environ;
    result := Ok(tree);
  }

  lemma NothingYet(environ: seq<(string, string)>, parse: string -> Scalar)
    ensures Vars(environ[..0], parse) == [] && Assembled([]) == Ok(EMPTY)
  {
  }

  lemma {:induction false} VarsPrefix(environ: seq<(string, string)>, i: nat, parse: string -> Scalar)
    requires i <= |environ|
    ensures Vars(environ[..i], parse) <= Vars(environ, parse)
  {
    if i == |environ| {
      assert environ[..i] == environ;
    } else {
      VarsPrefix(environ[..|environ| - 1], i, parse);
      assert environ[..|environ| - 1][..i] == environ[..i];
    }
  }

  lemma {:induction false} ErrorStays(items: seq<Var>, more: seq<Var>)
    requires Assembled(items).Err?
    ensures Assembled(items + more) == Assembled(items)
  {
    if more == [] {
      assert items + more == items;
    } else {
      ErrorStays(items, more[..|more| - 1]);
      assert (items + more)[..|items + more| - 1] == items + more[..|more| - 1];
    }
  }

  /******* When the order of the environment matters *******/

  // No variable's path equals or continues another's.
  ghost predicate Consistent(items: seq<Var>) {
    forall x, y :: x in items && y in items && x.path <= y.path ==> x == y
  }

  // The value given to a path, and whether something is set below it.
  function LastAt(items: seq<Var>, p: Path): Option<Scalar> {
    if items == [] then None
    else if items[|items| - 1].path == p then Some(items[|items| - 1].value)
    else LastAt(items[..|items| - 1], p)
  }

  ghost predicate Deeper(items: seq<Var>, p: Path) {
    exists x :: x in items && p < x.path
  }

  ghost function Expected(items: seq<Var>, p: Path): Kind {
    if LastAt(items, p).Some? then Plain(LastAt(items, p).value)
    else if p == [] || Deeper(items, p) then Section
    else Absent
  }

  lemma {:induction false} LastAtIn(items: seq<Var>, p: Path)
    ensures LastAt(items, p).Some? ==> exists x :: x in items && x.path == p && x.value == LastAt(items, p).value
    ensures LastAt(items, p).None? ==> forall x :: x in items ==> x.path != p
  {
    if items != [] {
      LastAtIn(items[..|items| - 1], p);
      assert items == items[..|items| - 1] + [items[|items| - 1]];
    }
  }

  lemma ExpectedStep(items: seq<Var>, x: Var, p: Path)
    requires Consistent(items + [x])
    ensures Expected(items + [x], p) ==
            if p == x.path then Plain(x.value)
            else if p < x.path then Section
            else if x.path < p then Absent
            else Expected(items, p)
  {
    assert (items + [x])[..|items|] == items;
    assert x in items + [x] && forall y :: y in items ==> y in items + [x];
    LastAtIn(items, p);
    if p != x.path && !(p < x.path) {
      assert Deeper(items + [x], p) == Deeper(items, p);
    }
  }

  /** Variables whose paths neither equal nor continue one another never fail, and the tree they make
      holds each of them at its path, sections above them, and nothing more. */
  lemma {:induction false} AssembledShows(items: seq<Var>, p: Path)
    requires Consistent(items)
    ensures Assembled(items).Ok? && KindAt(Assembled(items).value, p) == Expected(items, p)
  {
    if items == [] {
      NothingInEmpty(p);
    } else {
      var before, x := items[..|items| - 1], items[|items| - 1];
      assert before + [x] == items;
      AssembledShows(before, p);
      var tree := Assembled(before).value;
      SetNestedFails(tree, x.path, x.value);
      if Covers(tree, x.path) {
        var q := CoveredBy(tree, x.path);
        AssembledShows(before, q);
        LastAtIn(before, q);
        assert false;
      }
      SetNestedAt(tree, x.path, x.value, p);
      ExpectedStep(before, x, p);
    }
  }

  // Two trees that show the same at every path are the same tree.
  lemma {:induction false} SameShown(v: Value, w: Value)
    requires forall p: Path :: KindAt(v, p) == KindAt(w, p)
    ensures v == w
  {
    assert KindAt(v, []) == KindAt(w, []);
    if v.Dict? {
      forall key ensures key in v.entries <==> key in w.entries {
        OneKey(v, key);
        OneKey(w, key);
        assert KindAt(v, [key]) == KindAt(w, [key]);
      }
      forall key | key in v.entries ensures v.entries[key] == w.entries[key] {
        forall p: Path ensures KindAt(v.entries[key], p) == KindAt(w.entries[key], p) {
          assert ([key] + p)[1..] == p;
          assert KindAt(v, [key] + p) == KindAt(w, [key] + p);
        }
        SameShown(v.entries[key], w.entries[key]);
      }
      assert v.entries == w.entries;
    }
  }

  /** So the tree depends only on which variables there are, not on their order or repetition. */
  lemma SameVariablesSameTree(items: seq<Var>, others: seq<Var>)
    requires Consistent(items) && forall x :: x in items <==> x in others
    ensures Assembled(others) == Assembled(items)
  {
    AssembledShows(items, []);
    AssembledShows(others, []);
    var v, w := Assembled(items).value, Assembled(others).value;
    forall p: Path ensures KindAt(v, p) == KindAt(w, p) {
      AssembledShows(items, p);
      AssembledShows(others, p);
      LastAtIn(items, p);
      LastAtIn(others, p);
    }
    SameShown(v, w);
  }
}
