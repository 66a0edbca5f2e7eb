/** The layered configuration: nested dictionaries, deep merge, and the order of the three layers. */
module ConfigMerge {
  import opened Common

  datatype Scalar =
    | Flag(b: bool)
    | Whole(n: int)
    | Number(x: real)
    | Text(s: string)
    | Null
    | Items(elements: seq<Scalar>)

  datatype Value = Leaf(scalar: Scalar) | Dict(entries: map<string, Value>)

  const EMPTY := Dict(map[])

  type Path = seq<string>

  // The value at a path: the empty path is the value itself, and a leaf has nothing below it.
  function At(v: Value, p: Path): Option<Value> {
    if p == [] then Some(v)
    else if v.Dict? && p[0] in v.entries then At(v.entries[p[0]], p[1..])
    else None
  }

  // A plain value stands at a proper prefix of the path.
  predicate Covers(v: Value, p: Path) {
    p != [] && (v.Leaf? || (p[0] in v.entries && Covers(v.entries[p[0]], p[1..])))
  }

  // A layer settles a path when it has anything there, or a plain value on the way to it.
  predicate Settles(v: Value, p: Path) {
    At(v, p).Some? || Covers(v, p)
  }

  // The plain value at a path, as a reader of the loaded configuration sees it.
  function Setting(v: Value, p: Path): Option<Scalar> {
    match At(v, p)
    case Some(Leaf(s)) => Some(s)
    case _ => None
  }

  /******* Deep merge *******/

  function Merged(base: Value, over: Value): (r: Value)
    requires base.Dict? && over.Dict?
    ensures r.Dict?
    decreases over
  {
    Dict(map key | key in base.entries.Keys + over.entries.Keys ::
           if key !in over.entries then base.entries[key]
           else if key in base.entries && base.entries[key].Dict? && over.entries[key].Dict?
           then Merged(base.entries[key], over.entries[key])
           else over.entries[key])
  }

  /** The loop over the overriding entries, in any order, computes the merge. */
  method DeepMerge(base: Value, over: Value) returns (result: Value)
    requires base.Dict? && over.Dict?
    ensures result == Merged(base, over)
    decreases over
  {
    var entries := base.entries;
    var todo := over.entries.Keys;
    while todo != {}
      invariant todo <= over.entries.Keys
      invariant entries.Keys == base.entries.Keys + (over.entries.Keys - todo)
      invariant forall key :: key in entries ==>
        entries[key] == if key in todo then base.entries[key] else Merged(base, over).entries[key]
      decreases todo
    {
      var key :| key in todo;
      var value := over.entries[key];
      if key in entries && entries[key].Dict? && value.Dict? {
        value := DeepMerge(entries[key], value);
      }
      entries := entries[key := value];
      todo := todo - {key};
    }
    result := Dict(entries);
    assert entries == Merged(base, over).entries;
  }

  // Layer 1 is the file, layer 2 the environment, and layer 3 is merged only when it is not empty.
  method LoadLayers(yaml: Value, env: Value, cli: Option<Value>) returns (raw: Value)
    requires yaml.Dict? && env.Dict? && (cli.Some? ==> cli.value.Dict?)
    ensures raw == Loaded(yaml, env, if cli.Some? then cli.value else EMPTY)
  {
    raw := DeepMerge(yaml, env);
    if cli.Some? && cli.value.entries != map[] {
      raw := DeepMerge(raw, cli.value);
    } else {
      EmptyIsIdentity(raw);
    }
  }

  function Loaded(yaml: Value, env: Value, cli: Value): (r: Value)
    requires yaml.Dict? && env.Dict? && cli.Dict?
    ensures r.Dict?
  {
    Merged(Merged(yaml, env), cli)
  }

  lemma EmptyIsIdentity(v: Value)
    requires v.Dict?
    ensures Merged(v, EMPTY) == v && Merged(EMPTY, v) == v
  {
    assert Merged(v, EMPTY).entries == v.entries;
    assert Merged(EMPTY, v).entries == v.entries;
  }

  /******* What stands at a path of a merge *******/

  // The overriding layer decides every path it settles, except that two sections are merged.
  function Overlaid(base: Option<Value>, over: Option<Value>, covered: bool): Option<Value> {
    match over
    case Some(Leaf(_)) => over
    case Some(Dict(_)) => if base.Some? && base.value.Dict? then Some(Merged(base.value, over.value)) else over
    case None => if covered then None else base
  }

  /** What a merge holds at any path. */
  lemma {:induction false} MergeAt(base: Value, over: Value, p: Path)
    requires base.Dict? && over.Dict?
    ensures At(Merged(base, over), p) == Overlaid(At(base, p), At(over, p), Covers(over, p))
    decreases p
  {
    if p != [] && p[0] in over.entries && p[0] in base.entries && base.entries[p[0]].Dict? && over.entries[p[0]].Dict? {
      MergeAt(base.entries[p[0]], over.entries[p[0]], p[1..]);
    } else if p != [] && p[0] in over.entries {
      Below(over.entries[p[0]], p[1..]);
      if p[0] in base.entries {
        Below(base.entries[p[0]], p[1..]);
      }
    }
  }

  // Under a plain value there is nothing.
  lemma Below(v: Value, p: Path)
    ensures v.Leaf? && p != [] ==> At(v, p).None? && Covers(v, p)
    ensures v.Dict? ==> At(v, []) == Some(v)
  {
  }

  /** Every setting comes from the command line if it settles the path, else from the environment if
      that settles it, else from the file. */
  lemma SettingPriority(yaml: Value, env: Value, cli: Value, p: Path)
    requires yaml.Dict? && env.Dict? && cli.Dict?
    ensures Setting(Loaded(yaml, env, cli), p) ==
            if Settles(cli, p) then Setting(cli, p)
            else if Settles(env, p) then Setting(env, p)
            else Setting(yaml, p)
  {
    MergeAt(yaml, env, p);
    MergeAt(Merged(yaml, env), cli, p);
    hide Merged, At, Covers;
  }

  /** Merging the same layer again changes nothing. */
  lemma {:induction false} MergeTwice(base: Value, over: Value)
    requires base.Dict? && over.Dict?
    ensures Merged(Merged(base, over), over) == Merged(base, over)
    decreases over
  {
    var once := Merged(base, over);
    var twice := Merged(once, over);
    forall key | key in once.entries ensures twice.entries[key] == once.entries[key] {
      if key in over.entries && over.entries[key].Dict? {
        var value := over.entries[key];
        MergeSelf(value);
        if key in base.entries && base.entries[key].Dict? {
          MergeTwice(base.entries[key], value);
        }
      }
    }
    assert twice.entries == once.entries;
  }

  lemma {:induction false} MergeSelf(v: Value)
    requires v.Dict?
    ensures Merged(v, v) == v
  {
    forall key | key in v.entries && v.entries[key].Dict?
      ensures Merged(v.entries[key], v.entries[key]) == v.entries[key] {
      MergeSelf(v.entries[key]);
    }
    assert Merged(v, v).entries == v.entries;
  }

  /******* When the grouping of three layers matters *******/

  // Nothing of the base shows through the overriding layer.
  ghost predicate Hides(over: Value, base: Value) {
    forall p: Path :: At(base, p).Some? ==> Settles(over, p)
  }

  /** A merge is the overriding layer alone exactly when that layer settles every path of the base. */
  lemma {:induction false} MergeIsOver(base: Value, over: Value)
    requires base.Dict? && over.Dict?
    ensures Merged(base, over) == over <==> Hides(over, base)
    decreases over
  {
    if Hides(over, base) {
      forall key | key in base.entries + over.entries
        ensures key in over.entries && Merged(base, over).entries[key] == over.entries[key]
      {
        if key in base.entries {
          OneKey(base, key);
          OneKey(over, key);
          assert Settles(over, [key]);
          if base.entries[key].Dict? && over.entries[key].Dict? {
            HiddenBelow(base, over, key);
            MergeIsOver(base.entries[key], over.entries[key]);
          }
        }
      }
      assert Merged(base, over).entries == over.entries;
    } else {
      var p :| At(base, p).Some? && !Settles(over, p);
      MergeAt(base, over, p);
    }
  }

  lemma OneKey(v: Value, key: string)
    requires v.Dict?
    ensures At(v, [key]) == if key in v.entries then Some(v.entries[key]) else None
    ensures !Covers(v, [key])
  {
    assert [key][1..] == [];
  }

  lemma HiddenBelow(base: Value, over: Value, key: string)
    requires base.Dict? && over.Dict? && key in base.entries && key in over.entries && Hides(over, base)
    ensures Hides(over.entries[key], base.entries[key])
  {
    forall p: Path | At(base.entries[key], p).Some? ensures Settles(over.entries[key], p) {
      assert ([key] + p)[1..] == p && At(base, [key] + p).Some?;
      assert Settles(over, [key] + p);
    }
  }

  // The first layer has a section where the second has a plain value and the third a section again,
  // and something in the first section is not settled by the third.
  predicate ClashAt(a: Value, b: Value, c: Value, p: Path, q: Path) {
    match (At(a, p), At(b, p), At(c, p))
    case (Some(Dict(x)), Some(Leaf(_)), Some(Dict(z))) => At(Dict(x), q).Some? && !Settles(Dict(z), q)
    case _ => false
  }

  ghost predicate Clash(a: Value, b: Value, c: Value) {
    exists p: Path, q: Path :: ClashAt(a, b, c, p, q)
  }

  lemma ClashBelow(a: Value, b: Value, c: Value, key: string)
    requires a.Dict? && b.Dict? && c.Dict? && key in a.entries && key in b.entries && key in c.entries
    ensures Clash(a.entries[key], b.entries[key], c.entries[key]) ==> Clash(a, b, c)
  {
    if Clash(a.entries[key], b.entries[key], c.entries[key]) {
      var p, q :| ClashAt(a.entries[key], b.entries[key], c.entries[key], p, q);
      assert ([key] + p)[1..] == p;
      assert ClashAt(a, b, c, [key] + p, q);
    }
  }

  // A clash under a key makes the two groupings differ at that key.
  lemma {:induction false} ClashDiffers(a: Value, b: Value, c: Value, p: Path, q: Path)
    requires a.Dict? && b.Dict? && c.Dict? && ClashAt(a, b, c, p, q)
    ensures Merged(Merged(a, b), c) != Merged(a, Merged(b, c))
    decreases p
  {
    var key, rest := p[0], p[1..];
    assert p == [key] + rest;
    var x, y, z := a.entries[key], b.entries[key], c.entries[key];
    assert At(a, p) == At(x, rest) && At(b, p) == At(y, rest) && At(c, p) == At(z, rest);
    if rest == [] {
      assert At(x, q).Some? && !Settles(z, q);
      MergeIsOver(x, z);
      assert Merged(Merged(a, b), c).entries[key] == z;
      assert Merged(a, Merged(b, c)).entries[key] == Merged(x, z);
    } else {
      assert ClashAt(x, y, z, rest, q);
      ClashDiffers(x, y, z, rest, q);
      assert Merged(Merged(a, b), c).entries[key] == Merged(Merged(x, y), z);
      assert Merged(a, Merged(b, c)).entries[key] == Merged(x, Merged(y, z));
    }
  }

  lemma ReopenedIsSettled(a: Value, b: Value, c: Value, key: string)
    requires a.Dict? && b.Dict? && c.Dict? && !Clash(a, b, c)
    requires key in a.entries && key in b.entries && key in c.entries
    requires a.entries[key].Dict? && b.entries[key].Leaf? && c.entries[key].Dict?
    ensures Merged(a.entries[key], c.entries[key]) == c.entries[key]
  {
    forall q: Path | At(a.entries[key], q).Some? ensures Settles(c.entries[key], q) {
      OneKey(a, key);
      OneKey(b, key);
      OneKey(c, key);
      assert !ClashAt(a, b, c, [key], q);
    }
    MergeIsOver(a.entries[key], c.entries[key]);
  }

  lemma {:induction false} SameEntry(a: Value, b: Value, c: Value, key: string)
    requires a.Dict? && b.Dict? && c.Dict? && !Clash(a, b, c)
    requires key in Merged(Merged(a, b), c).entries
    ensures Merged(Merged(a, b), c).entries[key] == Merged(a, Merged(b, c)).entries[key]
    decreases a, 0
  {
    if key in a.entries && key in b.entries && key in c.entries && a.entries[key].Dict? && c.entries[key].Dict? {
      if b.entries[key].Dict? {
        ClashBelow(a, b, c, key);
        MergeAssociative(a.entries[key], b.entries[key], c.entries[key]);
      } else {
        ReopenedIsSettled(a, b, c, key);
      }
    }
  }

  /** Deep merge is associative exactly when no section of the first layer, flattened by the second and
      reopened by the third, holds a path that the third does not settle. */
  lemma {:induction false} MergeAssociative(a: Value, b: Value, c: Value)
    requires a.Dict? && b.Dict? && c.Dict?
    ensures Merged(Merged(a, b), c) == Merged(a, Merged(b, c)) <==> !Clash(a, b, c)
    decreases a, 1
  {
    if Clash(a, b, c) {
      var p, q :| ClashAt(a, b, c, p, q);
      ClashDiffers(a, b, c, p, q);
    } else {
      var left, right := Merged(Merged(a, b), c), Merged(a, Merged(b, c));
      forall key | key in left.entries ensures left.entries[key] == right.entries[key] {
        SameEntry(a, b, c, key);
      }
      assert left.entries == right.entries;
    }
  }
}
