/** Deep merge on dictionaries as objects: the result is a dictionary of its own, which shares nothing with
    the base; the base and the overriding layer are left as they were. */
module ConfigDicts {
  import opened ConfigMerge

  datatype Node = Plain(scalar: Scalar) | Sub(section: Section)

  class Section {
    var entries: map<string, Node>

    constructor (entries: map<string, Node>)
      ensures this.entries == entries
    {
      this.entries := entries;
    }
  }

  // Everything below lies in the footprint, at most so deep.
  ghost predicate NodeIn(node: Node, repr: set<Section>, n: nat)
    reads repr
    decreases n, 1
  {
    node.Sub? ==> n > 0 && node.section in repr && Within(node.section.entries, repr, n - 1)
  }

  ghost predicate Within(entries: map<string, Node>, repr: set<Section>, n: nat)
    reads repr
    decreases n, 2
  {
    forall key :: key in entries ==> NodeIn(entries[key], repr, n)
  }

  // The nested dictionary as a value.
  ghost function NodeValue(node: Node, repr: set<Section>, n: nat): Value
    requires NodeIn(node, repr, n)
    reads repr
    decreases n, 1
  {
    match node
    case Plain(scalar) => Leaf(scalar)
    case Sub(section) => ValueOf(section.entries, repr, n - 1)
  }

  ghost function ValueOf(entries: map<string, Node>, repr: set<Section>, n: nat): (v: Value)
    requires Within(entries, repr, n)
    reads repr
    ensures v.Dict? && v.entries.Keys == entries.Keys
    decreases n, 2
  {
    Dict(map key | key in entries :: NodeValue(entries[key], repr, n))
  }

  // A larger footprint and a greater depth change nothing.
  lemma {:induction false} NodeWider(node: Node, repr: set<Section>, n: nat, wide: set<Section>, deep: nat)
    requires repr <= wide && n <= deep && NodeIn(node, repr, n)
    ensures NodeIn(node, wide, deep) && NodeValue(node, wide, deep) == NodeValue(node, repr, n)
    decreases n, 1
  {
    if node.Sub? {
      Wider(node.section.entries, repr, n - 1, wide, deep - 1);
    }
  }

  lemma {:induction false} Wider(entries: map<string, Node>, repr: set<Section>, n: nat, wide: set<Section>, deep: nat)
    requires repr <= wide && n <= deep && Within(entries, repr, n)
    ensures Within(entries, wide, deep) && ValueOf(entries, wide, deep) == ValueOf(entries, repr, n)
    decreases n, 2
  {
    forall key | key in entries
      ensures NodeIn(entries[key], wide, deep)
      ensures NodeValue(entries[key], wide, deep) == NodeValue(entries[key], repr, n)
    {
      NodeWider(entries[key], repr, n, wide, deep);
    }
  }

  // Entries that hold the values of others, in a footprint of their own.
  ghost predicate Holds(copy: map<string, Node>, made: set<Section>, n: nat, values: map<string, Value>)
    reads made
  {
    forall key :: key in copy ==>
      key in values && NodeIn(copy[key], made, n) && NodeValue(copy[key], made, n) == values[key]
  }

  lemma HoldsMore(copy: map<string, Node>, made: set<Section>, n: nat, values: map<string, Value>, key: string,
      node: Node, wide: set<Section>)
    requires Holds(copy, made, n, values) && made <= wide
    requires key in values && NodeIn(node, wide, n) && NodeValue(node, wide, n) == values[key]
    ensures Holds(copy[key := node], wide, n, values)
  {
    forall other | other in copy
      ensures NodeIn(copy[other], wide, n) && NodeValue(copy[other], wide, n) == values[other]
    {
      NodeWider(copy[other], made, n, wide, n);
    }
  }

  lemma HoldsAll(copy: map<string, Node>, made: set<Section>, n: nat, values: map<string, Value>)
    requires Holds(copy, made, n, values) && copy.Keys == values.Keys
    ensures Within(copy, made, n) && ValueOf(copy, made, n) == Dict(values)
  {
    assert ValueOf(copy, made, n).entries == values;
  }

  lemma SubIs(section: Section, repr: set<Section>, n: nat)
    requires n > 0 && section in repr && Within(section.entries, repr, n - 1)
    ensures NodeIn(Sub(section), repr, n)
    ensures NodeValue(Sub(section), repr, n) == ValueOf(section.entries, repr, n - 1)
  {
  }

  lemma EntryOf(entries: map<string, Node>, repr: set<Section>, n: nat, key: string)
    requires Within(entries, repr, n) && key in entries
    ensures NodeIn(entries[key], repr, n) && ValueOf(entries, repr, n).entries[key] == NodeValue(entries[key], repr, n)
    ensures entries[key].Plain? ==> NodeValue(entries[key], repr, n) == Leaf(entries[key].scalar)
    ensures entries[key].Sub? ==>
              var section := entries[key].section;
              && n > 0 && section in repr && Within(section.entries, repr, n - 1)
              && NodeValue(entries[key], repr, n) == ValueOf(section.entries, repr, n - 1)
  {
  }

  lemma PlainIs(scalar: Scalar, repr: set<Section>, n: nat)
    ensures NodeIn(Plain(scalar), repr, n) && NodeValue(Plain(scalar), repr, n) == Leaf(scalar)
  {
  }

  // copy.deepcopy: new sections all the way down.
  method DeepCopy(entries: map<string, Node>, ghost repr: set<Section>, ghost n: nat)
      returns (copy: map<string, Node>, ghost made: set<Section>)
    requires Within(entries, repr, n)
    ensures fresh(made) && Within(copy, made, n)
    ensures ValueOf(copy, made, n) == ValueOf(entries, repr, n)
    decreases n
  {
    hide *;
    copy, made := map[], {};
    var todo := entries.Keys;
    ghost var values := ValueOf(entries, repr, n).entries;
    HoldsNothing(made, n, values);
    while todo != {}
      invariant todo <= entries.Keys && copy.Keys == entries.Keys - todo
      invariant fresh(made) && Holds(copy, made, n, values)
      decreases todo
    {
      var key :| key in todo;
      EntryOf(entries, repr, n, key);
      match entries[key] {
        case Plain(scalar) =>
          PlainIs(scalar, made, n);
          HoldsMore(copy, made, n, values, key, Plain(scalar), made);
          copy := copy[key := Plain(scalar)];
        case Sub(section) =>
          var below, more := DeepCopy(section.entries, repr, n - 1);
          var section' := new Section(below);
          ghost var wide := made + more + {section'};
          Wider(below, more, n - 1, wide, n - 1);
          SubIs(section', wide, n);
          HoldsMore(copy, made, n, values, key, Sub(section'), wide);
          copy, made := copy[key := Sub(section')], wide;
      }
      todo := todo - {key};
    }
    HoldsAll(copy, made, n, values);
  }

  lemma HoldsNothing(made: set<Section>, n: nat, values: map<string, Value>)
    ensures Holds(map[], made, n, values)
  {
  }

  /******* Deep merge *******/

  lemma MergedEntry(base: Value, over: Value, key: string)
    requires base.Dict? && over.Dict?
    ensures key in Merged(base, over).entries <==> key in base.entries || key in over.entries
    ensures key in base.entries && key !in over.entries ==> Merged(base, over).entries[key] == base.entries[key]
    ensures key in over.entries ==>
              Merged(base, over).entries[key] ==
              if key in base.entries && base.entries[key].Dict? && over.entries[key].Dict?
              then Merged(base.entries[key], over.entries[key]) else over.entries[key]
  {
  }

  // What the overriding layer leaves alone is the base's.
  lemma Untouched(copy: map<string, Node>, made: set<Section>, n: nat, over: Value, wide: set<Section>, deep: nat)
    requires Within(copy, made, n) && over.Dict? && made <= wide && n <= deep
    ensures Holds(copy - over.entries.Keys, wide, deep, Merged(ValueOf(copy, made, n), over).entries)
  {
    var base := ValueOf(copy, made, n);
    forall key | key in copy - over.entries.Keys
      ensures key in Merged(base, over).entries && NodeIn(copy[key], wide, deep)
      ensures NodeValue(copy[key], wide, deep) == Merged(base, over).entries[key]
    {
      EntryOf(copy, made, n, key);
      NodeWider(copy[key], made, n, wide, deep);
      MergedEntry(base, over, key);
    }
  }

  lemma HoldsWider(copy: map<string, Node>, made: set<Section>, n: nat, values: map<string, Value>, wide: set<Section>)
    requires Holds(copy, made, n, values) && made <= wide
    ensures Holds(copy, wide, n, values)
  {
    forall key | key in copy ensures NodeIn(copy[key], wide, n) && NodeValue(copy[key], wide, n) == values[key] {
      NodeWider(copy[key], made, n, wide, n);
    }
  }

  lemma StepKeys(entries: map<string, Node>, todo: set<string>, key: string, node: Node)
    requires key in todo
    ensures entries[key := node] - (todo - {key}) == (entries - todo)[key := node]
  {
  }

  // One entry more is in its place.
  lemma Placed(entries: map<string, Node>, todo: set<string>, key: string, node: Node, made: set<Section>,
      more: set<Section>, wide: set<Section>, n: nat, values: map<string, Value>)
    requires key in todo && Holds(entries - todo, made, n, values) && made <= wide && more <= wide
    requires key in values && NodeIn(node, more, n) && NodeValue(node, more, n) == values[key]
    ensures Holds(entries[key := node] - (todo - {key}), wide, n, values)
  {
    hide *;
    NodeWider(node, more, n, wide, n);
    HoldsMore(entries - todo, made, n, values, key, node, wide);
    StepKeys(entries, todo, key, node);
  }

  lemma KindOfNode(node: Node, repr: set<Section>, n: nat)
    requires NodeIn(node, repr, n)
    ensures node.Sub? <==> NodeValue(node, repr, n).Dict?
  {
  }

  // One entry of the overriding layer: the node that takes its place, and what was made for it.
  method MergeEntry(kept: map<string, Node>, ghost made: set<Section>, ghost n: nat, over: map<string, Node>,
      ghost overRepr: set<Section>, ghost m: nat, key: string) returns (node: Node, ghost more: set<Section>)
    requires Within(kept, made, n) && Within(over, overRepr, m) && key in over
    ensures fresh(more)
    ensures NodeIn(node, more + overRepr, n + m)
    ensures key in Merged(ValueOf(kept, made, n), ValueOf(over, overRepr, m)).entries
    ensures NodeValue(node, more + overRepr, n + m) ==
            Merged(ValueOf(kept, made, n), ValueOf(over, overRepr, m)).entries[key]
    ensures !(key in kept && kept[key].Sub? && over[key].Sub?) ==> node == over[key] && more == {}
    decreases m, 0
  {
    hide *;
    EntryOf(over, overRepr, m, key);
    MergedEntry(ValueOf(kept, made, n), ValueOf(over, overRepr, m), key);
    KindOfNode(over[key], overRepr, m);
    if key in kept {
      EntryOf(kept, made, n, key);
      KindOfNode(kept[key], made, n);
    }
    if key in kept && kept[key].Sub? && over[key].Sub? {
      var sub;
      sub, more := DeepMerge(kept[key].section, over[key].section, made, n - 1, overRepr, m - 1);
      node := Sub(sub);
      Wider(sub.entries, more + overRepr, n + m - 2, more + {sub} + overRepr, n + m - 1);
      more := more + {sub};
      SubIs(sub, more + overRepr, n + m);
    } else {
      node, more := over[key], {};
      NodeWider(over[key], overRepr, m, more + overRepr, n + m);
    }
  }

  /** The result has the merged value. It is a new dictionary over new sections and some of the overriding
      layer's own: none of them is the base's, and nothing that was there before has been changed. */
  method DeepMerge(base: Section, over: Section, ghost baseRepr: set<Section>, ghost n: nat,
      ghost overRepr: set<Section>, ghost m: nat) returns (result: Section, ghost made: set<Section>)
    requires Within(base.entries, baseRepr, n) && Within(over.entries, overRepr, m)
    ensures fresh(result) && fresh(made) && result !in made
    ensures Within(result.entries, made + overRepr, n + m)
    ensures ValueOf(result.entries, made + overRepr, n + m) ==
            Merged(ValueOf(base.entries, baseRepr, n), ValueOf(over.entries, overRepr, m))
    ensures base.entries == old(base.entries) && over.entries == old(over.entries)
    ensures Within(base.entries, baseRepr, n)
        && ValueOf(base.entries, baseRepr, n) == old(ValueOf(base.entries, baseRepr, n))
    ensures Within(over.entries, overRepr, m)
        && ValueOf(over.entries, overRepr, m) == old(ValueOf(over.entries, overRepr, m))
    decreases m, 2
  {
    hide *;
    var copy, copied := DeepCopy(base.entries, baseRepr, n);
    var entries, more := MergeEntries(copy, copied, n, over.entries, overRepr, m);
    made := copied + more;
    Wider(entries, copied + more + overRepr, n + m, made + overRepr, n + m);
    result := new Section(entries);
  }

  // The loop over the overriding entries, in any order, on the copy.
  method MergeEntries(copy: map<string, Node>, ghost copied: set<Section>, ghost n: nat, over: map<string, Node>,
      ghost overRepr: set<Section>, ghost m: nat) returns (entries: map<string, Node>, ghost made: set<Section>)
    requires Within(copy, copied, n) && Within(over, overRepr, m)
    ensures fresh(made) && Within(entries, copied + made + overRepr, n + m)
    ensures ValueOf(entries, copied + made + overRepr, n + m) ==
            Merged(ValueOf(copy, copied, n), ValueOf(over, overRepr, m))
    decreases m, 1
  {
    hide *;
    ghost var values := Merged(ValueOf(copy, copied, n), ValueOf(over, overRepr, m)).entries;
    entries, made := copy, {};
    var todo := over.Keys;
    Untouched(copy, copied, n, ValueOf(over, overRepr, m), copied + made + overRepr, n + m);
    while todo != {}
      invariant todo <= over.Keys && fresh(made)
      invariant entries.Keys == copy.Keys + (over.Keys - todo)
      invariant Holds(entries - todo, copied + made + overRepr, n + m, values)
      decreases todo
    {
      var key :| key in todo;
      var node, more := MergeEntry(copy, copied, n, over, overRepr, m, key);
      ghost var wide := copied + (made + more) + overRepr;
      Placed(entries, todo, key, node, copied + made + overRepr, more + overRepr, wide, n + m, values);
      entries, made, todo := entries[key := node], made + more, todo - {key};
    }
    assert entries - {} == entries;
    MergedKeys(ValueOf(copy, copied, n), ValueOf(over, overRepr, m));
    HoldsAll(entries, copied + made + overRepr, n + m, values);
  }

  lemma MergedKeys(base: Value, over: Value)
    requires base.Dict? && over.Dict?
    ensures Merged(base, over).Dict?
    ensures Merged(base, over).entries.Keys == base.entries.Keys + over.entries.Keys
  {
  }
}
