/** Tree queries over the instance map (`findTreeInstanceIds`,
    `findTreeInstanceIdsExcludingSlotDescendants`, `findFragmentInstanceIds`)
    and `parseComponentName`, as their tests pin them down. */
module InstancesUtils {
  import opened Wrappers
  import opened Schema

  /** Whether the walk descends into the children of `id`. */
  predicate Expands(instances: Instances, id: string, excludeSlotDescendants: bool)
  {
    id in instances && !(excludeSlotDescendants && instances[id].component == SlotComponent)
  }

  /** The ids reached from a list of children: each id child and, when the
      walk expands it, everything below it. */
  function ChildrenTreeIds(instances: Instances, children: seq<Child>, excludeSlotDescendants: bool,
                           ghost rank: map<string, nat>, ghost bound: nat): set<string>
    requires Ranked(instances, rank) && ChildrenBelow(instances, children, rank, bound)
    decreases bound, |children|
  {
    if children == [] then {}
    else
      var here :=
        match children[0]
        case IdChild(c) =>
          {c} + (if Expands(instances, c, excludeSlotDescendants)
                 then ChildrenTreeIds(instances, instances[c].children, excludeSlotDescendants, rank, rank[c])
                 else {})
        case _ => {};
      here + ChildrenTreeIds(instances, children[1..], excludeSlotDescendants, rank, bound)
  }

  function SubtreeIds(instances: Instances, rootId: string, excludeSlotDescendants: bool,
                      ghost rank: map<string, nat>): (ids: set<string>)
    requires Ranked(instances, rank)
    ensures rootId in ids
  {
    {rootId} + (if Expands(instances, rootId, excludeSlotDescendants)
                then ChildrenTreeIds(instances, instances[rootId].children, excludeSlotDescendants, rank, rank[rootId])
                else {})
  }

  /** `findTreeInstanceIds(instances, rootId)`. */
  function FindTreeInstanceIds(instances: Instances, rootId: string, ghost rank: map<string, nat>): set<string>
    requires Ranked(instances, rank)
  {
    SubtreeIds(instances, rootId, false, rank)
  }

  /** `findTreeInstanceIdsExcludingSlotDescendants(instances, rootId)`. */
  function FindTreeInstanceIdsExcludingSlotDescendants(instances: Instances, rootId: string,
                                                       ghost rank: map<string, nat>): set<string>
    requires Ranked(instances, rank)
  {
    SubtreeIds(instances, rootId, true, rank)
  }

  /** `findFragmentInstanceIds(instances, rootId)`. */
  function FindFragmentInstanceIds(instances: Instances, rootId: string, ghost rank: map<string, nat>): (ids: set<string>)
    requires Ranked(instances, rank)
    ensures forall id :: id in ids ==> id in instances && instances[id].component == FragmentComponent
  {
    set id | id in FindTreeInstanceIds(instances, rootId, rank) && id in instances
                                         && instances[id].component == FragmentComponent
  }

  lemma {:induction false} ChildrenTreeIdsClosed(instances: Instances, children: seq<Child>, excl: bool,
                                                 rank: map<string, nat>, bound: nat)
    requires Ranked(instances, rank) && ChildrenBelow(instances, children, rank, bound)
    ensures forall c :: IdChild(c) in children ==> c in ChildrenTreeIds(instances, children, excl, rank, bound)
    ensures forall x, c :: x in ChildrenTreeIds(instances, children, excl, rank, bound)
                           && Expands(instances, x, excl) && ChildOf(instances, c, x)
                           ==> c in ChildrenTreeIds(instances, children, excl, rank, bound)
    decreases bound, |children|
  {
    if children != [] {
      ChildrenTreeIdsClosed(instances, children[1..], excl, rank, bound);
      if children[0].IdChild? {
        var c := children[0].id;
        if Expands(instances, c, excl) {
          ChildrenTreeIdsClosed(instances, instances[c].children, excl, rank, rank[c]);
        }
      }
      forall c | IdChild(c) in children
        ensures c in ChildrenTreeIds(instances, children, excl, rank, bound)
      {
        if IdChild(c) != children[0] {
          assert IdChild(c) in children[1..];
        }
      }
    }
  }

  lemma {:induction false} ChildrenTreeIdsHaveParents(instances: Instances, children: seq<Child>, excl: bool,
                                                      rank: map<string, nat>, bound: nat)
    requires Ranked(instances, rank) && ChildrenBelow(instances, children, rank, bound)
    ensures forall x :: x in ChildrenTreeIds(instances, children, excl, rank, bound) ==>
              IdChild(x) in children ||
              exists p :: p in ChildrenTreeIds(instances, children, excl, rank, bound)
                          && Expands(instances, p, excl) && ChildOf(instances, x, p)
    decreases bound, |children|
  {
    if children != [] {
      var all := ChildrenTreeIds(instances, children, excl, rank, bound);
      var tail := ChildrenTreeIds(instances, children[1..], excl, rank, bound);
      ChildrenTreeIdsHaveParents(instances, children[1..], excl, rank, bound);
      if children[0].IdChild? && Expands(instances, children[0].id, excl) {
        var c := children[0].id;
        var below := ChildrenTreeIds(instances, instances[c].children, excl, rank, rank[c]);
        ChildrenTreeIdsHaveParents(instances, instances[c].children, excl, rank, rank[c]);
        forall x | x in below
          ensures exists p :: p in all && Expands(instances, p, excl) && ChildOf(instances, x, p)
        {
          if IdChild(x) in instances[c].children {
            assert c in all && ChildOf(instances, x, c);
          }
        }
      }
      forall x | x in tail && IdChild(x) in children[1..]
        ensures IdChild(x) in children
      {
      }
    }
  }

  /** The subtree contains its root and every child of every instance it
      descends into. */
  lemma SubtreeClosed(instances: Instances, rootId: string, excl: bool, rank: map<string, nat>)
    requires Ranked(instances, rank)
    ensures rootId in SubtreeIds(instances, rootId, excl, rank)
    ensures forall x, c :: (x in SubtreeIds(instances, rootId, excl, rank) && Expands(instances, x, excl)
                            && ChildOf(instances, c, x)) ==> c in SubtreeIds(instances, rootId, excl, rank)
  {
    if Expands(instances, rootId, excl) {
      ChildrenTreeIdsClosed(instances, instances[rootId].children, excl, rank, rank[rootId]);
    }
  }

  /** Nothing outside the subtree is included: every member other than the
      root is the child of a member the walk descends into. */
  lemma SubtreeOnlyDescendants(instances: Instances, rootId: string, excl: bool, rank: map<string, nat>)
    requires Ranked(instances, rank)
    ensures forall x :: x in SubtreeIds(instances, rootId, excl, rank) && x != rootId ==>
              exists p :: p in SubtreeIds(instances, rootId, excl, rank)
                          && Expands(instances, p, excl) && ChildOf(instances, x, p)
  {
    var ids := SubtreeIds(instances, rootId, excl, rank);
    if Expands(instances, rootId, excl) {
      ChildrenTreeIdsHaveParents(instances, instances[rootId].children, excl, rank, rank[rootId]);
      forall x | x in ids && x != rootId
        ensures exists p :: p in ids && Expands(instances, p, excl) && ChildOf(instances, x, p)
      {
        if IdChild(x) in instances[rootId].children {
          assert ChildOf(instances, x, rootId);
        }
      }
    }
  }

  lemma {:induction false} ChildrenTreeIdsMonotone(instances: Instances, children: seq<Child>,
                                                   rank: map<string, nat>, bound: nat)
    requires Ranked(instances, rank) && ChildrenBelow(instances, children, rank, bound)
    ensures ChildrenTreeIds(instances, children, true, rank, bound)
            <= ChildrenTreeIds(instances, children, false, rank, bound)
    decreases bound, |children|
  {
    if children != [] {
      ChildrenTreeIdsMonotone(instances, children[1..], rank, bound);
      if children[0].IdChild? && Expands(instances, children[0].id, true) {
        ChildrenTreeIdsMonotone(instances, instances[children[0].id].children, rank, rank[children[0].id]);
      }
    }
  }

  /** Excluding slot descendants only ever removes ids. */
  lemma ExcludingSlotsIsSubset(instances: Instances, rootId: string, rank: map<string, nat>)
    requires Ranked(instances, rank)
    ensures FindTreeInstanceIdsExcludingSlotDescendants(instances, rootId, rank)
            <= FindTreeInstanceIds(instances, rootId, rank)
  {
    if Expands(instances, rootId, true) {
      ChildrenTreeIdsMonotone(instances, instances[rootId].children, rank, rank[rootId]);
    }
  }

  /** A Fragment that is the child of a slot in the tree is found, however
      deeply slots and fragments nest. */
  lemma FragmentsThroughSlots(instances: Instances, rootId: string, rank: map<string, nat>, slot: string, fragment: string)
    requires Ranked(instances, rank)
    requires slot in FindTreeInstanceIds(instances, rootId, rank)
    requires slot in instances && instances[slot].component == SlotComponent
    requires ChildOf(instances, fragment, slot)
    requires fragment in instances && instances[fragment].component == FragmentComponent
    ensures fragment in FindFragmentInstanceIds(instances, rootId, rank)
  {
    SubtreeClosed(instances, rootId, false, rank);
  }

  datatype ComponentName = ComponentName(namespace: Option<string>, shortName: string)

  /** `parseComponentName(name)`: the part before the first colon is the
      namespace. */
  function ParseComponentName(name: string): (r: ComponentName)
    ensures ':' !in name ==> r == ComponentName(None, name)
    ensures r.namespace.Some? ==> ':' !in r.namespace.value && r.namespace.value + ":" + r.shortName == name
    decreases |name|
  {
    if name == [] then ComponentName(None, name)
    else if name[0] == ':' then ComponentName(Some(""), name[1..])
    else
      var rest := ParseComponentName(name[1..]);
      match rest.namespace
      case None => ComponentName(None, name)
      case Some(ns) => ComponentName(Some([name[0]] + ns), rest.shortName)
  }

  function FormatComponentName(c: ComponentName): string
  {
    match c.namespace
    case None => c.shortName
    case Some(ns) => ns + ":" + c.shortName
  }

  /** Parsing and formatting are inverse to each other. */
  lemma {:induction false} ParseFormatComponentName(name: string, c: ComponentName)
    ensures FormatComponentName(ParseComponentName(name)) == name
    ensures c.namespace.None? && ':' !in c.shortName ==> ParseComponentName(FormatComponentName(c)) == c
    ensures c.namespace.Some? && ':' !in c.namespace.value ==> ParseComponentName(FormatComponentName(c)) == c
  {
    if c.namespace.Some? && ':' !in c.namespace.value {
      ParseNamespaced(c.namespace.value, c.shortName);
    }
  }

  lemma {:induction false} ParseNamespaced(ns: string, short: string)
    requires ':' !in ns
    ensures ParseComponentName(ns + ":" + short) == ComponentName(Some(ns), short)
    decreases |ns|
  {
    var name := ns + ":" + short;
    if ns == [] {
      assert name[0] == ':' && name[1..] == short;
    } else {
      assert ns == [ns[0]] + ns[1..];
      ParseNamespaced(ns[1..], short);
      assert name[1..] == ns[1..] + ":" + short;
      assert name[0] == ns[0] && ns[0] != ':';
      assert [ns[0]] + ns[1..] == ns;
    }
  }

  function Node(id: string, component: string, children: seq<string>): Instance
  {
    Instance(id, component, seq(|children|, i requires 0 <= i < |children| => IdChild(children[i])))
  }

  /** "find all tree instances": siblings and other trees stay out. */
  lemma FindTreeInstanceIdsExample()
    ensures var instances := map[
              "1" := Node("1", "Body", ["3"]), "2" := Node("2", "Box", []),
              "3" := Node("3", "Box", ["4", "5"]), "4" := Node("4", "Box", []),
              "5" := Node("5", "Box", []), "6" := Node("6", "Box", [])];
            var rank := map["1" := 2, "2" := 0, "3" := 1, "4" := 0, "5" := 0, "6" := 0];
            Ranked(instances, rank) && FindTreeInstanceIds(instances, "3", rank) == {"3", "4", "5"}
  {
    var instances := map[
      "1" := Node("1", "Body", ["3"]), "2" := Node("2", "Box", []),
      "3" := Node("3", "Box", ["4", "5"]), "4" := Node("4", "Box", []),
      "5" := Node("5", "Box", []), "6" := Node("6", "Box", [])];
    var rank := map["1" := 2, "2" := 0, "3" := 1, "4" := 0, "5" := 0, "6" := 0];
    var kids := instances["3"].children;
    assert kids == [IdChild("4"), IdChild("5")];
    assert Ranked(instances, rank);
    assert ChildrenTreeIds(instances, kids[1..][1..], false, rank, 1) == {};
    assert ChildrenTreeIds(instances, kids[1..], false, rank, 1) == {"5"};
    assert ChildrenTreeIds(instances, kids, false, rank, 1) == {"4", "5"};
  }

  function SlotsFixture(): Instances
  {
    map[
      "root" := Node("root", "Body", ["box1", "box2"]), "outside" := Node("outside", "Box", []),
      "box1" := Node("box1", "Box", ["slot11", "box12"]),
      "slot11" := Node("slot11", "Slot", ["box111", "box112"]),
      "box12" := Node("box12", "Box", []), "box2" := Node("box2", "Box", [])]
  }

  function SlotsFixtureRank(): map<string, nat>
  {
    map["root" := 3, "outside" := 0, "box1" := 2, "slot11" := 1, "box12" := 0, "box2" := 0]
  }

  lemma SlotsFixtureRanked()
    ensures Ranked(SlotsFixture(), SlotsFixtureRank())
  {
    var instances := SlotsFixture();
    assert instances["root"].children == [IdChild("box1"), IdChild("box2")];
    assert instances["box1"].children == [IdChild("slot11"), IdChild("box12")];
    assert instances["slot11"].children == [IdChild("box111"), IdChild("box112")];
    assert instances["outside"].children == [] && instances["box12"].children == [] && instances["box2"].children == [];
  }

  /** "find all tree instances excluding slot descendants": the slot is kept,
      its children are not. */
  lemma ExcludingSlotDescendantsExample()
    ensures Ranked(SlotsFixture(), SlotsFixtureRank())
    ensures FindTreeInstanceIdsExcludingSlotDescendants(SlotsFixture(), "box1", SlotsFixtureRank())
            == {"box1", "box12", "slot11"}
  {
    var instances, rank := SlotsFixture(), SlotsFixtureRank();
    SlotsFixtureRanked();
    var kids := instances["box1"].children;
    assert kids == [IdChild("slot11"), IdChild("box12")];
    assert !Expands(instances, "slot11", true);
    assert instances["box12"].children == [];
    assert ChildrenTreeIds(instances, kids[1..][1..], true, rank, 2) == {};
    assert ChildrenTreeIds(instances, kids[1..], true, rank, 2) == {"box12"};
    assert ChildrenTreeIds(instances, kids, true, rank, 2) == {"slot11", "box12"};
  }

  function FragmentsFixture(): Instances
  {
    map[
      "body" := Node("body", "Body", ["box", "slot1"]), "box" := Node("box", "Box", []),
      "slot1" := Node("slot1", "Slot", ["fragment1"]),
      "fragment1" := Node("fragment1", "Fragment", ["slot2"]),
      "slot2" := Node("slot2", "Slot", ["fragment2"]),
      "fragment2" := Node("fragment2", "Fragment", [])]
  }

  function FragmentsFixtureRank(): map<string, nat>
  {
    map["body" := 4, "box" := 0, "slot1" := 3, "fragment1" := 2, "slot2" := 1, "fragment2" := 0]
  }

  lemma FragmentsFixtureRanked()
    ensures Ranked(FragmentsFixture(), FragmentsFixtureRank())
  {
    var instances := FragmentsFixture();
    assert instances["body"].children == [IdChild("box"), IdChild("slot1")];
    assert instances["slot1"].children == [IdChild("fragment1")];
    assert instances["fragment1"].children == [IdChild("slot2")];
    assert instances["slot2"].children == [IdChild("fragment2")];
    assert instances["box"].children == [] && instances["fragment2"].children == [];
  }

  lemma FragmentsFixtureSlot1()
    requires Ranked(FragmentsFixture(), FragmentsFixtureRank())
    ensures ChildrenTreeIds(FragmentsFixture(), FragmentsFixture()["slot1"].children, false, FragmentsFixtureRank(), 3)
            == {"fragment1", "slot2", "fragment2"}
  {
    var instances, rank := FragmentsFixture(), FragmentsFixtureRank();
    assert instances["slot1"].children == [IdChild("fragment1")];
    assert instances["fragment1"].children == [IdChild("slot2")];
    assert instances["slot2"].children == [IdChild("fragment2")];
    assert instances["fragment2"].children == [];
    assert [IdChild("fragment2")][1..] == [] && [IdChild("slot2")][1..] == [] && [IdChild("fragment1")][1..] == [];
    var f2 := ChildrenTreeIds(instances, instances["slot2"].children, false, rank, 1);
    assert f2 == {"fragment2"} + ChildrenTreeIds(instances, [], false, rank, 0)
                               + ChildrenTreeIds(instances, [], false, rank, 1);
    var f1 := ChildrenTreeIds(instances, instances["fragment1"].children, false, rank, 2);
    assert f1 == {"slot2"} + f2 + ChildrenTreeIds(instances, [], false, rank, 2);
    var s1 := ChildrenTreeIds(instances, instances["slot1"].children, false, rank, 3);
    assert s1 == {"fragment1"} + f1 + ChildrenTreeIds(instances, [], false, rank, 3);
  }

  lemma FragmentsFixtureTree()
    requires Ranked(FragmentsFixture(), FragmentsFixtureRank())
    ensures FindTreeInstanceIds(FragmentsFixture(), "body", FragmentsFixtureRank())
            == {"body", "box", "slot1", "fragment1", "slot2", "fragment2"}
  {
    var instances, rank := FragmentsFixture(), FragmentsFixtureRank();
    FragmentsFixtureSlot1();
    var kids := instances["body"].children;
    assert kids == [IdChild("box"), IdChild("slot1")];
    assert instances["box"].children == [];
    assert kids[1..][1..] == [];
    assert ChildrenTreeIds(instances, kids[1..], false, rank, 4) == {"slot1", "fragment1", "slot2", "fragment2"};
    assert ChildrenTreeIds(instances, kids, false, rank, 4) == {"box", "slot1", "fragment1", "slot2", "fragment2"};
  }

  /** "find all fragment instances": fragments behind slots, nested ones too. */
  lemma FindFragmentInstanceIdsExample()
    ensures Ranked(FragmentsFixture(), FragmentsFixtureRank())
    ensures FindFragmentInstanceIds(FragmentsFixture(), "body", FragmentsFixtureRank()) == {"fragment1", "fragment2"}
  {
    var instances, rank := FragmentsFixture(), FragmentsFixtureRank();
    FragmentsFixtureRanked();
    FragmentsFixtureTree();
    var tree := FindTreeInstanceIds(instances, "body", rank);
    assert instances["body"].component != FragmentComponent && instances["box"].component != FragmentComponent;
    assert instances["slot1"].component != FragmentComponent && instances["slot2"].component != FragmentComponent;
    assert instances["fragment1"].component == FragmentComponent && instances["fragment2"].component == FragmentComponent;
  }

  /** "extract short name and namespace from component name". */
  lemma ParseComponentNameExample()
    ensures ParseComponentName("Box") == ComponentName(None, "Box")
    ensures ParseComponentName("radix:Box") == ComponentName(Some("radix"), "Box")
  {
    ParseNamespaced("radix", "Box");
    assert "radix" + ":" + "Box" == "radix:Box";
  }
}
