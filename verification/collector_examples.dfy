/**
 The collector's documented examples, each worked through the definitions.
 */
module CollectorExamples {
  import opened Json
  import opened Results
  import opened TypeCollector
  import opened Documents

  /** `null` data gives the empty set. */
  lemma NullDataEmpty()
    ensures CollectTypesFromPuck(Null) == Ok({})
  {
  }

  /** A document with an empty `content` gives exactly `{"Page"}`. */
  lemma EmptyContentPage()
    ensures CollectTypesFromPuck(Doc([])) == Ok({PageType})
  {
    assert Get(Doc([]), "content") == Arr([]);
    NoContentOnlyPage(Doc([]), {});
    assert {} + {PageType} == {PageType};
  }

  lemma LeafCollect(t: string, acc: set<Value>)
    requires t != ""
    ensures CollectNode(Node(t, []), acc) == acc + {Str(t)}
  {
    NodeParts(t, []);
  }

  /** Top-level types are collected next to `"Page"`. */
  lemma TwoTopLevelTypes()
    ensures CollectTypesFromPuck(Doc([Node("Hero", []), Node("Section", [])])) == Ok({PageType, Str("Hero"), Str("Section")})
  {
    var nodes := [Node("Hero", []), Node("Section", [])];
    DocContent(nodes);
    LeafCollect("Hero", {PageType});
    LeafCollect("Section", {PageType, Str("Hero")});
    assert nodes[1..] == [Node("Section", [])];
    assert CollectList(nodes, {PageType}) == CollectList([Node("Section", [])], {PageType, Str("Hero")});
    assert [Node("Section", [])][1..] == [];
    assert CollectList([Node("Section", [])], {PageType, Str("Hero")}) == CollectList([], {PageType, Str("Hero"), Str("Section")});
    assert ContentNodes(Arr(nodes)) == Some(nodes);
    assert CollectTypes(Doc(nodes), {}) == Ok(CollectList(nodes, {} + {PageType}));
    assert {} + {PageType} == {PageType};
  }

  lemma ParentCollect(t: string, key: string, items: seq<Value>, acc: set<Value>)
    requires t != ""
    ensures CollectNode(Node(t, [Field(key, Arr(items))]), acc) ==
              if Descends(Arr(items)) then CollectList(items, acc + {Str(t)}) else acc + {Str(t)}
  {
    NodeParts(t, [Field(key, Arr(items))]);
    var es := [Field(key, Arr(items))];
    assert Entries(Obj(es)) == es;
    assert es[1..] == [];
    var w := acc + {Str(t)};
    var next := if Descends(Arr(items)) then CollectList(items, w) else w;
    assert CollectNode(Node(t, es), acc) == CollectFields(es, w);
    assert CollectFields(es, w) == CollectFields([], next);
  }

  /** Types inside a slot array are collected, and duplicates collapse. */
  lemma NestedSlotTypes()
    ensures CollectTypesFromPuck(Doc([Node("Grid", [Field("items", Arr([Node("Item", []), Node("Item", [])]))])])) == Ok({PageType, Str("Grid"), Str("Item")})
  {
    var items := [Node("Item", []), Node("Item", [])];
    var grid := Node("Grid", [Field("items", Arr(items))]);
    NodeParts("Item", []);
    assert Descends(Arr(items));
    ParentCollect("Grid", "items", items, {PageType});
    var s := {PageType, Str("Grid")};
    LeafCollect("Item", s);
    LeafCollect("Item", s + {Str("Item")});
    assert items[1..] == [Node("Item", [])];
    assert CollectList(items, s) == CollectList([Node("Item", [])], s + {Str("Item")});
    assert [Node("Item", [])][1..] == [];
    assert CollectList([Node("Item", [])], s + {Str("Item")}) == CollectList([], s + {Str("Item")} + {Str("Item")});
    assert CollectNode(grid, {PageType}) == {PageType, Str("Grid"), Str("Item")};
    assert [grid][1..] == [];
    assert CollectList([grid], {PageType}) == CollectList([], CollectNode(grid, {PageType}));
    assert ContentNodes(Arr([grid])) == Some([grid]);
    assert CollectTypes(Doc([grid]), {}) == Ok(CollectList([grid], {} + {PageType}));
    assert {} + {PageType} == {PageType};
  }

  /** An array whose first element has no `type` is not walked, although a
      later element has one. */
  lemma UntypedFirstElementNotWalked()
    ensures CollectTypesFromPuck(Doc([Node("Grid", [Field("items", Arr([Obj([Field("props", Obj([]))]), Node("Item", [])]))])])) == Ok({PageType, Str("Grid")})
  {
    var first := Obj([Field("props", Obj([]))]);
    var items := [first, Node("Item", [])];
    var grid := Node("Grid", [Field("items", Arr(items))]);
    assert TypeOf(first) == Null by {
      assert Lookup(first.fields, "type") == Lookup([], "type");
    }
    assert !Descends(Arr(items));
    ParentCollect("Grid", "items", items, {PageType});
    assert CollectNode(grid, {PageType}) == {PageType, Str("Grid")};
    assert [grid][1..] == [];
    assert CollectList([grid], {PageType}) == CollectList([], CollectNode(grid, {PageType}));
    assert ContentNodes(Arr([grid])) == Some([grid]);
    assert CollectTypes(Doc([grid]), {}) == Ok(CollectList([grid], {} + {PageType}));
    assert {} + {PageType} == {PageType};
  }

  /** `{content: 5}` throws, but only after `"Page"` was added to the
      caller's set. */
  lemma NonIterableContentKeepsPage()
    ensures CollectTypesFromPuck(Obj([Field("content", Num(5))])).Err?
    ensures SetAfterCall(Obj([Field("content", Num(5))]), {}) == {PageType}
  {
    assert Get(Obj([Field("content", Num(5))]), "content") == Num(5);
    assert {} + {PageType} == {PageType};
  }
}
