/**
 The type collector: walks a page-builder document's `content` and every
 nested props array that looks like a list of nodes, and accumulates the set
 of node types it meets plus the implicit root type `"Page"`. The result
 drives registry pre-warming before a render.
 */
module TypeCollector {
  import opened Json
  import opened Results

  /** A props value the collector descends into: a non-empty array whose
      first element has a truthy `type`. Later elements are not inspected. */
  predicate Descends(v: Value) {
    v.Arr? && |v.items| > 0 && Truthy(TypeOf(v.items[0]))
  }

  /** `n` carries the type `t`, which the collector records. */
  predicate HasType(n: Value, t: Value) {
    Truthy(TypeOf(n)) && TypeOf(n) == t
  }

  /** The inner `collect`: visits `nodes` in order, recording each truthy type
      and descending into the qualifying arrays among each node's props. */
  function CollectList(nodes: seq<Value>, acc: set<Value>): (r: set<Value>)
    ensures acc <= r
    decreases SizeList(nodes), 2, 0
  {
    if nodes == [] then acc
    else CollectList(nodes[1..], CollectNode(nodes[0], acc))
  }

  /** One iteration of `collect`'s loop, for the node `c`. */
  function CollectNode(c: Value, acc: set<Value>): (r: set<Value>)
    ensures acc <= r
    ensures Truthy(TypeOf(c)) ==> TypeOf(c) in r
    decreases Size(c), 1, 0
  {
    var withType := if Truthy(TypeOf(c)) then acc + {TypeOf(c)} else acc;
    PropertyEntriesLighter(c, "props");
    CollectFields(Entries(PropsOf(c)), withType)
  }

  /** The loop over a node's props (`for (const key in c?.props || {})`). */
  function CollectFields(es: seq<Field>, acc: set<Value>): (r: set<Value>)
    ensures acc <= r
    decreases SlotWeight(es), 0, |es|
  {
    if es == [] then acc
    else
      var v := es[0].value;
      var next := if Descends(v) then CollectList(v.items, acc) else acc;
      CollectFields(es[1..], next)
  }

  /** What `for (const c of content || [])` iterates: nothing for a falsy
      `content`, the elements of an array, the characters of a string, and
      `None` for any other value, on which `for..of` throws a TypeError. */
  function ContentNodes(content: Value): (r: Option<seq<Value>>)
    ensures r.None? <==> Truthy(content) && !content.Arr? && !content.Str?
    ensures content.Arr? ==> r == Some(content.items)
  {
    if !Truthy(content) then Some([])
    else match content
      case Arr(items) => Some(items)
      case Str(s) => Some(Chars(s))
      case _ => None
  }

  /** `collectTypesFromPuck(data, set)`. */
  function CollectTypes(data: Value, acc: set<Value>): (r: Result<set<Value>>)
    ensures !Truthy(data) ==> r == Ok(acc)
    ensures r.Ok? ==> acc <= r.value
    ensures Truthy(data) && r.Ok? ==> PageType in r.value
    ensures r.Err? <==> Truthy(data) && ContentNodes(Get(data, "content")).None?
  {
    if !Truthy(data) then Ok(acc)
    else match ContentNodes(Get(data, "content"))
      case None => Err(TypeError("content is not iterable"))
      case Some(nodes) => Ok(CollectList(nodes, acc + {PageType}))
  }

  /** `collectTypesFromPuck(data)` with its default, empty accumulator. */
  function CollectTypesFromPuck(data: Value): (r: Result<set<Value>>)
    ensures !Truthy(data) ==> r == Ok({})
    ensures Truthy(data) && r.Ok? ==> PageType in r.value
  {
    CollectTypes(data, {})
  }

  /** The caller's set once the call is over. The collector adds to the set it
      is given in place, and its only throw (a non-iterable `content`) comes
      after `"Page"` is added, so a failed call still leaves `"Page"` in it. */
  function SetAfterCall(data: Value, acc: set<Value>): (r: set<Value>)
    ensures acc <= r
    ensures Truthy(data) ==> PageType in r
    ensures CollectTypes(data, acc).Ok? ==> r == CollectTypes(data, acc).value
    ensures CollectTypes(data, acc).Err? ==> r == acc + {PageType}
  {
    if !Truthy(data) then acc
    else match ContentNodes(Get(data, "content"))
      case None => acc + {PageType}
      case Some(nodes) => CollectList(nodes, acc + {PageType})
  }

  // ---------------------------------------------------------------------
  // Reference definition: the nodes the walk visits.

  /** `n` is visited when `collect(nodes)` runs: it is one of `nodes`, or it
      sits, at any depth, in a qualifying props array of one of them. */
  ghost predicate Reaches(nodes: seq<Value>, n: Value)
    decreases SizeList(nodes), 2
  {
    SizeListBound(nodes);
    exists i :: 0 <= i < |nodes| && (nodes[i] == n || ReachesBelow(nodes[i], n))
  }

  /** `n` sits in a qualifying props array of `c`, at any depth. */
  ghost predicate ReachesBelow(c: Value, n: Value)
    decreases Size(c), 1
  {
    PropertyEntriesLighter(c, "props");
    FieldsReach(Entries(PropsOf(c)), n)
  }

  /** `n` is visited from one of the qualifying arrays among the entries `es`. */
  ghost predicate FieldsReach(es: seq<Field>, n: Value)
    decreases SlotWeight(es), 0
  {
    SlotWeightBound(es);
    exists j :: 0 <= j < |es| && Descends(es[j].value) && Reaches(es[j].value.items, n)
  }

  /** `t` is the type of some node visited from `nodes`. */
  ghost predicate ReachableType(nodes: seq<Value>, t: Value) {
    exists n :: Reaches(nodes, n) && HasType(n, t)
  }

  lemma {:induction false} ReachesCons(nodes: seq<Value>, n: Value)
    requires nodes != []
    ensures Reaches(nodes, n) <==> nodes[0] == n || ReachesBelow(nodes[0], n) || Reaches(nodes[1..], n)
  {
    if Reaches(nodes[1..], n) {
      var i :| 0 <= i < |nodes[1..]| && (nodes[1..][i] == n || ReachesBelow(nodes[1..][i], n));
      assert nodes[i + 1] == nodes[1..][i];
    }
    if Reaches(nodes, n) {
      var i :| 0 <= i < |nodes| && (nodes[i] == n || ReachesBelow(nodes[i], n));
      if i > 0 {
        assert nodes[1..][i - 1] == nodes[i];
      }
    }
  }

  lemma {:induction false} FieldsReachCons(es: seq<Field>, n: Value)
    requires es != []
    ensures FieldsReach(es, n) <==>
              (Descends(es[0].value) && Reaches(es[0].value.items, n)) || FieldsReach(es[1..], n)
  {
    if FieldsReach(es[1..], n) {
      var j :| 0 <= j < |es[1..]| && Descends(es[1..][j].value) && Reaches(es[1..][j].value.items, n);
      assert es[j + 1] == es[1..][j];
    }
    if FieldsReach(es, n) {
      var j :| 0 <= j < |es| && Descends(es[j].value) && Reaches(es[j].value.items, n);
      if j > 0 {
        assert es[1..][j - 1] == es[j];
      }
    }
  }

  /** The accumulator fold records exactly the accumulator plus the types of
      the visited nodes. */
  lemma {:induction false} CollectListExact(nodes: seq<Value>, acc: set<Value>)
    ensures forall t :: t in CollectList(nodes, acc) <==> t in acc || ReachableType(nodes, t)
    decreases SizeList(nodes), 2, 0
  {
    if nodes != [] {
      var acc1 := CollectNode(nodes[0], acc);
      CollectNodeExact(nodes[0], acc);
      CollectListExact(nodes[1..], acc1);
      forall n {
        ReachesCons(nodes, n);
      }
    }
  }

  lemma {:induction false} CollectNodeExact(c: Value, acc: set<Value>)
    ensures forall t :: t in CollectNode(c, acc) <==>
              t in acc || HasType(c, t) || exists n :: ReachesBelow(c, n) && HasType(n, t)
    decreases Size(c), 1, 0
  {
    var withType := if Truthy(TypeOf(c)) then acc + {TypeOf(c)} else acc;
    PropertyEntriesLighter(c, "props");
    CollectFieldsExact(Entries(PropsOf(c)), withType);
  }

  lemma {:induction false} CollectFieldsExact(es: seq<Field>, acc: set<Value>)
    ensures forall t :: t in CollectFields(es, acc) <==>
              t in acc || exists n :: FieldsReach(es, n) && HasType(n, t)
    decreases SlotWeight(es), 0, |es|
  {
    if es != [] {
      var v := es[0].value;
      var next := if Descends(v) then CollectList(v.items, acc) else acc;
      if Descends(v) {
        CollectListExact(v.items, acc);
      }
      CollectFieldsExact(es[1..], next);
      forall n {
        FieldsReachCons(es, n);
      }
    }
  }

  /** The collector's result is exactly `"Page"`, the initial accumulator, and
      the types of the nodes reachable through `content` and the qualifying
      props arrays: nothing is lost and nothing else is added. */
  lemma CollectTypesExact(data: Value, acc: set<Value>)
    requires Truthy(data)
    requires ContentNodes(Get(data, "content")).Some?
    ensures var nodes := ContentNodes(Get(data, "content")).value;
            && CollectTypes(data, acc).Ok?
            && forall t :: t in CollectTypes(data, acc).value <==>
                 t == PageType || t in acc || ReachableType(nodes, t)
  {
    CollectListExact(ContentNodes(Get(data, "content")).value, acc + {PageType});
  }

  /** Visiting is transitive: whatever is below a visited node is visited. */
  lemma {:induction false} ReachesTransitive(nodes: seq<Value>, c: Value, x: Value)
    requires Reaches(nodes, c) && ReachesBelow(c, x)
    ensures Reaches(nodes, x)
    decreases SizeList(nodes)
  {
    SizeListBound(nodes);
    var i :| 0 <= i < |nodes| && (nodes[i] == c || ReachesBelow(nodes[i], c));
    if nodes[i] != c {
      var es := Entries(PropsOf(nodes[i]));
      PropertyEntriesLighter(nodes[i], "props");
      SlotWeightBound(es);
      assert FieldsReach(es, c);
      var j :| 0 <= j < |es| && Descends(es[j].value) && Reaches(es[j].value.items, c);
      ReachesTransitive(es[j].value.items, c, x);
      assert FieldsReach(es, x);
      assert ReachesBelow(nodes[i], x);
    }
  }

  /** Every element of a qualifying array among the entries of a visited
      node's props (object fields, or the indices of an array or string
      `props`) is visited, whatever its own shape, and its truthy type is
      collected. */
  lemma DescendsIntoEveryElement(data: Value, acc: set<Value>, c: Value, j: nat, k: nat)
    requires Truthy(data)
    requires ContentNodes(Get(data, "content")).Some?
    requires Reaches(ContentNodes(Get(data, "content")).value, c)
    requires j < |Entries(PropsOf(c))|
    requires Descends(Entries(PropsOf(c))[j].value)
    requires k < |Entries(PropsOf(c))[j].value.items|
    ensures Reaches(ContentNodes(Get(data, "content")).value, Entries(PropsOf(c))[j].value.items[k])
    ensures Truthy(TypeOf(Entries(PropsOf(c))[j].value.items[k])) ==>
              TypeOf(Entries(PropsOf(c))[j].value.items[k]) in CollectTypes(data, acc).value
  {
    var nodes := ContentNodes(Get(data, "content")).value;
    var es := Entries(PropsOf(c));
    var items := es[j].value.items;
    var x := items[k];
    assert Reaches(items, x) by {
      assert items[k] == x;
    }
    assert FieldsReach(es, x) by {
      SlotWeightBound(es);
      PropertyEntriesLighter(c, "props");
    }
    assert ReachesBelow(c, x);
    ReachesTransitive(nodes, c, x);
    CollectTypesExact(data, acc);
    if Truthy(TypeOf(x)) {
      assert HasType(x, TypeOf(x));
    }
  }

  /** Every top-level content node with a truthy type has it collected. */
  lemma TopLevelTypesCollected(data: Value, acc: set<Value>, i: nat)
    requires Truthy(data)
    requires Get(data, "content").Arr?
    requires i < |Get(data, "content").items|
    requires Truthy(TypeOf(Get(data, "content").items[i]))
    ensures CollectTypes(data, acc).Ok?
    ensures TypeOf(Get(data, "content").items[i]) in CollectTypes(data, acc).value
  {
    var nodes := Get(data, "content").items;
    CollectTypesExact(data, acc);
    assert Reaches(nodes, nodes[i]);
    assert HasType(nodes[i], TypeOf(nodes[i]));
  }

  /** An empty or falsy `content` yields exactly the accumulator plus `"Page"`;
      so does a string `content`, whose characters carry no type. */
  lemma NoContentOnlyPage(data: Value, acc: set<Value>)
    requires Truthy(data)
    requires var content := Get(data, "content");
             !Truthy(content) || content == Arr([]) || content.Str?
    ensures CollectTypes(data, acc) == Ok(acc + {PageType})
  {
    var nodes := ContentNodes(Get(data, "content")).value;
    assert forall i :: 0 <= i < |nodes| ==> nodes[i].Str?;
    CollectTypesExact(data, acc);
    forall n | Reaches(nodes, n)
      ensures !Truthy(TypeOf(n))
    {
      var i :| 0 <= i < |nodes| && (nodes[i] == n || ReachesBelow(nodes[i], n));
      assert PropsOf(nodes[i]) == Null;
      assert !FieldsReach([], n);
      assert !ReachesBelow(nodes[i], n);
    }
    var r := CollectTypes(data, acc).value;
    assert forall t :: t in r <==> t == PageType || t in acc;
    assert r == acc + {PageType};
  }
}
