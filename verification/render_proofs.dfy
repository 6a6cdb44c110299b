/**
 Properties of the tree renderer: slot substitution is in place and order
 preserving, a cache hit is verbatim and consults nothing else, a miss builds
 the element from the resolved component and writes its markup once, the
 cache is untouched without a page hash, a write is read back as a hit, and
 one failing node fails the whole pass.
 */
module RenderProofs {
  import opened Json
  import opened Results
  import opened Renderer

  /** Rendering a list succeeds exactly when every node renders, and then its
      i-th output is the i-th node's render. */
  lemma {:induction false} RenderListPointwise(env: Env, ctx: Context, nodes: seq<Value>)
    ensures RenderList(env, ctx, nodes).Ok? <==>
              forall i :: 0 <= i < |nodes| ==> RenderNode(env, ctx, nodes[i]).Ok?
    ensures RenderList(env, ctx, nodes).Ok? ==>
              forall i :: 0 <= i < |nodes| ==>
                RenderList(env, ctx, nodes).value.0[i] == RenderNode(env, ctx, nodes[i]).value.0
  {
    if nodes != [] {
      var tail := nodes[1..];
      RenderListPointwise(env, ctx, tail);
      var head := RenderNode(env, ctx, nodes[0]);
      if head.Err? {
        assert RenderList(env, ctx, nodes).Err?;
      } else if RenderList(env, ctx, tail).Err? {
        var i :| 0 <= i < |tail| && RenderNode(env, ctx, tail[i]).Err?;
        assert nodes[i + 1] == tail[i];
        assert RenderList(env, ctx, nodes).Err?;
      } else {
        var rest := RenderList(env, ctx, tail).value;
        var out := RenderList(env, ctx, nodes).value.0;
        assert out == [head.value.0] + rest.0;
        forall i | 0 <= i < |nodes|
          ensures RenderNode(env, ctx, nodes[i]).Ok? && out[i] == RenderNode(env, ctx, nodes[i]).value.0
        {
          if i > 0 {
            assert nodes[i] == tail[i - 1];
          }
        }
      }
    }
  }

  /** The slot loop succeeds exactly when every slot's children render, and
      then each slot prop holds the rendered list of its own array. */
  lemma {:induction false} RenderPropsPointwise(env: Env, ctx: Context, es: seq<Field>)
    ensures RenderProps(env, ctx, es).Ok? <==>
              forall i :: 0 <= i < |es| && IsSlot(es[i].value) ==> RenderList(env, ctx, es[i].value.items).Ok?
    ensures RenderProps(env, ctx, es).Ok? ==>
              forall i :: 0 <= i < |es| && IsSlot(es[i].value) ==>
                RenderProps(env, ctx, es).value.0[i].value == Slot(RenderList(env, ctx, es[i].value.items).value.0)
  {
    if es != [] {
      var tail := es[1..];
      RenderPropsPointwise(env, ctx, tail);
      var v := es[0].value;
      if IsSlot(v) && RenderList(env, ctx, v.items).Err? {
        assert RenderProps(env, ctx, es).Err?;
      } else if RenderProps(env, ctx, tail).Err? {
        var i :| 0 <= i < |tail| && IsSlot(tail[i].value) && RenderList(env, ctx, tail[i].value.items).Err?;
        assert es[i + 1] == tail[i];
        assert RenderProps(env, ctx, es).Err?;
      } else {
        var rest := RenderProps(env, ctx, tail).value;
        var out := RenderProps(env, ctx, es).value.0;
        assert out[1..] == rest.0;
        forall i | 0 <= i < |es| && IsSlot(es[i].value)
          ensures RenderList(env, ctx, es[i].value.items).Ok?
          ensures out[i].value == Slot(RenderList(env, ctx, es[i].value.items).value.0)
        {
          if i > 0 {
            assert es[i] == tail[i - 1];
            assert out[i] == rest.0[i - 1];
          }
        }
      }
    }
  }

  /** Each slot of a node is replaced by a sequence of the same length whose
      j-th entry is the render of the j-th child; rendering fails when any
      child fails. */
  lemma SlotChildren(env: Env, ctx: Context, es: seq<Field>, i: nat)
    requires i < |es| && IsSlot(es[i].value)
    ensures var items := es[i].value.items;
            && (RenderProps(env, ctx, es).Ok? ==> forall j :: 0 <= j < |items| ==> RenderNode(env, ctx, items[j]).Ok?)
            && (RenderProps(env, ctx, es).Ok? ==>
                  var slot := RenderProps(env, ctx, es).value.0[i].value;
                  && slot.Slot?
                  && |slot.children| == |items|
                  && forall j :: 0 <= j < |items| ==> slot.children[j] == RenderNode(env, ctx, items[j]).value.0)
  {
    RenderPropsPointwise(env, ctx, es);
    RenderListPointwise(env, ctx, es[i].value.items);
  }

  /** A cache hit (a truthy `html` in the entry under the node's key) is the
      stored HTML verbatim: no registry lookup, no child render, no write. */
  lemma CacheHitVerbatim(env: Env, ctx: Context, node: Value, otherResolve: Value -> Option<Component>)
    requires node != Null
    requires CacheKey(env, ctx, node).Some?
    requires var k := CacheKey(env, ctx, node).value;
             k in env.cache && Truthy(Get(env.cache[k], "html"))
    ensures var html := Get(env.cache[CacheKey(env, ctx, node).value], "html");
            && RenderNode(env, ctx, node) == Ok((Cached(html), []))
            && RenderNode(env.(resolve := otherResolve), ctx, node) == Ok((Cached(html), []))
  {
  }

  /** On a miss, the node's element is built from the resolved component over
      its copied props: slots hold their rendered children, a truthy `html`
      is sanitised, every other prop is kept. Its writes are those of its
      slot children, in order, followed by exactly one write of its own
      markup under its key with TTL 3600 when it has a non-empty key. */
  lemma MissRender(env: Env, ctx: Context, node: Value)
    requires node != Null
    requires !Truthy(CachedHtml(env, CacheKey(env, ctx, node)))
    ensures env.resolve(TypeOf(node)).None? ==> RenderNode(env, ctx, node) == Err(ComponentNotFound(TypeOf(node)))
    ensures var es := Entries(PropsOf(node));
            env.resolve(TypeOf(node)).Some? ==>
              (RenderNode(env, ctx, node).Ok? <==>
                 forall i :: 0 <= i < |es| && IsSlot(es[i].value) ==> RenderList(env, ctx, es[i].value.items).Ok?)
    ensures var es := Entries(PropsOf(node));
            var r := RenderNode(env, ctx, node);
            r.Ok? ==>
              && r.value.0.Elem?
              && r.value.0.comp == env.resolve(TypeOf(node)).value
              && SameKeys(r.value.0.props, es)
              && RenderProps(env, ctx, es).Ok?
              && r.value.0.props == SanitizeHtml(env.sanitize, RenderProps(env, ctx, es).value.0)
    ensures var es := Entries(PropsOf(node));
            var r := RenderNode(env, ctx, node);
            var key := CacheKey(env, ctx, node);
            r.Ok? ==>
              && (key.None? || key.value == "" ==> r.value.1 == RenderProps(env, ctx, es).value.1)
              && (key.Some? && key.value != "" ==>
                    && |r.value.1| > 0
                    && r.value.1[..|r.value.1| - 1] == RenderProps(env, ctx, es).value.1
                    && r.value.1[|r.value.1| - 1] == Write(key.value, env.markup(r.value.0), CacheTtl))
  {
    RenderPropsPointwise(env, ctx, Entries(PropsOf(node)));
    var r := RenderNode(env, ctx, node);
    if r.Ok? && CacheKey(env, ctx, node).Some? && CacheKey(env, ctx, node).value != "" {
      var ws := RenderProps(env, ctx, Entries(PropsOf(node))).value.1;
      assert r.value.1 == ws + [Write(CacheKey(env, ctx, node).value, env.markup(r.value.0), CacheTtl)];
      assert r.value.1[..|r.value.1| - 1] == ws;
    }
  }

  /** A truthy `html` prop that is not a slot reaches the element as the
      sanitiser's output; every other non-slot prop reaches it unchanged. */
  lemma MissPlainProps(env: Env, ctx: Context, node: Value, i: nat)
    requires node != Null
    requires !Truthy(CachedHtml(env, CacheKey(env, ctx, node)))
    requires RenderNode(env, ctx, node).Ok?
    requires i < |Entries(PropsOf(node))|
    requires !IsSlot(Entries(PropsOf(node))[i].value)
    ensures var f := Entries(PropsOf(node))[i];
            var p := RenderNode(env, ctx, node).value.0.props[i];
            && p.key == f.key
            && (f.key == "html" && Truthy(f.value) ==> p.value == Plain(env.sanitize(Plain(f.value))))
            && (f.key != "html" || !Truthy(f.value) ==> p.value == Plain(f.value))
  {
    MissRender(env, ctx, node);
  }

  // ---------------------------------------------------------------------
  // Without a page hash the cache is neither read nor written.

  lemma {:induction false} NoHashNodeIgnoresCache(env: Env, ctx: Context, node: Value, cache: map<string, Value>)
    requires !HasPageHash(ctx)
    ensures RenderNode(env, ctx, node) == RenderNode(env.(cache := cache), ctx, node)
    ensures RenderNode(env, ctx, node).Ok? ==> RenderNode(env, ctx, node).value.1 == []
    decreases Size(node), 1, 0
  {
    var env' := env.(cache := cache);
    if node != Null && env.resolve(TypeOf(node)).Some? {
      PropertyEntriesLighter(node, "props");
      NoHashPropsIgnoreCache(env, ctx, Entries(PropsOf(node)), cache);
      assert RenderNode(env, ctx, node) == RenderNode(env', ctx, node);
    }
  }

  lemma {:induction false} NoHashPropsIgnoreCache(env: Env, ctx: Context, es: seq<Field>, cache: map<string, Value>)
    requires !HasPageHash(ctx)
    ensures RenderProps(env, ctx, es) == RenderProps(env.(cache := cache), ctx, es)
    decreases SlotWeight(es), 0, |es|
  {
    if es != [] {
      if IsSlot(es[0].value) {
        NoHashListIgnoresCache(env, ctx, es[0].value.items, cache);
      }
      NoHashPropsIgnoreCache(env, ctx, es[1..], cache);
    }
  }

  lemma {:induction false} NoHashListIgnoresCache(env: Env, ctx: Context, nodes: seq<Value>, cache: map<string, Value>)
    requires !HasPageHash(ctx)
    ensures RenderList(env, ctx, nodes) == RenderList(env.(cache := cache), ctx, nodes)
    decreases SizeList(nodes), 2, 0
  {
    if nodes != [] {
      NoHashNodeIgnoresCache(env, ctx, nodes[0], cache);
      NoHashListIgnoresCache(env, ctx, nodes[1..], cache);
    }
  }

  /** With a falsy page hash the page renders the same whatever the cache
      holds, and writes nothing. */
  lemma NoHashPageIgnoresCache(env: Env, ctx: Context, data: Value, cache: map<string, Value>)
    requires !HasPageHash(ctx)
    ensures RenderPage(env, ctx, data) == RenderPage(env.(cache := cache), ctx, data)
    ensures RenderPage(env, ctx, data).Ok? ==> RenderPage(env, ctx, data).value.1 == []
  {
    if data != Null && PageContent(data).Arr? {
      NoHashListIgnoresCache(env, ctx, PageContent(data).items, cache);
    }
  }

  // ---------------------------------------------------------------------
  // Cache population.

  /** The cache after storing `{html}` under `key`. */
  function Store(cache: map<string, Value>, w: Write): map<string, Value> {
    cache[w.key := Obj([Field("html", Str(w.html))])]
  }

  /** A miss of a cacheable node with a stable id writes its markup under its
      key; a second render against a cache holding that write is a hit that
      emits exactly that markup (when it is non-empty, so that the stored
      `html` is truthy). */
  lemma CachePopulation(env: Env, ctx: Context, node: Value)
    requires node != Null
    requires Truthy(Get(PropsOf(node), "id"))
    requires CacheKey(env, ctx, node).Some? && CacheKey(env, ctx, node).value != ""
    requires RenderNode(env, ctx, node).Ok? && RenderNode(env, ctx, node).value.0.Elem?
    requires env.markup(RenderNode(env, ctx, node).value.0) != ""
    ensures var ws := RenderNode(env, ctx, node).value.1;
            && |ws| > 0
            && var w := ws[|ws| - 1];
               && w.key == CacheKey(env, ctx, node).value
               && RenderNode(env.(cache := Store(env.cache, w)), ctx, node)
                    == Ok((Cached(Str(env.markup(RenderNode(env, ctx, node).value.0))), []))
  {
    MissRender(env, ctx, node);
    var ws := RenderNode(env, ctx, node).value.1;
    var w := ws[|ws| - 1];
    var env' := env.(cache := Store(env.cache, w));
    assert CacheKey(env', ctx, node) == CacheKey(env, ctx, node);
    assert Get(Obj([Field("html", Str(w.html))]), "html") == Str(w.html);
  }

  // ---------------------------------------------------------------------
  // Failure propagation.

  /** `n` is rendered when `nodes` are: it is one of them, or it sits in a
      slot of a node that missed the cache and resolved, at any depth. */
  ghost predicate Visits(env: Env, ctx: Context, nodes: seq<Value>, n: Value)
    decreases SizeList(nodes), 2
  {
    SizeListBound(nodes);
    exists i :: 0 <= i < |nodes| && (nodes[i] == n || VisitsBelow(env, ctx, nodes[i], n))
  }

  /** `n` sits in a slot of `c`, at any depth, and `c` renders its slots:
      it missed the cache and its type resolved. */
  ghost predicate VisitsBelow(env: Env, ctx: Context, c: Value, n: Value)
    decreases Size(c), 1
  {
    && c != Null
    && !Truthy(CachedHtml(env, CacheKey(env, ctx, c)))
    && env.resolve(TypeOf(c)).Some?
    && (PropertyEntriesLighter(c, "props");
        SlotsVisit(env, ctx, Entries(PropsOf(c)), n))
  }

  ghost predicate SlotsVisit(env: Env, ctx: Context, es: seq<Field>, n: Value)
    decreases SlotWeight(es), 0
  {
    SlotWeightBound(es);
    exists j :: 0 <= j < |es| && IsSlot(es[j].value) && Visits(env, ctx, es[j].value.items, n)
  }

  /** One node that fails, wherever the pass reaches it, fails the list it
      belongs to: no partial tree is returned. */
  lemma {:induction false} VisitedFailureFails(env: Env, ctx: Context, nodes: seq<Value>, n: Value)
    requires Visits(env, ctx, nodes, n)
    requires RenderNode(env, ctx, n).Err?
    ensures RenderList(env, ctx, nodes).Err?
    decreases SizeList(nodes)
  {
    SizeListBound(nodes);
    var i :| 0 <= i < |nodes| && (nodes[i] == n || VisitsBelow(env, ctx, nodes[i], n));
    if nodes[i] != n {
      var c := nodes[i];
      var j := VisitedSlot(env, ctx, c, n);
      VisitedFailureFails(env, ctx, Entries(PropsOf(c))[j].value.items, n);
      SlotFailureFailsNode(env, ctx, c, j);
    }
    NodeFailureFailsList(env, ctx, nodes, i);
  }

  /** The slot of `c` through which the pass reaches `n`. */
  lemma VisitedSlot(env: Env, ctx: Context, c: Value, n: Value) returns (j: nat)
    requires VisitsBelow(env, ctx, c, n)
    ensures c != Null && !Truthy(CachedHtml(env, CacheKey(env, ctx, c))) && env.resolve(TypeOf(c)).Some?
    ensures j < |Entries(PropsOf(c))| && IsSlot(Entries(PropsOf(c))[j].value)
    ensures Visits(env, ctx, Entries(PropsOf(c))[j].value.items, n)
    ensures SizeList(Entries(PropsOf(c))[j].value.items) < Size(c)
  {
    var es := Entries(PropsOf(c));
    PropertyEntriesLighter(c, "props");
    SlotWeightBound(es);
    assert SlotsVisit(env, ctx, es, n);
    j :| 0 <= j < |es| && IsSlot(es[j].value) && Visits(env, ctx, es[j].value.items, n);
  }

  /** A list fails when one of its nodes fails. */
  lemma NodeFailureFailsList(env: Env, ctx: Context, nodes: seq<Value>, i: nat)
    requires i < |nodes| && RenderNode(env, ctx, nodes[i]).Err?
    ensures RenderList(env, ctx, nodes).Err?
  {
    RenderListPointwise(env, ctx, nodes);
  }

  /** A node that missed the cache and resolved fails when one of its slots'
      children fails. */
  lemma SlotFailureFailsNode(env: Env, ctx: Context, c: Value, j: nat)
    requires c != Null
    requires !Truthy(CachedHtml(env, CacheKey(env, ctx, c)))
    requires env.resolve(TypeOf(c)).Some?
    requires j < |Entries(PropsOf(c))| && IsSlot(Entries(PropsOf(c))[j].value)
    requires RenderList(env, ctx, Entries(PropsOf(c))[j].value.items).Err?
    ensures RenderNode(env, ctx, c).Err?
  {
    RenderPropsPointwise(env, ctx, Entries(PropsOf(c)));
  }

  /** The page's children are the renders of `content`, in the same order and
      number, the page renders exactly when every content node does, and its
      writes are those of rendering `content`. */
  lemma PageChildren(env: Env, ctx: Context, data: Value)
    requires data != Null
    requires env.resolve(PageType).Some?
    requires PageContent(data).Arr?
    ensures var content := PageContent(data).items;
            RenderPage(env, ctx, data).Ok? <==>
              forall i :: 0 <= i < |content| ==> RenderNode(env, ctx, content[i]).Ok?
    ensures var content := PageContent(data).items;
            RenderPage(env, ctx, data).Ok? ==>
              forall i :: 0 <= i < |content| ==>
                RenderPage(env, ctx, data).value.0.children[i] == RenderNode(env, ctx, content[i]).value.0
    ensures RenderPage(env, ctx, data).Ok? ==>
              && RenderList(env, ctx, PageContent(data).items).Ok?
              && RenderPage(env, ctx, data).value.1 == RenderList(env, ctx, PageContent(data).items).value.1
  {
    RenderListPointwise(env, ctx, PageContent(data).items);
  }

  /** A node the pass reaches whose type the registry cannot resolve fails the
      whole page with `ComponentNotFound`-driven failure. */
  lemma UnresolvedVisitedTypeFailsPage(env: Env, ctx: Context, data: Value, n: Value)
    requires data != Null
    requires PageContent(data).Arr?
    requires Visits(env, ctx, PageContent(data).items, n)
    requires n != Null && !Truthy(CachedHtml(env, CacheKey(env, ctx, n)))
    requires env.resolve(TypeOf(n)).None?
    ensures RenderPage(env, ctx, data).Err?
  {
    VisitedFailureFails(env, ctx, PageContent(data).items, n);
  }
}
