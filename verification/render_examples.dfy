/**
 The renderer's documented examples, each worked through the definitions,
 against a registry that resolves every type to one component, a sanitiser
 and markup renderer that return fixed strings, and a key builder that
 returns `"key"`.
 */
module RenderExamples {
  import opened Json
  import opened Results
  import opened Renderer
  import opened Documents

  const Comp: Component := Component(0)

  /** A registry that resolves every type. */
  function AnyType(t: Value): Option<Component> {
    Some(Comp)
  }

  /** A registry that resolves only `"Page"`. */
  function PageOnly(t: Value): Option<Component> {
    if t == PageType then Some(Comp) else None
  }

  function Fixed(resolve: Value -> Option<Component>, cache: map<string, Value>): Env {
    Env(resolve, p => Str("sanitized"), e => "<markup>", (t, h, id) => "key", cache)
  }

  const Pass: Context := Context("slug", Some("hash"))

  lemma DocRoot(content: seq<Value>)
    ensures Entries(RootProps(Doc(content))) == []
    ensures PageContent(Doc(content)) == Arr(content)
  {
    var d := Doc(content);
    assert Get(d, "root") == Obj([]) by {
      assert d.fields[0].key != "root";
      assert Lookup(d.fields, "root") == Lookup(d.fields[1..], "root");
    }
    DocContent(content);
  }

  /** A node whose props hold no slot and no `html` renders to its component
      over the same props, and writes nothing when its type is not cacheable. */
  lemma PlainLeaf(env: Env, t: string, key: string, v: Value)
    requires t != "" && key != "html" && !IsSlot(v)
    requires !ShouldCacheHtml(Str(t))
    requires env.resolve(Str(t)).Some?
    ensures RenderNode(env, Pass, Node(t, [Field(key, v)]))
         == Ok((Elem(env.resolve(Str(t)).value, [Prop(key, Plain(v))]), []))
  {
    NodeParts(t, [Field(key, v)]);
    var es := [Field(key, v)];
    assert Entries(Obj(es)) == es;
    assert es[1..] == [];
    assert RenderProps(env, Pass, es[1..]) == Ok(([], []));
    assert es[0].value == v && !IsSlot(es[0].value);
    assert [Prop(key, Plain(v))] + [] == [Prop(key, Plain(v))];
    assert RenderProps(env, Pass, es) == Ok(([Prop(key, Plain(v))], []));
    var ps := [Prop(key, Plain(v))];
    assert ps[1..] == [];
    assert SanitizeHtml(env.sanitize, ps[1..]) == [];
    assert SanitizeHtml(env.sanitize, ps) == ps;
    assert CacheKey(env, Pass, Node(t, [Field(key, v)])) == None;
    assert CachedHtml(env, None) == Null;
    var node := Node(t, es);
    assert node != Null;
    assert Entries(PropsOf(node)) == es;
    var elem := Elem(env.resolve(Str(t)).value, ps);
    assert OwnWrite(env, None, elem) == [];
    assert [] + OwnWrite(env, None, elem) == [];
  }

  /** A list of one node renders as that node. */
  lemma SingleList(env: Env, node: Value, rn: Rendered, ws: seq<Write>)
    requires RenderNode(env, Pass, node) == Ok((rn, ws))
    ensures RenderList(env, Pass, [node]) == Ok(([rn], ws))
  {
    assert [node][0] == node && [node][1..] == [];
    assert RenderList(env, Pass, []) == Ok(([], []));
    assert [rn] + [] == [rn] && ws + [] == ws;
  }

  lemma DocWithRootPropsRoot(content: seq<Value>)
    ensures Entries(RootProps(DocWithRootProps(content))) == []
    ensures PageContent(DocWithRootProps(content)) == Arr(content)
  {
    DocWithRootPropsParts(content);
  }

  /** A document of one node renders as the page over that node, with its
      writes, when its root props are empty. */
  lemma SinglePage(env: Env, data: Value, node: Value, rn: Rendered, ws: seq<Write>)
    requires env.resolve(PageType) == Some(Comp)
    requires data != Null && PageContent(data) == Arr([node]) && Entries(RootProps(data)) == []
    requires RenderNode(env, Pass, node) == Ok((rn, ws))
    ensures RenderPage(env, Pass, data) == Ok((Page(Comp, [], [rn]), ws))
  {
    SingleList(env, node, rn, ws);
  }

  /** `content: [{type: "Hero", props: {title: "Welcome"}}]` without a cache
      renders a `Hero` element with `title = "Welcome"` inside the page. */
  lemma BasicContent()
    ensures RenderPage(Fixed(AnyType, map[]), Pass, DocWithRootProps([Node("Hero", [Field("title", Str("Welcome"))])]))
         == Ok((Page(Comp, [], [Elem(Comp, [Prop("title", Plain(Str("Welcome")))])]), []))
  {
    var env := Fixed(AnyType, map[]);
    PlainLeaf(env, "Hero", "title", Str("Welcome"));
    var hero := Node("Hero", [Field("title", Str("Welcome"))]);
    DocWithRootPropsRoot([hero]);
    SinglePage(env, DocWithRootProps([hero]), hero, Elem(Comp, [Prop("title", Plain(Str("Welcome")))]), []);
  }

  /** `content: [{type: "Grid", props: {items: [{type: "Item", props: {title: "Nested"}}]}}]`
      renders a `Grid` whose `items` prop is replaced by one rendered `Item`. */
  lemma NestedSlot()
    ensures RenderPage(Fixed(AnyType, map[]), Pass,
                       DocWithRootProps([Node("Grid", [Field("items", Arr([Node("Item", [Field("title", Str("Nested"))])]))])]))
         == Ok((Page(Comp, [], [Elem(Comp, [Prop("items", Slot([Elem(Comp, [Prop("title", Plain(Str("Nested")))])]))])]), []))
  {
    var env := Fixed(AnyType, map[]);
    var grid := Node("Grid", [Field("items", Arr([Node("Item", [Field("title", Str("Nested"))])]))]);
    var ps := [Prop("items", Slot([Elem(Comp, [Prop("title", Plain(Str("Nested")))])]))];
    GridWithItem();
    DocWithRootPropsRoot([grid]);
    SinglePage(env, DocWithRootProps([grid]), grid, Elem(Comp, ps), []);
  }

  /** The `Grid` node of `NestedSlot` renders with its `items` slot filled. */
  lemma GridWithItem()
    ensures RenderNode(Fixed(AnyType, map[]), Pass,
                       Node("Grid", [Field("items", Arr([Node("Item", [Field("title", Str("Nested"))])]))]))
         == Ok((Elem(Comp, [Prop("items", Slot([Elem(Comp, [Prop("title", Plain(Str("Nested")))])]))]), []))
  {
    var env := Fixed(AnyType, map[]);
    var itemNode := Node("Item", [Field("title", Str("Nested"))]);
    var item := Elem(Comp, [Prop("title", Plain(Str("Nested")))]);
    PlainLeaf(env, "Item", "title", Str("Nested"));
    SingleList(env, itemNode, item, []);

    var es := [Field("items", Arr([itemNode]))];
    var grid := Node("Grid", es);
    NodeParts("Grid", es);
    assert IsSlot(Arr([itemNode]));
    assert Entries(Obj(es)) == es;
    assert es[0].value == Arr([itemNode]) && es[1..] == [];
    assert RenderProps(env, Pass, es[1..]) == Ok(([], []));
    var ps := [Prop("items", Slot([item]))];
    assert ps + [] == ps;
    assert RenderProps(env, Pass, es) == Ok((ps, []));
    assert ps[1..] == [];
    assert SanitizeHtml(env.sanitize, ps[1..]) == [];
    assert SanitizeHtml(env.sanitize, ps) == ps;
    assert CacheKey(env, Pass, grid) == None;
    assert CachedHtml(env, None) == Null;
    assert [] + OwnWrite(env, None, Elem(Comp, ps)) == [];
  }

  /** The `ProductGrid` node of `content: [{type: "ProductGrid", props: {id: "1"}}]`. */
  function Grid(): Value {
    Node("ProductGrid", [Field("id", Str("1"))])
  }

  lemma GridKey(env: Env)
    ensures CacheKey(env, Pass, Grid()) == Some(env.blockKey("slug", "hash", Given(Str("1"))))
  {
    NodeParts("ProductGrid", [Field("id", Str("1"))]);
    assert Get(Obj([Field("id", Str("1"))]), "id") == Str("1");
  }

  /** With `{html: "<cached>Content</cached>"}` stored under the node's key, a
      `ProductGrid` renders to that HTML verbatim, even though the registry
      cannot resolve its type, and nothing is written. */
  lemma CachedProductGrid()
    ensures RenderPage(Fixed(PageOnly, map["key" := Obj([Field("html", Str("<cached>Content</cached>"))])]), Pass, Doc([Grid()]))
         == Ok((Page(Comp, [], [Cached(Str("<cached>Content</cached>"))]), []))
  {
    var cache := map["key" := Obj([Field("html", Str("<cached>Content</cached>"))])];
    var env := Fixed(PageOnly, cache);
    GridKey(env);
    assert CachedHtml(env, Some("key")) == Str("<cached>Content</cached>");
    assert RenderNode(env, Pass, Grid()) == Ok((Cached(Str("<cached>Content</cached>")), []));
    DocRoot([Grid()]);
    SinglePage(env, Doc([Grid()]), Grid(), Cached(Str("<cached>Content</cached>")), []);
  }

  /** The element a `ProductGrid` with id `"1"` renders to, and its one write. */
  function GridElem(): Rendered {
    Elem(Comp, [Prop("id", Plain(Str("1")))])
  }

  const GridWrite: Write := Write("key", "<markup>", 3600)

  /** With an empty cache a `ProductGrid` is rendered, and its markup is
      written once under its key for 3600 seconds. */
  lemma GridMiss()
    ensures RenderNode(Fixed(AnyType, map[]), Pass, Grid()) == Ok((GridElem(), [GridWrite]))
  {
    var env := Fixed(AnyType, map[]);
    var es := [Field("id", Str("1"))];
    GridKey(env);
    NodeParts("ProductGrid", es);
    assert Entries(Obj(es)) == es;
    assert es[0].value == Str("1") && !IsSlot(es[0].value) && es[1..] == [];
    assert RenderProps(env, Pass, es[1..]) == Ok(([], []));
    var ps := [Prop("id", Plain(Str("1")))];
    assert ps + [] == ps;
    assert RenderProps(env, Pass, es) == Ok((ps, []));
    assert ps[1..] == [];
    assert SanitizeHtml(env.sanitize, ps[1..]) == [];
    assert SanitizeHtml(env.sanitize, ps) == ps;
    assert CachedHtml(env, Some("key")) == Null;
    var own := OwnWrite(env, Some("key"), Elem(Comp, ps));
    assert own == [GridWrite];
    assert [] + own == own;
  }

  /** The same document as `CachedProductGrid`, against an empty cache: the
      page holds the rendered `ProductGrid` and the pass writes its markup once. */
  lemma ProductGridMissWrites()
    ensures RenderPage(Fixed(AnyType, map[]), Pass, Doc([Grid()]))
         == Ok((Page(Comp, [], [GridElem()]), [GridWrite]))
  {
    GridMiss();
    DocRoot([Grid()]);
    SinglePage(Fixed(AnyType, map[]), Doc([Grid()]), Grid(), GridElem(), [GridWrite]);
  }

  /** The props `{a: [grid], b: [grid]}` of the node below. */
  function TwoGridSlots(): seq<Field> {
    [Field("a", Arr([Grid()])), Field("b", Arr([Grid()]))]
  }

  /** A slot holding the grid renders it and emits its write. */
  lemma GridSlot(key: string, rest: seq<Field>, restProps: seq<Prop>, restWrites: seq<Write>)
    requires RenderProps(Fixed(AnyType, map[]), Pass, rest) == Ok((restProps, restWrites))
    ensures RenderProps(Fixed(AnyType, map[]), Pass, [Field(key, Arr([Grid()]))] + rest)
         == Ok(([Prop(key, Slot([GridElem()]))] + restProps, [GridWrite] + restWrites))
  {
    var env := Fixed(AnyType, map[]);
    var es := [Field(key, Arr([Grid()]))] + rest;
    NodeParts("ProductGrid", [Field("id", Str("1"))]);
    GridMiss();
    SingleList(env, Grid(), GridElem(), [GridWrite]);
    assert IsSlot(Arr([Grid()]));
    assert es[0] == Field(key, Arr([Grid()])) && es[1..] == rest;
  }

  lemma TwoGridSlotsRender()
    ensures RenderProps(Fixed(AnyType, map[]), Pass, TwoGridSlots())
         == Ok(([Prop("a", Slot([GridElem()])), Prop("b", Slot([GridElem()]))], [GridWrite, GridWrite]))
  {
    var env := Fixed(AnyType, map[]);
    assert RenderProps(env, Pass, []) == Ok(([], []));
    GridSlot("b", [], [], []);
    assert [Field("b", Arr([Grid()]))] + [] == [Field("b", Arr([Grid()]))];
    var pb := [Prop("b", Slot([GridElem()]))];
    assert pb + [] == pb && [GridWrite] + [] == [GridWrite];
    GridSlot("a", [Field("b", Arr([Grid()]))], pb, [GridWrite]);
    assert [Field("a", Arr([Grid()]))] + [Field("b", Arr([Grid()]))] == TwoGridSlots();
    assert [Prop("a", Slot([GridElem()]))] + pb == [Prop("a", Slot([GridElem()])), Prop("b", Slot([GridElem()]))];
    assert [GridWrite] + [GridWrite] == [GridWrite, GridWrite];
  }

  /** A node whose props hold the same `ProductGrid` in two slots, `a` then
      `b`, rendered against an empty cache: both slots render the grid and
      the same write is emitted twice. The cache is a snapshot for the whole
      pass, so `b` does not see the write `a` performed, although the source
      awaits `a`'s write before `b`'s read. */
  lemma SlotsDoNotReadEarlierWrites()
    ensures RenderNode(Fixed(AnyType, map[]), Pass, Node("Box", TwoGridSlots()))
         == Ok((Elem(Comp, [Prop("a", Slot([GridElem()])), Prop("b", Slot([GridElem()]))]),
                [GridWrite, GridWrite]))
  {
    var env := Fixed(AnyType, map[]);
    var es := TwoGridSlots();
    var node := Node("Box", es);
    NodeParts("Box", es);
    TwoGridSlotsRender();
    assert Entries(Obj(es)) == es;
    var ps := [Prop("a", Slot([GridElem()])), Prop("b", Slot([GridElem()]))];
    TwoSlotsSanitized(env.sanitize);
    assert CacheKey(env, Pass, node) == None;
    assert CachedHtml(env, None) == Null;
    assert [GridWrite, GridWrite] + OwnWrite(env, None, Elem(Comp, ps)) == [GridWrite, GridWrite];
  }

  /** Sanitizing leaves slot props alone. */
  lemma TwoSlotsSanitized(sanitize: PropValue -> Value)
    ensures SanitizeHtml(sanitize, [Prop("a", Slot([GridElem()])), Prop("b", Slot([GridElem()]))])
         == [Prop("a", Slot([GridElem()])), Prop("b", Slot([GridElem()]))]
  {
    var ps := [Prop("a", Slot([GridElem()])), Prop("b", Slot([GridElem()]))];
    assert ps[1..][1..] == [];
    assert SanitizeHtml(sanitize, ps[1..][1..]) == [];
    assert SanitizeHtml(sanitize, ps[1..]) == ps[1..];
  }
}
