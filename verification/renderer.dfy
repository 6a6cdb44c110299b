/**
 The server-side tree renderer. Each content node is checked against the node
 cache; a hit is emitted verbatim, a miss resolves the node's component,
 renders its slot props recursively, sanitises its `html` prop, builds the
 element and (for cacheable nodes) writes its static markup back to the cache.
 The root wraps the rendered `content` in the `"Page"` component.

 The collaborators the source reaches through imports (component registry,
 HTML sanitiser, static markup renderer, cache key builder and the cache
 itself) are passed in an `Env`. The cache is a read-only snapshot, and the
 writes a render pass performs are returned in the order the sequential
 render issues them.
 */
module Renderer {
  import opened Json
  import opened Results

  /** An opaque handle for the implementation the registry resolves a type to. */
  datatype Component = Component(handle: nat)

  /** The identity a node's cache key is built from: its `props.id` when that
      is truthy, otherwise the fallback the source derives from the type and a
      random suffix, left opaque here. */
  datatype NodeId = Given(id: Value) | Fallback(nodeType: Value)

  /** A render output. */
  datatype Rendered =
    | Cached(html: Value)                                          // a wrapper carrying cached HTML verbatim
    | Elem(comp: Component, props: seq<Prop>)                      // a content node's element
    | Page(comp: Component, rootProps: seq<Field>, children: seq<Rendered>)  // the root element

  /** One prop of a rendered element. */
  datatype Prop = Prop(key: string, value: PropValue)

  /** A prop value: kept from the document, or a slot replaced by its rendered children. */
  datatype PropValue = Plain(v: Value) | Slot(children: seq<Rendered>)

  /** A node-level cache write: `{html}` stored under `key` for `ttl` seconds. */
  datatype Write = Write(key: string, html: string, ttl: nat)

  /** The node cache entry lifetime, in seconds. */
  const CacheTtl: nat := 3600

  /** The collaborators of a render pass. `resolve` answers `None` where the
      registry throws; `cache` maps keys to the JSON entries stored under them. */
  datatype Env = Env(
    resolve: Value -> Option<Component>,
    sanitize: PropValue -> Value,
    markup: Rendered -> string,
    blockKey: (string, string, NodeId) -> string,
    cache: map<string, Value>)

  /** The per-pass render context. `pageHash` is `None` where the source passes `null`. */
  datatype Context = Context(tenantSlug: string, pageHash: Option<string>)

  /** The types whose rendered HTML is cached. */
  const CacheableTypes: seq<Value> := [Str("ProductGrid"), Str("HeavyComponent")]

  function ShouldCacheHtml(t: Value): (b: bool)
    ensures b <==> t == Str("ProductGrid") || t == Str("HeavyComponent")
  {
    t in CacheableTypes
  }

  /** The page hash is truthy: present and non-empty. */
  predicate HasPageHash(ctx: Context) {
    ctx.pageHash.Some? && ctx.pageHash.value != ""
  }

  /** `rawProps?.id || fallback` */
  function NodeIdOf(node: Value): (id: NodeId)
    ensures id.Given? <==> Truthy(Get(PropsOf(node), "id"))
    ensures id.Given? ==> id.id == Get(PropsOf(node), "id")
    ensures id.Fallback? ==> id.nodeType == TypeOf(node)
  {
    var id := Get(PropsOf(node), "id");
    if Truthy(id) then Given(id) else Fallback(TypeOf(node))
  }

  /** The node's cache key: present exactly when the page hash is truthy and
      the node's type is cacheable. */
  function CacheKey(env: Env, ctx: Context, node: Value): (k: Option<string>)
    ensures k.Some? <==> HasPageHash(ctx) && ShouldCacheHtml(TypeOf(node))
    ensures k.Some? ==> k.value == env.blockKey(ctx.tenantSlug, ctx.pageHash.value, NodeIdOf(node))
  {
    if HasPageHash(ctx) && ShouldCacheHtml(TypeOf(node))
    then Some(env.blockKey(ctx.tenantSlug, ctx.pageHash.value, NodeIdOf(node)))
    else None
  }

  /** `cached?.html` for the node's key; `Null` when there is no key, so the
      cache is not read. */
  function CachedHtml(env: Env, key: Option<string>): (h: Value)
    ensures key.None? ==> h == Null
    ensures Truthy(h) ==> key.Some? && key.value in env.cache && h == Get(env.cache[key.value], "html")
    ensures key.Some? && key.value in env.cache ==> h == Get(env.cache[key.value], "html")
    ensures key.Some? && key.value !in env.cache ==> h == Null
  {
    if key.Some? && key.value in env.cache then Get(env.cache[key.value], "html") else Null
  }

  /** A props value rendered as a slot: a non-empty array whose first element
      has both a truthy `type` and truthy `props`. */
  predicate IsSlot(v: Value) {
    v.Arr? && |v.items| > 0 && Truthy(TypeOf(v.items[0])) && Truthy(PropsOf(v.items[0]))
  }

  /** JavaScript truthiness of a prop after slot substitution: a slot is an array. */
  predicate TruthyProp(p: PropValue) {
    match p
    case Plain(v) => Truthy(v)
    case Slot(_) => true
  }

  /** `ps` and `es` list the same keys in the same order. */
  predicate SameKeys(ps: seq<Prop>, es: seq<Field>) {
    |ps| == |es| && forall i :: 0 <= i < |es| ==> ps[i].key == es[i].key
  }

  /** Every write belongs to this pass: a node entry with the fixed TTL, under a
      key built from the pass's tenant and its truthy page hash. */
  ghost predicate WritesOfPass(env: Env, ctx: Context, ws: seq<Write>) {
    forall w :: w in ws ==>
      && w.ttl == CacheTtl
      && HasPageHash(ctx)
      && exists id :: w.key == env.blockKey(ctx.tenantSlug, ctx.pageHash.value, id)
  }

  lemma WritesOfPassAppend(env: Env, ctx: Context, a: seq<Write>, b: seq<Write>)
    requires WritesOfPass(env, ctx, a) && WritesOfPass(env, ctx, b)
    ensures WritesOfPass(env, ctx, a + b)
  {
  }

  /** `if (props?.html) props.html = sanitizeHtml(props.html)`. */
  function SanitizeHtml(sanitize: PropValue -> Value, ps: seq<Prop>): (r: seq<Prop>)
    ensures |r| == |ps|
    ensures forall i :: 0 <= i < |ps| ==> r[i].key == ps[i].key
    ensures forall i :: 0 <= i < |ps| && ps[i].key != "html" ==> r[i] == ps[i]
    ensures forall i :: 0 <= i < |ps| && ps[i].key == "html" && !TruthyProp(ps[i].value) ==> r[i] == ps[i]
    ensures forall i :: 0 <= i < |ps| && ps[i].key == "html" && TruthyProp(ps[i].value) ==>
              r[i].value == Plain(sanitize(ps[i].value))
  {
    if ps == [] then []
    else
      var p := ps[0];
      var q := if p.key == "html" && TruthyProp(p.value) then Prop(p.key, Plain(sanitize(p.value))) else p;
      [q] + SanitizeHtml(sanitize, ps[1..])
  }

  /** The write a cacheable miss performs, `setRedisJSON(cacheKey, {html}, 3600)`,
      guarded by the truthiness of the key: an empty key is read but not written. */
  function OwnWrite(env: Env, key: Option<string>, elem: Rendered): (ws: seq<Write>)
    ensures key.None? || key.value == "" ==> ws == []
    ensures key.Some? && key.value != "" ==> ws == [Write(key.value, env.markup(elem), CacheTtl)]
  {
    if key.Some? && key.value != "" then [Write(key.value, env.markup(elem), CacheTtl)] else []
  }

  /** `renderNode(node, tenantSlug, pageHash)`: the render of one content node
      and the cache writes of its subtree. */
  function RenderNode(env: Env, ctx: Context, node: Value): (r: Result<(Rendered, seq<Write>)>)
    ensures node == Null ==> r.Err?
    ensures r.Ok? ==> r.value.0.Cached? || r.value.0.Elem?
    ensures r.Ok? && r.value.0.Cached? ==>
              && r.value.1 == []
              && r.value.0.html == CachedHtml(env, CacheKey(env, ctx, node))
              && Truthy(r.value.0.html)
    ensures r.Ok? && r.value.0.Elem? ==>
              && env.resolve(TypeOf(node)) == Some(r.value.0.comp)
              && SameKeys(r.value.0.props, Entries(PropsOf(node)))
    ensures r.Ok? ==> WritesOfPass(env, ctx, r.value.1)
    ensures r.Ok? && !HasPageHash(ctx) ==> r.value.1 == []
    decreases Size(node), 1, 0
  {
    if node == Null then Err(TypeError("cannot destructure a missing node"))
    else
      var key := CacheKey(env, ctx, node);
      var hit := CachedHtml(env, key);
      if Truthy(hit) then Ok((Cached(hit), []))
      else match env.resolve(TypeOf(node))
        case None => Err(ComponentNotFound(TypeOf(node)))
        case Some(comp) =>
          PropertyEntriesLighter(node, "props");
          var filled :- RenderProps(env, ctx, Entries(PropsOf(node)));
          var elem := Elem(comp, SanitizeHtml(env.sanitize, filled.0));
          var own := OwnWrite(env, key, elem);
          WritesOfPassAppend(env, ctx, filled.1, own);
          Ok((elem, filled.1 + own))
  }

  /** The slot loop over a copy of the node's props: each slot is replaced in
      place by its rendered children, every other prop is kept. */
  function RenderProps(env: Env, ctx: Context, es: seq<Field>): (r: Result<(seq<Prop>, seq<Write>)>)
    ensures r.Ok? ==> SameKeys(r.value.0, es)
    ensures r.Ok? ==> forall i :: 0 <= i < |es| && !IsSlot(es[i].value) ==> r.value.0[i].value == Plain(es[i].value)
    ensures r.Ok? ==> forall i :: 0 <= i < |es| && IsSlot(es[i].value) ==>
              r.value.0[i].value.Slot? && |r.value.0[i].value.children| == |es[i].value.items|
    ensures r.Ok? ==> WritesOfPass(env, ctx, r.value.1)
    ensures r.Ok? && !HasPageHash(ctx) ==> r.value.1 == []
    decreases SlotWeight(es), 0, |es|
  {
    if es == [] then Ok(([], []))
    else
      var v := es[0].value;
      if IsSlot(v) then
        var children :- RenderList(env, ctx, v.items);
        var rest :- RenderProps(env, ctx, es[1..]);
        WritesOfPassAppend(env, ctx, children.1, rest.1);
        Ok(([Prop(es[0].key, Slot(children.0))] + rest.0, children.1 + rest.1))
      else
        var rest :- RenderProps(env, ctx, es[1..]);
        Ok(([Prop(es[0].key, Plain(v))] + rest.0, rest.1))
  }

  /** The renders of `nodes`, in order: `Promise.all(nodes.map(renderNode))`. */
  function RenderList(env: Env, ctx: Context, nodes: seq<Value>): (r: Result<(seq<Rendered>, seq<Write>)>)
    ensures r.Ok? ==> |r.value.0| == |nodes|
    ensures r.Ok? ==> forall i :: 0 <= i < |nodes| ==> r.value.0[i].Cached? || r.value.0[i].Elem?
    ensures r.Ok? ==> WritesOfPass(env, ctx, r.value.1)
    ensures r.Ok? && !HasPageHash(ctx) ==> r.value.1 == []
    decreases SizeList(nodes), 2, 0
  {
    if nodes == [] then Ok(([], []))
    else
      var first :- RenderNode(env, ctx, nodes[0]);
      var rest :- RenderList(env, ctx, nodes[1..]);
      WritesOfPassAppend(env, ctx, first.1, rest.1);
      Ok(([first.0] + rest.0, first.1 + rest.1))
  }

  /** `data.root?.props || data.root || {}` */
  function RootProps(data: Value): (r: Value)
    ensures Truthy(PropsOf(Get(data, "root"))) ==> r == PropsOf(Get(data, "root"))
    ensures !Truthy(PropsOf(Get(data, "root"))) && Truthy(Get(data, "root")) ==> r == Get(data, "root")
    ensures !Truthy(PropsOf(Get(data, "root"))) && !Truthy(Get(data, "root")) ==> r == Obj([])
  {
    var root := Get(data, "root");
    if Truthy(PropsOf(root)) then PropsOf(root)
    else if Truthy(root) then root
    else Obj([])
  }

  /** `data.content || []` */
  function PageContent(data: Value): (c: Value)
    ensures Truthy(Get(data, "content")) ==> c == Get(data, "content")
    ensures !Truthy(Get(data, "content")) ==> c == Arr([])
  {
    var content := Get(data, "content");
    if Truthy(content) then content else Arr([])
  }

  /** `renderPuckToReactNode(data, tenantSlug, pageHash)`: the `"Page"`
      element over the copied root props and the rendered `content`. */
  function RenderPage(env: Env, ctx: Context, data: Value): (r: Result<(Rendered, seq<Write>)>)
    ensures data == Null ==> r.Err?
    ensures data != Null && env.resolve(PageType).None? ==> r == Err(ComponentNotFound(PageType))
    ensures data != Null && env.resolve(PageType).Some? && !PageContent(data).Arr? ==> r.Err? && r.error.TypeError?
    ensures r.Ok? ==>
              && r.value.0.Page?
              && env.resolve(PageType) == Some(r.value.0.comp)
              && r.value.0.rootProps == Entries(RootProps(data))
              && PageContent(data).Arr?
              && |r.value.0.children| == |PageContent(data).items|
    ensures r.Ok? ==> WritesOfPass(env, ctx, r.value.1)
    ensures r.Ok? && !HasPageHash(ctx) ==> r.value.1 == []
  {
    if data == Null then Err(TypeError("cannot read root of a missing document"))
    else
      var rootProps := Entries(RootProps(data));
      match env.resolve(PageType)
      case None => Err(ComponentNotFound(PageType))
      case Some(pageComp) =>
        var content := PageContent(data);
        if !content.Arr? then Err(TypeError("content.map is not a function"))
        else
          var children :- RenderList(env, ctx, content.items);
          Ok((Page(pageComp, rootProps, children.0), children.1))
  }
}
