# Page-builder document walks

This project models the two pure tree walks at the core of a storefront's page
rendering. Their input is a page-builder document: a JSON tree whose
`content` is a list of nodes `{type, props}`. Any props value that holds a
nested array of nodes is a *slot*.

- **The type collector** (`collectTypesFromPuck`) walks `content` and every
  nested slot array. It accumulates the set of node types it meets, plus the
  implicit root type `"Page"`. The set is used to pre-warm the component
  registry. The collector adds to the set its caller passes in, in place;
  `CollectTypes` returns the outcome of the call and `SetAfterCall` the
  caller's set afterwards, including after a throw.
- **The tree renderer** (`renderNode`, `shouldCacheHtml`,
  `renderPuckToReactNode`) handles each content node in turn:
  - it checks whether the node may be cached, and looks it up in the node
    cache under `blockKey(tenantSlug, pageHash, nodeId)`;
  - on a hit it emits the stored HTML verbatim;
  - on a miss it resolves the node's component, renders its slot props
    recursively in place, and sanitises its `html` prop;
  - it then builds the element and, for a cacheable node, writes the
    element's static markup back to the cache with a one-hour TTL.

  The root wraps the rendered `content` in the `"Page"` component, over the
  props `root.props || root || {}`.

Modules:

| file | module | contents |
|---|---|---|
| `json.dfy` | `Json` | the `Value` tree, plus JavaScript truthiness, `?.` reads and `for..in` / spread enumeration (`Entries`), and the size measures the walks terminate by |
| `results.dfy` | `Results` | `Option`, and `Result` with the two failures the source can raise: `ComponentNotFound` and a JavaScript `TypeError` |
| `type_collector.dfy` | `TypeCollector` | the collector, a reference definition of the nodes it visits, and the proof that it collects exactly their types |
| `renderer.dfy` | `Renderer` | the renderer, with its collaborators in an `Env` |
| `render_proofs.dfy` | `RenderProofs` | the renderer's properties: slots, hits, misses, writes, behaviour without a page hash, cache population, and failure propagation |
| `render_writes.dfy` | `RenderWrites` | which cache writes a pass emits and in what order: the writes of each node, or of each slot, concatenated in document order |
| `documents.dfy` | `Documents` | builders for small example documents |
| `collector_examples.dfy`, `render_examples.dfy` | `CollectorExamples`, `RenderExamples` | the documented examples, worked through the definitions |

The renderer's collaborators are parameters: the component registry
(`resolve`), `sanitize-html` (`sanitize`), `renderToStaticMarkup` (`markup`),
`blockKey`, and a read-only snapshot of the cache. A render returns its output
tree and the list of cache writes it performs. A registry that throws, or a
malformed document on which the JavaScript throws, gives an `Err` that
propagates through the whole pass.

## Model

| member | source | states |
|---|---|---|
| TypeCollector.CollectTypes | src/lib/puck/puckUtils.ts:3-23 | falsy data returns the accumulator unchanged; otherwise `"Page"` is in the result and the accumulator only grows; the walk fails exactly when `content` is truthy but not iterable |
| TypeCollector.SetAfterCall | src/lib/puck/puckUtils.ts:3-9 | the caller's set after the call, which the collector updates in place: the result set on success, and the accumulator plus `"Page"` after the throw on a non-iterable `content`, since `"Page"` is added before it |
| TypeCollector.CollectTypesFromPuck | src/lib/puck/puckUtils.ts:3-4 | with the default empty accumulator, null data gives the empty set and any other successful result contains `"Page"` |
| TypeCollector.ContentNodes | src/lib/puck/puckUtils.ts:9 | `content \|\| []` is iterable exactly when it is falsy, an array or a string; an array iterates its elements |
| TypeCollector.CollectList | src/lib/puck/puckUtils.ts:8-18 | the inner `collect` only grows its accumulator |
| TypeCollector.CollectNode | src/lib/puck/puckUtils.ts:10-16 | a node's truthy type is recorded, and the accumulator only grows |
| TypeCollector.CollectFields | src/lib/puck/puckUtils.ts:11-16 | the loop over a node's props only grows the accumulator |
| TypeCollector.CollectListExact | src/lib/puck/puckUtils.ts:8-18 | `collect(nodes)` adds exactly the types of the nodes it visits: the nodes themselves, and at any depth the elements of props arrays whose first element has a truthy type |
| TypeCollector.CollectNodeExact | src/lib/puck/puckUtils.ts:10-16 | one loop iteration adds exactly the node's own truthy type and the types visited through its qualifying props arrays |
| TypeCollector.CollectFieldsExact | src/lib/puck/puckUtils.ts:11-15 | the props loop adds exactly the types visited through its qualifying arrays; it descends into a value iff the value is a non-empty array whose first element has a truthy type |
| TypeCollector.CollectTypesExact | src/lib/puck/puckUtils.ts:6-20 | soundness and completeness: `t` is in the result iff `t` is `"Page"`, was in the accumulator, or is the truthy type of a reachable node |
| TypeCollector.ReachesTransitive | src/lib/puck/puckUtils.ts:13-14 | whatever lies below a visited node is visited |
| TypeCollector.DescendsIntoEveryElement | src/lib/puck/puckUtils.ts:11-14 | for every entry the props loop enumerates on a visited node (object fields, or the indices of an array or string `props`), every element of a qualifying array is visited, whatever its own shape, and its truthy type is collected |
| TypeCollector.TopLevelTypesCollected | src/lib/puck/puckUtils.ts:9-10 | every top-level content node with a truthy type has that type in the result |
| TypeCollector.NoContentOnlyPage | src/lib/puck/puckUtils.ts:6-9 | falsy, empty or string `content` yields exactly the accumulator plus `"Page"` |
| CollectorExamples.NullDataEmpty | src/lib/puck/__test__/collectTypesFromPuck.test.ts:31-34 | `null` data gives the empty set |
| CollectorExamples.EmptyContentPage | src/lib/puck/__test__/collectTypesFromPuck.test.ts:36-40 | `{content: [], root: {}}` gives `{"Page"}` |
| CollectorExamples.LeafCollect | src/lib/puck/puckUtils.ts:10-11 | a node with a non-empty type and empty props adds exactly its type |
| CollectorExamples.TwoTopLevelTypes | src/lib/puck/__test__/collectTypesFromPuck.test.ts:6-13 | `Hero` and `Section` at the top level give `{"Page", "Hero", "Section"}` |
| CollectorExamples.ParentCollect | src/lib/puck/puckUtils.ts:10-15 | a node with one qualifying props array adds its own type and whatever that array collects |
| CollectorExamples.NestedSlotTypes | src/lib/puck/__test__/collectTypesFromPuck.test.ts:15-29 | a `Grid` whose `items` holds two `Item` nodes gives `{"Page", "Grid", "Item"}`, with the duplicate collapsed |
| CollectorExamples.UntypedFirstElementNotWalked | src/lib/puck/puckUtils.ts:13 | an array whose first element has no type is not walked, even though a later element has one |
| CollectorExamples.NonIterableContentKeepsPage | src/lib/puck/puckUtils.ts:6-9 | `{content: 5}` throws, and leaves `"Page"` in the caller's set |
| Renderer.ShouldCacheHtml | src/lib/puck/PuckRenderer.server.tsx:81-83 | a type is cacheable iff it is `"ProductGrid"` or `"HeavyComponent"` |
| Renderer.NodeIdOf | src/lib/puck/PuckRenderer.server.tsx:34 | the node id is `props.id` exactly when that is truthy, otherwise a fallback derived from the type |
| Renderer.CacheKey | src/lib/puck/PuckRenderer.server.tsx:36-40 | a node has a cache key iff the page hash is truthy and its type is cacheable; the key is `blockKey(tenantSlug, pageHash, nodeId)` |
| Renderer.CachedHtml | src/lib/puck/PuckRenderer.server.tsx:41-45 | without a key the cache is not read; with a key, the result is the `html` of the entry stored under it (`undefined` when there is none), and a truthy result always comes from that entry |
| Renderer.SanitizeHtml | src/lib/puck/PuckRenderer.server.tsx:68 | keys are kept in order; a truthy `html` prop becomes the sanitiser's output, and every other prop is unchanged |
| Renderer.OwnWrite | src/lib/puck/PuckRenderer.server.tsx:72-75 | an element writes its static markup under its key with TTL 3600 exactly when the key is present and non-empty (`if (cacheKey)`), and writes nothing otherwise |
| Renderer.RootProps | src/lib/puck/PuckRenderer.server.tsx:92 | the page's props are `root.props` when that is truthy, else `root` when that is truthy, else `{}` |
| Renderer.PageContent | src/lib/puck/PuckRenderer.server.tsx:113 | the content rendered is `content` when that is truthy, else `[]` |
| Renderer.RenderNode | src/lib/puck/PuckRenderer.server.tsx:27-78 | a null node fails; a success is either a hit carrying the truthy cached `html`, or an element of the resolved component over the props' keys in order; every write belongs to the pass, and there are none without a page hash |
| Renderer.RenderProps | src/lib/puck/PuckRenderer.server.tsx:54-66 | the slot loop keeps every key in place; a non-slot value is kept, and a slot becomes a list as long as its array |
| Renderer.RenderList | src/lib/puck/PuckRenderer.server.tsx:58-64 | a list renders to as many outputs as it has nodes, each a hit or an element |
| Renderer.RenderPage | src/lib/puck/PuckRenderer.server.tsx:85-123 | null data fails; an unresolvable `"Page"` fails with `ComponentNotFound("Page")`; non-array content fails with a `TypeError`; a success is the `"Page"` element over the unprocessed root props, with one child per content node |
| RenderProofs.RenderListPointwise | src/lib/puck/PuckRenderer.server.tsx:114-120 | a list renders iff every node renders, and its i-th output is the i-th node's render |
| RenderProofs.RenderPropsPointwise | src/lib/puck/PuckRenderer.server.tsx:55-66 | the slot loop succeeds iff every slot's children render, and each slot prop then holds the rendered list of its own array |
| RenderWrites.RenderListWrites | src/lib/puck/PuckRenderer.server.tsx:58-64 | a rendered list's writes are the writes of rendering each of its nodes, concatenated node after node |
| RenderWrites.RenderPropsWrites | src/lib/puck/PuckRenderer.server.tsx:55-66 | the slot loop's writes are, key after key, the writes of rendering that slot's children, and none for a key that is not a slot |
| RenderWrites.PageWrites | src/lib/puck/PuckRenderer.server.tsx:113-122 | a rendered page's writes are the writes of rendering each content node, concatenated in document order |
| RenderProofs.SlotChildren | src/lib/puck/PuckRenderer.server.tsx:57-64 | each slot is replaced by a list of the same length whose j-th entry is the render of the j-th child |
| RenderProofs.CacheHitVerbatim | src/lib/puck/PuckRenderer.server.tsx:42-49 | a hit is the stored HTML verbatim with no writes, whatever the registry would answer |
| RenderProofs.MissRender | src/lib/puck/PuckRenderer.server.tsx:51-77 | on a miss, an unresolvable type fails with `ComponentNotFound`; otherwise the node renders iff its slots do, as the resolved component over the sanitised slot-substituted props; its writes are its children's, followed by exactly one write of its own markup with TTL 3600 when it has a non-empty key; an empty key is read but not written |
| RenderProofs.MissPlainProps | src/lib/puck/PuckRenderer.server.tsx:54-70 | a truthy non-slot `html` prop reaches the element sanitised, and every other non-slot prop reaches it unchanged |
| RenderProofs.NoHashNodeIgnoresCache | src/lib/puck/PuckRenderer.server.tsx:39 | without a truthy page hash a node renders the same whatever the cache holds, and writes nothing |
| RenderProofs.NoHashPropsIgnoreCache | src/lib/puck/PuckRenderer.server.tsx:39 | without a truthy page hash the slot loop ignores the cache |
| RenderProofs.NoHashListIgnoresCache | src/lib/puck/PuckRenderer.server.tsx:39 | without a truthy page hash a list ignores the cache |
| RenderProofs.NoHashPageIgnoresCache | src/lib/puck/PuckRenderer.server.tsx:39 | without a truthy page hash the page renders the same whatever the cache holds, and writes nothing |
| RenderProofs.CachePopulation | src/lib/puck/PuckRenderer.server.tsx:39-48 | the write of a cacheable miss with a stable id goes under the node's key, and a second render against the cache holding that write is a hit carrying exactly the written markup |
| RenderProofs.VisitedFailureFails | src/lib/puck/PuckRenderer.server.tsx:51-64 | a failing node anywhere the pass reaches it fails the enclosing list |
| RenderProofs.NodeFailureFailsList | src/lib/puck/PuckRenderer.server.tsx:58-64 | one failing node rejects the `Promise.all` of its list |
| RenderProofs.SlotFailureFailsNode | src/lib/puck/PuckRenderer.server.tsx:51-66 | a node that missed the cache and resolved fails when the children of one of its slots fail |
| RenderProofs.PageChildren | src/lib/puck/PuckRenderer.server.tsx:113-122 | the page renders iff every content node does; its children are their renders in order, and its writes are those of rendering `content` |
| RenderProofs.UnresolvedVisitedTypeFailsPage | src/lib/puck/PuckRenderer.server.tsx:51 | an unresolvable type on any node the pass reaches on a miss fails the whole page |
| RenderExamples.PlainLeaf | src/lib/puck/PuckRenderer.server.tsx:51-77 | a non-cacheable node with one plain prop renders to its component over that prop, with no writes |
| RenderExamples.SingleList | src/lib/puck/PuckRenderer.server.tsx:114-120 | a list of one node renders as that node |
| RenderExamples.SinglePage | src/lib/puck/PuckRenderer.server.tsx:111-122 | a document of one node whose root props are empty renders as the page over no root props and that node's render, with its writes |
| RenderExamples.BasicContent | src/lib/puck/__test__/PuckRenderer.server.test.tsx:59-67 | in a document with `root: {props: {}}`, a `Hero` node with title `"Welcome"` renders to its element carrying that title |
| RenderExamples.NestedSlot | src/lib/puck/__test__/PuckRenderer.server.test.tsx:69-82 | in a document with `root: {props: {}}`, a `Grid` whose `items` holds an `Item` titled `"Nested"` renders with `items` replaced by the rendered `Item` |
| RenderExamples.GridKey | src/lib/puck/PuckRenderer.server.tsx:34-40 | a `ProductGrid` with id `"1"` is keyed by that id under the pass's tenant and hash |
| RenderExamples.CachedProductGrid | src/lib/puck/__test__/PuckRenderer.server.test.tsx:84-93 | a `ProductGrid` whose entry holds `<cached>Content</cached>` renders to that HTML verbatim, even when its type does not resolve |
| RenderExamples.ProductGridMissWrites | src/lib/puck/PuckRenderer.server.tsx:72-75 | a `ProductGrid` missing from the cache renders and writes its markup once under its key with TTL 3600 |
| RenderExamples.GridMiss | src/lib/puck/PuckRenderer.server.tsx:39-77 | a `ProductGrid` with id `"1"` missing from the cache renders to its element and writes its markup once under its key with TTL 3600 |
| RenderExamples.SlotsDoNotReadEarlierWrites | src/lib/puck/PuckRenderer.server.tsx:55-75 | in the model, which reads one cache snapshot per pass, the same `ProductGrid` in two slots of one node is rendered in both and its write is emitted twice; the source would serve the second from the first's write (see "## Left out") |

## Left out

- React element construction, element `key`s, and the `Suspense` wrappers with their loading fallbacks. A rendered node is an `Elem` or `Cached` value, and the wrappers add nothing to it.
- The concurrency of `Promise.all`. Sibling renders are modelled one after another against one cache snapshot. A failure is reported for the first failing node in document order. The writes of a pass that fails are not returned. In the source `Promise.all` cancels nothing, so when one render rejects, the siblings still running go on rendering and writing. A node's earlier slot keys have also already written by the time a later key fails.
- Renderer.NodeIdOf: the random suffix of the fallback id is not modelled. The fallback is derived from the type alone. That is why RenderProofs.CachePopulation requires a truthy `props.id`: with a random id, a second render would look under a different key.
- RenderExamples.SlotsDoNotReadEarlierWrites: shows a case where the model differs from the source, because a write is never visible to a later read of the same pass. The renderer reads one cache snapshot throughout. Even where the source is sequential, the snapshot stays: the slot loop awaits each key's children, their cache writes included, before the next key's children read the cache. So a cacheable node repeated under two keys of one node's props, under the same id, is a hit the second time in the source. In the model it renders twice and writes twice; RenderExamples.SlotsDoNotReadEarlierWrites shows the case.
- Failures of the cache read and write themselves, and the cache's own expiry. The cache is a snapshot that answers every read.
- Numbers are integers. Floating point, `NaN` and `-0` are not modelled, so their falsiness is not either.
- Strings are sequences of code points. `for..of` over a string `content` (src/lib/puck/puckUtils.ts:9) steps through code points too. But `for..in` and spread over a string-valued `props` (src/lib/puck/puckUtils.ts:11, src/lib/puck/PuckRenderer.server.tsx:54-55), and the spread `{ ...rootPropsRaw }` over a string-valued `root` (src/lib/puck/PuckRenderer.server.tsx:93), index by UTF-16 code unit. The model indexes by code point there, which differs only for characters outside the Basic Multilingual Plane.
- Objects list their properties in insertion order. JavaScript enumerates integer-like keys first, in ascending order. Objects are assumed to have distinct keys.
- TypeCollector.CollectTypes: collected types are `Value`s, not only strings, because the code adds whatever truthy value `type` holds. The model's set compares them by structure. A JavaScript `Set` compares objects and arrays by identity. So `{content: [{type: {}}, {type: {}}]}` gives `"Page"` and two distinct `{}` in the source, but one `{}` in the model. The collector matches the source only when every type is a primitive value, as the source's string types intend.
- The `"Page"` element's children are the node renders without the per-node `Suspense` key (`props.id` or the index).
- The `PuckRenderer` default export (src/lib/puck/PuckRenderer.server.tsx:126-137) only wraps the page in a `div`.
- The registry (`requireComponent`, `preloadComponents`), `sanitize-html`, `renderToStaticMarkup` and `blockKey` are opaque functions in `Env`. Their modules are not part of this model.
- The tenant page loader, the template merge engine and the template type declarations are not part of this model.
- One of the renderer's test files, src/lib/puck/__tests__/PuckRenederer.test.tsx, does not agree with the code. It imports `renderPuckToReactNodes`, which the module does not export. It also expects a cache hit for a `Hero` node, which `shouldCacheHtml` excludes. The model follows the code and the other test files.
