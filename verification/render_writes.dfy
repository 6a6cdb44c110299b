/**
 Which cache writes a render pass emits, and in what order: a reference
 definition that concatenates the writes of each node, or of each slot, in
 document order, and lemmas equating it with what the renderer returns.
 */
module RenderWrites {
  import opened Json
  import opened Renderer
  import RenderProofs

  function Flatten<T>(xss: seq<seq<T>>): (r: seq<T>)
    ensures xss == [] ==> r == []
  {
    if xss == [] then [] else xss[0] + Flatten(xss[1..])
  }

  /** The writes of one node's render; none when it fails. */
  function NodeWrites(env: Env, ctx: Context, n: Value): seq<Write> {
    if RenderNode(env, ctx, n).Ok? then RenderNode(env, ctx, n).value.1 else []
  }

  /** The writes of each node of `nodes`, in order. */
  function ListWrites(env: Env, ctx: Context, nodes: seq<Value>): (wss: seq<seq<Write>>)
    ensures |wss| == |nodes|
    ensures forall i :: 0 <= i < |nodes| ==> wss[i] == NodeWrites(env, ctx, nodes[i])
  {
    seq(|nodes|, i requires 0 <= i < |nodes| => NodeWrites(env, ctx, nodes[i]))
  }

  /** The writes of one props value: its children's, in order, when it is a
      slot whose children render; none otherwise. */
  function SlotWrites(env: Env, ctx: Context, v: Value): seq<Write> {
    if IsSlot(v) && RenderList(env, ctx, v.items).Ok? then RenderList(env, ctx, v.items).value.1 else []
  }

  /** The writes of each props entry of `es`, in order. */
  function SlotWriteLists(env: Env, ctx: Context, es: seq<Field>): (wss: seq<seq<Write>>)
    ensures |wss| == |es|
    ensures forall i :: 0 <= i < |es| ==> wss[i] == SlotWrites(env, ctx, es[i].value)
  {
    seq(|es|, i requires 0 <= i < |es| => SlotWrites(env, ctx, es[i].value))
  }

  /** A rendered list's writes are its nodes' writes, node after node. */
  lemma {:induction false} RenderListWrites(env: Env, ctx: Context, nodes: seq<Value>)
    ensures RenderList(env, ctx, nodes).Ok? ==>
              RenderList(env, ctx, nodes).value.1 == Flatten(ListWrites(env, ctx, nodes))
  {
    if nodes != [] {
      RenderListWrites(env, ctx, nodes[1..]);
      assert ListWrites(env, ctx, nodes)[1..] == ListWrites(env, ctx, nodes[1..]);
    }
  }

  /** The slot loop's writes are its slots' writes, key after key; a key that
      is not a slot adds none. */
  lemma {:induction false} RenderPropsWrites(env: Env, ctx: Context, es: seq<Field>)
    ensures RenderProps(env, ctx, es).Ok? ==>
              RenderProps(env, ctx, es).value.1 == Flatten(SlotWriteLists(env, ctx, es))
  {
    if es != [] {
      RenderPropsWrites(env, ctx, es[1..]);
      assert SlotWriteLists(env, ctx, es)[1..] == SlotWriteLists(env, ctx, es[1..]);
    }
  }

  /** A rendered page's writes are its content nodes' writes, node after node. */
  lemma PageWrites(env: Env, ctx: Context, data: Value)
    requires data != Null
    requires env.resolve(PageType).Some?
    requires PageContent(data).Arr?
    ensures RenderPage(env, ctx, data).Ok? ==>
              RenderPage(env, ctx, data).value.1 == Flatten(ListWrites(env, ctx, PageContent(data).items))
  {
    RenderProofs.PageChildren(env, ctx, data);
    RenderListWrites(env, ctx, PageContent(data).items);
  }
}
