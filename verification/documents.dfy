/** Builders for small example documents, and the facts about them the
    worked examples share. */
module Documents {
  import opened Json

  /** A node `{type, props}`. */
  function Node(nodeType: string, props: seq<Field>): Value {
    Obj([Field("type", Str(nodeType)), Field("props", Obj(props))])
  }

  /** A document `{content, root: {}}`. */
  function Doc(content: seq<Value>): Value {
    Obj([Field("content", Arr(content)), Field("root", Obj([]))])
  }

  /** A document `{content, root: {props: {}}}`, whose root carries its props
      under `props`. */
  function DocWithRootProps(content: seq<Value>): Value {
    Obj([Field("content", Arr(content)), Field("root", Obj([Field("props", Obj([]))]))])
  }

  /** The fields of a built node read back as built. */
  lemma NodeParts(t: string, props: seq<Field>)
    ensures TypeOf(Node(t, props)) == Str(t) && PropsOf(Node(t, props)) == Obj(props)
  {
    var fs := [Field("type", Str(t)), Field("props", Obj(props))];
    assert Lookup(fs, "type") == Str(t);
    assert fs[0].key != "props";
    assert Lookup(fs, "props") == Lookup(fs[1..], "props");
  }

  lemma DocContent(content: seq<Value>)
    ensures Get(Doc(content), "content") == Arr(content)
  {
  }

  lemma DocWithRootPropsParts(content: seq<Value>)
    ensures Get(DocWithRootProps(content), "content") == Arr(content)
    ensures Get(DocWithRootProps(content), "root") == Obj([Field("props", Obj([]))])
    ensures PropsOf(Get(DocWithRootProps(content), "root")) == Obj([])
  {
    var fs := DocWithRootProps(content).fields;
    assert fs[0].key != "root";
    assert Lookup(fs, "root") == Lookup(fs[1..], "root");
  }
}
