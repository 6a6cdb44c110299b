/**
 A JSON-like value model of the page-builder document, with the small part of
 JavaScript semantics the tree walks rely on: truthiness, optional property
 reads (`v?.key`), and the own enumerable properties that `for..in` visits and
 object spread (`{...v}`) copies.
 */
module Json {

  /** A document value. `Null` stands for both `null` and `undefined`; numbers
      are integers. An object lists its own enumerable properties in the order
      JavaScript enumerates them. */
  datatype Value =
    | Null
    | Bool(b: bool)
    | Num(n: int)
    | Str(s: string)
    | Arr(items: seq<Value>)
    | Obj(fields: seq<Field>)

  /** One property of an object. */
  datatype Field = Field(key: string, value: Value)

  /** JavaScript truthiness: `null`/`undefined`, `false`, `0` and `""` are falsy. */
  predicate Truthy(v: Value) {
    match v
    case Null => false
    case Bool(b) => b
    case Num(n) => n != 0
    case Str(s) => s != ""
    case Arr(_) => true
    case Obj(_) => true
  }

  /** The first field of `fs` named `key`, or `Null` (`undefined`) when there is none. */
  function Lookup(fs: seq<Field>, key: string): (r: Value)
    ensures (forall i :: 0 <= i < |fs| ==> fs[i].key != key) ==> r == Null
    ensures forall i :: 0 <= i < |fs| && fs[i].key == key && (forall j :: 0 <= j < i ==> fs[j].key != key) ==>
              r == fs[i].value
  {
    if fs == [] then Null
    else if fs[0].key == key then fs[0].value
    else Lookup(fs[1..], key)
  }

  /** Property read `v?.key`: reading a property of anything but an object
      (including `null`, strings and arrays, for the keys the walks read)
      yields `undefined`. */
  function Get(v: Value, key: string): Value {
    if v.Obj? then Lookup(v.fields, key) else Null
  }

  // Node fields. A content node is `{type, props}`; neither walk checks its shape.

  /** The implicit type of the document root. */
  const PageType: Value := Str("Page")

  /** `c?.type` */
  function TypeOf(c: Value): Value {
    Get(c, "type")
  }

  /** `c?.props` */
  function PropsOf(c: Value): Value {
    Get(c, "props")
  }

  /** Decimal rendering of an array or string index, the key `for..in` gives it. */
  function IndexKey(i: nat): (k: string)
    ensures |k| > 0
  {
    if i < 10 then [Digit(i)] else IndexKey(i / 10) + [Digit(i % 10)]
  }

  function Digit(d: nat): char
    requires d < 10
  {
    "0123456789"[d]
  }

  /** The elements of `items` keyed by their index, starting at `from`. */
  function Indexed(items: seq<Value>, from: nat): (es: seq<Field>)
    ensures |es| == |items|
    ensures forall i :: 0 <= i < |items| ==> es[i] == Field(IndexKey(from + i), items[i])
  {
    if items == [] then [] else [Field(IndexKey(from), items[0])] + Indexed(items[1..], from + 1)
  }

  /** A string as the one-character strings it is made of. */
  function Chars(s: string): (cs: seq<Value>)
    ensures |cs| == |s|
    ensures forall i :: 0 <= i < |s| ==> cs[i] == Str([s[i]])
  {
    seq(|s|, i requires 0 <= i < |s| => Str([s[i]]))
  }

  /** The own enumerable properties of `v`, in enumeration order: what
      `for (const key in v)` visits and what `{...v}` copies. Objects give
      their fields, arrays and strings their indices, other primitives nothing. */
  function Entries(v: Value): seq<Field> {
    match v
    case Obj(fs) => fs
    case Arr(items) => Indexed(items, 0)
    case Str(s) => Indexed(Chars(s), 0)
    case _ => []
  }

  // Size measures, used to justify the termination of the document walks.

  function Size(v: Value): nat {
    match v
    case Arr(items) => 1 + SizeList(items)
    case Obj(fs) => 1 + SizeFields(fs)
    case _ => 1
  }

  function SizeList(vs: seq<Value>): nat {
    if vs == [] then 0 else Size(vs[0]) + SizeList(vs[1..])
  }

  function SizeFields(fs: seq<Field>): nat {
    if fs == [] then 0 else Size(fs[0].value) + SizeFields(fs[1..])
  }

  /** The total size of the array-valued entries of `es`: the only entries a walk descends into. */
  function SlotWeight(es: seq<Field>): nat {
    if es == [] then 0
    else (if es[0].value.Arr? then Size(es[0].value) else 0) + SlotWeight(es[1..])
  }

  lemma {:induction false} SizeListBound(vs: seq<Value>)
    ensures forall i :: 0 <= i < |vs| ==> Size(vs[i]) <= SizeList(vs)
  {
    if vs != [] {
      SizeListBound(vs[1..]);
      assert forall i :: 1 <= i < |vs| ==> vs[i] == vs[1..][i - 1];
    }
  }

  lemma {:induction false} SlotWeightBound(es: seq<Field>)
    ensures forall j :: 0 <= j < |es| && es[j].value.Arr? ==> Size(es[j].value) <= SlotWeight(es)
  {
    if es != [] {
      SlotWeightBound(es[1..]);
      assert forall j :: 1 <= j < |es| ==> es[j] == es[1..][j - 1];
    }
  }

  lemma {:induction false} LookupNoLarger(fs: seq<Field>, key: string)
    ensures Lookup(fs, key) == Null || Size(Lookup(fs, key)) <= SizeFields(fs)
  {
    if fs != [] && fs[0].key != key {
      LookupNoLarger(fs[1..], key);
    }
  }

  lemma GetNoLarger(v: Value, key: string)
    ensures Size(Get(v, key)) <= Size(v)
  {
    if v.Obj? {
      LookupNoLarger(v.fields, key);
    }
  }

  lemma {:induction false} SlotWeightFields(fs: seq<Field>)
    ensures SlotWeight(fs) <= SizeFields(fs)
  {
    if fs != [] {
      SlotWeightFields(fs[1..]);
    }
  }

  lemma {:induction false} SlotWeightIndexed(items: seq<Value>, from: nat)
    ensures SlotWeight(Indexed(items, from)) <= SizeList(items)
  {
    if items != [] {
      var es := Indexed(items, from);
      assert es[1..] == Indexed(items[1..], from + 1);
      SlotWeightIndexed(items[1..], from + 1);
    }
  }

  lemma {:induction false} SlotWeightChars(cs: seq<Value>, from: nat)
    requires forall i :: 0 <= i < |cs| ==> cs[i].Str?
    ensures SlotWeight(Indexed(cs, from)) == 0
  {
    if cs != [] {
      var es := Indexed(cs, from);
      assert es[1..] == Indexed(cs[1..], from + 1);
      SlotWeightChars(cs[1..], from + 1);
    }
  }

  /** The array-valued entries of a value are, together, smaller than it. */
  lemma EntriesLighter(v: Value)
    ensures SlotWeight(Entries(v)) < Size(v)
  {
    match v
    case Obj(fs) => SlotWeightFields(fs);
    case Arr(items) => SlotWeightIndexed(items, 0);
    case Str(s) => SlotWeightChars(Chars(s), 0);
    case _ =>
  }

  /** The array-valued entries of a node's `key` property are, together, smaller than the node. */
  lemma PropertyEntriesLighter(v: Value, key: string)
    ensures SlotWeight(Entries(Get(v, key))) < Size(v)
  {
    GetNoLarger(v, key);
    EntriesLighter(Get(v, key));
  }
}
