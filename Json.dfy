/**
 * `cleanUndefined` of lib/firebase/database.ts: the normaliser applied to
 * a document before it is written to the remote store, which refuses
 * `undefined` anywhere.
 *
 * A document is a JSON-like tree. An object is its list of entries in
 * `Object.entries` order, keys distinct; `Undefined` is a value that can sit
 * in an object field or an array slot.
 */
module Json {

  datatype Json =
    | Undefined
    | Null
    | Bool(b: bool)
    | Num(n: real)
    | Str(s: string)
    | Arr(items: seq<Json>)
    | Obj(fields: seq<Field>)

  datatype Field = Field(key: string, value: Json)

  /**
   * cleanUndefined: arrays map element by element; objects keep, in order,
   * the entries whose value is not `undefined`, each value cleaned; every
   * other value, `null` and `undefined` included, is returned as it is.
   */
  function Clean(j: Json): Json
    decreases j, 1
  {
    match j
    case Arr(items) => Arr(CleanItems(items, j))
    case Obj(fields) => Obj(CleanFields(fields, j))
    case _ => j
  }

  /** `items.map(cleanUndefined)` */
  function CleanItems(items: seq<Json>, ghost parent: Json): seq<Json>
    requires forall x :: x in items ==> x < parent
    decreases parent, 0, |items|
  {
    if items == [] then []
    else
      assert items[0] in items && forall x :: x in items[1..] ==> x in items;
      [Clean(items[0])] + CleanItems(items[1..], parent)
  }

  /** The `reduce` over `Object.entries`: drop the entries holding `undefined`, clean the rest. */
  function CleanFields(fields: seq<Field>, ghost parent: Json): seq<Field>
    requires forall f :: f in fields ==> f.value < parent
    decreases parent, 0, |fields|
  {
    if fields == [] then []
    else
      (if fields[0].value.Undefined? then [] else [Field(fields[0].key, Clean(fields[0].value))])
      + CleanFields(fields[1..], parent)
  }

  function Keys(fields: seq<Field>): seq<string>
  {
    seq(|fields|, i requires 0 <= i < |fields| => fields[i].key)
  }

  /** No object anywhere in `j` has a field whose value is `undefined`. */
  predicate NoUndefinedField(j: Json)
  {
    match j
    case Arr(items) => forall i :: 0 <= i < |items| ==> NoUndefinedField(items[i])
    case Obj(fields) => forall i :: 0 <= i < |fields| ==> !fields[i].value.Undefined? && NoUndefinedField(fields[i].value)
    case _ => true
  }

  /** Arrays keep their length and order, element by element; `undefined` slots stay. */
  lemma {:induction false} CleanItemsSpec(items: seq<Json>, parent: Json)
    requires forall x :: x in items ==> x < parent
    ensures |CleanItems(items, parent)| == |items|
    ensures forall i :: 0 <= i < |items| ==> CleanItems(items, parent)[i] == Clean(items[i])
    decreases |items|
  {
    if items != [] {
      assert forall x :: x in items[1..] ==> x in items;
      CleanItemsSpec(items[1..], parent);
    }
  }

  /**
   * An object keeps exactly its entries whose value is not `undefined`, in
   * their order, each value cleaned.
   */
  lemma {:induction false} CleanFieldsSpec(fields: seq<Field>, parent: Json)
    requires forall f :: f in fields ==> f.value < parent
    ensures forall f :: f in CleanFields(fields, parent) ==>
      !f.value.Undefined? && exists g :: g in fields && g.key == f.key && f.value == Clean(g.value)
    ensures forall g :: g in fields && !g.value.Undefined? ==> Field(g.key, Clean(g.value)) in CleanFields(fields, parent)
    ensures |CleanFields(fields, parent)| <= |fields|
    decreases |fields|
  {
    if fields != [] {
      CleanFieldsSpec(fields[1..], parent);
      assert forall g :: g in fields[1..] ==> g in fields;
      var head := if fields[0].value.Undefined? then [] else [Field(fields[0].key, Clean(fields[0].value))];
      var rest := CleanFields(fields[1..], parent);
      assert CleanFields(fields, parent) == head + rest;
      forall g | g in fields && !g.value.Undefined?
        ensures Field(g.key, Clean(g.value)) in head + rest
      {
        if g != fields[0] {
          assert g in fields[1..];
        }
      }
    }
  }

  /** Primitives, `null` and `undefined` itself pass through unchanged. */
  lemma CleanPrimitive(j: Json)
    requires !j.Arr? && !j.Obj?
    ensures Clean(j) == j
  {
  }

  /** The cleaned document holds no `undefined` field at any depth. */
  lemma {:induction false} CleanRemovesUndefined(j: Json)
    ensures NoUndefinedField(Clean(j))
    decreases j
  {
    match j
    case Arr(items) =>
      CleanItemsSpec(items, j);
      forall i | 0 <= i < |items|
        ensures NoUndefinedField(CleanItems(items, j)[i])
      {
        CleanRemovesUndefined(items[i]);
      }
    case Obj(fields) =>
      CleanFieldsSpec(fields, j);
      var cs := CleanFields(fields, j);
      forall i | 0 <= i < |cs|
        ensures !cs[i].value.Undefined? && NoUndefinedField(cs[i].value)
      {
        assert cs[i] in cs;
        var g :| g in fields && g.key == cs[i].key && cs[i].value == Clean(g.value);
        CleanRemovesUndefined(g.value);
      }
    case _ =>
  }

  /** A document with no `undefined` field is left as it is. */
  lemma {:induction false} CleanFixesClean(j: Json)
    requires NoUndefinedField(j)
    ensures Clean(j) == j
    decreases j
  {
    match j
    case Arr(items) =>
      CleanItemsSpec(items, j);
      forall i | 0 <= i < |items|
        ensures CleanItems(items, j)[i] == items[i]
      {
        CleanFixesClean(items[i]);
      }
    case Obj(fields) =>
      forall i | 0 <= i < |fields|
        ensures Clean(fields[i].value) == fields[i].value
      {
        CleanFixesClean(fields[i].value);
      }
      CleanFieldsKeep(fields, j);
    case _ =>
  }

  lemma {:induction false} CleanFieldsKeep(fields: seq<Field>, parent: Json)
    requires forall f :: f in fields ==> f.value < parent
    requires forall i :: 0 <= i < |fields| ==> !fields[i].value.Undefined? && Clean(fields[i].value) == fields[i].value
    ensures CleanFields(fields, parent) == fields
    decreases |fields|
  {
    if fields != [] {
      CleanFieldsKeep(fields[1..], parent);
    }
  }

  /** cleanUndefined is idempotent. */
  lemma CleanIdempotent(j: Json)
    ensures Clean(Clean(j)) == Clean(j)
  {
    CleanRemovesUndefined(j);
    CleanFixesClean(Clean(j));
  }

  /** The keys the cleaned object keeps are the keys whose value was not `undefined`, in order. */
  lemma {:induction false} CleanKeys(fields: seq<Field>, parent: Json)
    requires forall f :: f in fields ==> f.value < parent
    ensures Keys(CleanFields(fields, parent)) == Keys(Defined(fields))
    decreases |fields|
  {
    if fields != [] {
      CleanKeys(fields[1..], parent);
      var head := if fields[0].value.Undefined? then [] else [Field(fields[0].key, Clean(fields[0].value))];
      KeysAppend(head, CleanFields(fields[1..], parent));
      KeysAppend(if fields[0].value.Undefined? then [] else [fields[0]], Defined(fields[1..]));
    }
  }

  /** The entries of `fields` whose value is not `undefined`. */
  function Defined(fields: seq<Field>): seq<Field>
  {
    if fields == [] then []
    else (if fields[0].value.Undefined? then [] else [fields[0]]) + Defined(fields[1..])
  }

  lemma KeysAppend(a: seq<Field>, b: seq<Field>)
    ensures Keys(a + b) == Keys(a) + Keys(b)
  {
  }

  /** An example: `{a: 1, b: undefined, c: [undefined, {d: undefined}]}` cleans to `{a: 1, c: [undefined, {}]}`. */
  lemma CleanExample()
    ensures Clean(Obj([Field("a", Num(1.0)), Field("b", Undefined),
                       Field("c", Arr([Undefined, Obj([Field("d", Undefined)])]))]))
         == Obj([Field("a", Num(1.0)), Field("c", Arr([Undefined, Obj([])]))])
  {
    var inner := Obj([Field("d", Undefined)]);
    assert Clean(inner) == Obj([]);
    var arr := Arr([Undefined, inner]);
    CleanItemsSpec([Undefined, inner], arr);
    assert CleanItems([Undefined, inner], arr) == [Undefined, Obj([])];
    assert Clean(arr) == Arr([Undefined, Obj([])]);
  }
}
