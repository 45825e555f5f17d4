/**
 * The values a reactive object holds, and the change test the proxy's `set`
 * handler applies to them: `JSON.stringify(oldValue) !== JSON.stringify(value)`
 * (InputsArray.js:51).
 *
 * `Stringify` maps a value to the tree of the JSON text that `JSON.stringify`
 * produces for it, or to `None` where `JSON.stringify` returns `undefined`
 * (a top-level `undefined`). Two JSON texts are equal exactly when their trees
 * are equal, so comparing trees stands for comparing the strings.
 */
module Json {
  import opened Wrappers

  /** A JavaScript value as far as the engine stores and compares it. */
  datatype Value =
    | Undefined
    | Null
    | Bool(b: bool)
    | Num(n: int)
    | Str(s: string)
    | Arr(items: seq<Value>)
    | Obj(fields: seq<Field>)   // own enumerable properties, in JavaScript's own-property order

  datatype Field = Field(name: string, value: Value)

  /** The tree of a JSON text. */
  datatype Json =
    | JNull
    | JBool(b: bool)
    | JNum(n: int)
    | JStr(s: string)
    | JArr(items: seq<Json>)
    | JObj(fields: seq<JField>)

  datatype JField = JField(name: string, value: Json)

  /**
   * `JSON.stringify(v)`: `undefined` at the top yields no text; inside an
   * array it is written as `null`; an object property holding it is omitted.
   */
  function Stringify(v: Value): (r: Option<Json>)
    ensures r.None? <==> v.Undefined?
    decreases v, 1
  {
    match v
    case Undefined => None
    case Null => Some(JNull)
    case Bool(b) => Some(JBool(b))
    case Num(n) => Some(JNum(n))
    case Str(s) => Some(JStr(s))
    case Arr(items) => Some(JArr(StringifyItems(items)))
    case Obj(fields) => Some(JObj(StringifyFields(fields)))
  }

  /** The elements of an array; an `undefined` element is written as `null`. */
  function StringifyItems(items: seq<Value>): (r: seq<Json>)
    ensures |r| == |items|
    decreases items, 0
  {
    if items == [] then []
    else
      var head := match Stringify(items[0]) case None => JNull case Some(j) => j;
      [head] + StringifyItems(items[1..])
  }

  /** The properties of an object; a property holding `undefined` is omitted. */
  function StringifyFields(fields: seq<Field>): (r: seq<JField>)
    ensures |r| <= |fields|
    decreases fields, 0
  {
    if fields == [] then []
    else
      var rest := StringifyFields(fields[1..]);
      match Stringify(fields[0].value)
      case None => rest
      case Some(j) => [JField(fields[0].name, j)] + rest
  }

  /**
   * The proxy's change test: the write notifies exactly when the old and the
   * new value serialise differently. Equal values never count as a change.
   */
  predicate Changed(before: Value, after: Value)
    ensures Changed(before, after) ==> before != after
  {
    Stringify(before) != Stringify(after)
  }

  /** No `undefined` below the top level: the values on which serialising loses nothing. */
  predicate Plain(v: Value)
    decreases v, 1
  {
    match v
    case Arr(items) => PlainItems(items)
    case Obj(fields) => PlainFields(fields)
    case _ => true
  }

  predicate PlainItems(items: seq<Value>)
    decreases items, 0
  {
    items == [] || (!items[0].Undefined? && Plain(items[0]) && PlainItems(items[1..]))
  }

  predicate PlainFields(fields: seq<Field>)
    decreases fields, 0
  {
    fields == [] || (!fields[0].value.Undefined? && Plain(fields[0].value) && PlainFields(fields[1..]))
  }

  /** The value a JSON text denotes (what `JSON.parse` would give back). */
  function ToValue(j: Json): (v: Value)
    ensures !v.Undefined?
    decreases j, 1
  {
    match j
    case JNull => Null
    case JBool(b) => Bool(b)
    case JNum(n) => Num(n)
    case JStr(s) => Str(s)
    case JArr(items) => Arr(ToValueItems(items))
    case JObj(fields) => Obj(ToValueFields(fields))
  }

  function ToValueItems(items: seq<Json>): (r: seq<Value>)
    ensures |r| == |items|
    decreases items, 0
  {
    if items == [] then [] else [ToValue(items[0])] + ToValueItems(items[1..])
  }

  function ToValueFields(fields: seq<JField>): (r: seq<Field>)
    ensures |r| == |fields|
    decreases fields, 0
  {
    if fields == [] then []
    else [Field(fields[0].name, ToValue(fields[0].value))] + ToValueFields(fields[1..])
  }

  /** Every JSON text is the serialisation of the value it denotes. */
  lemma {:induction false} StringifyToValue(j: Json)
    ensures Stringify(ToValue(j)) == Some(j)
    ensures Plain(ToValue(j))
    decreases j, 1
  {
    match j
    case JArr(items) => StringifyToValueItems(items);
    case JObj(fields) => StringifyToValueFields(fields);
    case _ =>
  }

  lemma {:induction false} StringifyToValueItems(items: seq<Json>)
    ensures StringifyItems(ToValueItems(items)) == items
    ensures PlainItems(ToValueItems(items))
    decreases items, 0
  {
    if items != [] {
      StringifyToValue(items[0]);
      StringifyToValueItems(items[1..]);
      assert ToValueItems(items)[1..] == ToValueItems(items[1..]);
    }
  }

  lemma {:induction false} StringifyToValueFields(fields: seq<JField>)
    ensures StringifyFields(ToValueFields(fields)) == fields
    ensures PlainFields(ToValueFields(fields))
    decreases fields, 0
  {
    if fields != [] {
      StringifyToValue(fields[0].value);
      StringifyToValueFields(fields[1..]);
      assert ToValueFields(fields)[1..] == ToValueFields(fields[1..]);
    }
  }

  /** On values without a nested `undefined`, serialising loses nothing. */
  lemma {:induction false} ToValueStringify(v: Value)
    requires Plain(v) && !v.Undefined?
    ensures ToValue(Stringify(v).value) == v
    decreases v, 1
  {
    match v
    case Arr(items) => ToValueStringifyItems(items);
    case Obj(fields) => ToValueStringifyFields(fields);
    case _ =>
  }

  lemma {:induction false} ToValueStringifyItems(items: seq<Value>)
    requires PlainItems(items)
    ensures ToValueItems(StringifyItems(items)) == items
    decreases items, 0
  {
    if items != [] {
      ToValueStringify(items[0]);
      ToValueStringifyItems(items[1..]);
      assert StringifyItems(items)[1..] == StringifyItems(items[1..]);
    }
  }

  lemma {:induction false} ToValueStringifyFields(fields: seq<Field>)
    requires PlainFields(fields)
    ensures ToValueFields(StringifyFields(fields)) == fields
    decreases fields, 0
  {
    if fields != [] {
      ToValueStringify(fields[0].value);
      ToValueStringifyFields(fields[1..]);
      assert StringifyFields(fields)[1..] == StringifyFields(fields[1..]);
    }
  }

  /**
   * On values without a nested `undefined`, the serialisation test is exactly
   * structural inequality: a new but equal array is no change, any other
   * value is.
   */
  lemma ChangedIffDifferent(before: Value, after: Value)
    requires Plain(before) && Plain(after)
    ensures Changed(before, after) <==> before != after
  {
    if !before.Undefined? && !after.Undefined? && Stringify(before) == Stringify(after) {
      ToValueStringify(before);
      ToValueStringify(after);
    }
  }

  /**
   * Serialising does lose a nested `undefined`: writing `[null]` over
   * `[undefined]`, or `{}` over `{x: undefined}`, is not a change.
   */
  lemma NestedUndefinedIsNoChange()
    ensures !Changed(Arr([Undefined]), Arr([Null]))
    ensures !Changed(Obj([Field("x", Undefined)]), Obj([]))
    ensures Changed(Undefined, Null)
  {
    assert StringifyItems([Undefined]) == [JNull] == StringifyItems([Null]);
    assert StringifyFields([Field("x", Undefined)]) == [];
  }
}
