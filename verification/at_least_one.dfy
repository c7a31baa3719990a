/** The `AtLeastOne(properties)` class-validator constraint: an object passes
    when some listed property is neither `undefined`, `null` nor "". */
module AtLeastOne {

  /** The JavaScript values a request body field can hold. */
  datatype JsValue = Undefined | Null | Str(s: string) | Num(n: int) | Bool(b: bool) | Composite

  /** A request body: a missing key reads as `undefined`. */
  type JsObject = map<string, JsValue>

  function Get(obj: JsObject, prop: string): JsValue {
    if prop in obj then obj[prop] else Undefined
  }

  /** The test applied to each listed property, with strict inequalities:
      0, `false` and whitespace-only strings are present. */
  predicate Present(v: JsValue) {
    v != Undefined && v != Null && v != Str("")
  }

  /** `validate(_, args)`: `properties.some(...)` over `args.object`; the decorated
      value itself is ignored. */
  function Validate(properties: seq<string>, value: JsValue, obj: JsObject): (ok: bool)
    ensures ok <==> exists i :: 0 <= i < |properties| && Present(Get(obj, properties[i]))
  {
    if |properties| == 0 then false
    else Present(Get(obj, properties[0])) || Validate(properties[1..], value, obj)
  }

  /** With no properties listed the constraint always fails. */
  lemma EmptyListFails(value: JsValue, obj: JsObject)
    ensures !Validate([], value, obj)
  {
  }

  /** The verdict depends on the object's listed fields only, never on the decorated value. */
  lemma IgnoresValue(properties: seq<string>, v1: JsValue, v2: JsValue, obj: JsObject)
    ensures Validate(properties, v1, obj) == Validate(properties, v2, obj)
    decreases |properties|
  {
  }

  /** Listing more properties never turns a pass into a failure. */
  lemma Monotone(properties: seq<string>, more: seq<string>, value: JsValue, obj: JsObject)
    requires forall i :: 0 <= i < |properties| ==> properties[i] in more
    requires Validate(properties, value, obj)
    ensures Validate(more, value, obj)
  {
  }

  /** Fields outside the list do not matter. */
  lemma OnlyListedFieldsMatter(properties: seq<string>, value: JsValue, obj1: JsObject, obj2: JsObject)
    requires forall i :: 0 <= i < |properties| ==> Get(obj1, properties[i]) == Get(obj2, properties[i])
    ensures Validate(properties, value, obj1) == Validate(properties, value, obj2)
  {
  }

  /** A single listed field set to a non-empty string, whitespace included, passes;
      one set to "", `null` or left out fails. */
  lemma SingleField(prop: string, value: JsValue, obj: JsObject)
    ensures (prop in obj && obj[prop].Str? && obj[prop].s != "") ==> Validate([prop], value, obj)
    ensures (prop !in obj || obj[prop] == Null || obj[prop] == Str("")) ==> !Validate([prop], value, obj)
  {
  }
}
