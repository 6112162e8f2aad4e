/**
 * JavaScript values as the worker client handles them (configuration trees, response bodies,
 * report payloads), and the two lodash path operations the configuration service is built on:
 * `get(object, path)` and `set(object, path, value)`.
 *
 * An object is an ordered list of own fields in insertion order, the order in which
 * `JSON.stringify` writes string keys (JavaScript lists integer-like keys first, which is not
 * modelled). Properties inherited from `Object.prototype` are not fields. Objects produced by JavaScript never repeat a key; the
 * operations below only ever look at the first field with a given key.
 */
module Values {
  import opened Wrappers

  /** A JavaScript `Error` object: its `name` and its `message`. */
  datatype JsError = JsError(name: string, message: string)

  /** The `Error` that `throw Error(message)` raises. */
  function PlainError(message: string): (e: JsError)
    ensures e.message == message && ErrorText(e) == (if message == "" then "Error" else "Error: " + message)
  {
    JsError("Error", message)
  }

  /** `String(e)`, which is what a template literal `${e}` produces (`Error.prototype.toString`). */
  function ErrorText(e: JsError): string
  {
    if e.name == "" then e.message
    else if e.message == "" then e.name
    else e.name + ": " + e.message
  }

  datatype Value =
    | Null
    | Bool(b: bool)
    | Num(n: int)
    | Str(s: string)
    | Obj(fields: seq<Field>)
    | Err(error: JsError)

  datatype Field = Field(key: string, value: Value)

  /** JavaScript truthiness of a defined value. */
  predicate Truthy(v: Value)
  {
    match v
    case Null => false
    case Bool(b) => b
    case Num(n) => n != 0
    case Str(s) => s != ""
    case Obj(_) => true
    case Err(_) => true
  }

  /** Truthiness of a possibly `undefined` value: `undefined` is falsy. */
  predicate TruthyOpt(v: Option<Value>)
  {
    v.Some? && Truthy(v.value)
  }

  /** The value of the first own field named `key`, or `undefined`; inherited properties are not modelled. */
  function FindField(fields: seq<Field>, key: string): (r: Option<Value>)
    ensures r.Some? <==> exists i :: 0 <= i < |fields| && fields[i].key == key
    ensures r.Some? ==> exists i :: 0 <= i < |fields| && fields[i] == Field(key, r.value)
  {
    if fields == [] then None
    else if fields[0].key == key then Some(fields[0].value)
    else
      var r := FindField(fields[1..], key);
      assert forall i :: 1 <= i < |fields| ==> fields[i] == fields[1..][i - 1];
      r
  }

  /** The first field named `key` is at index `i`. */
  lemma FindFieldAt(fields: seq<Field>, i: nat, key: string)
    requires i < |fields| && fields[i].key == key
    requires forall j :: 0 <= j < i ==> fields[j].key != key
    ensures FindField(fields, key) == Some(fields[i].value)
  {
    if i > 0 {
      FindFieldAt(fields[1..], i - 1, key);
    }
  }

  /** Property assignment `object[key] = value`: overwrite the field in place, or append a new one. */
  function PutField(fields: seq<Field>, key: string, value: Value): (r: seq<Field>)
  {
    if fields == [] then [Field(key, value)]
    else if fields[0].key == key then [Field(key, value)] + fields[1..]
    else [fields[0]] + PutField(fields[1..], key, value)
  }

  /** After assigning `key`, reading `key` gives the assigned value. */
  lemma {:induction false} PutThenFind(fields: seq<Field>, key: string, value: Value)
    ensures FindField(PutField(fields, key, value), key) == Some(value)
  {
    if fields != [] && fields[0].key != key {
      PutThenFind(fields[1..], key, value);
    }
  }

  /** Assigning `key` leaves every other key as it was. */
  lemma {:induction false} PutKeepsOthers(fields: seq<Field>, key: string, value: Value, other: string)
    requires other != key
    ensures FindField(PutField(fields, key, value), other) == FindField(fields, other)
  {
    if fields != [] && fields[0].key != key {
      PutKeepsOthers(fields[1..], key, value, other);
    }
  }

  /** Assignment adds a field only when the key was absent, and never reorders existing fields. */
  lemma {:induction false} PutFieldSize(fields: seq<Field>, key: string, value: Value)
    ensures |PutField(fields, key, value)| == if FindField(fields, key).Some? then |fields| else |fields| + 1
    ensures forall i :: 0 <= i < |fields| ==> PutField(fields, key, value)[i].key == fields[i].key
  {
    if fields != [] && fields[0].key != key {
      PutFieldSize(fields[1..], key, value);
      var r := PutField(fields, key, value);
      assert r == [fields[0]] + PutField(fields[1..], key, value);
      forall i | 0 <= i < |fields|
        ensures r[i].key == fields[i].key
      {
        if i > 0 {
          assert r[i] == PutField(fields[1..], key, value)[i - 1];
          assert fields[i] == fields[1..][i - 1];
        }
      }
    }
  }

  /** A property path, already split into its segments. Splitting a string never gives zero segments. */
  type Path = p: seq<string> | |p| > 0 witness [""]

  /**
   * lodash `get(value, path)`: descend one object level per segment. A missing segment,
   * or a segment applied to something that is not an object, gives `undefined`.
   */
  function Lookup(v: Value, path: Path): Option<Value>
    decreases |path|
  {
    match v
    case Obj(fields) =>
      (match FindField(fields, path[0])
       case None => None
       case Some(child) => if |path| == 1 then Some(child) else Lookup(child, path[1..]))
    case _ => None
  }

  /**
   * lodash `set(object, path, value)` on an object's fields: every intermediate segment that does
   * not already hold an object is (re)created as an empty object, and the last segment is assigned.
   */
  function SetIn(fields: seq<Field>, path: Path, value: Value): seq<Field>
    decreases |path|
  {
    if |path| == 1 then PutField(fields, path[0], value)
    else
      var child := match FindField(fields, path[0]) { case Some(Obj(inner)) => inner case _ => [] };
      PutField(fields, path[0], Obj(SetIn(child, path[1..], value)))
  }

  /** Set/get round trip: after `set(o, p, v)`, `get(o, p)` is `v`, intermediate objects created as needed. */
  lemma {:induction false} SetThenLookup(fields: seq<Field>, path: Path, value: Value)
    ensures Lookup(Obj(SetIn(fields, path, value)), path) == Some(value)
    decreases |path|
  {
    if |path| == 1 {
      PutThenFind(fields, path[0], value);
    } else {
      var child := match FindField(fields, path[0]) { case Some(Obj(inner)) => inner case _ => [] };
      PutThenFind(fields, path[0], Obj(SetIn(child, path[1..], value)));
      SetThenLookup(child, path[1..], value);
    }
  }

  /** `set` under one top-level key leaves every path under another top-level key unchanged. */
  lemma SetKeepsOtherBranches(fields: seq<Field>, path: Path, value: Value, other: Path)
    requires other[0] != path[0]
    ensures Lookup(Obj(SetIn(fields, path, value)), other) == Lookup(Obj(fields), other)
  {
    if |path| == 1 {
      PutKeepsOthers(fields, path[0], value, other[0]);
    } else {
      var child := match FindField(fields, path[0]) { case Some(Obj(inner)) => inner case _ => [] };
      PutKeepsOthers(fields, path[0], Obj(SetIn(child, path[1..], value)), other[0]);
    }
  }

  /** A one-segment `get` is a property read. */
  lemma LookupOne(fields: seq<Field>, key: string)
    ensures Lookup(Obj(fields), [key]) == FindField(fields, key)
  {
  }

  /** lodash `has(value, path)`: every segment names an own property. */
  predicate Has(v: Value, path: Path)
  {
    Lookup(v, path).Some?
  }

  /** A tree whose leaves are all strings: what a cache fed only by `process.env` can contain. */
  predicate StringTree(fields: seq<Field>)
    decreases fields
  {
    fields == [] || (StringLeaf(fields[0].value) && StringTree(fields[1..]))
  }

  predicate StringLeaf(v: Value)
    decreases v
  {
    match v
    case Str(_) => true
    case Obj(fields) => StringTree(fields)
    case _ => false
  }

  /** Assigning a string-tree value keeps a string tree a string tree. */
  lemma {:induction false} PutKeepsStringTree(fields: seq<Field>, key: string, value: Value)
    requires StringTree(fields) && StringLeaf(value)
    ensures StringTree(PutField(fields, key, value))
  {
    if fields != [] && fields[0].key != key {
      PutKeepsStringTree(fields[1..], key, value);
    }
  }

  /** Every value found in a string tree is itself a string or a string tree. */
  lemma {:induction false} FindInStringTree(fields: seq<Field>, key: string)
    requires StringTree(fields)
    ensures FindField(fields, key).Some? ==> StringLeaf(FindField(fields, key).value)
  {
    if fields != [] && fields[0].key != key {
      FindInStringTree(fields[1..], key);
    }
  }

  /** Whatever `get` finds in a string tree is a string or a string tree. */
  lemma {:induction false} LookupInStringTree(fields: seq<Field>, path: Path)
    requires StringTree(fields)
    ensures Lookup(Obj(fields), path).Some? ==> StringLeaf(Lookup(Obj(fields), path).value)
    decreases |path|
  {
    FindInStringTree(fields, path[0]);
    if |path| > 1 {
      match FindField(fields, path[0])
      case None =>
      case Some(child) =>
        if child.Obj? {
          LookupInStringTree(child.fields, path[1..]);
        } else {
          assert Lookup(child, path[1..]) == None;
        }
    }
  }

  /** Storing a string with `set` keeps a string tree a string tree: nothing but strings is ever cached. */
  lemma {:induction false} SetKeepsStringTree(fields: seq<Field>, path: Path, s: string)
    requires StringTree(fields)
    ensures StringTree(SetIn(fields, path, Str(s)))
    decreases |path|
  {
    if |path| == 1 {
      PutKeepsStringTree(fields, path[0], Str(s));
    } else {
      FindInStringTree(fields, path[0]);
      var child := match FindField(fields, path[0]) { case Some(Obj(inner)) => inner case _ => [] };
      SetKeepsStringTree(child, path[1..], s);
      PutKeepsStringTree(fields, path[0], Obj(SetIn(child, path[1..], Str(s))));
    }
  }
}
