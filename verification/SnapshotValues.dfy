/** What a snapshot leaves out, and that it leaves out nothing else. */
module SnapshotValues {
  import opened Prelude
  import opened RouteCheckpoints

  /** An entry of a dict or a namespace that a snapshot must not hold. */
  predicate LeftOut(key: string, item: Value) {
    item.Callable? || key == "private_key" || key == "secret_key" || key == "api_key" || key == "passphrase"
  }

  /** Nothing in the value has to be left out, at any depth. */
  predicate Plain(v: Value) {
    match v
    case Tuple(items) => forall i | 0 <= i < |items| :: Plain(items[i])
    case List(items) => forall i | 0 <= i < |items| :: Plain(items[i])
    case Dict(entries) => forall key | key in entries :: !LeftOut(key, entries[key]) && Plain(entries[key])
    case Instance(_, fields) => forall key | key in fields :: Plain(fields[key])
    case Namespace(attributes) => forall key | key in attributes :: !LeftOut(key, attributes[key]) && Plain(attributes[key])
    case _ => true
  }

  /** A dict loses exactly its callables and its secrets; the entries that stay are cleaned in turn. */
  lemma {:induction false} DictKeeps(entries: map<string, Value>, key: string)
    ensures Clean(Dict(entries)).Dict?
    ensures key in Clean(Dict(entries)).entries <==> key in entries && !LeftOut(key, entries[key])
    ensures key in Clean(Dict(entries)).entries ==> Clean(Dict(entries)).entries[key] == Clean(entries[key])
  {
    CleanDict(entries);
  }

  lemma {:induction false} ItemsUnchanged(items: seq<Value>)
    ensures Clean(List(items)) == List(items) <==> forall i | 0 <= i < |items| :: Clean(items[i]) == items[i]
    ensures Clean(Tuple(items)) == Tuple(items) <==> forall i | 0 <= i < |items| :: Clean(items[i]) == items[i]
  {
    CleanAlike(items, map[]);
    var cleaned := Clean(List(items)).items;
    assert |cleaned| == |items| && forall i | 0 <= i < |items| :: cleaned[i] == Clean(items[i]);
    assert cleaned == items <==> forall i | 0 <= i < |items| :: cleaned[i] == items[i];
  }

  lemma {:induction false} EntriesUnchanged(m: map<string, Value>)
    ensures Clean(Dict(m)) == Dict(m) <==> forall key | key in m :: !LeftOut(key, m[key]) && Clean(m[key]) == m[key]
    ensures Clean(Namespace(m)) == Namespace(m) <==> Clean(Dict(m)) == Dict(m)
  {
    CleanAlike([], m);
    var cleaned := Clean(Dict(m)).entries;
    forall key ensures key in cleaned <==> key in m && !LeftOut(key, m[key]) {
      DictKeeps(m, key);
    }
    forall key | key in cleaned ensures cleaned[key] == Clean(m[key]) {
      DictKeeps(m, key);
    }
    if forall key | key in m :: !LeftOut(key, m[key]) && Clean(m[key]) == m[key] {
      assert cleaned == m;
    }
  }

  lemma {:induction false} FieldsUnchanged(name: string, m: map<string, Value>)
    ensures Clean(Instance(name, m)) == Instance(name, m) <==> forall key | key in m :: Clean(m[key]) == m[key]
  {
    var cleaned := Clean(Instance(name, m)).fields;
    assert cleaned.Keys == m.Keys && forall key | key in m :: cleaned[key] == Clean(m[key]);
    if forall key | key in m :: Clean(m[key]) == m[key] {
      assert cleaned == m;
    }
  }

  /** Cleaning leaves a value as it is exactly when it holds nothing that must be left out. */
  lemma {:induction false} CleanKeepsIff(v: Value)
    ensures Clean(v) == v <==> Plain(v)
  {
    match v
    case Tuple(items) =>
      forall i | 0 <= i < |items| { CleanKeepsIff(items[i]); }
      ItemsUnchanged(items);
    case List(items) =>
      forall i | 0 <= i < |items| { CleanKeepsIff(items[i]); }
      ItemsUnchanged(items);
    case Dict(entries) =>
      forall key | key in entries { CleanKeepsIff(entries[key]); }
      EntriesUnchanged(entries);
    case Namespace(attributes) =>
      forall key | key in attributes { CleanKeepsIff(attributes[key]); }
      EntriesUnchanged(attributes);
    case Instance(name, fields) =>
      forall key | key in fields { CleanKeepsIff(fields[key]); }
      FieldsUnchanged(name, fields);
    case _ =>
  }

  /** So a plain value of supported kinds, without a marker among its keys, comes back from its snapshot exactly as it was. */
  lemma {:induction false} PlainRoundTrip(types: Types, v: Value)
    requires Plain(v) && Supported(types, v) && NoKeys(v, RESERVED)
    ensures Encode(types, v).Some? && Decode(types, Encode(types, v).value) == Some(v)
  {
    CleanKeepsIff(v);
    EncodesIffSupported(types, v);
    RoundTripIff(types, v);
  }

  /** Two plain values with the same snapshot are the same value. */
  lemma {:induction false} SnapshotsDiffer(types: Types, a: Value, b: Value)
    requires Plain(a) && Supported(types, a) && NoKeys(a, RESERVED)
    requires Plain(b) && Supported(types, b) && NoKeys(b, RESERVED)
    ensures Encode(types, a) == Encode(types, b) <==> a == b
  {
    PlainRoundTrip(types, a);
    PlainRoundTrip(types, b);
  }

  /** A record is only read back with exactly the fields of its class. */
  lemma {:induction false} RecordsFitTheirClass(types: Types, v: Value, name: string, fields: map<string, Value>)
    requires Decode(types, v) == Some(Instance(name, fields))
    ensures v.Instance? || (name in types && fields.Keys == types[name])
  {
  }
}
