/** The key-free JSON snapshots of prepared routes. */
module RouteCheckpoints {
  import opened Prelude

  /** Python values. Numbers, decimals, dates and durations are exact tokens; `Callable` stands for functions, bound methods
      and classes, and `Other` for everything the encoder does not know. */
  datatype Value =
    | Null | Text(text: string) | Number(number: real) | Truth(truth: bool)
    | Decimal(text: string) | Datetime(text: string) | Timedelta(seconds: real)
    | Tuple(items: seq<Value>) | List(items: seq<Value>) | Dict(entries: map<string, Value>)
    | Instance(typeName: string, fields: map<string, Value>) | Namespace(attributes: map<string, Value>)
    | Callable(name: string) | Other(typeName: string)

  /** The field names of each known dataclass. */
  type Types = map<string, set<string>>

  const SECRETS: set<string> := {"private_key", "secret_key", "api_key", "passphrase"}
  const RESERVED: set<string> := {"$decimal", "$datetime", "$timedelta", "$tuple", "$namespace", "$type"}

  /** All the values, or nothing if one of them is missing. */
  function All(xs: seq<Option<Value>>): (r: Option<seq<Value>>)
    ensures r.Some? <==> forall i | 0 <= i < |xs| :: xs[i].Some?
    ensures r.Some? ==> |r.value| == |xs| && forall i | 0 <= i < |xs| :: xs[i] == Some(r.value[i])
  {
    if forall i | 0 <= i < |xs| :: xs[i].Some? then
      Some(seq(|xs|, i requires 0 <= i < |xs| && xs[i].Some? => xs[i].value))
    else None
  }

  function AllEntries(m: map<string, Option<Value>>): (r: Option<map<string, Value>>)
    ensures r.Some? <==> forall key | key in m :: m[key].Some?
    ensures r.Some? ==> r.value.Keys == m.Keys && forall key | key in m :: m[key] == Some(r.value[key])
  {
    if forall key | key in m :: m[key].Some? then Some(map key | key in m :: m[key].value) else None
  }

  /** Whether a dict entry, or a namespace attribute, goes into the snapshot. */
  predicate Survives(key: string, item: Value) {
    !item.Callable? && key !in SECRETS
  }

  function AsDict(entries: Option<map<string, Value>>): Option<Value> {
    if entries.Some? then Some(Dict(entries.value)) else None
  }

  /** `None` when the encoder raises. */
  function Encode(types: Types, v: Value): Option<Value> {
    match v
    case Null => Some(v)
    case Text(_) => Some(v)
    case Number(_) => Some(v)
    case Truth(_) => Some(v)
    case Decimal(text) => Some(Dict(map["$decimal" := Text(text)]))
    case Datetime(text) => Some(Dict(map["$datetime" := Text(text)]))
    case Timedelta(seconds) => Some(Dict(map["$timedelta" := Number(seconds)]))
    case Tuple(items) =>
      var encoded := All(seq(|items|, i requires 0 <= i < |items| => Encode(types, items[i])));
      if encoded.Some? then Some(Dict(map["$tuple" := List(encoded.value)])) else None
    case List(items) =>
      var encoded := All(seq(|items|, i requires 0 <= i < |items| => Encode(types, items[i])));
      if encoded.Some? then Some(List(encoded.value)) else None
    case Dict(entries) =>
      AsDict(AllEntries(map key | key in entries && Survives(key, entries[key]) :: Encode(types, entries[key])))
    case Instance(name, fields) =>
      if name in types && fields.Keys == types[name] then
        var encoded := AllEntries(map key | key in fields :: Encode(types, fields[key]));
        if encoded.Some? then Some(Dict(map["$type" := Text(name), "fields" := Dict(encoded.value)])) else None
      else None
    case Namespace(attributes) =>
      var encoded := AllEntries(map key | key in attributes && Survives(key, attributes[key]) :: Encode(types, attributes[key]));
      if encoded.Some? then Some(Dict(map["$namespace" := Dict(encoded.value)])) else None
    case Callable(_) => None
    case Other(_) => None
  }

  /** `None` when the decoder raises. The markers are looked for in this order. */
  function Decode(types: Types, v: Value): Option<Value> {
    match v
    case List(items) =>
      var decoded := All(seq(|items|, i requires 0 <= i < |items| => Decode(types, items[i])));
      if decoded.Some? then Some(List(decoded.value)) else None
    case Dict(entries) =>
      if "$decimal" in entries then
        if entries["$decimal"].Text? then Some(Decimal(entries["$decimal"].text)) else None
      else if "$datetime" in entries then
        if entries["$datetime"].Text? then Some(Datetime(entries["$datetime"].text)) else None
      else if "$timedelta" in entries then
        if entries["$timedelta"].Number? then Some(Timedelta(entries["$timedelta"].number)) else None
      else if "$tuple" in entries then
        (match entries["$tuple"]
         case List(items) =>
           var decoded := All(seq(|items|, i requires 0 <= i < |items| => Decode(types, items[i])));
           if decoded.Some? then Some(Tuple(decoded.value)) else None
         case _ => None)
      else if "$namespace" in entries then
        var inner := Decode(types, entries["$namespace"]);
        if inner.Some? && inner.value.Dict? then Some(Namespace(inner.value.entries)) else None
      else if "$type" in entries then
        if entries["$type"].Text? && entries["$type"].text in types && "fields" in entries then
          var inner := Decode(types, entries["fields"]);
          if inner.Some? && inner.value.Dict? && inner.value.entries.Keys == types[entries["$type"].text] then
            Some(Instance(entries["$type"].text, inner.value.entries))
          else None
        else None
      else AsDict(AllEntries(map key | key in entries :: Decode(types, entries[key])))
    case _ => Some(v)
  }

  /** The value without callables and secrets, at every depth. */
  function Clean(v: Value): Value {
    match v
    case Tuple(items) => Tuple(seq(|items|, i requires 0 <= i < |items| => Clean(items[i])))
    case List(items) => List(seq(|items|, i requires 0 <= i < |items| => Clean(items[i])))
    case Dict(entries) => Dict(map key | key in entries && Survives(key, entries[key]) :: Clean(entries[key]))
    case Instance(name, fields) => Instance(name, map key | key in fields :: Clean(fields[key]))
    case Namespace(attributes) => Namespace(map key | key in attributes && Survives(key, attributes[key]) :: Clean(attributes[key]))
    case _ => v
  }

  /** No key of a dict, no field and no attribute is one of `keys`, at any depth. */
  predicate NoKeys(v: Value, keys: set<string>) {
    match v
    case Tuple(items) => forall i | 0 <= i < |items| :: NoKeys(items[i], keys)
    case List(items) => forall i | 0 <= i < |items| :: NoKeys(items[i], keys)
    case Dict(entries) => entries.Keys !! keys && forall key | key in entries :: NoKeys(entries[key], keys)
    case Instance(_, fields) => fields.Keys !! keys && forall key | key in fields :: NoKeys(fields[key], keys)
    case Namespace(attributes) => attributes.Keys !! keys && forall key | key in attributes :: NoKeys(attributes[key], keys)
    case _ => true
  }

  /** Values that JSON can write. */
  predicate IsJson(v: Value) {
    match v
    case Null => true
    case Text(_) => true
    case Number(_) => true
    case Truth(_) => true
    case List(items) => forall i | 0 <= i < |items| :: IsJson(items[i])
    case Dict(entries) => forall key | key in entries :: IsJson(entries[key])
    case _ => false
  }

  /** Nothing in the value is callable or unknown. */
  predicate Supported(types: Types, v: Value) {
    match v
    case Callable(_) => false
    case Other(_) => false
    case Tuple(items) => forall i | 0 <= i < |items| :: Supported(types, items[i])
    case List(items) => forall i | 0 <= i < |items| :: Supported(types, items[i])
    case Dict(entries) => forall key | key in entries :: Supported(types, entries[key])
    case Instance(name, fields) =>
      name in types && fields.Keys == types[name] && forall key | key in fields :: Supported(types, fields[key])
    case Namespace(attributes) => forall key | key in attributes :: Supported(types, attributes[key])
    case _ => true
  }

  // ---------------------------------------------------------------- what encoding gives, level by level

  lemma {:induction false} ListEncodes(types: Types, items: seq<Value>)
    ensures Encode(types, List(items)).Some? <==> forall i | 0 <= i < |items| :: Encode(types, items[i]).Some?
    ensures var e := Encode(types, List(items));
            e.Some? ==> e.value.List? && |e.value.items| == |items|
                        && forall i | 0 <= i < |items| :: Encode(types, items[i]) == Some(e.value.items[i])
    ensures Encode(types, Tuple(items)) == (var e := Encode(types, List(items));
            if e.Some? then Some(Dict(map["$tuple" := e.value])) else None)
  {
    if Encode(types, List(items)).Some? {
      var e := Encode(types, List(items)).value.items;
      forall i | 0 <= i < |items| ensures Encode(types, items[i]) == Some(e[i]) {}
    }
    if forall i | 0 <= i < |items| :: Encode(types, items[i]).Some? {
      assert Encode(types, List(items)).Some? && Encode(types, Tuple(items)).Some?;
      var e, t := Encode(types, List(items)).value.items, Encode(types, Tuple(items)).value.entries["$tuple"].items;
      assert e == t;
    }
  }

  lemma {:induction false} DictEncodes(types: Types, m: map<string, Value>)
    ensures Encode(types, Dict(m)).Some? <==> forall key | key in m && Survives(key, m[key]) :: Encode(types, m[key]).Some?
    ensures var e := Encode(types, Dict(m));
            e.Some? ==> e.value.Dict? && e.value.entries.Keys == (set key | key in m && Survives(key, m[key]))
                        && forall key | key in e.value.entries :: Encode(types, m[key]) == Some(e.value.entries[key])
    ensures Encode(types, Namespace(m)) == (var e := Encode(types, Dict(m));
            if e.Some? then Some(Dict(map["$namespace" := e.value])) else None)
  {
    if Encode(types, Dict(m)).Some? {
      var e := Encode(types, Dict(m)).value.entries;
      forall key | key in m && Survives(key, m[key]) ensures key in e && Encode(types, m[key]) == Some(e[key]) {}
    }
    if forall key | key in m && Survives(key, m[key]) :: Encode(types, m[key]).Some? {
      assert Encode(types, Dict(m)).Some? && Encode(types, Namespace(m)).Some?;
      var e, n := Encode(types, Dict(m)).value.entries, Encode(types, Namespace(m)).value.entries["$namespace"].entries;
      assert e == n;
    }
  }

  lemma {:induction false} InstanceEncodes(types: Types, name: string, m: map<string, Value>)
    requires name in types && m.Keys == types[name]
    ensures Encode(types, Instance(name, m)).Some? <==> forall key | key in m :: Encode(types, m[key]).Some?
    ensures var e := Encode(types, Instance(name, m));
            e.Some? ==> exists fields: map<string, Value> ::
                e.value == Dict(map["$type" := Text(name), "fields" := Dict(fields)])
                && fields.Keys == m.Keys && forall key | key in fields :: Encode(types, m[key]) == Some(fields[key])
  {
    if Encode(types, Instance(name, m)).Some? {
      var e := Encode(types, Instance(name, m)).value.entries["fields"].entries;
      assert e.Keys == m.Keys;
      forall key | key in m ensures Encode(types, m[key]) == Some(e[key]) {}
      assert Encode(types, Instance(name, m)).value == Dict(map["$type" := Text(name), "fields" := Dict(e)]);
    }
  }

  /** Without a marker among its keys, a dict decodes entry by entry. */
  lemma {:induction false} DictDecodes(types: Types, m: map<string, Value>, back: map<string, Value>)
    requires m.Keys !! RESERVED && back.Keys == m.Keys
    ensures Decode(types, Dict(m)) == Some(Dict(back)) <==> forall key | key in m :: Decode(types, m[key]) == Some(back[key])
  {
    assert "$decimal" in RESERVED && "$datetime" in RESERVED && "$timedelta" in RESERVED
           && "$tuple" in RESERVED && "$namespace" in RESERVED && "$type" in RESERVED;
    var d := Decode(types, Dict(m));
    if d == Some(Dict(back)) {
      forall key | key in m ensures Decode(types, m[key]) == Some(back[key]) {
        assert Decode(types, m[key]) == Some(d.value.entries[key]);
      }
    }
    if forall key | key in m :: Decode(types, m[key]) == Some(back[key]) {
      assert d.Some?;
      assert d.value.entries == back;
    }
  }

  /** With one, it never decodes to a dict. */
  lemma {:induction false} MarkedDecodesElsewhere(types: Types, m: map<string, Value>)
    requires !(m.Keys !! RESERVED)
    ensures var d := Decode(types, Dict(m)); d.Some? ==> !d.value.Dict?
  {
    var key :| key in m && key in RESERVED;
    assert key == "$decimal" || key == "$datetime" || key == "$timedelta" || key == "$tuple" || key == "$namespace" || key == "$type";
  }

  lemma {:induction false} ListDecodes(types: Types, items: seq<Value>, back: seq<Value>)
    requires |back| == |items|
    ensures Decode(types, List(items)) == Some(List(back)) <==> forall i | 0 <= i < |items| :: Decode(types, items[i]) == Some(back[i])
    ensures Decode(types, Dict(map["$tuple" := List(items)])) == Some(Tuple(back))
            <==> forall i | 0 <= i < |items| :: Decode(types, items[i]) == Some(back[i])
  {
    var d, t := Decode(types, List(items)), Decode(types, Dict(map["$tuple" := List(items)]));
    if d == Some(List(back)) {
      forall i | 0 <= i < |items| ensures Decode(types, items[i]) == Some(back[i]) {
        assert Decode(types, items[i]) == Some(d.value.items[i]);
      }
    }
    if t == Some(Tuple(back)) {
      forall i | 0 <= i < |items| ensures Decode(types, items[i]) == Some(back[i]) {
        assert Decode(types, items[i]) == Some(t.value.items[i]);
      }
    }
    if forall i | 0 <= i < |items| :: Decode(types, items[i]) == Some(back[i]) {
      assert d.Some? && t.Some?;
      assert d.value.items == back && t.value.items == back;
    }
  }

  // ---------------------------------------------------------------- properties

  lemma {:induction false} ItemsSupported(types: Types, items: seq<Value>)
    requires forall i | 0 <= i < |items| :: Encode(types, items[i]).Some? <==> Supported(types, Clean(items[i]))
    ensures Encode(types, List(items)).Some? <==> Supported(types, Clean(List(items)))
    ensures Encode(types, Tuple(items)).Some? <==> Supported(types, Clean(Tuple(items)))
  {
    ListEncodes(types, items);
    forall i | 0 <= i < |items|
      ensures Encode(types, items[i]).Some? <==> Supported(types, Clean(List(items)).items[i])
      ensures Encode(types, items[i]).Some? <==> Supported(types, Clean(Tuple(items)).items[i])
    {}
  }

  /** A namespace is cleaned like the dict of its attributes, a tuple like the list of its items. */
  lemma {:induction false} CleanAlike(items: seq<Value>, m: map<string, Value>)
    ensures Clean(Tuple(items)) == Tuple(Clean(List(items)).items)
    ensures Clean(Namespace(m)) == Namespace(Clean(Dict(m)).entries)
  {
    assert Clean(Tuple(items)).items == Clean(List(items)).items;
    assert Clean(Namespace(m)).attributes == Clean(Dict(m)).entries;
  }

  lemma {:induction false} CleanDict(m: map<string, Value>)
    ensures Clean(Dict(m)).Dict?
    ensures Clean(Dict(m)).entries.Keys == set key | key in m && Survives(key, m[key])
    ensures forall key | key in m && Survives(key, m[key]) :: Clean(Dict(m)).entries[key] == Clean(m[key])
  {}

  lemma {:induction false} DictSupported(types: Types, m: map<string, Value>)
    requires forall key | key in m && Survives(key, m[key]) :: Encode(types, m[key]).Some? <==> Supported(types, Clean(m[key]))
    ensures Encode(types, Dict(m)).Some? <==> Supported(types, Clean(Dict(m)))
  {
    DictEncodes(types, m);
    var d := Clean(Dict(m));
    CleanDict(m);
    assert Supported(types, d) <==> forall key | key in d.entries :: Supported(types, d.entries[key]);
    forall key | key in m && Survives(key, m[key]) ensures Encode(types, m[key]).Some? <==> Supported(types, d.entries[key]) {}
  }

  lemma {:induction false} NamespaceSupported(types: Types, entries: map<string, Value>)
    ensures Supported(types, Namespace(entries)) <==> Supported(types, Dict(entries))
  {
    assert Supported(types, Dict(entries)) <==> forall key | key in entries :: Supported(types, entries[key]);
  }

  lemma {:induction false} AttributesSupported(types: Types, m: map<string, Value>)
    requires Encode(types, Dict(m)).Some? <==> Supported(types, Clean(Dict(m)))
    ensures Encode(types, Namespace(m)).Some? <==> Supported(types, Clean(Namespace(m)))
  {
    DictEncodes(types, m);
    CleanAlike([], m);
    NamespaceSupported(types, Clean(Dict(m)).entries);
  }

  lemma {:induction false} FieldsSupported(types: Types, name: string, m: map<string, Value>)
    requires forall key | key in m :: Encode(types, m[key]).Some? <==> Supported(types, Clean(m[key]))
    ensures Encode(types, Instance(name, m)).Some? <==> Supported(types, Clean(Instance(name, m)))
  {
    assert Clean(Instance(name, m)).fields.Keys == m.Keys;
    if name in types && m.Keys == types[name] {
      InstanceEncodes(types, name, m);
      forall key | key in m ensures Encode(types, m[key]).Some? <==> Supported(types, Clean(Instance(name, m)).fields[key]) {}
    }
  }

  /** The encoder raises exactly when something that survives cleaning is callable or unknown. */
  lemma {:induction false} EncodesIffSupported(types: Types, v: Value)
    ensures Encode(types, v).Some? <==> Supported(types, Clean(v))
  {
    match v
    case Tuple(items) =>
      forall i | 0 <= i < |items| { EncodesIffSupported(types, items[i]); }
      ItemsSupported(types, items);
    case List(items) =>
      forall i | 0 <= i < |items| { EncodesIffSupported(types, items[i]); }
      ItemsSupported(types, items);
    case Dict(entries) =>
      forall key | key in entries { EncodesIffSupported(types, entries[key]); }
      DictSupported(types, entries);
    case Namespace(attributes) =>
      forall key | key in attributes { EncodesIffSupported(types, attributes[key]); }
      DictSupported(types, attributes);
      AttributesSupported(types, attributes);
    case Instance(name, fields) =>
      forall key | key in fields { EncodesIffSupported(types, fields[key]); }
      FieldsSupported(types, name, fields);
    case _ =>
  }

  /** What decoding an item's encoding gives back. */
  ghost predicate ComesBack(types: Types, v: Value) {
    var e := Encode(types, v);
    e.Some? && Decode(types, e.value) == Some(Clean(v))
  }

  lemma {:induction false} ItemsComeBack(types: Types, items: seq<Value>)
    requires Encode(types, List(items)).Some?
    ensures ComesBack(types, List(items)) <==> forall i | 0 <= i < |items| :: ComesBack(types, items[i])
    ensures ComesBack(types, Tuple(items)) <==> forall i | 0 <= i < |items| :: ComesBack(types, items[i])
  {
    ListEncodes(types, items);
    var e := Encode(types, List(items)).value.items;
    var back := Clean(List(items)).items;
    assert Clean(Tuple(items)).items == back;
    ListDecodes(types, e, back);
    forall i | 0 <= i < |items| ensures ComesBack(types, items[i]) <==> Decode(types, e[i]) == Some(back[i]) {}
  }

  lemma {:induction false} EntriesComeBack(types: Types, m: map<string, Value>)
    requires Encode(types, Dict(m)).Some?
    ensures ComesBack(types, Dict(m)) <==>
              && Clean(Dict(m)).entries.Keys !! RESERVED
              && forall key | key in m && Survives(key, m[key]) :: ComesBack(types, m[key])
  {
    DictEncodes(types, m);
    var e := Encode(types, Dict(m)).value.entries;
    var back := Clean(Dict(m)).entries;
    assert back.Keys == e.Keys;
    if e.Keys !! RESERVED {
      DictDecodes(types, e, back);
      forall key | key in e ensures ComesBack(types, m[key]) <==> Decode(types, e[key]) == Some(back[key]) {}
    } else {
      MarkedDecodesElsewhere(types, e);
    }
  }

  lemma {:induction false} AttributesComeBack(types: Types, m: map<string, Value>)
    requires Encode(types, Namespace(m)).Some?
    ensures Encode(types, Dict(m)).Some? && (ComesBack(types, Namespace(m)) <==> ComesBack(types, Dict(m)))
  {
    DictEncodes(types, m);
    assert Clean(Namespace(m)).attributes == Clean(Dict(m)).entries;
    var e := Encode(types, Dict(m)).value;
    var inner := Decode(types, e);
    var d := Decode(types, Dict(map["$namespace" := e]));
    assert d == if inner.Some? && inner.value.Dict? then Some(Namespace(inner.value.entries)) else None;
  }

  lemma {:induction false} InstanceDecodes(types: Types, name: string, e: map<string, Value>, back: map<string, Value>)
    requires name in types && back.Keys == e.Keys == types[name]
    ensures Decode(types, Dict(map["$type" := Text(name), "fields" := Dict(e)])) == Some(Instance(name, back))
            <==> Decode(types, Dict(e)) == Some(Dict(back))
  {
    var inner := Decode(types, Dict(e));
    assert Decode(types, Dict(map["$type" := Text(name), "fields" := Dict(e)])) ==
      if inner.Some? && inner.value.Dict? && inner.value.entries.Keys == types[name] then Some(Instance(name, inner.value.entries)) else None;
  }

  lemma {:induction false} FieldsComeBack(types: Types, name: string, m: map<string, Value>)
    requires Encode(types, Instance(name, m)).Some?
    ensures ComesBack(types, Instance(name, m)) <==> m.Keys !! RESERVED && forall key | key in m :: ComesBack(types, m[key])
  {
    InstanceEncodes(types, name, m);
    var e: map<string, Value> :| Encode(types, Instance(name, m)).value == Dict(map["$type" := Text(name), "fields" := Dict(e)])
      && e.Keys == m.Keys && forall key | key in e :: Encode(types, m[key]) == Some(e[key]);
    var back := Clean(Instance(name, m)).fields;
    assert back.Keys == m.Keys;
    InstanceDecodes(types, name, e, back);
    if e.Keys !! RESERVED {
      DictDecodes(types, e, back);
      forall key | key in m ensures ComesBack(types, m[key]) <==> Decode(types, e[key]) == Some(back[key]) {}
    } else {
      MarkedDecodesElsewhere(types, e);
    }
  }

  lemma {:induction false} CleanListKeys(items: seq<Value>, keys: set<string>)
    ensures NoKeys(Clean(List(items)), keys) <==> forall i | 0 <= i < |items| :: NoKeys(Clean(items[i]), keys)
    ensures NoKeys(Clean(Tuple(items)), keys) <==> NoKeys(Clean(List(items)), keys)
  {
    CleanAlike(items, map[]);
    var l := Clean(List(items)).items;
    forall i | 0 <= i < |items| ensures l[i] == Clean(items[i]) {}
  }

  lemma {:induction false} CleanDictKeys(m: map<string, Value>, keys: set<string>)
    ensures NoKeys(Clean(Dict(m)), keys) <==>
              && Clean(Dict(m)).entries.Keys !! keys
              && forall key | key in m && Survives(key, m[key]) :: NoKeys(Clean(m[key]), keys)
  {
    CleanDict(m);
    var d := Clean(Dict(m));
    assert NoKeys(d, keys) <==> d.entries.Keys !! keys && forall key | key in d.entries :: NoKeys(d.entries[key], keys);
    forall key | key in m && Survives(key, m[key]) ensures NoKeys(Clean(m[key]), keys) <==> NoKeys(d.entries[key], keys) {}
  }

  lemma {:induction false} CleanNamespaceKeys(m: map<string, Value>, keys: set<string>)
    ensures NoKeys(Clean(Namespace(m)), keys) <==> NoKeys(Clean(Dict(m)), keys)
  {
    CleanAlike([], m);
    var entries := Clean(Dict(m)).entries;
    assert NoKeys(Namespace(entries), keys) <==> NoKeys(Dict(entries), keys);
  }

  lemma {:induction false} CleanFieldKeys(m: map<string, Value>, name: string, keys: set<string>)
    ensures NoKeys(Clean(Instance(name, m)), keys) <==> m.Keys !! keys && forall key | key in m :: NoKeys(Clean(m[key]), keys)
  {
    var f := Clean(Instance(name, m)).fields;
    assert f.Keys == m.Keys;
    forall key | key in m ensures f[key] == Clean(m[key]) {}
  }

  /** Whatever the encoder accepts comes back as the cleaned value exactly when no dict, namespace or record in it uses a
      marker as a key. */
  lemma {:induction false} RoundTripIff(types: Types, v: Value)
    requires Encode(types, v).Some?
    ensures Decode(types, Encode(types, v).value) == Some(Clean(v)) <==> NoKeys(Clean(v), RESERVED)
  {
    match v
    case Tuple(items) =>
      ListEncodes(types, items);
      forall i | 0 <= i < |items| { RoundTripIff(types, items[i]); }
      ItemsComeBack(types, items);
      CleanListKeys(items, RESERVED);
    case List(items) =>
      ListEncodes(types, items);
      forall i | 0 <= i < |items| { RoundTripIff(types, items[i]); }
      ItemsComeBack(types, items);
      CleanListKeys(items, RESERVED);
    case Dict(entries) =>
      DictEncodes(types, entries);
      forall key | key in entries && Survives(key, entries[key]) { RoundTripIff(types, entries[key]); }
      EntriesComeBack(types, entries);
      CleanDictKeys(entries, RESERVED);
    case Namespace(attributes) =>
      DictEncodes(types, attributes);
      forall key | key in attributes && Survives(key, attributes[key]) { RoundTripIff(types, attributes[key]); }
      AttributesComeBack(types, attributes);
      EntriesComeBack(types, attributes);
      CleanDictKeys(attributes, RESERVED);
      CleanNamespaceKeys(attributes, RESERVED);
    case Instance(name, fields) =>
      InstanceEncodes(types, name, fields);
      forall key | key in fields { RoundTripIff(types, fields[key]); }
      FieldsComeBack(types, name, fields);
      CleanFieldKeys(fields, name, RESERVED);
    case _ =>
  }

  // ---------------------------------------------------------------- secrets

  lemma {:induction false} Wrapped(marker: string, v: Value)
    requires marker in RESERVED
    ensures NoKeys(Dict(map[marker := v]), SECRETS) <==> NoKeys(v, SECRETS)
  {
    assert map[marker := v][marker] == v;
  }

  lemma {:induction false} ListKeepsSecrets(items: seq<Value>, e: seq<Value>)
    requires |e| == |items| && forall i | 0 <= i < |items| :: NoKeys(e[i], SECRETS) <==> NoKeys(Clean(items[i]), SECRETS)
    ensures NoKeys(List(e), SECRETS) <==> NoKeys(Clean(List(items)), SECRETS)
  {
    CleanListKeys(items, SECRETS);
  }

  lemma {:induction false} DictKeepsSecrets(m: map<string, Value>, e: map<string, Value>)
    requires e.Keys == (set key | key in m && Survives(key, m[key]))
    requires forall key | key in e :: NoKeys(e[key], SECRETS) <==> NoKeys(Clean(m[key]), SECRETS)
    ensures NoKeys(Dict(e), SECRETS) <==> NoKeys(Clean(Dict(m)), SECRETS)
  {
    CleanDictKeys(m, SECRETS);
    CleanDict(m);
  }

  lemma {:induction false} RecordWrapped(name: string, e: map<string, Value>)
    ensures NoKeys(Dict(map["$type" := Text(name), "fields" := Dict(e)]), SECRETS) <==> NoKeys(Dict(e), SECRETS)
  {
    var whole := map["$type" := Text(name), "fields" := Dict(e)];
    assert whole.Keys == {"$type", "fields"} && whole["fields"] == Dict(e) && whole["$type"] == Text(name);
  }

  lemma {:induction false} FieldsKeepSecrets(name: string, m: map<string, Value>, e: map<string, Value>)
    requires e.Keys == m.Keys && forall key | key in e :: NoKeys(e[key], SECRETS) <==> NoKeys(Clean(m[key]), SECRETS)
    ensures NoKeys(Dict(map["$type" := Text(name), "fields" := Dict(e)]), SECRETS) <==> NoKeys(Clean(Instance(name, m)), SECRETS)
  {
    CleanFieldKeys(m, name, SECRETS);
    RecordWrapped(name, e);
    assert NoKeys(Dict(e), SECRETS) <==> e.Keys !! SECRETS && forall key | key in e :: NoKeys(e[key], SECRETS);
  }

  lemma {:induction false} SecretsAsCleaned(types: Types, v: Value)
    requires Encode(types, v).Some?
    ensures NoKeys(Encode(types, v).value, SECRETS) <==> NoKeys(Clean(v), SECRETS)
  {
    match v
    case Tuple(items) =>
      ListEncodes(types, items);
      forall i | 0 <= i < |items| { SecretsAsCleaned(types, items[i]); }
      var e := Encode(types, List(items)).value;
      ListKeepsSecrets(items, e.items);
      CleanListKeys(items, SECRETS);
      Wrapped("$tuple", e);
    case List(items) =>
      ListEncodes(types, items);
      forall i | 0 <= i < |items| { SecretsAsCleaned(types, items[i]); }
      ListKeepsSecrets(items, Encode(types, v).value.items);
    case Dict(entries) =>
      DictEncodes(types, entries);
      forall key | key in entries && Survives(key, entries[key]) { SecretsAsCleaned(types, entries[key]); }
      DictKeepsSecrets(entries, Encode(types, v).value.entries);
    case Namespace(attributes) =>
      DictEncodes(types, attributes);
      forall key | key in attributes && Survives(key, attributes[key]) { SecretsAsCleaned(types, attributes[key]); }
      var e := Encode(types, Dict(attributes)).value;
      DictKeepsSecrets(attributes, e.entries);
      CleanNamespaceKeys(attributes, SECRETS);
      Wrapped("$namespace", e);
    case Instance(name, fields) =>
      InstanceEncodes(types, name, fields);
      forall key | key in fields { SecretsAsCleaned(types, fields[key]); }
      var e: map<string, Value> :| Encode(types, v).value == Dict(map["$type" := Text(name), "fields" := Dict(e)])
        && e.Keys == fields.Keys && forall key | key in e :: Encode(types, fields[key]) == Some(e[key]);
      FieldsKeepSecrets(name, fields, e);
    case Decimal(text) => Wrapped("$decimal", Text(text));
    case Datetime(text) => Wrapped("$datetime", Text(text));
    case Timedelta(seconds) => Wrapped("$timedelta", Number(seconds));
    case _ =>
  }

  /** Some record that survives cleaning has a field with a secret's name. */
  predicate SecretField(v: Value) {
    match v
    case Tuple(items) => exists i | 0 <= i < |items| :: SecretField(items[i])
    case List(items) => exists i | 0 <= i < |items| :: SecretField(items[i])
    case Dict(entries) => exists key | key in entries && Survives(key, entries[key]) :: SecretField(entries[key])
    case Namespace(attributes) => exists key | key in attributes && Survives(key, attributes[key]) :: SecretField(attributes[key])
    case Instance(_, fields) => (exists key :: key in fields && key in SECRETS) || exists key | key in fields :: SecretField(fields[key])
    case _ => false
  }

  lemma {:induction false} CleanedSecretIffField(v: Value)
    ensures NoKeys(Clean(v), SECRETS) <==> !SecretField(v)
  {
    match v
    case Tuple(items) =>
      forall i | 0 <= i < |items| { CleanedSecretIffField(items[i]); }
      CleanListKeys(items, SECRETS);
    case List(items) =>
      forall i | 0 <= i < |items| { CleanedSecretIffField(items[i]); }
      CleanListKeys(items, SECRETS);
    case Dict(entries) =>
      forall key | key in entries { CleanedSecretIffField(entries[key]); }
      CleanDict(entries);
      CleanDictKeys(entries, SECRETS);
    case Namespace(attributes) =>
      forall key | key in attributes { CleanedSecretIffField(attributes[key]); }
      CleanDict(attributes);
      CleanDictKeys(attributes, SECRETS);
      CleanNamespaceKeys(attributes, SECRETS);
    case Instance(name, fields) =>
      forall key | key in fields { CleanedSecretIffField(fields[key]); }
      CleanFieldKeys(fields, name, SECRETS);
    case _ =>
  }

  /** The snapshot names a secret exactly when a record that survives has a field with a secret's name. */
  lemma {:induction false} SecretsIffField(types: Types, v: Value)
    requires Encode(types, v).Some?
    ensures NoKeys(Encode(types, v).value, SECRETS) <==> !SecretField(v)
  {
    SecretsAsCleaned(types, v);
    CleanedSecretIffField(v);
  }

  /** A record with such a field puts it into the snapshot. */
  lemma {:induction false} SecretFieldIsWritten()
    ensures var types: Types := map["Client" := {"api_key"}];
            var v := Instance("Client", map["api_key" := Text("k")]);
            Encode(types, v).Some? && SecretField(v) && !NoKeys(Encode(types, v).value, SECRETS)
  {
    var types: Types := map["Client" := {"api_key"}];
    var fields := map["api_key" := Text("k")];
    assert fields.Keys == {"api_key"} && "api_key" in SECRETS;
    InstanceEncodes(types, "Client", fields);
    SecretsIffField(types, Instance("Client", fields));
  }

  /** When no known record has such a field, no snapshot names a secret, whatever the value holds. */
  lemma {:induction false} NoSecretIsWritten(types: Types, v: Value)
    requires forall name | name in types :: types[name] !! SECRETS
    requires Encode(types, v).Some?
    ensures NoKeys(Encode(types, v).value, SECRETS)
  {
    EncodedHasNoSecret(types, v);
    SecretsAsCleaned(types, v);
  }

  lemma {:induction false} EncodedHasNoSecret(types: Types, v: Value)
    requires forall name | name in types :: types[name] !! SECRETS
    requires Encode(types, v).Some?
    ensures NoKeys(Clean(v), SECRETS)
  {
    match v
    case Tuple(items) =>
      ListEncodes(types, items);
      forall i | 0 <= i < |items| { EncodedHasNoSecret(types, items[i]); }
      CleanListKeys(items, SECRETS);
    case List(items) =>
      ListEncodes(types, items);
      forall i | 0 <= i < |items| { EncodedHasNoSecret(types, items[i]); }
      CleanListKeys(items, SECRETS);
    case Dict(entries) =>
      DictEncodes(types, entries);
      forall key | key in entries && Survives(key, entries[key]) { EncodedHasNoSecret(types, entries[key]); }
      CleanDict(entries);
      CleanDictKeys(entries, SECRETS);
    case Namespace(attributes) =>
      DictEncodes(types, attributes);
      forall key | key in attributes && Survives(key, attributes[key]) { EncodedHasNoSecret(types, attributes[key]); }
      CleanDict(attributes);
      CleanDictKeys(attributes, SECRETS);
      CleanNamespaceKeys(attributes, SECRETS);
    case Instance(name, fields) =>
      InstanceEncodes(types, name, fields);
      forall key | key in fields { EncodedHasNoSecret(types, fields[key]); }
      CleanFieldKeys(fields, name, SECRETS);
    case _ =>
  }

  /** What is written is plain JSON. */
  lemma {:induction false} EncodedIsJson(types: Types, v: Value)
    requires Encode(types, v).Some?
    ensures IsJson(Encode(types, v).value)
  {
    match v
    case Tuple(items) =>
      ListEncodes(types, items);
      forall i | 0 <= i < |items| { EncodedIsJson(types, items[i]); }
    case List(items) =>
      ListEncodes(types, items);
      forall i | 0 <= i < |items| { EncodedIsJson(types, items[i]); }
    case Dict(entries) =>
      DictEncodes(types, entries);
      forall key | key in entries && Survives(key, entries[key]) { EncodedIsJson(types, entries[key]); }
    case Namespace(attributes) =>
      DictEncodes(types, attributes);
      forall key | key in attributes && Survives(key, attributes[key]) { EncodedIsJson(types, attributes[key]); }
    case Instance(name, fields) =>
      InstanceEncodes(types, name, fields);
      forall key | key in fields { EncodedIsJson(types, fields[key]); }
    case _ =>
  }

  // ---------------------------------------------------------------- the records of the program

  const CONSOLIDATION_TYPES: Types := map[
    "ConsolidationCandidate" := {"route_ids", "source_asset", "destination_asset", "source_amount",
      "destination_amount", "source_usd", "conservative_destination_usd", "wallet_paid_gas_usd", "loss_usd",
      "loss_pct", "reason", "gas_estimate_complete", "gas_estimates", "price_expires_at"},
    "GroupAdmission" := {"status", "reason", "source_usd", "loss_usd", "loss_pct", "candidates"}
  ]

  const LIFI_TYPES: Types := map[
    "LifiRouteRequest" := {"from_chain_id", "to_chain_id", "from_token_address", "to_token_address",
      "from_amount", "from_address", "to_address", "slippage", "from_token_decimals", "to_token_decimals"},
    "LifiGasCost" := {"amount", "amount_usd", "token", "price_usd", "price_timestamp"},
    "LifiFeeCost" := {"amount", "token", "amount_usd", "price_usd", "price_timestamp", "included"},
    "LifiBridgeAction" := {"provider", "source", "destination", "from_amount", "recipient", "raw_step"},
    "LifiStepEvidence" := {"step_type", "provider", "source", "destination", "from_amount", "to_amount",
      "recipient", "payload_sha256", "source_price_usd", "destination_price_usd", "source_price_timestamp",
      "destination_price_timestamp", "is_substep", "normalization_error"}
  ]

  const LIFI_EVIDENCE_TYPES: Types := map[
    "LifiPriceEvidence" := {"asset", "price_usd", "timestamp", "source", "reported_price_usd"},
    "LifiRouteEvidence" := {"route_id", "steps", "source", "destination", "input_amount", "output_amount",
      "min_output_amount", "final_recipient", "quote_timestamp", "prices", "payload_sha256",
      "canonical_payload_json", "costs_complete", "costs_incomplete_reason"},
    "LifiRoute" := {"route_id", "from_amount", "to_amount", "to_amount_min", "gas_costs", "tools", "first_step",
      "fee_costs", "action", "raw_steps", "source_price_usd", "destination_price_usd", "price_timestamp",
      "evidence"},
    "TransactionRequest" := {"chain_id", "to", "data", "value", "gas_limit", "gas_price_wei",
      "max_fee_per_gas_wei", "max_priority_fee_per_gas_wei", "additional_fee_wei", "fee_quote_method",
      "fee_quote_fallback_reason", "max_total_fee_cap_wei", "gas_estimate", "fee_quote_block_number",
      "base_fee_per_gas_wei"}
  ]

  const MODELS_TYPES: Types := map[
    "AssetIdentity" := {"chain_id", "contract_address", "decimals"},
    "Token" := {"address", "symbol", "decimals", "source", "checked_at", "variant"},
    "Network" := {"chain_id", "name", "rpc_urls", "native_symbol", "native_decimals", "tokens",
      "token_review_status", "notes", "alchemy_network", "alchemy_rpc_network"},
    "Catalog" := {"networks", "revision", "checked_at", "source"}
  ]

  const VALUATION_TYPES: Types := map[
    "QuotePrice" := {"asset", "usd_per_token", "observed_at", "source", "reported_usd_per_token"},
    "FeeQuote" := {"raw_amount", "price"},
    "RouteValuation" := {"source_usd", "destination_usd", "wallet_paid_gas_usd", "loss_usd"}
  ]

  const ROUTE_TYPES: Types := CONSOLIDATION_TYPES + LIFI_TYPES + LIFI_EVIDENCE_TYPES + MODELS_TYPES + VALUATION_TYPES

  /** None of the program's records names a secret, so no route snapshot does. */
  lemma {:induction false} RouteSnapshotsAreKeyFree(v: Value)
    requires Encode(ROUTE_TYPES, v).Some?
    ensures NoKeys(Encode(ROUTE_TYPES, v).value, SECRETS)
  {
    RecordsNameNoSecret();
    NoSecretIsWritten(ROUTE_TYPES, v);
  }

  ghost predicate NoSecretField(types: Types) {
    forall name | name in types :: types[name] !! SECRETS
  }

  lemma {:induction false} RecordsNameNoSecret()
    ensures NoSecretField(ROUTE_TYPES)
  {
    ConsolidationNamesNoSecret();
    LifiNamesNoSecret();
    LifiEvidenceNamesNoSecret();
    ModelsNameNoSecret();
    ValuationNamesNoSecret();
  }

  lemma {:induction false} ConsolidationNamesNoSecret()
    ensures NoSecretField(CONSOLIDATION_TYPES)
  {
  }

  lemma {:induction false} LifiNamesNoSecret()
    ensures NoSecretField(LIFI_TYPES)
  {
  }

  lemma {:induction false} LifiEvidenceNamesNoSecret()
    ensures NoSecretField(LIFI_EVIDENCE_TYPES)
  {
  }

  lemma {:induction false} ModelsNameNoSecret()
    ensures NoSecretField(MODELS_TYPES)
  {
  }

  lemma {:induction false} ValuationNamesNoSecret()
    ensures NoSecretField(VALUATION_TYPES)
  {
  }
}
