/** JSON documents as serde_json sees them once the text is parsed, and the
    building blocks of a serde-derived struct decoder: required fields,
    `#[serde(default)]` fields, `deny_unknown_fields`, and `Vec<T>` fields. */
module Json {
  import opened Wrappers

  const U64_LIMIT: int := 0x1_0000_0000_0000_0000

  /** Rust's `u64`. */
  type U64 = n: int | 0 <= n < U64_LIMIT

  /** A parsed JSON value. Numbers are integers only: every numeric field of the
      schemas is an unsigned integer. */
  datatype Json =
    | Null
    | Bool(b: bool)
    | Num(n: int)
    | Str(s: string)
    | Arr(items: seq<Json>)
    | Obj(fields: map<string, Json>)

  /** serde's `String` deserializer: only a JSON string is accepted. */
  function AsString(j: Json): (r: Option<string>)
    ensures r.Some? <==> j.Str?
    ensures r.Some? ==> Str(r.value) == j
  {
    if j.Str? then Some(j.s) else None
  }

  /** serde's `u64` deserializer: a JSON integer in [0, 2^64). */
  function AsU64(j: Json): (r: Option<U64>)
    ensures r.Some? <==> j.Num? && 0 <= j.n < U64_LIMIT
    ensures r.Some? ==> Num(r.value) == j
  {
    if j.Num? && 0 <= j.n < U64_LIMIT then Some(j.n as U64) else None
  }

  /** Decodes every element of a JSON array with `dec`; one failure fails the whole array. */
  function DecodeItems<T>(items: seq<Json>, dec: Json -> Option<T>): (r: Option<seq<T>>)
    ensures r.Some? <==> forall i :: 0 <= i < |items| ==> dec(items[i]).Some?
    ensures r.Some? ==> |r.value| == |items|
    ensures r.Some? ==> forall i :: 0 <= i < |items| ==> dec(items[i]) == Some(r.value[i])
  {
    if |items| == 0 then Some([])
    else
      match dec(items[0])
      case None => None
      case Some(x) =>
        match DecodeItems(items[1..], dec)
        case None =>
          assert forall i :: 1 <= i < |items| ==> items[i] == items[1..][i - 1];
          None
        case Some(xs) => Some([x] + xs)
  }

  /** serde's `Vec<T>` deserializer. */
  function AsSeq<T>(j: Json, dec: Json -> Option<T>): Option<seq<T>> {
    if j.Arr? then DecodeItems(j.items, dec) else None
  }

  function EncodeItems<T>(xs: seq<T>, enc: T -> Json): (r: seq<Json>)
    ensures |r| == |xs|
    ensures forall i :: 0 <= i < |xs| ==> r[i] == enc(xs[i])
  {
    seq(|xs|, i requires 0 <= i < |xs| => enc(xs[i]))
  }

  /** Encoding every element and decoding the array gives the elements back,
      provided each element survives on its own. */
  lemma DecodeEncodedItems<T>(xs: seq<T>, enc: T -> Json, dec: Json -> Option<T>)
    requires forall i :: 0 <= i < |xs| ==> dec(enc(xs[i])) == Some(xs[i])
    ensures DecodeItems(EncodeItems(xs, enc), dec) == Some(xs)
  {
    var r := DecodeItems(EncodeItems(xs, enc), dec);
    assert r.Some?;
    assert r.value == xs;
  }

  /** Decoding an array and re-encoding it gives the array back, provided each
      decoded element re-encodes to the JSON it came from. */
  lemma EncodeDecodedItems<T>(items: seq<Json>, enc: T -> Json, dec: Json -> Option<T>)
    requires DecodeItems(items, dec).Some?
    requires forall i :: 0 <= i < |items| ==> enc(dec(items[i]).value) == items[i]
    ensures EncodeItems(DecodeItems(items, dec).value, enc) == items
  {
  }

  /** A field without `#[serde(default)]`: a missing key is an error. */
  function Required<T>(o: map<string, Json>, key: string, dec: Json -> Option<T>): (r: Option<T>)
    ensures key !in o ==> r.None?
    ensures key in o ==> r == dec(o[key])
  {
    if key in o then dec(o[key]) else None
  }

  /** A field with `#[serde(default)]`: a missing key gives the type's default. */
  function Defaulted<T>(o: map<string, Json>, key: string, dec: Json -> Option<T>, default: T): (r: Option<T>)
    ensures key !in o ==> r == Some(default)
    ensures key in o ==> r == dec(o[key])
  {
    if key in o then dec(o[key]) else Some(default)
  }

  /** A field with no default: the key is present and its value decodes. */
  predicate FieldDecodes<T>(o: map<string, Json>, key: string, dec: Json -> Option<T>) {
    key in o && dec(o[key]).Some?
  }

  /** A `#[serde(default)]` field that is absent or present and decodable. */
  predicate OptionalFieldDecodes<T>(o: map<string, Json>, key: string, dec: Json -> Option<T>) {
    key !in o || dec(o[key]).Some?
  }

  /** `#[serde(deny_unknown_fields)]`: every key must be one of the struct's. */
  predicate KnownKeysOnly(o: map<string, Json>, keys: set<string>) {
    o.Keys <= keys
  }

  // ---------------------------------------------------------------------------
  // The two shapes of a derived struct. serde's derived `Deserialize` accepts a
  // struct from a JSON object (`visit_map`) or from a JSON array holding the
  // fields in declaration order (`visit_seq`), and serde_json offers both.

  /** How a struct is declared: its JSON keys in field order (after renaming)
      and as a set, the keys of its `#[serde(default)]` fields, and
      `deny_unknown_fields`. */
  datatype Layout = Layout(keys: seq<string>, known: set<string>, defaulted: set<string>, denyUnknown: bool)
  {
    /** The set lists the same keys as the sequence. */
    predicate Valid() {
      (forall k :: k in keys ==> k in known) && forall k :: k in known ==> k in keys
    }
  }

  /** Rust field names are distinct, so no two positions share a key. */
  predicate DistinctKeys(keys: seq<string>) {
    forall i, k :: 0 <= i < k < |keys| ==> keys[i] != keys[k]
  }

  /** The first position of `k` in `keys`. */
  function KeyIndex(keys: seq<string>, k: string): (i: nat)
    requires k in keys
    ensures i < |keys| && keys[i] == k
    ensures forall m :: 0 <= m < i ==> keys[m] != k
  {
    if keys[0] == k then 0 else 1 + KeyIndex(keys[1..], k)
  }

  /** Each name mapped to the element at its first position. */
  function Named(names: seq<string>, items: seq<Json>): (o: map<string, Json>)
    requires |names| == |items|
    ensures forall k :: k in o <==> k in names
  {
    map k | k in names :: items[KeyIndex(names, k)]
  }

  lemma NamedAt(names: seq<string>, items: seq<Json>, i: nat)
    requires |names| == |items| && DistinctKeys(names) && i < |names|
    ensures Named(names, items)[names[i]] == items[i]
  {
    assert KeyIndex(names, names[i]) == i;
  }

  /** Naming the first |items| keys places element i under key i. */
  lemma NamedPrefix(keys: seq<string>, items: seq<Json>)
    requires |items| <= |keys|
    ensures DistinctKeys(keys) ==> forall i :: 0 <= i < |items| ==> Named(keys[..|items|], items)[keys[i]] == items[i]
  {
    if DistinctKeys(keys) {
      var named := keys[..|items|];
      forall i | 0 <= i < |items| ensures Named(named, items)[keys[i]] == items[i] {
        assert named[i] == keys[i];
        NamedAt(named, items, i);
      }
    }
  }

  /** The array shape, read as the object it stands for. Element i is the
      value of field i. Once the elements run out, every remaining field must
      have a default; elements beyond the last field are an error (serde_json
      reports them as trailing characters). */
  function Positional(items: seq<Json>, l: Layout): (r: Option<map<string, Json>>)
    ensures r.Some? <==> |items| <= |l.keys| && forall i :: |items| <= i < |l.keys| ==> l.keys[i] in l.defaulted
    ensures r.Some? ==> forall k :: k in r.value <==> k in l.keys[..|items|]
    ensures r.Some? && DistinctKeys(l.keys) ==> forall i :: 0 <= i < |items| ==> r.value[l.keys[i]] == items[i]
  {
    if |items| <= |l.keys| && forall i :: |items| <= i < |l.keys| ==> l.keys[i] in l.defaulted then
      NamedPrefix(l.keys, items);
      Some(Named(l.keys[..|items|], items))
    else None
  }

  /** The entries a struct decoder reads: an object's own, when
      `deny_unknown_fields` allows them, or those of an array read positionally.
      Any other JSON value is a type error. */
  function StructFields(j: Json, l: Layout): (r: Option<map<string, Json>>)
    ensures j.Obj? ==> (r.Some? <==> !l.denyUnknown || KnownKeysOnly(j.fields, l.known))
    ensures j.Obj? && r.Some? ==> r.value == j.fields
    ensures j.Arr? ==> r == Positional(j.items, l)
    ensures !j.Obj? && !j.Arr? ==> r.None?
    ensures r.Some? && l.denyUnknown && l.Valid() ==> KnownKeysOnly(r.value, l.known)
  {
    match j
    case Obj(o) => if l.denyUnknown && !KnownKeysOnly(o, l.known) then None else Some(o)
    case Arr(items) =>
      var r := Positional(items, l);
      assert r.Some? && l.Valid() ==> forall k :: k in r.value ==> k in l.keys[..|items|] && k in l.keys && k in l.known;
      r
    case _ => None
  }

  /** The entries a struct decoder reads from `j`, or none when `j` has
      neither shape. */
  function FieldsOf(j: Json, l: Layout): map<string, Json> {
    match StructFields(j, l)
    case Some(o) => o
    case None => map[]
  }

  /** A derived struct decoder: the entries in either shape, then the fields
      read from them by `fields`. */
  function DecodeStruct<T>(j: Json, l: Layout, fields: map<string, Json> -> Option<T>): (r: Option<T>)
    ensures r.Some? <==> StructFields(j, l).Some? && fields(FieldsOf(j, l)).Some?
    ensures r.Some? ==> r == fields(FieldsOf(j, l))
  {
    var o :- StructFields(j, l);
    fields(o)
  }

  /** An object the layout admits is read by the field reader directly. */
  lemma ObjectReadsFields<T>(o: map<string, Json>, l: Layout, fields: map<string, Json> -> Option<T>)
    requires !l.denyUnknown || KnownKeysOnly(o, l.known)
    ensures DecodeStruct(Obj(o), l, fields) == fields(o)
  {
  }

  /** With no defaulted field, an array is read only when it holds exactly one
      element per field. */
  lemma PositionalNeedsEveryField(items: seq<Json>, l: Layout)
    requires l.defaulted == {} && Positional(items, l).Some?
    ensures |items| == |l.keys|
  {
    if |items| < |l.keys| {
      FirstMissingDefaulted(items, l);
      assert false;
    }
  }

  /** A short array leaves its first missing field to its default. */
  lemma FirstMissingDefaulted(items: seq<Json>, l: Layout)
    requires |items| < |l.keys| && Positional(items, l).Some?
    ensures l.keys[|items|] in l.defaulted
  {
  }

  /** `deny_unknown_fields` does not restrict the array shape: an array that
      fits the layout is read exactly like the object of its fields. */
  lemma ArrayReadsAsObject(items: seq<Json>, l: Layout)
    requires l.Valid() && Positional(items, l).Some?
    ensures StructFields(Arr(items), l) == StructFields(Obj(Positional(items, l).value), l)
  {
    var o := Positional(items, l).value;
    assert forall k :: k in o ==> k in l.keys[..|items|] && k in l.keys && k in l.known;
  }

  /** One HTTP GET as the clients see it: the request failed in transport, or a
      body arrived, which either parses as JSON or does not (`None`). */
  datatype Reply = TransportError | Received(body: Option<Json>)

  /** A `Vec<String>`: an array of JSON strings. */
  function EncodeStrings(xs: seq<string>): Json {
    Arr(EncodeItems(xs, (x: string) => Str(x)))
  }

  function DecodeStrings(j: Json): (r: Option<seq<string>>)
    ensures r.Some? ==> EncodeStrings(r.value) == j
  {
    var r := AsSeq(j, AsString);
    if r.Some? then
      EncodeDecodedItems(j.items, (x: string) => Str(x), AsString);
      r
    else r
  }

  lemma StringsRoundTrip(xs: seq<string>)
    ensures DecodeStrings(EncodeStrings(xs)) == Some(xs)
  {
    DecodeEncodedItems(xs, (x: string) => Str(x), AsString);
  }
}
