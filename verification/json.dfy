/**
 Decoded JSON values, and what `encoding/json` does when it stores one into each Go type the
 program decodes into. A decoding failure is None. `null` is accepted everywhere and leaves the
 zero value, which is also what an absent struct field leaves.
 */
module Json {
  import opened Results

  datatype Value = Null | Str(text: string) | Obj(fields: Fields) | Arr(items: seq<Value>) | Scalar

  type Fields = map<string, Value>

  /** Into a string. */
  function AsText(v: Value): Option<string> {
    match v
    case Null => Some("")
    case Str(s) => Some(s)
    case _ => None
  }

  /** Into a struct, or into a map of raw messages. */
  function AsFields(v: Value): Option<Fields> {
    match v
    case Null => Some(map[])
    case Obj(m) => Some(m)
    case _ => None
  }

  /** Into a slice of strings. */
  function AsTexts(v: Value): Option<seq<string>> {
    match v
    case Null => Some([])
    case Arr(items) => ItemTexts(items)
    case _ => None
  }

  function ItemTexts(items: seq<Value>): Option<seq<string>> {
    if items == [] then Some([])
    else match (AsText(items[0]), ItemTexts(items[1..]))
      case (Some(s), Some(rest)) => Some([s] + rest)
      case _ => None
  }

  /** Into a map of strings. */
  function AsTextMap(v: Value): Option<map<string, string>> {
    match v
    case Null => Some(map[])
    case Obj(m) =>
      if forall k | k in m :: AsText(m[k]).Some? then Some(map k | k in m :: AsText(m[k]).value) else None
    case _ => None
  }

  /** A struct field by name: absent decodes as null does. */
  function At(m: Fields, name: string): Value {
    if name in m then m[name] else Null
  }

  /** `stringField` on the raw message under a name: an absent one is not a string, but a present
      `null` decodes into the empty string without error, whatever the source's comment says. */
  function StringField(m: Fields, name: string): Option<string> {
    if name in m then AsText(m[name]) else None
  }

  // ---------- the reply bodies ----------

  function DataOf(body: Value): Option<Fields> {
    match AsFields(body)
    case None => None
    case Some(top) => AsFields(At(top, "data"))
  }

  /** A LIST reply: data.keys. */
  function DecodeKeys(body: Value): Option<seq<string>> {
    match DataOf(body)
    case None => None
    case Some(data) => AsTexts(At(data, "keys"))
  }

  datatype KvEntry = KvEntry(fields: Fields, custom: map<string, string>)

  /** A KV v2 read: data.data and data.metadata.custom_metadata. */
  function DecodeEntry(body: Value): Option<KvEntry> {
    match DataOf(body)
    case None => None
    case Some(data) =>
      match (AsFields(At(data, "data")), AsFields(At(data, "metadata")))
      case (Some(fields), Some(meta)) =>
        (match AsTextMap(At(meta, "custom_metadata"))
         case None => None
         case Some(custom) => Some(KvEntry(fields, custom)))
      case _ => None
  }

  /** A directive read, which looks at data.data only. */
  function DecodeDirective(body: Value): Option<Fields> {
    match DataOf(body)
    case None => None
    case Some(data) => AsFields(At(data, "data"))
  }

  datatype Dereferenced = Dereferenced(lease: string, fields: Fields)

  /** A dereference: lease_id and data. */
  function DecodeDeref(body: Value): Option<Dereferenced> {
    match AsFields(body)
    case None => None
    case Some(top) =>
      match (AsText(At(top, "lease_id")), AsFields(At(top, "data")))
      case (Some(lease), Some(fields)) => Some(Dereferenced(lease, fields))
      case _ => None
  }

  // ---------- what is accepted ----------

  /** The member of a value under a name; null where there is none. */
  ghost function Member(v: Value, name: string): Value {
    if v.Obj? && name in v.fields then v.fields[name] else Null
  }

  ghost predicate IsRecord(v: Value) { v.Obj? || v.Null? }

  ghost predicate ObjectOrNull(v: Value, fields: Fields) { v == Obj(fields) || (v == Null && fields == map[]) }

  ghost predicate TextOrNull(v: Value, s: string) { v == Str(s) || (v == Null && s == "") }

  ghost predicate TextsOrNull(v: Value, texts: seq<string>) {
    || (v == Null && texts == [])
    || (v.Arr? && |v.items| == |texts| && forall i | 0 <= i < |texts| :: TextOrNull(v.items[i], texts[i]))
  }

  ghost predicate TextMapOrNull(v: Value, texts: map<string, string>) {
    || (v == Null && texts == map[])
    || (v.Obj? && v.fields.Keys == texts.Keys && forall k | k in texts :: TextOrNull(v.fields[k], texts[k]))
  }

  lemma {:induction false} ItemTextsExact(items: seq<Value>, texts: seq<string>)
    ensures ItemTexts(items) == Some(texts) <==>
            |items| == |texts| && forall i | 0 <= i < |texts| :: TextOrNull(items[i], texts[i])
  {
    if items != [] && texts != [] {
      ItemTextsExact(items[1..], texts[1..]);
      assert texts == [texts[0]] + texts[1..];
      if ItemTexts(items) == Some(texts) {
        forall i | 0 <= i < |texts| ensures TextOrNull(items[i], texts[i]) {
          if i > 0 { assert TextOrNull(items[1..][i - 1], texts[1..][i - 1]); }
        }
      }
    }
  }

  lemma TextMapExact(v: Value, texts: map<string, string>)
    ensures AsTextMap(v) == Some(texts) <==> TextMapOrNull(v, texts)
  {
    if TextMapOrNull(v, texts) && v.Obj? {
      assert forall k | k in v.fields :: AsText(v.fields[k]) == Some(texts[k]);
      assert texts == map k | k in v.fields :: AsText(v.fields[k]).value;
    }
  }

  /** A LIST body: `data.keys`, an array of strings. */
  lemma DecodeKeysExact(body: Value, keys: seq<string>)
    ensures DecodeKeys(body) == Some(keys) <==>
            IsRecord(body) && IsRecord(Member(body, "data")) && TextsOrNull(Member(Member(body, "data"), "keys"), keys)
  {
    var v := Member(Member(body, "data"), "keys");
    if v.Arr? { ItemTextsExact(v.items, keys); }
  }

  /** An entry: the fields are `data.data`, the custom metadata `data.metadata.custom_metadata`, a map
      of strings. */
  lemma DecodeEntryExact(body: Value, e: KvEntry)
    ensures DecodeEntry(body) == Some(e) <==>
            && IsRecord(body) && IsRecord(Member(body, "data"))
            && var data := Member(body, "data");
               && ObjectOrNull(Member(data, "data"), e.fields) && IsRecord(Member(data, "metadata"))
               && TextMapOrNull(Member(Member(data, "metadata"), "custom_metadata"), e.custom)
  {
    hide AsTextMap, TextMapOrNull;
    TextMapExact(Member(Member(Member(body, "data"), "metadata"), "custom_metadata"), e.custom);
  }

  /** A directive: `data.data` and nothing else of it. */
  lemma DecodeDirectiveExact(body: Value, fields: Fields)
    ensures DecodeDirective(body) == Some(fields) <==>
            IsRecord(body) && IsRecord(Member(body, "data")) && ObjectOrNull(Member(Member(body, "data"), "data"), fields)
  {}

  /** A dereference: `lease_id`, a string, and `data`. */
  lemma DecodeDerefExact(body: Value, d: Dereferenced)
    ensures DecodeDeref(body) == Some(d) <==>
            IsRecord(body) && TextOrNull(Member(body, "lease_id"), d.lease) && ObjectOrNull(Member(body, "data"), d.fields)
  {}
}
