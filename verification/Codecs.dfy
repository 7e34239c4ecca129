/**
  The account-value codecs (packages/core/src/account-repository-codecs.ts) as data.

  A codec is a value of `Codec`; `Decode` and `Encode` give its two directions, so the
  round-trip laws are proved once, by induction over the combinators, for every shape.
 */
module Codecs {
  import opened Text

  /**
    A JavaScript value as a codec sees it: the JSON forms, plus `Undefined` and `NonFinite`
    (NaN and the infinities), which codecs must refuse. Objects are unordered; -0 is not told
    apart from 0.
   */
  datatype Value =
    | Undefined
    | Null
    | NonFinite
    | Bool(b: bool)
    | Num(n: real)
    | Str(s: string)
    | Arr(items: seq<Value>)
    | Obj(fields: map<string, Value>)

  type Object = map<string, Value>

  datatype Primitive =
    | AnyString
    | NonEmptyString
    | FiniteNumber
    | Count
    | CredentialEpoch
    | Boolean
    | RowId
    | EnumOf(values: set<string>)
    | SchemaVersion(version: int)

  datatype Codec =
    | Prim(kind: Primitive)
    | JsonAny
    | Nullable(inner: Codec)
    | ArrayOf(item: Codec)
    | MapOf(entry: Codec)
    | Record(shape: map<string, Field>, open: bool, forbidden: set<string>)

  datatype Field = Field(codec: Codec, required: bool)

  const PROTO := "__proto__"
  const EXTENSIONS := "extensions"
  const MAX_JSON_DEPTH := 64
  const MAX_SAFE_INTEGER := 9007199254740991.0

  const PROTOTYPE_NAMES: set<string> := {
    "constructor", "__proto__", "hasOwnProperty", "isPrototypeOf", "propertyIsEnumerable",
    "toLocaleString", "toString", "valueOf", "__defineGetter__", "__defineSetter__",
    "__lookupGetter__", "__lookupSetter__"
  }

  predicate IsSafeInteger(r: real) {
    r == r.Floor as real && -MAX_SAFE_INTEGER <= r <= MAX_SAFE_INTEGER
  }

  predicate Admits(kind: Primitive, v: Value) {
    match kind
    case AnyString => v.Str?
    case NonEmptyString => v.Str? && v.s != ""
    case FiniteNumber => v.Num?
    case Count => v.Num? && IsSafeInteger(v.n) && v.n >= 0.0
    case CredentialEpoch => v.Num? && IsSafeInteger(v.n) && v.n > 0.0
    case Boolean => v.Bool?
    case RowId => v.Str? && v.s != "" && Trimmed(v.s) && v.s !in PROTOTYPE_NAMES
    case EnumOf(values) => v.Str? && v.s in values
    case SchemaVersion(version) => v == Num(version as real)
  }

  /** Whether `jsonCopy` accepts a value at this depth; the copy it makes is the value itself. */
  predicate IsJson(v: Value, depth: nat) {
    match v
    case Undefined => false
    case NonFinite => false
    case Arr(items) =>
      depth < MAX_JSON_DEPTH && forall i | 0 <= i < |items| :: IsJson(items[i], depth + 1)
    case Obj(fields) =>
      depth < MAX_JSON_DEPTH && PROTO !in fields
      && forall k | k in fields :: IsJson(fields[k], depth + 1)
    case _ => true
  }

  // ----- Decoding ---------------------------------------------------------

  /** The unknown keys of a raw object, which decoding moves into `extensions`. */
  function Unknown(shape: map<string, Field>, raw: Object): Object {
    map k | k in raw && k !in shape :: raw[k]
  }

  predicate HasRequired(shape: map<string, Field>, present: set<string>) {
    forall k | k in shape && shape[k].required :: k in present
  }

  /** Keys kept in `extensions` must be unknown, allowed and plain JSON. */
  predicate GoodExtensions(shape: map<string, Field>, forbidden: set<string>, ext: Object) {
    PROTO !in ext
    && forall k | k in ext :: k !in shape && k !in forbidden && IsJson(ext[k], 0)
  }

  function WithExtensions(known: Object, ext: Object): Object {
    if ext == map[] then known else known[EXTENSIONS := Obj(ext)]
  }

  /** The known fields of a raw object, each read by its own codec. */
  function DecodeKnown(c: Codec, raw: Object): Object
    requires c.Record? && DecodesKnown(c, raw)
    decreases c, 1
  {
    map k | k in raw && k in c.shape :: Decode(c.shape[k].codec, raw[k]).value
  }

  predicate DecodesKnown(c: Codec, raw: Object)
    requires c.Record?
    decreases c, 0
  {
    forall k | k in raw && k in c.shape :: Decode(c.shape[k].codec, raw[k]).Some?
  }

  function Decode(c: Codec, raw: Value): Option<Value>
    decreases c, 2
  {
    match c
    case Prim(kind) => if Admits(kind, raw) then Some(raw) else None
    case JsonAny => if IsJson(raw, 0) then Some(raw) else None
    case Nullable(inner) => if raw == Null then Some(Null) else Decode(inner, raw)
    case ArrayOf(item) =>
      if raw.Arr? && forall i | 0 <= i < |raw.items| :: Decode(item, raw.items[i]).Some?
      then Some(Arr(seq(|raw.items|, i requires 0 <= i < |raw.items|
                                        && Decode(item, raw.items[i]).Some? => Decode(item, raw.items[i]).value)))
      else None
    case MapOf(entry) =>
      if raw.Obj? && PROTO !in raw.fields && forall k | k in raw.fields :: Decode(entry, raw.fields[k]).Some?
      then Some(Obj(map k | k in raw.fields :: Decode(entry, raw.fields[k]).value))
      else None
    case Record(shape, open, forbidden) =>
      if !raw.Obj? || PROTO in raw.fields then None
      else
        var ext := Unknown(shape, raw.fields);
        if DecodesKnown(c, raw.fields) && GoodExtensions(shape, forbidden, ext) && (open || ext == map[])
           && HasRequired(shape, raw.fields.Keys)
        then Some(Obj(WithExtensions(DecodeKnown(c, raw.fields), ext)))
        else None
  }

  // ----- Encoding ---------------------------------------------------------

  /** The typed slot holding unknown keys: empty when the slot is absent or `undefined`. */
  function ExtensionSlot(open: bool, typed: Object): Value {
    if open && EXTENSIONS in typed && typed[EXTENSIONS] != Undefined then typed[EXTENSIONS] else Obj(map[])
  }

  /** The typed keys that must name known fields: all of them, except an open record's slot. */
  function FieldKeys(open: bool, typed: Object): set<string> {
    if open then typed.Keys - {EXTENSIONS} else typed.Keys
  }

  /** The known fields of a typed object, each written by its own codec. */
  function EncodeKnown(c: Codec, typed: Object): Object
    requires c.Record? && EncodesKnown(c, typed)
    decreases c, 1
  {
    map k | k in FieldKeys(c.open, typed) && k in c.shape :: Encode(c.shape[k].codec, typed[k]).value
  }

  predicate EncodesKnown(c: Codec, typed: Object)
    requires c.Record?
    decreases c, 0
  {
    forall k | k in FieldKeys(c.open, typed) :: k in c.shape && Encode(c.shape[k].codec, typed[k]).Some?
  }

  function Encode(c: Codec, typed: Value): Option<Value>
    decreases c, 2
  {
    match c
    case Prim(kind) => if Admits(kind, typed) then Some(typed) else None
    case JsonAny => if IsJson(typed, 0) then Some(typed) else None
    case Nullable(inner) => if typed == Null then Some(Null) else Encode(inner, typed)
    case ArrayOf(item) =>
      if typed.Arr? && forall i | 0 <= i < |typed.items| :: Encode(item, typed.items[i]).Some?
      then Some(Arr(seq(|typed.items|, i requires 0 <= i < |typed.items|
                                        && Encode(item, typed.items[i]).Some? => Encode(item, typed.items[i]).value)))
      else None
    case MapOf(entry) =>
      if typed.Obj? && PROTO !in typed.fields && forall k | k in typed.fields :: Encode(entry, typed.fields[k]).Some?
      then Some(Obj(map k | k in typed.fields :: Encode(entry, typed.fields[k]).value))
      else None
    case Record(shape, open, forbidden) =>
      if !typed.Obj? || PROTO in typed.fields then None
      else
        var slot := ExtensionSlot(open, typed.fields);
        if EncodesKnown(c, typed.fields) && HasRequired(shape, FieldKeys(open, typed.fields))
           && slot.Obj? && GoodExtensions(shape, forbidden, slot.fields)
        then Some(Obj(EncodeKnown(c, typed.fields) + slot.fields))
        else None
  }

  // ----- Laws -------------------------------------------------------------

  /** No open record declares a field named like its own slot, and no shape names `__proto__`. */
  predicate WellFormed(c: Codec) {
    match c
    case Prim(_) => true
    case JsonAny => true
    case Nullable(inner) => WellFormed(inner)
    case ArrayOf(item) => WellFormed(item)
    case MapOf(entry) => WellFormed(entry)
    case Record(shape, open, _) =>
      PROTO !in shape && (open ==> EXTENSIONS !in shape)
      && forall k | k in shape :: WellFormed(shape[k].codec)
  }

  /** Whatever `Decode` reads, `Encode` writes back exactly, unknown keys and nulls included. */
  lemma {:induction false} EncodeUndoesDecode(c: Codec, raw: Value)
    requires WellFormed(c) && Decode(c, raw).Some?
    ensures Encode(c, Decode(c, raw).value) == Some(raw)
    decreases c
  {
    var v := Decode(c, raw).value;
    match c
    case Prim(_) =>
    case JsonAny =>
    case Nullable(inner) =>
      if raw != Null {
        DecodeKeepsNull(inner, raw);
        EncodeUndoesDecode(inner, raw);
      }
    case ArrayOf(item) =>
      forall i | 0 <= i < |raw.items| ensures Encode(item, v.items[i]) == Some(raw.items[i]) {
        EncodeUndoesDecode(item, raw.items[i]);
      }
      assert Encode(c, v).value.items == raw.items;
    case MapOf(entry) =>
      forall k | k in raw.fields ensures Encode(entry, v.fields[k]) == Some(raw.fields[k]) {
        EncodeUndoesDecode(entry, raw.fields[k]);
      }
      assert Encode(c, v).value.fields == raw.fields;
    case Record(shape, open, forbidden) =>
      forall k | k in raw.fields && k in shape
        ensures Encode(shape[k].codec, Decode(shape[k].codec, raw.fields[k]).value) == Some(raw.fields[k])
      {
        EncodeUndoesDecode(shape[k].codec, raw.fields[k]);
      }
      RecordEncodeUndoesDecode(c, raw.fields);
  }

  /** A decoder other than `nullable` never turns a value into `null`, nor `null` into one. */
  lemma {:induction false} DecodeKeepsNull(c: Codec, raw: Value)
    requires Decode(c, raw).Some?
    ensures Decode(c, raw).value == Null <==> raw == Null
    decreases c
  {
    if c.Nullable? && raw != Null {
      DecodeKeepsNull(c.inner, raw);
    }
  }

  lemma RecordEncodeUndoesDecode(c: Codec, raw: Object)
    requires c.Record? && WellFormed(c) && Decode(c, Obj(raw)).Some?
    requires forall k | k in raw && k in c.shape ::
               Decode(c.shape[k].codec, raw[k]).Some?
               && Encode(c.shape[k].codec, Decode(c.shape[k].codec, raw[k]).value) == Some(raw[k])
    ensures Encode(c, Decode(c, Obj(raw)).value) == Some(Obj(raw))
  {
    var ext := Unknown(c.shape, raw);
    var known := DecodeKnown(c, raw);
    SlotOfDecoded(c, raw, known, ext);
    WritesBack(c, WithExtensions(known, ext), raw, ext);
  }

  lemma WritesBack(c: Codec, typed: Object, raw: Object, ext: Object)
    requires c.Record? && PROTO !in typed
    requires ext == Unknown(c.shape, raw) && GoodExtensions(c.shape, c.forbidden, ext)
    requires HasRequired(c.shape, raw.Keys)
    requires FieldKeys(c.open, typed) == raw.Keys * c.shape.Keys && ExtensionSlot(c.open, typed) == Obj(ext)
    requires forall k | k in raw && k in c.shape ::
               k in typed && Encode(c.shape[k].codec, typed[k]) == Some(raw[k])
    ensures Encode(c, Obj(typed)) == Some(Obj(raw))
  {
    assert EncodeKnown(c, typed) + ext == raw;
  }

  lemma SlotOfDecoded(c: Codec, raw: Object, known: Object, ext: Object)
    requires c.Record? && PROTO !in raw && PROTO !in c.shape && (c.open ==> EXTENSIONS !in c.shape)
    requires known.Keys == raw.Keys * c.shape.Keys && ext == Unknown(c.shape, raw) && (c.open || ext == map[])
    ensures var typed := WithExtensions(known, ext);
            PROTO !in typed && FieldKeys(c.open, typed) == known.Keys && ExtensionSlot(c.open, typed) == Obj(ext)
            && forall k | k in known :: typed[k] == known[k]
  {
    assert EXTENSIONS != PROTO by { assert |EXTENSIONS| != |PROTO|; }
  }

  /**
    What decoding gives back for an encoded value: the value itself, with an empty or `undefined`
    `extensions` slot left out at every depth.
   */
  function Tidy(c: Codec, typed: Value): Value
    decreases c, 1
  {
    match c
    case Nullable(inner) => if typed == Null then Null else Tidy(inner, typed)
    case ArrayOf(item) =>
      if typed.Arr? then Arr(seq(|typed.items|, i requires 0 <= i < |typed.items| => Tidy(item, typed.items[i])))
      else typed
    case MapOf(entry) =>
      if typed.Obj? then Obj(map k | k in typed.fields :: Tidy(entry, typed.fields[k])) else typed
    case Record(shape, open, _) =>
      if !typed.Obj? then typed
      else
        var slot := ExtensionSlot(open, typed.fields);
        var known := TidyKnown(c, typed.fields);
        Obj(if slot.Obj? then WithExtensions(known, slot.fields) else known)
    case _ => typed
  }

  function TidyKnown(c: Codec, typed: Object): Object
    requires c.Record?
    decreases c, 0
  {
    map k | k in FieldKeys(c.open, typed) && k in c.shape :: Tidy(c.shape[k].codec, typed[k])
  }

  lemma {:induction false} EncodeKeepsNull(c: Codec, typed: Value)
    requires Encode(c, typed).Some?
    ensures Encode(c, typed).value == Null <==> typed == Null
    decreases c
  {
    if c.Nullable? && typed != Null {
      EncodeKeepsNull(c.inner, typed);
    }
  }

  /** Whatever `Encode` writes, `Decode` reads back, up to empty `extensions` slots. */
  lemma {:induction false} DecodeUndoesEncode(c: Codec, typed: Value)
    requires WellFormed(c) && Encode(c, typed).Some?
    ensures Decode(c, Encode(c, typed).value) == Some(Tidy(c, typed))
    decreases c
  {
    var j := Encode(c, typed).value;
    match c
    case Prim(_) =>
    case JsonAny =>
    case Nullable(inner) =>
      if typed != Null {
        EncodeKeepsNull(inner, typed);
        DecodeUndoesEncode(inner, typed);
      }
    case ArrayOf(item) =>
      forall i | 0 <= i < |typed.items| ensures Decode(item, j.items[i]) == Some(Tidy(item, typed.items[i])) {
        DecodeUndoesEncode(item, typed.items[i]);
      }
      assert Decode(c, j).value.items == Tidy(c, typed).items;
    case MapOf(entry) =>
      forall k | k in typed.fields ensures Decode(entry, j.fields[k]) == Some(Tidy(entry, typed.fields[k])) {
        DecodeUndoesEncode(entry, typed.fields[k]);
      }
      assert Decode(c, j).value.fields == Tidy(c, typed).fields;
    case Record(shape, open, forbidden) =>
      forall k | k in FieldKeys(open, typed.fields)
        ensures Decode(shape[k].codec, Encode(shape[k].codec, typed.fields[k]).value)
             == Some(Tidy(shape[k].codec, typed.fields[k]))
      {
        DecodeUndoesEncode(shape[k].codec, typed.fields[k]);
      }
      RecordDecodeUndoesEncode(c, typed.fields);
  }

  lemma RecordDecodeUndoesEncode(c: Codec, typed: Object)
    requires c.Record? && WellFormed(c) && Encode(c, Obj(typed)).Some?
    requires forall k | k in FieldKeys(c.open, typed) ::
               k in c.shape && Encode(c.shape[k].codec, typed[k]).Some?
               && Decode(c.shape[k].codec, Encode(c.shape[k].codec, typed[k]).value)
                  == Some(Tidy(c.shape[k].codec, typed[k]))
    ensures Decode(c, Encode(c, Obj(typed)).value) == Some(Tidy(c, Obj(typed)))
  {
    var slot := ExtensionSlot(c.open, typed);
    var known := EncodeKnown(c, typed);
    assert c.open || slot.fields == map[];
    ReadsBack(c, known, slot.fields, TidyKnown(c, typed));
  }

  lemma ReadsBack(c: Codec, known: Object, ext: Object, tidied: Object)
    requires c.Record? && PROTO !in c.shape && GoodExtensions(c.shape, c.forbidden, ext)
    requires known.Keys <= c.shape.Keys && HasRequired(c.shape, known.Keys) && (c.open || ext == map[])
    requires tidied.Keys == known.Keys
    requires forall k | k in known :: Decode(c.shape[k].codec, known[k]) == Some(tidied[k])
    ensures Decode(c, Obj(known + ext)) == Some(Obj(WithExtensions(tidied, ext)))
  {
    var j := known + ext;
    assert Unknown(c.shape, j) == ext;
    assert DecodeKnown(c, j) == tidied;
  }

  /** A decoded value has no empty slots left: decoding lands exactly on the tidy values. */
  lemma DecodedIsTidy(c: Codec, raw: Value)
    requires WellFormed(c) && Decode(c, raw).Some?
    ensures Tidy(c, Decode(c, raw).value) == Decode(c, raw).value
  {
    EncodeUndoesDecode(c, raw);
    DecodeUndoesEncode(c, Decode(c, raw).value);
  }

  /** Two raw values a codec reads alike are the same JSON: decoding loses nothing. */
  lemma DecodeIsInjective(c: Codec, a: Value, b: Value)
    requires WellFormed(c) && Decode(c, a).Some? && Decode(c, a) == Decode(c, b)
    ensures a == b
  {
    EncodeUndoesDecode(c, a);
    EncodeUndoesDecode(c, b);
  }
}
