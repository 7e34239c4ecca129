/**
  Legacy account JSON and the migration manifest
  (packages/core/src/account-migration.ts:404-638): splitting a legacy document into a manifest,
  and exporting stored accounts back to a version-4 document.
 */
module Legacy {
  import opened Text
  import opened Codecs
  import Shapes
  import Dedup

  /** The codecs a document is split with; `Suits` lists what the round trips need of them. */
  datatype AccountCodecs = AccountCodecs(metadata: Codec, quota: Codec, routing: Codec)

  /** The real codecs. */
  const ACCOUNT_CODECS := AccountCodecs(Shapes.METADATA, Shapes.QUOTA, Shapes.ROUTING)

  /** Metadata and quota are in their decoded form. */
  datatype Account = Account(ordinal: nat, refreshToken: string, metadata: Value, quota: Option<Value>)

  datatype Manifest = Manifest(sourceVersion: int, clock: real, accounts: seq<Account>, routing: Value, effective: real)

  const VERSION_1 := Num(1.0)
  const LEGACY_SOURCE := "legacySourceFields"
  const EMPTY_ROUTING := Obj(map["schemaVersion" := VERSION_1])
  const RESETS := "rateLimitResetTimes"

  function Restrict(m: Object, keys: set<string>): Object {
    map k | k in m && k in keys :: m[k]
  }

  function GetNum(fields: Object, key: string, default: real): real {
    if key in fields && fields[key].Num? then fields[key].n else default
  }

  // ----- One account ------------------------------------------------------

  /** The source row without its token, its quota fields and the version-1 limit fields. */
  function MetadataPart(source: Object, version: int): Object {
    source - {"refreshToken"} - Shapes.QUOTA_FIELDS - (if version == 1 then Shapes.V1_FIELDS else {})
  }

  function QuotaPart(source: Object): Object {
    map["schemaVersion" := VERSION_1] + Restrict(source, Shapes.QUOTA_FIELDS)
  }

  predicate HasQuota(source: Object) {
    source.Keys * Shapes.QUOTA_FIELDS != {}
  }

  /** `legacyOptional`: absent, null, or of the right type. */
  predicate OptionalField(source: Object, key: string, ok: Value -> bool) {
    key in source && source[key] != Null ==> ok(source[key])
  }

  datatype Resets = KeepResets | SetResets(resets: Object) | ConflictingResets

  /** The limit fields of versions 1 and 2, brought to the version-4 names; expired ones go. */
  function NormalizedResets(source: Object, metadata: Object, version: int, clock: real): Resets {
    var stored := if RESETS in metadata && metadata[RESETS].Obj? then metadata[RESETS].fields else map[];
    if version == 1 then
      if "isRateLimited" in source && source["isRateLimited"] == Bool(true)
         && "rateLimitResetTime" in source && source["rateLimitResetTime"].Num?
         && source["rateLimitResetTime"].n > clock
      then
        var reset := source["rateLimitResetTime"];
        if RESETS in metadata && metadata[RESETS] == Null then ConflictingResets
        else if exists k | k in {"claude", "gemini-antigravity"} :: k in stored && stored[k] != reset
        then ConflictingResets
        else SetResets(stored["claude" := reset]["gemini-antigravity" := reset])
      else KeepResets
    else if version == 2 && RESETS in metadata && metadata[RESETS].Obj? then
      var live := (k: string) => k in stored && (stored[k] == Null || (stored[k].Num? && stored[k].n > clock));
      var rest := stored - {"claude", "gemini"};
      var withClaude := if live("claude") then rest["claude" := stored["claude"]] else rest;
      if live("gemini") then
        if "gemini-antigravity" in stored && stored["gemini-antigravity"] != stored["gemini"] then ConflictingResets
        else SetResets(withClaude["gemini-antigravity" := stored["gemini"]])
      else SetResets(withClaude)
    else KeepResets
  }

  /** Splits one source row (`parseAccount`); `None` where the migration refuses it. */
  function ParseAccount(k: AccountCodecs, source: Value, ordinal: nat, version: int, clock: real): Option<Account> {
    if !source.Obj? || PROTO in source.fields then None
    else
      var row := source.fields;
      if "refreshToken" !in row || !row["refreshToken"].Str? || !NotBlank(row["refreshToken"].s) then None
      else if version == 1 && !(OptionalField(row, "isRateLimited", (v: Value) => v.Bool?)
                                && OptionalField(row, "rateLimitResetTime", (v: Value) => v.Num?)) then None
      else
        var original := Decode(k.metadata, Obj(MetadataPart(row, version)));
        var quota := if HasQuota(row) then Decode(k.quota, Obj(QuotaPart(row))) else None;
        if original.None? || (HasQuota(row) && quota.None?) then None
        else
          var encoded := Encode(k.metadata, original.value);
          if encoded.None? || !encoded.value.Obj? || !original.value.Obj? then None
          else
            var resets := NormalizedResets(row, original.value.fields, version, clock);
            if resets.ConflictingResets? then None
            else
              var limited := if resets.SetResets? then encoded.value.fields[RESETS := Obj(resets.resets)]
                             else encoded.value.fields;
              var normalized := if version < 4 then limited - {"fingerprint", "fingerprintHistory"} else limited;
              var metadata := Decode(k.metadata, Obj(normalized));
              if metadata.None? then None
              else Some(Account(ordinal, row["refreshToken"].s, metadata.value, quota))
  }

  /** Writes one account back as a version-4 row; `None` where a codec refuses it. */
  function ExportAccount(k: AccountCodecs, a: Account): Option<Object> {
    var metadata := Encode(k.metadata, a.metadata);
    var quota := if a.quota.Some? then Encode(k.quota, a.quota.value) else Some(Obj(map[]));
    if metadata.Some? && metadata.value.Obj? && quota.Some? && quota.value.Obj?
    then Some(metadata.value.fields["refreshToken" := Str(a.refreshToken)] + (quota.value.fields - {"schemaVersion"}))
    else None
  }

  // ----- The whole document -----------------------------------------------

  /** The row selection a document carries, with every other top-level field kept apart. */
  function RoutingPart(source: Object): Option<Object> {
    var unknown := source - Shapes.POOL_FIELDS;
    var known := map["schemaVersion" := VERSION_1] + Restrict(source, {"activeIndex", "activeIndexByFamily"});
    if unknown.Keys * Shapes.CREDENTIAL_KEYS != {} then None
    else Some(if unknown == map[] then known else known[LEGACY_SOURCE := Obj(unknown)])
  }

  function LegacyRouting(k: AccountCodecs, source: Object): Option<Value> {
    var raw := RoutingPart(source);
    if raw.None? then None else Decode(k.routing, Obj(raw.value))
  }

  function EntryOf(a: Account): Dedup.Entry {
    var m := if a.metadata.Obj? then a.metadata.fields else map[];
    Dedup.Entry(if "email" in m && m["email"].Str? then m["email"].s else "",
                GetNum(m, "lastUsed", 0.0), GetNum(m, "addedAt", 0.0))
  }

  function Entries(accounts: seq<Account>): seq<Dedup.Entry> {
    seq(|accounts|, i requires 0 <= i < |accounts| => EntryOf(accounts[i]))
  }

  /** The accounts whose email no newer account claims. */
  function Winners(accounts: seq<Account>): seq<Account> {
    var kept := Dedup.Survivors(Entries(accounts), |accounts|);
    seq(|kept|, i requires 0 <= i < |kept| => accounts[kept[i]])
  }

  predicate DistinctTokens(accounts: seq<Account>) {
    forall i, j | 0 <= i < j < |accounts| :: accounts[i].refreshToken != accounts[j].refreshToken
  }

  /** The stored cursor clamped into the roster; fractions are kept. */
  function EffectiveIndex(routing: Value, count: nat): real {
    var active := if routing.Obj? then GetNum(routing.fields, "activeIndex", 0.0) else 0.0;
    var last := count as real - 1.0;
    if count == 0 then 0.0 else if active > last then last else if active < 0.0 then 0.0 else active
  }

  function SourceVersion(source: Object): int {
    if "version" !in source then 0
    else if source["version"] == Num(1.0) then 1
    else if source["version"] == Num(2.0) then 2
    else if source["version"] == Num(3.0) then 3
    else if source["version"] == Num(4.0) then 4
    else 0
  }

  predicate ParsesEachRow(k: AccountCodecs, rows: seq<Value>, version: int, clock: real) {
    forall i | 0 <= i < |rows| :: ParseAccount(k, rows[i], i, version, clock).Some?
  }

  function ParseRows(k: AccountCodecs, rows: seq<Value>, version: int, clock: real): (r: seq<Account>)
    requires ParsesEachRow(k, rows, version, clock)
    ensures |r| == |rows|
    ensures forall i | 0 <= i < |rows| :: r[i] == ParseAccount(k, rows[i], i, version, clock).value
  {
    seq(|rows|, i requires 0 <= i < |rows| => ParseAccount(k, rows[i], i, version, clock).value)
  }

  /** Splits a legacy document (`parseLegacyAccountStorage`); `None` where it is refused. */
  function Parse(k: AccountCodecs, doc: Value, clock: real): Option<Manifest> {
    if !doc.Obj? || PROTO in doc.fields || SourceVersion(doc.fields) == 0
       || "accounts" !in doc.fields || !doc.fields["accounts"].Arr? then None
    else
      var version := SourceVersion(doc.fields);
      var rows := doc.fields["accounts"].items;
      if !ParsesEachRow(k, rows, version, clock) then None
      else
        var accounts := Winners(ParseRows(k, rows, version, clock));
        var routing := LegacyRouting(k, doc.fields);
        if !DistinctTokens(accounts) || routing.None? then None
        else Some(Manifest(version, clock, accounts, routing.value, EffectiveIndex(routing.value, |accounts|)))
  }

  predicate ExportsEach(k: AccountCodecs, accounts: seq<Account>) {
    forall i | 0 <= i < |accounts| :: ExportAccount(k, accounts[i]).Some?
  }

  function ExportRows(k: AccountCodecs, accounts: seq<Account>): (r: seq<Value>)
    requires ExportsEach(k, accounts)
    ensures |r| == |accounts|
    ensures forall i | 0 <= i < |accounts| :: r[i] == Obj(ExportAccount(k, accounts[i]).value)
  {
    seq(|accounts|, i requires 0 <= i < |accounts| => Obj(ExportAccount(k, accounts[i]).value))
  }

  /** Builds version-4 JSON from stored accounts (`exportLegacyAccountStorage`). */
  function Export(k: AccountCodecs, accounts: seq<Account>, routing: Value): Option<Object> {
    var encoded := Encode(k.routing, routing);
    if encoded.None? || !encoded.value.Obj? || !ExportsEach(k, accounts) then None
    else
      var settings := encoded.value.fields;
      var out := settings - {"schemaVersion", "activeRow", "activeRowByFamily", LEGACY_SOURCE};
      if LEGACY_SOURCE in settings && !settings[LEGACY_SOURCE].Obj? then None
      else
        var unknown := if LEGACY_SOURCE in settings then settings[LEGACY_SOURCE].fields else map[];
        Some((out + unknown)["version" := Num(4.0)]["accounts" := Arr(ExportRows(k, accounts))])
  }

  // ----- Laws -------------------------------------------------------------

  predicate Suits(k: AccountCodecs) {
    k.metadata.Record? && k.quota.Record? && k.routing.Record?
    && k.metadata.open && k.quota.open && k.routing.open
    && WellFormed(k.metadata) && WellFormed(k.quota) && WellFormed(k.routing)
    && (forall key | key in {"refreshToken"} + Shapes.QUOTA_FIELDS ::
          key !in k.metadata.shape && key in k.metadata.forbidden)
    && k.quota.shape.Keys == Shapes.QUOTA_FIELDS + {"schemaVersion"}
    && k.quota.shape["schemaVersion"] == Field(Prim(SchemaVersion(1)), true)
    && "refreshToken" in k.quota.forbidden
    && LEGACY_SOURCE !in k.routing.shape && Encode(k.routing, EMPTY_ROUTING).Some?
  }

  lemma Rejoin(row: Object, token: string, quota: set<string>)
    requires token in row && token !in quota
    ensures (row - {token} - quota - {})[token := row[token]] + Restrict(row, quota) == row
    ensures row.Keys * quota == {} ==> (row - {token} - quota - {})[token := row[token]] == row
  {
  }

  lemma TokenIsNoQuotaField()
    ensures "refreshToken" !in Shapes.QUOTA_FIELDS && "schemaVersion" !in Shapes.QUOTA_FIELDS
  {
  }

  lemma QuotaPartFields(row: Object)
    ensures QuotaPart(row) - {"schemaVersion"} == Restrict(row, Shapes.QUOTA_FIELDS)
  {
    TokenIsNoQuotaField();
  }

  /** Version 4 needs no normalization: the split keeps the row's metadata part as decoded. */
  lemma SplitVersion4(k: AccountCodecs, source: Value, ordinal: nat, clock: real)
    requires Suits(k) && ParseAccount(k, source, ordinal, 4, clock).Some?
    ensures source.Obj? && "refreshToken" in source.fields && source.fields["refreshToken"].Str?
    ensures var row := source.fields;
            var a := ParseAccount(k, source, ordinal, 4, clock).value;
            a.refreshToken == row["refreshToken"].s && a.ordinal == ordinal
            && Decode(k.metadata, Obj(MetadataPart(row, 4))) == Some(a.metadata)
            && a.quota == (if HasQuota(row) then Decode(k.quota, Obj(QuotaPart(row))) else None)
            && (HasQuota(row) ==> a.quota.Some?)
  {
    var rest := Obj(MetadataPart(source.fields, 4));
    EncodeUndoesDecode(k.metadata, rest);
  }

  /** A version-4 row comes back from its own split exactly. */
  lemma AccountRoundTrip(k: AccountCodecs, source: Value, ordinal: nat, clock: real)
    requires Suits(k) && ParseAccount(k, source, ordinal, 4, clock).Some?
    ensures ExportAccount(k, ParseAccount(k, source, ordinal, 4, clock).value) == Some(source.fields)
  {
    SplitVersion4(k, source, ordinal, clock);
    var row := source.fields;
    var a := ParseAccount(k, source, ordinal, 4, clock).value;
    EncodeUndoesDecode(k.metadata, Obj(MetadataPart(row, 4)));
    TokenIsNoQuotaField();
    Rejoin(row, "refreshToken", Shapes.QUOTA_FIELDS);
    if HasQuota(row) {
      EncodeUndoesDecode(k.quota, Obj(QuotaPart(row)));
      QuotaPartFields(row);
    }
  }

  /** A quota reading the exported row can carry: some known field, and no unknown top-level ones. */
  predicate PlainQuota(q: Value) {
    q.Obj? && EXTENSIONS !in q.fields && q.fields.Keys * Shapes.QUOTA_FIELDS != {}
  }

  predicate Stored(k: AccountCodecs, a: Account) {
    ExportAccount(k, a).Some? && NotBlank(a.refreshToken) && Tidy(k.metadata, a.metadata) == a.metadata
    && (a.quota.Some? ==> Tidy(k.quota, a.quota.value) == a.quota.value)
  }

  lemma EncodedKeys(c: Codec, v: Value)
    requires c.Record? && Encode(c, v).Some?
    ensures v.Obj? && Encode(c, v).value.Obj? && PROTO !in v.fields
    ensures EXTENSIONS !in v.fields ==> Encode(c, v).value.fields.Keys == v.fields.Keys && v.fields.Keys <= c.shape.Keys
    ensures forall key | key in c.forbidden && key !in c.shape :: key !in Encode(c, v).value.fields
    ensures PROTO !in c.shape ==> PROTO !in Encode(c, v).value.fields
  {
  }

  /** The parts of an exported row whose quota is plain are the encodings it was built from. */
  lemma ExportedParts(k: AccountCodecs, a: Account)
    requires Suits(k) && Stored(k, a) && (a.quota.Some? ==> PlainQuota(a.quota.value))
    ensures var row := ExportAccount(k, a).value;
            PROTO !in row && "refreshToken" in row && row["refreshToken"] == Str(a.refreshToken)
            && Encode(k.metadata, a.metadata) == Some(Obj(MetadataPart(row, 4)))
            && (HasQuota(row) <==> a.quota.Some?)
            && (a.quota.Some? ==> Encode(k.quota, a.quota.value) == Some(Obj(QuotaPart(row))))
  {
    TokenIsNoQuotaField();
    EncodedKeys(k.metadata, a.metadata);
    var metadata := Encode(k.metadata, a.metadata).value.fields;
    var quota: Object := map[];
    if a.quota.Some? {
      ExportedQuota(k, a.quota.value);
      quota := Encode(k.quota, a.quota.value).value.fields - {"schemaVersion"};
    }
    JoinedParts(ExportAccount(k, a).value, metadata, Str(a.refreshToken), quota);
  }

  lemma ExportedQuota(k: AccountCodecs, q: Value)
    requires Suits(k) && Encode(k.quota, q).Some? && PlainQuota(q)
    ensures Encode(k.quota, q).value.Obj?
    ensures var quota := Encode(k.quota, q).value.fields;
            var kept := quota - {"schemaVersion"};
            kept.Keys <= Shapes.QUOTA_FIELDS && kept != map[] && quota == map["schemaVersion" := VERSION_1] + kept
  {
    EncodedKeys(k.quota, q);
    QuotaSchema(k, q);
    TokenIsNoQuotaField();
    var key :| key in q.fields && key in Shapes.QUOTA_FIELDS;
    assert key in Encode(k.quota, q).value.fields - {"schemaVersion"};
  }

  lemma JoinedParts(row: Object, metadata: Object, token: Value, quota: Object)
    requires row == metadata["refreshToken" := token] + quota
    requires "refreshToken" !in metadata && metadata.Keys * Shapes.QUOTA_FIELDS == {}
    requires quota.Keys <= Shapes.QUOTA_FIELDS
    requires PROTO !in metadata
    ensures MetadataPart(row, 4) == metadata && QuotaPart(row) == map["schemaVersion" := VERSION_1] + quota
    ensures "refreshToken" in row && row["refreshToken"] == token && PROTO !in row
    ensures HasQuota(row) <==> quota != map[]
  {
    TokenIsNoQuotaField();
    PartsOf(row, metadata, token, quota, Shapes.QUOTA_FIELDS, "refreshToken");
    NoPrototypeKey(metadata, row);
    if quota != map[] {
      var key :| key in quota;
      assert key in row.Keys * Shapes.QUOTA_FIELDS;
    }
  }

  lemma PartsOf(row: Object, metadata: Object, token: Value, quota: Object, keys: set<string>, name: string)
    requires row == metadata[name := token] + quota
    requires name !in metadata && metadata.Keys * keys == {} && quota.Keys <= keys && name !in keys
    ensures row - {name} - keys - {} == metadata && Restrict(row, keys) == quota
    ensures name in row && row[name] == token
  {
  }

  lemma NoPrototypeKey(metadata: Object, row: Object)
    requires PROTO !in metadata
    requires forall key | key in row :: key in metadata || key == "refreshToken" || key in Shapes.QUOTA_FIELDS
    ensures PROTO !in row
  {
  }

  lemma SchemaVersionOnly(c: Codec, v: Value)
    requires c == Prim(SchemaVersion(1)) && Encode(c, v).Some?
    ensures Encode(c, v).value == VERSION_1
  {
  }

  lemma QuotaSchema(k: AccountCodecs, q: Value)
    requires Suits(k) && Encode(k.quota, q).Some?
    ensures Encode(k.quota, q).value.Obj? && "schemaVersion" in Encode(k.quota, q).value.fields
    ensures Encode(k.quota, q).value.fields["schemaVersion"] == VERSION_1
  {
    assert "schemaVersion" != EXTENSIONS by { assert |"schemaVersion"| != |EXTENSIONS|; }
    var known := EncodeKnown(k.quota, q.fields);
    assert k.quota.shape["schemaVersion"].required;
    assert "schemaVersion" in q.fields;
    var c := k.quota.shape["schemaVersion"].codec;
    assert known["schemaVersion"] == Encode(c, q.fields["schemaVersion"]).value;
    SchemaVersionOnly(c, q.fields["schemaVersion"]);
  }

  /** What a row's quota part decodes to is plain. */
  lemma DecodedQuotaIsPlain(k: AccountCodecs, row: Object)
    requires Suits(k) && HasQuota(row) && Decode(k.quota, Obj(QuotaPart(row))).Some?
    ensures PlainQuota(Decode(k.quota, Obj(QuotaPart(row))).value)
  {
    var part := QuotaPart(row);
    assert part.Keys <= k.quota.shape.Keys;
    assert Unknown(k.quota.shape, part) == map[];
    assert Decode(k.quota, Obj(part)).value.fields.Keys == part.Keys;
    var key :| key in row && key in Shapes.QUOTA_FIELDS;
    assert key in part;
  }

  /**
    Exporting a stored account and splitting the row again restores it exactly when its quota, if
    any, has a known field and no unknown top-level ones.
   */
  lemma AccountRestoredIff(k: AccountCodecs, a: Account, clock: real)
    requires Suits(k) && Stored(k, a)
    ensures ParseAccount(k, Obj(ExportAccount(k, a).value), a.ordinal, 4, clock) == Some(a)
       <==> (a.quota.Some? ==> PlainQuota(a.quota.value))
  {
    var row := ExportAccount(k, a).value;
    if a.quota.Some? ==> PlainQuota(a.quota.value) {
      ExportedParts(k, a);
      DecodeUndoesEncode(k.metadata, a.metadata);
      if a.quota.Some? {
        DecodeUndoesEncode(k.quota, a.quota.value);
      }
      EncodedKeys(k.metadata, a.metadata);
      SplitPlainRow(k, row, a, clock);
    } else if ParseAccount(k, Obj(row), a.ordinal, 4, clock) == Some(a) {
      SplitVersion4(k, Obj(row), a.ordinal, clock);
      DecodedQuotaIsPlain(k, row);
    }
  }

  lemma SplitPlainRow(k: AccountCodecs, row: Object, a: Account, clock: real)
    requires Suits(k) && NotBlank(a.refreshToken) && a.metadata.Obj?
    requires PROTO !in row && "refreshToken" in row && row["refreshToken"] == Str(a.refreshToken)
    requires Decode(k.metadata, Obj(MetadataPart(row, 4))) == Some(a.metadata)
    requires Encode(k.metadata, a.metadata) == Some(Obj(MetadataPart(row, 4)))
    requires HasQuota(row) <==> a.quota.Some?
    requires a.quota.Some? ==> Decode(k.quota, Obj(QuotaPart(row))) == a.quota
    ensures ParseAccount(k, Obj(row), a.ordinal, 4, clock) == Some(a)
  {
  }

  /** The rows of a document whose email no newer row claims. */
  function SurvivingRows(k: AccountCodecs, rows: seq<Value>, version: int, clock: real): seq<Value>
    requires ParsesEachRow(k, rows, version, clock)
  {
    var kept := Dedup.Survivors(Entries(ParseRows(k, rows, version, clock)), |rows|);
    seq(|kept|, i requires 0 <= i < |kept| => rows[kept[i]])
  }

  lemma RoutingRoundTrip(k: AccountCodecs, source: Object)
    requires Suits(k) && LegacyRouting(k, source).Some?
    ensures Encode(k.routing, LegacyRouting(k, source).value) == Some(Obj(RoutingPart(source).value))
  {
    EncodeUndoesDecode(k.routing, Obj(RoutingPart(source).value));
  }

  /** Putting the routing part and the accounts back together gives the source object. */
  lemma RejoinDocument(source: Object, rows: Value)
    requires "version" in source && source["version"] == Num(4.0) && RoutingPart(source).Some?
    ensures var settings := RoutingPart(source).value;
            var out := settings - {"schemaVersion", "activeRow", "activeRowByFamily", LEGACY_SOURCE};
            var unknown := if LEGACY_SOURCE in settings && settings[LEGACY_SOURCE].Obj?
                           then settings[LEGACY_SOURCE].fields else map[];
            (LEGACY_SOURCE in settings ==> settings[LEGACY_SOURCE].Obj?)
            && (out + unknown)["version" := Num(4.0)]["accounts" := rows] == source["accounts" := rows]
  {
    var settings := RoutingPart(source).value;
    var unknown := source - Shapes.POOL_FIELDS;
    assert LEGACY_SOURCE !in {"schemaVersion", "activeIndex", "activeIndexByFamily"};
    assert LEGACY_SOURCE in settings <==> unknown != map[];
    var out := settings - {"schemaVersion", "activeRow", "activeRowByFamily", LEGACY_SOURCE};
    assert out == Restrict(source, {"activeIndex", "activeIndexByFamily"});
    assert (out + unknown)["version" := Num(4.0)]["accounts" := rows] == source["accounts" := rows];
  }

  lemma RowsRoundTrip(k: AccountCodecs, rows: seq<Value>, clock: real)
    requires Suits(k) && ParsesEachRow(k, rows, 4, clock)
    ensures var accounts := Winners(ParseRows(k, rows, 4, clock));
            ExportsEach(k, accounts) && ExportRows(k, accounts) == SurvivingRows(k, rows, 4, clock)
  {
    var accounts := Winners(ParseRows(k, rows, 4, clock));
    var kept := Dedup.Survivors(Entries(ParseRows(k, rows, 4, clock)), |rows|);
    forall i | 0 <= i < |kept|
      ensures rows[kept[i]].Obj? && ExportAccount(k, accounts[i]) == Some(rows[kept[i]].fields)
    {
      AccountRoundTrip(k, rows[kept[i]], kept[i], clock);
    }
    assert ExportRows(k, accounts) == SurvivingRows(k, rows, 4, clock);
  }

  /**
    Every accepted version-4 document, at any clock: exporting its manifest gives the document
    back with only the email duplicates' rows gone.
   */
  lemma DocumentRoundTrip(k: AccountCodecs, doc: Value, clock: real)
    requires Suits(k) && Parse(k, doc, clock).Some? && SourceVersion(doc.fields) == 4
    ensures var m := Parse(k, doc, clock).value;
            var rows := doc.fields["accounts"].items;
            Export(k, m.accounts, m.routing)
            == Some(doc.fields["accounts" := Arr(SurvivingRows(k, rows, 4, clock))])
  {
    hide Suits, Winners, ParseRows, SurvivingRows, ExportRows, EffectiveIndex, ParsesEachRow;
    var rows := doc.fields["accounts"].items;
    RowsRoundTrip(k, rows, clock);
    RoutingRoundTrip(k, doc.fields);
    RejoinDocument(doc.fields, Arr(SurvivingRows(k, rows, 4, clock)));
  }

  lemma {:induction false} AllSurviveInOrder(es: seq<Dedup.Entry>, n: nat)
    requires n <= |es| && forall i | 0 <= i < n :: Dedup.Survives(es, i)
    ensures Dedup.Survivors(es, n) == seq(n, i => i)
  {
    if n > 0 {
      AllSurviveInOrder(es, n - 1);
    }
  }

  lemma AllRowsSurvive(k: AccountCodecs, rows: seq<Value>, clock: real)
    requires ParsesEachRow(k, rows, 4, clock) && |Winners(ParseRows(k, rows, 4, clock))| == |rows|
    ensures SurvivingRows(k, rows, 4, clock) == rows
  {
    var es := Entries(ParseRows(k, rows, 4, clock));
    Dedup.KeptAllIff(es, |es|);
    AllSurviveInOrder(es, |es|);
  }

  lemma SameAccounts(source: Object, rows: seq<Value>)
    requires "accounts" in source && source["accounts"] == Arr(rows)
    ensures source["accounts" := Arr(rows)] == source
  {
  }

  /** With no email claimed twice the document itself comes back. */
  lemma DistinctDocumentRoundTrip(k: AccountCodecs, doc: Value, clock: real)
    requires Suits(k) && Parse(k, doc, clock).Some? && SourceVersion(doc.fields) == 4
    requires |Parse(k, doc, clock).value.accounts| == |doc.fields["accounts"].items|
    ensures var m := Parse(k, doc, clock).value;
            Export(k, m.accounts, m.routing) == Some(doc.fields)
  {
    var rows := doc.fields["accounts"].items;
    DocumentRoundTrip(k, doc, clock);
    AllRowsSurvive(k, rows, clock);
    SameAccounts(doc.fields, rows);
  }

  /** Accounts as an accepted manifest lists them: in place, one per email, one per token. */
  predicate Roster(k: AccountCodecs, accounts: seq<Account>) {
    (forall i | 0 <= i < |accounts| ::
      accounts[i].ordinal == i && Stored(k, accounts[i])
      && (accounts[i].quota.Some? ==> PlainQuota(accounts[i].quota.value)))
    && DistinctTokens(accounts) && |Winners(accounts)| == |accounts|
  }

  /** Routing settings holding only what a legacy document can say. */
  predicate LegacyOnly(k: AccountCodecs, routing: Value) {
    var encoded := Encode(k.routing, routing);
    encoded.Some? && encoded.value.Obj? && Tidy(k.routing, routing) == routing
    && var settings := encoded.value.fields;
       "schemaVersion" in settings && settings["schemaVersion"] == VERSION_1
       && settings.Keys <= {"schemaVersion", "activeIndex", "activeIndexByFamily", LEGACY_SOURCE}
       && (LEGACY_SOURCE in settings ==>
             settings[LEGACY_SOURCE].Obj? && settings[LEGACY_SOURCE].fields != map[]
             && PROTO !in settings[LEGACY_SOURCE].fields
             && settings[LEGACY_SOURCE].fields.Keys !! Shapes.POOL_FIELDS + Shapes.CREDENTIAL_KEYS)
  }

  lemma WinnersOfRoster(accounts: seq<Account>)
    requires |Winners(accounts)| == |accounts|
    ensures Winners(accounts) == accounts
  {
    var es := Entries(accounts);
    Dedup.KeptAllIff(es, |es|);
    AllSurviveInOrder(es, |es|);
  }

  lemma RosterRoundTrip(k: AccountCodecs, accounts: seq<Account>, clock: real)
    requires Suits(k) && Roster(k, accounts)
    ensures ExportsEach(k, accounts) && ParsesEachRow(k, ExportRows(k, accounts), 4, clock)
    ensures ParseRows(k, ExportRows(k, accounts), 4, clock) == accounts
  {
    forall i | 0 <= i < |accounts|
      ensures ParseAccount(k, Obj(ExportAccount(k, accounts[i]).value), i, 4, clock) == Some(accounts[i])
    {
      AccountRestoredIff(k, accounts[i], clock);
    }
  }

  /** A legacy document's routing part is the settings it was exported from. */
  lemma RoutingPartOfExport(settings: Object, rows: Value)
    requires "schemaVersion" in settings && settings["schemaVersion"] == VERSION_1
    requires settings.Keys <= {"schemaVersion", "activeIndex", "activeIndexByFamily", LEGACY_SOURCE}
    requires LEGACY_SOURCE in settings ==>
               settings[LEGACY_SOURCE].Obj? && settings[LEGACY_SOURCE].fields != map[]
               && settings[LEGACY_SOURCE].fields.Keys !! Shapes.POOL_FIELDS + Shapes.CREDENTIAL_KEYS
    ensures var unknown := if LEGACY_SOURCE in settings then settings[LEGACY_SOURCE].fields else map[];
            var out := settings - {"schemaVersion", "activeRow", "activeRowByFamily", LEGACY_SOURCE};
            RoutingPart((out + unknown)["version" := Num(4.0)]["accounts" := rows]) == Some(settings)
  {
    var unknown := if LEGACY_SOURCE in settings then settings[LEGACY_SOURCE].fields else map[];
    var out := settings - {"schemaVersion", "activeRow", "activeRowByFamily", LEGACY_SOURCE};
    var doc := (out + unknown)["version" := Num(4.0)]["accounts" := rows];
    assert out.Keys <= {"activeIndex", "activeIndexByFamily"};
    assert doc - Shapes.POOL_FIELDS == unknown;
    assert Restrict(doc, {"activeIndex", "activeIndexByFamily"}) == out;
    assert RoutingPart(doc).Some?;
    assert RoutingPart(doc).value == settings;
  }

  /** Exporting a roster and splitting the document again restores the manifest. */
  lemma ManifestRoundTrip(k: AccountCodecs, accounts: seq<Account>, routing: Value, clock: real)
    requires Suits(k) && Roster(k, accounts) && LegacyOnly(k, routing)
    ensures Export(k, accounts, routing).Some?
    ensures Parse(k, Obj(Export(k, accounts, routing).value), clock)
         == Some(Manifest(4, clock, accounts, routing, EffectiveIndex(routing, |accounts|)))
  {
    RosterRoundTrip(k, accounts, clock);
    WinnersOfRoster(accounts);
    var settings := Encode(k.routing, routing).value.fields;
    var doc := Export(k, accounts, routing).value;
    RoutingRestored(k, routing, doc, Arr(ExportRows(k, accounts)));
    ExportedDocument(settings, doc, Arr(ExportRows(k, accounts)));
    ParsedRoster(k, doc, ExportRows(k, accounts), accounts, routing, clock);
  }

  lemma RoutingRestored(k: AccountCodecs, routing: Value, doc: Object, rows: Value)
    requires Suits(k) && LegacyOnly(k, routing)
    requires var settings := Encode(k.routing, routing).value.fields;
             var unknown := if LEGACY_SOURCE in settings then settings[LEGACY_SOURCE].fields else map[];
             var out := settings - {"schemaVersion", "activeRow", "activeRowByFamily", LEGACY_SOURCE};
             doc == (out + unknown)["version" := Num(4.0)]["accounts" := rows]
    ensures LegacyRouting(k, doc) == Some(routing)
  {
    RoutingPartOfExport(Encode(k.routing, routing).value.fields, rows);
    DecodeUndoesEncode(k.routing, routing);
  }

  lemma ParsedRoster(k: AccountCodecs, doc: Object, rows: seq<Value>, accounts: seq<Account>, routing: Value,
                     clock: real)
    requires PROTO !in doc && SourceVersion(doc) == 4 && "accounts" in doc && doc["accounts"] == Arr(rows)
    requires ParsesEachRow(k, rows, 4, clock) && ParseRows(k, rows, 4, clock) == accounts
    requires Winners(accounts) == accounts && DistinctTokens(accounts) && LegacyRouting(k, doc) == Some(routing)
    ensures Parse(k, Obj(doc), clock)
         == Some(Manifest(4, clock, accounts, routing, EffectiveIndex(routing, |accounts|)))
  {
  }

  lemma ExportedDocument(settings: Object, doc: Object, rows: Value)
    requires settings.Keys <= {"schemaVersion", "activeIndex", "activeIndexByFamily", LEGACY_SOURCE}
    requires LEGACY_SOURCE in settings ==> settings[LEGACY_SOURCE].Obj? && PROTO !in settings[LEGACY_SOURCE].fields
    requires var unknown := if LEGACY_SOURCE in settings then settings[LEGACY_SOURCE].fields else map[];
             var out := settings - {"schemaVersion", "activeRow", "activeRowByFamily", LEGACY_SOURCE};
             doc == (out + unknown)["version" := Num(4.0)]["accounts" := rows]
    ensures PROTO !in doc && SourceVersion(doc) == 4 && "accounts" in doc && doc["accounts"] == rows
  {
  }

  lemma EmptyRoutingEncodes()
    ensures Encode(Shapes.ROUTING, EMPTY_ROUTING).Some?
  {
    var typed := EMPTY_ROUTING.fields;
    assert FieldKeys(true, typed) == {"schemaVersion"} by { assert |"schemaVersion"| != |EXTENSIONS|; }
    assert Encode(Shapes.ROUTING.shape["schemaVersion"].codec, VERSION_1).Some?;
    assert EncodesKnown(Shapes.ROUTING, typed);
    assert HasRequired(Shapes.ROUTING.shape, {"schemaVersion"});
  }

  /** The real codecs are the kind the laws speak about. */
  lemma AccountCodecsSuit()
    ensures Suits(ACCOUNT_CODECS)
  {
    Shapes.MetadataIsWellFormed();
    Shapes.QuotaIsWellFormed();
    Shapes.RoutingIsWellFormed();
    Shapes.MetadataRefusesOtherOwners();
    Shapes.QuotaDeclaresItsFields();
    Shapes.RoutingLeavesSourceFields();
    EmptyRoutingEncodes();
  }
}
