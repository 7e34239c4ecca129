/**
  The concrete account codecs (packages/core/src/account-repository-codecs.ts:455-668): the stored
  shapes of provider metadata, quota readings, routing settings and row refs.
 */
module Shapes {
  import opened Text
  import opened Codecs

  const ANY_STRING := Prim(AnyString)
  const FINITE := Prim(FiniteNumber)

  function Required(c: Codec): Field { Field(c, true) }
  function Maybe(c: Codec): Field { Field(Nullable(c), false) }
  function OpenRecord(shape: map<string, Field>): Codec { Record(shape, true, {}) }

  const CLIENT_METADATA := OpenRecord(map[
    "ideType" := Required(ANY_STRING),
    "platform" := Required(ANY_STRING),
    "pluginType" := Required(ANY_STRING)])

  const FINGERPRINT := OpenRecord(map[
    "deviceId" := Required(ANY_STRING),
    "sessionToken" := Required(ANY_STRING),
    "userAgent" := Required(ANY_STRING),
    "apiClient" := Required(ANY_STRING),
    "clientMetadata" := Required(CLIENT_METADATA),
    "createdAt" := Required(FINITE)])

  const FINGERPRINT_VERSION := OpenRecord(map[
    "fingerprint" := Required(FINGERPRINT),
    "timestamp" := Required(FINITE),
    "reason" := Required(Prim(EnumOf({"initial", "regenerated", "restored"})))])

  const DAILY_REQUEST_COUNTS := OpenRecord(map[
    "date" := Required(ANY_STRING),
    "claude" := Required(Prim(Count)),
    "gemini" := Required(Prim(Count))])

  const METADATA_SHAPE: map<string, Field> := map[
    "email" := Maybe(ANY_STRING),
    "projectId" := Maybe(ANY_STRING),
    "managedProjectId" := Maybe(ANY_STRING),
    "addedAt" := Required(FINITE),
    "lastUsed" := Required(FINITE),
    "enabled" := Maybe(Prim(Boolean)),
    "lastSwitchReason" := Maybe(Prim(EnumOf({"rate-limit", "initial", "rotation"}))),
    "rateLimitResetTimes" := Maybe(MapOf(Nullable(FINITE))),
    "coolingDownUntil" := Maybe(FINITE),
    "cooldownReason" := Maybe(Prim(EnumOf({"auth-failure", "network-error", "project-error", "validation-required"}))),
    "label" := Maybe(ANY_STRING),
    "fingerprint" := Maybe(FINGERPRINT),
    "fingerprintHistory" := Maybe(ArrayOf(FINGERPRINT_VERSION)),
    "verificationRequired" := Maybe(Prim(Boolean)),
    "verificationRequiredAt" := Maybe(FINITE),
    "verificationRequiredReason" := Maybe(ANY_STRING),
    "verificationUrl" := Maybe(ANY_STRING),
    "accountIneligible" := Maybe(Prim(Boolean)),
    "accountIneligibleAt" := Maybe(FINITE),
    "accountIneligibleReason" := Maybe(ANY_STRING),
    "eligibilityStateUpdatedAt" := Maybe(FINITE),
    "capturedTierId" := Maybe(ANY_STRING),
    "capturedPaidTierId" := Maybe(ANY_STRING),
    "capturedTierAt" := Maybe(FINITE),
    "capturedTierSchemaVersion" := Maybe(FINITE),
    "dailyRequestCounts" := Maybe(DAILY_REQUEST_COUNTS)]

  const QUOTA_WINDOW := OpenRecord(map[
    "window" := Required(Prim(EnumOf({"weekly", "5h"}))),
    "remainingFraction" := Required(FINITE),
    "resetTime" := Required(ANY_STRING)])

  const QUOTA_GROUP := OpenRecord(map[
    "remainingFraction" := Maybe(FINITE),
    "resetTime" := Maybe(ANY_STRING),
    "modelCount" := Required(FINITE),
    "windows" := Maybe(ArrayOf(QUOTA_WINDOW))])

  const MODEL_QUOTA := OpenRecord(map[
    "modelId" := Required(ANY_STRING),
    "displayName" := Maybe(ANY_STRING),
    "group" := Required(Nullable(ANY_STRING)),
    "remainingFraction" := Required(FINITE),
    "resetTime" := Maybe(ANY_STRING)])

  const QUOTA_SHAPE: map<string, Field> := map[
    "schemaVersion" := Required(Prim(SchemaVersion(1))),
    "cachedQuotaAccountId" := Maybe(ANY_STRING),
    "cachedQuota" := Maybe(MapOf(QUOTA_GROUP)),
    "cachedPerModelQuota" := Maybe(ArrayOf(MODEL_QUOTA)),
    "cachedQuotaUpdatedAt" := Maybe(FINITE)]

  const CREDENTIAL_KEYS: set<string> := {"refreshToken", "accessToken", "access", "refresh", "expires", "apiKey"}
  const QUOTA_FIELDS: set<string> := {"cachedQuotaAccountId", "cachedQuota", "cachedPerModelQuota",
                                      "cachedQuotaUpdatedAt"}
  const POOL_FIELDS: set<string> := {"version", "accounts", "activeIndex", "activeIndexByFamily"}
  const V1_FIELDS: set<string> := {"isRateLimited", "rateLimitResetTime"}

  const METADATA := Record(METADATA_SHAPE, true, CREDENTIAL_KEYS + POOL_FIELDS + V1_FIELDS + QUOTA_FIELDS)
  const QUOTA := Record(QUOTA_SHAPE, true, CREDENTIAL_KEYS + METADATA_SHAPE.Keys)

  const ROW_REF := Record(map[
    "id" := Required(Prim(RowId)),
    "credentialEpoch" := Required(Prim(CredentialEpoch)),
    "identity" := Field(Prim(NonEmptyString), false)],
    false, {})

  const ROUTING := Record(map[
    "schemaVersion" := Required(Prim(SchemaVersion(1))),
    "activeIndex" := Maybe(FINITE),
    "activeIndexByFamily" := Maybe(OpenRecord(map["claude" := Maybe(FINITE), "gemini" := Maybe(FINITE)])),
    "activeRow" := Maybe(ROW_REF),
    "activeRowByFamily" := Maybe(OpenRecord(map["claude" := Maybe(ROW_REF), "gemini" := Maybe(ROW_REF)]))],
    true, CREDENTIAL_KEYS)

  lemma FingerprintIsWellFormed()
    ensures WellFormed(FINGERPRINT) && WellFormed(FINGERPRINT_VERSION)
  {
    assert WellFormed(CLIENT_METADATA);
    assert WellFormed(FINGERPRINT);
  }

  lemma MetadataKeysAreOrdinary()
    ensures PROTO !in METADATA_SHAPE && EXTENSIONS !in METADATA_SHAPE
  {
  }

  /** The codecs metadata fields use. */
  const METADATA_CODECS: set<Codec> := {
    FINITE, Nullable(FINITE), Nullable(ANY_STRING), Nullable(Prim(Boolean)),
    Nullable(Prim(EnumOf({"rate-limit", "initial", "rotation"}))),
    Nullable(Prim(EnumOf({"auth-failure", "network-error", "project-error", "validation-required"}))),
    Nullable(MapOf(Nullable(FINITE))), Nullable(FINGERPRINT), Nullable(ArrayOf(FINGERPRINT_VERSION)),
    Nullable(DAILY_REQUEST_COUNTS)}

  lemma MetadataUsesTheseCodecs()
    ensures forall k | k in METADATA_SHAPE :: METADATA_SHAPE[k].codec in METADATA_CODECS
  {
  }

  lemma MetadataCodecsAreWellFormed()
    ensures forall c | c in METADATA_CODECS :: WellFormed(c)
  {
    FingerprintIsWellFormed();
    assert WellFormed(ArrayOf(FINGERPRINT_VERSION)) && WellFormed(DAILY_REQUEST_COUNTS);
    assert WellFormed(MapOf(Nullable(FINITE)));
  }

  lemma RecordIsWellFormed(c: Codec)
    requires c.Record? && PROTO !in c.shape && EXTENSIONS !in c.shape
    requires forall k | k in c.shape :: WellFormed(c.shape[k].codec)
    ensures WellFormed(c)
  {
  }

  lemma MetadataIsWellFormed()
    ensures WellFormed(METADATA)
  {
    MetadataKeysAreOrdinary();
    MetadataUsesTheseCodecs();
    MetadataCodecsAreWellFormed();
    RecordIsWellFormed(METADATA);
  }

  lemma QuotaPartsAreWellFormed()
    ensures WellFormed(QUOTA_GROUP) && WellFormed(MODEL_QUOTA)
  {
    assert WellFormed(QUOTA_WINDOW);
    assert WellFormed(Nullable(ArrayOf(QUOTA_WINDOW)));
  }

  lemma QuotaIsWellFormed()
    ensures WellFormed(QUOTA)
  {
    QuotaPartsAreWellFormed();
    assert WellFormed(MapOf(QUOTA_GROUP)) && WellFormed(ArrayOf(MODEL_QUOTA));
    forall k | k in QUOTA_SHAPE ensures WellFormed(QUOTA_SHAPE[k].codec) {
    }
    RecordIsWellFormed(QUOTA);
  }

  lemma RoutingIsWellFormed()
    ensures WellFormed(ROUTING)
  {
    assert WellFormed(Nullable(ROW_REF));
    var cursors := OpenRecord(map["claude" := Maybe(FINITE), "gemini" := Maybe(FINITE)]);
    var refs := OpenRecord(map["claude" := Maybe(ROW_REF), "gemini" := Maybe(ROW_REF)]);
    assert WellFormed(Nullable(cursors)) && WellFormed(Nullable(refs));
  }

  lemma TokenIsNoMetadata()
    ensures "refreshToken" !in METADATA_SHAPE
  {
  }

  lemma QuotaReadingsAreNoMetadata()
    ensures "cachedQuota" !in METADATA_SHAPE && "cachedPerModelQuota" !in METADATA_SHAPE
  {
  }

  lemma QuotaOriginIsNoMetadata()
    ensures "cachedQuotaAccountId" !in METADATA_SHAPE && "cachedQuotaUpdatedAt" !in METADATA_SHAPE
  {
  }

  lemma MetadataRefusesOtherOwners()
    ensures forall key | key in {"refreshToken"} + QUOTA_FIELDS :: key !in METADATA.shape && key in METADATA.forbidden
  {
    TokenIsNoMetadata();
    QuotaReadingsAreNoMetadata();
    QuotaOriginIsNoMetadata();
  }

  lemma QuotaDeclaresItsFields()
    ensures QUOTA.shape.Keys == QUOTA_FIELDS + {"schemaVersion"}
    ensures QUOTA.shape["schemaVersion"] == Field(Prim(SchemaVersion(1)), true)
  {
  }

  lemma RoutingLeavesSourceFields()
    ensures "legacySourceFields" !in ROUTING.shape
  {
  }
}
