/**
  What the selector reads of a row, and when a row may be selected
  (packages/core/src/account-selector.ts:197-337, 699-712, 1441-1453, 1709-1746).

  A request's quota group comes from the model registry, which is not part of this model: `groupOf`
  gives it, according to whether the row reports an Argon reading.
 */
module Rows {
  import opened Text
  import opened Cursors

  datatype QuotaKey = FamilyKey(family: Family) | ModelKey(family: Family, model: string) | OtherKey(name: string)

  /** A cached quota group; `reset` is its parsed reset time, where it has a valid one. */
  datatype Reading = Reading(remaining: Option<real>, reset: Option<real>)

  datatype Data = Data(
    enabled: bool,
    ineligible: bool,
    verification: bool,
    resets: map<QuotaKey, real>,
    coolingUntil: Option<real>,
    quota: Option<map<string, Reading>>,
    quotaAt: Option<real>,
    lastUsed: real,
    touched: map<QuotaKey, real>)

  const ARGON := "gemini-argon"

  datatype Request = Request(family: Family, model: Option<string>, threshold: real, ttl: real,
                             groupOf: bool -> string, argon: bool)
  {
    function Key(): QuotaKey {
      if model.Some? && model.value != "" then ModelKey(family, model.value) else FamilyKey(family)
    }
  }

  predicate Eligible(d: Data) {
    d.enabled && !d.ineligible && !d.verification
  }

  predicate LimitedFor(d: Data, key: QuotaKey, now: real) {
    key in d.resets && now < d.resets[key]
  }

  /** `isRateLimitedForFamily`: by the model's own limit or the family's. */
  predicate Limited(d: Data, q: Request, now: real) {
    (q.model.Some? && LimitedFor(d, q.Key(), now)) || LimitedFor(d, FamilyKey(q.family), now)
  }

  predicate Cooling(d: Data, now: real) {
    d.coolingUntil.Some? && now < d.coolingUntil.value
  }

  predicate ReportsArgon(d: Data) {
    d.quotaAt.Some? && d.quota.Some? && ARGON in d.quota.value
  }

  /** The reading of the group a request draws on. */
  function ReadingFor(d: Data, q: Request): Option<Reading> {
    if d.quota.None? then None
    else
      var group := q.groupOf(ARGON in d.quota.value);
      if group in d.quota.value then Some(d.quota.value[group]) else None
  }

  function UsedPercent(remaining: real): real {
    (1.0 - (if remaining > 1.0 then 1.0 else if remaining < 0.0 then 0.0 else remaining)) * 100.0
  }

  /** `isOverSoftQuotaThreshold`: a fresh enough reading shows at least the threshold used. */
  predicate OverSoftQuota(d: Data, q: Request, threshold: real, now: real) {
    threshold < 100.0 && d.quota.Some? && d.quotaAt.Some? && now - d.quotaAt.value <= q.ttl
    && ReadingFor(d, q).Some? && ReadingFor(d, q).value.remaining.Some?
    && UsedPercent(ReadingFor(d, q).value.remaining.value) >= threshold
  }

  /** The row may be selected for the request: eligible, not limited, not cooling down, not over soft quota. */
  predicate Open(d: Data, q: Request, threshold: real, now: real) {
    Eligible(d) && !Limited(d, q, now) && !Cooling(d, now) && !OverSoftQuota(d, q, threshold, now)
  }

  /** Time alone never closes a row. */
  lemma OpenStays(d: Data, q: Request, threshold: real, t: real, later: real)
    requires t <= later && Open(d, q, threshold, t)
    ensures Open(d, q, threshold, later)
  {
  }

  // ----- Expiry -------------------------------------------------------------

  /** `clearExpiredRateLimits`: the limits of known families that have passed. */
  function ClearExpired(d: Data, now: real): Data {
    d.(resets := map k | k in d.resets && (k.OtherKey? || now < d.resets[k]) :: d.resets[k])
  }

  /** `b` is `a` with nothing lost but limits and a cooldown that had passed at `t`. */
  predicate Fades(a: Data, b: Data, t: real) {
    b.enabled == a.enabled && b.ineligible == a.ineligible && b.verification == a.verification
    && b.quota == a.quota && b.quotaAt == a.quotaAt
    && (forall k | k in b.resets :: k in a.resets && b.resets[k] == a.resets[k])
    && (forall k | k in a.resets && k !in b.resets :: a.resets[k] <= t)
    && (b.coolingUntil == a.coolingUntil || (b.coolingUntil.None? && a.coolingUntil.value <= t))
  }

  lemma ClearingFades(d: Data, now: real)
    ensures Fades(d, ClearExpired(d, now), now)
  {
  }

  lemma FadedEligible(a: Data, b: Data, t: real)
    requires Fades(a, b, t)
    ensures Eligible(a) <==> Eligible(b)
  {
  }

  lemma FadesLater(a: Data, b: Data, t: real, later: real)
    requires Fades(a, b, t) && t <= later
    ensures Fades(a, b, later)
  {
  }

  lemma FadesChain(a: Data, b: Data, c: Data, t: real, later: real)
    requires Fades(a, b, t) && Fades(b, c, later) && t <= later
    ensures Fades(a, c, later)
  {
  }

  /** From then on the two are selected alike. */
  lemma FadedAlike(a: Data, b: Data, q: Request, threshold: real, t: real, later: real)
    requires Fades(a, b, t) && t <= later
    ensures Open(a, q, threshold, later) <==> Open(b, q, threshold, later)
    ensures Limited(a, q, later) <==> Limited(b, q, later)
    ensures Cooling(a, later) <==> Cooling(b, later)
  {
  }

  /** What is closed at the end of a fade was closed before it. */
  lemma ClosedBefore(a: Data, b: Data, q: Request, threshold: real, earlier: real, t: real)
    requires Fades(a, b, t) && earlier <= t && !Open(b, q, threshold, t)
    ensures !Open(a, q, threshold, earlier)
  {
    FadedAlike(a, b, q, threshold, t, t);
  }

  // ----- Waits --------------------------------------------------------------

  predicate Reached(t: real, since: real) {
    t >= since
  }

  function Max(a: real, b: real): real {
    if a >= b then a else b
  }

  function Until(d: Data, key: QuotaKey, now: real): real {
    if key in d.resets then d.resets[key] - now else 0.0
  }

  /** How long one row is limited or, if asked, cooling down. */
  function Wait(d: Data, q: Request, now: real, cooldowns: bool): real {
    Max(0.0, Max(Until(d, FamilyKey(q.family), now),
                 Max(if q.model.Some? && q.model.value != "" then Until(d, q.Key(), now) else 0.0,
                     if cooldowns && Cooling(d, now) then d.coolingUntil.value - now else 0.0)))
  }

  lemma WaitIsNotNegative(d: Data, q: Request, now: real, cooldowns: bool)
    ensures Wait(d, q, now, cooldowns) >= 0.0
  {
  }

  predicate Ready(d: Data, q: Request, t: real, cooldowns: bool) {
    !Limited(d, q, t) && (cooldowns ==> !Cooling(d, t))
  }

  /** The wait is exactly how long the row is not ready. */
  lemma WaitIsExact(d: Data, q: Request, now: real, cooldowns: bool, t: real)
    requires t >= now
    ensures Ready(d, q, t, cooldowns) <==> t >= now + Wait(d, q, now, cooldowns)
  {
  }

  lemma FadedWait(a: Data, b: Data, q: Request, now: real, cooldowns: bool)
    requires Fades(a, b, now)
    ensures Wait(a, q, now, cooldowns) == Wait(b, q, now, cooldowns)
  {
  }

  /** The reset time a row over soft quota waits for, if its reading has a later one. */
  function QuotaReset(d: Data, q: Request, now: real): Option<real> {
    if q.family != Claude && (q.model.None? || q.model.value == "") then None
    else
      var reading := ReadingFor(d, q);
      if reading.Some? && reading.value.reset.Some? && reading.value.reset.value > now then reading.value.reset
      else None
  }

  /** One row's wait where soft quota applies; `None` where its end is not known. */
  function SelectableWait(d: Data, q: Request, threshold: real, soft: bool, now: real): Option<real> {
    if soft && OverSoftQuota(d, q, threshold, now) then
      var reset := QuotaReset(d, q, now);
      if reset.None? then None else Some(Max(Wait(d, q, now, true), reset.value - now))
    else Some(Wait(d, q, now, true))
  }

  lemma FadedSelectable(a: Data, b: Data, q: Request, threshold: real, soft: bool, now: real)
    requires Fades(a, b, now)
    ensures SelectableWait(a, q, threshold, soft, now) == SelectableWait(b, q, threshold, soft, now)
  {
    FadedWait(a, b, q, now, true);
  }

  /** Ready, and past the quota reset it waits for; a row whose reset is unknown never counts. */
  predicate Selectable(d: Data, q: Request, threshold: real, soft: bool, now: real, t: real) {
    Ready(d, q, t, true)
    && (soft && OverSoftQuota(d, q, threshold, now) ==>
          QuotaReset(d, q, now).Some? && t >= QuotaReset(d, q, now).value)
  }

  lemma SelectableWaitIsExact(d: Data, q: Request, threshold: real, soft: bool, now: real, t: real)
    requires t >= now
    ensures var w := SelectableWait(d, q, threshold, soft, now);
            Selectable(d, q, threshold, soft, now, t) <==> w.Some? && t >= now + w.value
  {
    WaitIsExact(d, q, now, true, t);
  }
}
