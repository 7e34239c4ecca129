/**
  Access verdicts: how a stored row takes one (packages/core/src/account-repository.ts:563-586,
  855-918), and how the selector marks the account it holds in memory
  (packages/core/src/account-selector.ts:1563-1689).
 */
module Verdicts {
  import opened Text

  /** An optional JSON field; in memory, `undefined` is `Absent`. */
  datatype Field<+T> = Absent | Null | Is(value: T)

  datatype Access = Access(
    verification: Field<bool>,
    verificationAt: Field<real>,
    verificationReason: Field<string>,
    verificationUrl: Field<string>,
    ineligible: Field<bool>,
    ineligibleAt: Field<real>,
    ineligibleReason: Field<string>,
    updatedAt: Field<real>)

  datatype Verdict =
    | VerificationRequired(at: real, reason: Option<string>, url: Option<string>)
    | Ineligible(at: real, why: string)
    | Cleared(at: real, enable: bool)

  datatype Transition = Disable | Enable | Keep

  const DEFAULT_REASON := "Google marked this account as ineligible."

  // ----- Evidence -------------------------------------------------------------

  function Later(best: Option<real>, time: Field<real>): Option<real> {
    if time.Is? && (best.None? || time.value > best.value) then Some(time.value) else best
  }

  /** `accessEvidenceAt`: the latest of the three times. */
  function Evidence(a: Access): Option<real> {
    Later(Later(Later(None, a.verificationAt), a.ineligibleAt), a.updatedAt)
  }

  function NonBlank(s: Option<string>): Option<string> {
    if s.Some? && Trim(s.value) != "" then Some(Trim(s.value)) else None
  }

  function FieldOf<T>(o: Option<T>): Field<T> {
    if o.Some? then Is(o.value) else Absent
  }

  function ReasonOr(s: Option<string>): string {
    if NonBlank(s).Some? then NonBlank(s).value else DEFAULT_REASON
  }

  predicate Stale(a: Access, v: Verdict) {
    Evidence(a).Some? && v.at < Evidence(a).value
  }

  predicate ClaimsIneligible(a: Access) {
    a.ineligible == Is(true) || a.ineligibleAt.Is? || a.ineligibleReason.Is?
  }

  /** Eligibility was ever recorded: only then does a `cleared` verdict leave its time behind. */
  predicate Anchored(a: Access) {
    a.ineligible == Is(true) || a.updatedAt.Is?
  }

  /** What a verdict makes of a row that takes it. */
  function Effect(a: Access, v: Verdict): (Access, Transition) {
    match v
    case VerificationRequired(at, reason, url) =>
      var b := a.(verification := Is(true), verificationAt := Is(at), verificationReason := FieldOf(NonBlank(reason)),
                  verificationUrl := if NonBlank(url).Some? then Is(NonBlank(url).value) else a.verificationUrl);
      (if ClaimsIneligible(a)
       then b.(ineligible := Is(false), ineligibleAt := Absent, ineligibleReason := Absent, updatedAt := Is(at))
       else b, Disable)
    case Ineligible(at, why) =>
      (Access(Is(false), Absent, Absent, Absent, Is(true), Is(at), Is(ReasonOr(Some(why))), Is(at)), Disable)
    case Cleared(at, enable) =>
      (Access(Is(false), Absent, Absent, Absent, Is(false), Absent, Absent,
              if Anchored(a) then Is(at) else a.updatedAt),
       if enable && (a.verification == Is(true) || a.ineligible == Is(true)) then Enable else Keep)
  }

  /** `applyAccessVerdict`; `None` where the verdict is older than the stored evidence. */
  function Apply(a: Access, v: Verdict): Option<(Access, Transition)> {
    if Stale(a, v) then None else Some(Effect(a, v))
  }

  /** A row after a verdict, taken or not. */
  function Taken(a: Access, v: Verdict): Access {
    if Apply(a, v).Some? then Apply(a, v).value.0 else a
  }

  function TakenAll(a: Access, vs: seq<Verdict>): Access
    decreases vs
  {
    if vs == [] then a else TakenAll(Taken(a, vs[0]), vs[1..])
  }

  // ----- Last observed wins -----------------------------------------------------

  /** What a row says of its account: which block it is under, since when, and why. */
  datatype Standing = Standing(verification: bool, verificationAt: Option<real>, verificationReason: Option<string>,
                               ineligible: bool, ineligibleAt: Option<real>, ineligibleReason: Option<string>)

  function Given<T>(f: Field<T>): Option<T> {
    if f.Is? then Some(f.value) else None
  }

  function StandingOf(a: Access): Standing {
    Standing(a.verification == Is(true), Given(a.verificationAt), Given(a.verificationReason),
             a.ineligible == Is(true), Given(a.ineligibleAt), Given(a.ineligibleReason))
  }

  /** The standing a verdict alone calls for. */
  function Called(v: Verdict): Standing {
    match v
    case VerificationRequired(at, reason, _) => Standing(true, Some(at), NonBlank(reason), false, None, None)
    case Ineligible(at, why) => Standing(false, None, None, true, Some(at), Some(ReasonOr(Some(why))))
    case Cleared(_, _) => Standing(false, None, None, false, None, None)
  }

  /** The latest verdict, and of several at one time the last to arrive. */
  function Newest(vs: seq<Verdict>): Verdict
    requires vs != []
  {
    if |vs| == 1 then vs[0]
    else
      var rest := Newest(vs[1..]);
      if rest.at >= vs[0].at then rest else vs[0]
  }

  /** The row's own evidence, or the newest verdict where that is no older, decides its standing. */
  predicate LastObservedWins(a: Access, vs: seq<Verdict>) {
    StandingOf(TakenAll(a, vs))
    == if vs == [] || Stale(a, Newest(vs)) then StandingOf(a) else Called(Newest(vs))
  }

  /**
    A verdict that is taken settles the standing. Its time is kept as evidence exactly where it is not a
    `cleared` that finds no eligibility record.
   */
  lemma TakenSettles(a: Access, v: Verdict)
    requires !Stale(a, v)
    ensures StandingOf(Taken(a, v)) == Called(v)
    ensures Evidence(Taken(a, v)) == if v.Cleared? && !Anchored(a) then None else Some(v.at)
    ensures Anchored(a) ==> Anchored(Taken(a, v))
  {
  }

  /** On an anchored row evidence only grows. */
  lemma EvidenceGrows(a: Access, v: Verdict)
    requires Anchored(a)
    ensures Anchored(Taken(a, v))
    ensures Evidence(a).Some? ==> Evidence(Taken(a, v)).Some? && Evidence(Taken(a, v)).value >= Evidence(a).value
  {
    if !Stale(a, v) {
      TakenSettles(a, v);
    }
  }

  lemma NewestIsIn(vs: seq<Verdict>)
    requires vs != []
    ensures Newest(vs) in vs && forall i | 0 <= i < |vs| :: vs[i].at <= Newest(vs).at
  {
    if |vs| > 1 {
      NewestIsIn(vs[1..]);
      assert vs == [vs[0]] + vs[1..];
    }
  }

  lemma {:induction false} AnchoredRowsKeepTheLast(a: Access, vs: seq<Verdict>)
    requires Anchored(a)
    ensures LastObservedWins(a, vs)
    decreases vs
  {
    if vs != [] {
      var b := Taken(a, vs[0]);
      EvidenceGrows(a, vs[0]);
      AnchoredRowsKeepTheLast(b, vs[1..]);
      if !Stale(a, vs[0]) {
        TakenSettles(a, vs[0]);
      }
    }
  }

  /** On any other row a `cleared` verdict erases its evidence, and an older verdict then undoes it. */
  function Undoing(a: Access): seq<Verdict> {
    var now := if Evidence(a).Some? then Evidence(a).value else 0.0;
    [Cleared(now, false), VerificationRequired(now - 1.0, None, None)]
  }

  lemma UnanchoredRowForgets(a: Access)
    requires !Anchored(a)
    ensures !LastObservedWins(a, Undoing(a))
  {
    var vs := Undoing(a);
    TakenSettles(a, vs[0]);
    var b := Taken(a, vs[0]);
    TakenSettles(b, vs[1]);
    assert TakenAll(b, vs[1..]) == Taken(b, vs[1]);
    assert Newest(vs) == vs[0];
  }

  /**
    Verdicts are last-observed-wins, whatever order they arrive in, exactly on rows that carry an
    eligibility record.
   */
  lemma LastObservedWinsIff(a: Access)
    ensures (forall vs :: LastObservedWins(a, vs)) <==> Anchored(a)
  {
    if Anchored(a) {
      forall vs ensures LastObservedWins(a, vs) {
        AnchoredRowsKeepTheLast(a, vs);
      }
    } else {
      UnanchoredRowForgets(a);
    }
  }

  predicate DistinctTimes(vs: seq<Verdict>) {
    forall i, j | 0 <= i < j < |vs| :: vs[i].at != vs[j].at
  }

  /** Verdicts observed at distinct times leave the same standing in every order. */
  lemma OrderDoesNotMatter(a: Access, vs: seq<Verdict>, ws: seq<Verdict>)
    requires Anchored(a) && DistinctTimes(vs) && multiset(vs) == multiset(ws)
    ensures StandingOf(TakenAll(a, vs)) == StandingOf(TakenAll(a, ws))
  {
    AnchoredRowsKeepTheLast(a, vs);
    AnchoredRowsKeepTheLast(a, ws);
    assert |vs| == |multiset(vs)| == |multiset(ws)| == |ws|;
    if vs != [] {
      NewestIsIn(vs);
      NewestIsIn(ws);
      assert Newest(vs) in multiset(ws) && Newest(ws) in multiset(vs);
      var i :| 0 <= i < |vs| && vs[i] == Newest(vs);
      var j :| 0 <= j < |vs| && vs[j] == Newest(ws);
      var k :| 0 <= k < |ws| && ws[k] == Newest(vs);
      assert vs[i].at == vs[j].at;
    }
  }

  // ----- In memory --------------------------------------------------------------

  predicate NoNulls(a: Access) {
    !a.verification.Null? && !a.verificationAt.Null? && !a.verificationReason.Null? && !a.verificationUrl.Null?
    && !a.ineligible.Null? && !a.ineligibleAt.Null? && !a.ineligibleReason.Null? && !a.updatedAt.Null?
  }

  /** The stored row's enabled flag after a transition. */
  function Enabled(enabled: bool, t: Transition): bool {
    match t
    case Disable => false
    case Enable => true
    case Keep => enabled
  }

  lemma TrimmedTwice(s: Option<string>)
    ensures NonBlank(NonBlank(s)) == NonBlank(s)
  {
    if s.Some? {
      TrimIsTrimmed(s.value);
    }
  }

  lemma AlreadyTrimmed(s: string)
    requires |s| > 0 && !IsSpace(s[0]) && !IsSpace(s[|s| - 1])
    ensures Trim(s) == s
  {
  }

  lemma DefaultIsTrimmed()
    ensures DEFAULT_REASON != "" && Trim(DEFAULT_REASON) == DEFAULT_REASON
  {
    hide Trim;
    var d := DEFAULT_REASON;
    assert d[0] == 'G' && d[|d| - 1] == '.';
    AlreadyTrimmed(d);
  }

  lemma ReasonTrimmedTwice(s: Option<string>)
    ensures ReasonOr(Some(ReasonOr(s))) == ReasonOr(s)
  {
    hide Trim;
    TrimmedTwice(s);
    DefaultIsTrimmed();
  }

  /**
    An account as the selector holds it. Each mark changes it as the verdict it reports changes a
    stored row of the same content, so the two agree wherever the row takes the verdict.
   */
  class Account {
    var access: Access
    var enabled: bool

    /** `markAccountVerificationRequired`; returns the verdict it reports. */
    method MarkVerificationRequired(now: real, reason: Option<string>, url: Option<string>) returns (v: Verdict)
      requires NoNulls(access)
      modifies this
      ensures v.at == now && Effect(old(access), v) == (access, Disable)
      ensures NoNulls(access) && enabled == Enabled(old(enabled), Disable)
    {
      var was := access;
      access := access.(verification := Is(true), verificationAt := Is(now),
                        verificationReason := FieldOf(NonBlank(reason)));
      if was.ineligible == Is(true) || was.ineligibleAt != Absent || was.ineligibleReason != Absent {
        access := access.(ineligible := Is(false), ineligibleAt := Absent, ineligibleReason := Absent,
                          updatedAt := Is(now));
      }
      if NonBlank(url).Some? {
        access := access.(verificationUrl := Is(NonBlank(url).value));
      }
      enabled := false;
      TrimmedTwice(reason);
      TrimmedTwice(url);
      v := VerificationRequired(now, NonBlank(reason), NonBlank(url));
    }

    /** `markAccountIneligible`. */
    method MarkIneligible(now: real, reason: Option<string>) returns (v: Verdict)
      modifies this
      ensures v.at == now && Effect(old(access), v) == (access, Disable)
      ensures NoNulls(access) && enabled == Enabled(old(enabled), Disable)
    {
      access := access.(ineligible := Is(true), ineligibleAt := Is(now), ineligibleReason := Is(ReasonOr(reason)),
                        updatedAt := Is(now), verification := Is(false), verificationAt := Absent,
                        verificationReason := Absent, verificationUrl := Absent);
      enabled := false;
      ReasonTrimmedTwice(reason);
      v := Ineligible(now, ReasonOr(reason));
    }

    /** `clearAccountAccessBlocks`; reports nothing where there was nothing to clear. */
    method ClearAccessBlocks(now: real, enable: bool) returns (v: Option<Verdict>)
      requires NoNulls(access)
      modifies this
      ensures v.Some? ==>
                v.value.at == now && Effect(old(access), v.value).0 == access
                && enabled == Enabled(old(enabled), Effect(old(access), v.value).1)
      ensures v.None? ==> StandingOf(access) == StandingOf(old(access)) && enabled == old(enabled)
      ensures NoNulls(access) && StandingOf(access) == Called(Cleared(now, enable))
    {
      var was := access;
      var wasVerification := was.verification == Is(true);
      var wasIneligible := was.ineligible == Is(true);
      var hadMetadata :=
        wasVerification || wasIneligible || was.verificationAt != Absent || was.verificationReason != Absent
        || was.verificationUrl != Absent || was.ineligibleAt != Absent || was.ineligibleReason != Absent
        || was.updatedAt != Absent;
      access := access.(verification := Is(false), verificationAt := Absent, verificationReason := Absent,
                        verificationUrl := Absent, ineligible := Is(false), ineligibleAt := Absent,
                        ineligibleReason := Absent);
      if wasIneligible || was.updatedAt != Absent {
        access := access.(updatedAt := Is(now));
      }
      var reenable := enable && (wasVerification || wasIneligible) && !enabled;
      if reenable {
        enabled := true;
      }
      if reenable || hadMetadata {
        return Some(Cleared(now, enable));
      }
      return None;
    }
  }
}
