/**
  The migration journal (packages/core/src/account-migration.ts:893-913): which journals the
  decoder accepts (1014-1514), and every change a driver saves to one.

  A digest is modelled by the content it identifies, of type `D`; digest equality is content
  equality. The config and state hashes of a verification are never read again and are left out.
 */
module Journals {
  import opened Text
  import opened Codecs
  import opened Legacy
  import Dedup

  datatype Phase = Capture | Build | Verify | Retire | Activate
  datatype Status = Pending | Active | Inactive
  datatype Operation = Migrate | Rollback
  datatype SourceKind = File | Absent | Generation

  datatype Mapped = Mapped(id: string, ordinal: nat)

  datatype RollbackRecord<D> = RollbackRecord(rows: seq<string>, exported: D, successorInactive: bool)

  datatype Relocation<D> = Relocation(
    sourceAnchor: string,
    sourceId: string,
    rows: seq<string>,
    tombstoned: bool,
    forwarded: bool,
    reversed: bool,
    reverseCopy: Option<D>)

  datatype Journal<D> = Journal(
    id: string,
    anchor: string,
    status: Status,
    operation: Operation,
    phase: Phase,
    kind: SourceKind,
    source: Option<D>,
    captured: bool,
    absenceVerified: bool,
    manifest: Manifest,
    mapping: seq<Mapped>,
    completed: seq<string>,
    verified: Option<Manifest>,
    retired: Option<D>,
    rollback: Option<RollbackRecord<D>>,
    cancelled: bool,
    relocation: Option<Relocation<D>>)

  // ----- What the decoder accepts -----------------------------------------

  predicate Unique(ids: seq<string>) {
    forall i, j | 0 <= i < j < |ids| :: ids[i] != ids[j]
  }

  predicate EmptyManifest(m: Manifest) {
    m.sourceVersion == 0 && m.accounts == [] && m.routing == EMPTY_ROUTING && m.effective == 0.0
  }

  predicate AccountAccepted(k: AccountCodecs, a: Account) {
    NotBlank(a.refreshToken) && Encode(k.metadata, a.metadata).Some?
    && (a.quota.Some? ==> Encode(k.quota, a.quota.value).Some?)
  }

  /** Rows in source order, distinct secrets, encodable values, and the cursor they imply. */
  predicate ManifestAccepted(k: AccountCodecs, m: Manifest) {
    (forall i | 0 <= i < |m.accounts| :: AccountAccepted(k, m.accounts[i]))
    && (forall i, j | 0 <= i < j < |m.accounts| :: m.accounts[i].ordinal < m.accounts[j].ordinal)
    && DistinctTokens(m.accounts)
    && Encode(k.routing, m.routing).Some?
    && m.effective == EffectiveIndex(m.routing, |m.accounts|)
  }

  predicate KindFits<D(==)>(j: Journal<D>) {
    && (j.kind == Absent <==> j.source.None?)
    && (j.kind == Absent <==> !j.captured)
    && (j.absenceVerified ==> j.kind == Absent)
    && (if j.kind == File then 1 <= j.manifest.sourceVersion <= 4 else EmptyManifest(j.manifest))
    && (j.retired.Some? ==> j.kind == File && j.retired == j.source)
    && (j.relocation.Some? <==> j.kind == Generation)
  }

  predicate MappingFits<D(==)>(j: Journal<D>) {
    && |j.mapping| == |j.manifest.accounts|
    && (forall a, b | 0 <= a < b < |j.mapping| :: j.mapping[a].id != j.mapping[b].id)
    && (forall i | 0 <= i < |j.mapping| :: j.mapping[i].ordinal == j.manifest.accounts[i].ordinal)
    && |j.completed| <= |j.mapping|
    && (forall i | 0 <= i < |j.completed| :: j.completed[i] == j.mapping[i].id)
  }

  predicate RelocationFits<D(==)>(j: Journal<D>) {
    j.relocation.Some? ==>
      var r := j.relocation.value;
      && r.sourceAnchor != j.anchor
      && Unique(r.rows)
      && (r.reversed ==> j.status == Active && r.forwarded)
      && (r.reversed <==> r.reverseCopy.Some?)
      && j.operation == Migrate
      && (r.forwarded ==> r.tombstoned)
      && (r.tombstoned ==> j.verified.Some? && (j.phase == Retire || j.phase == Activate))
      && (j.status == Active || j.phase == Activate ==> r.forwarded)
  }

  /** What retired the source: the retired copy, the checked absence, or the source's forward. */
  predicate RetirementRecorded<D(==)>(j: Journal<D>) {
    match j.kind
    case File => j.retired.Some?
    case Absent => j.absenceVerified
    case Generation => j.relocation.Some? && j.relocation.value.forwarded
  }

  predicate CancellationFits<D(==)>(j: Journal<D>) {
    j.cancelled ==>
      && j.status != Active && j.rollback.None? && j.retired.None?
      && (if j.kind == Generation
          then j.operation == Migrate && j.phase != Activate
               && (j.relocation.Some? ==> !j.relocation.value.forwarded)
          else j.operation == Rollback && (j.status == Inactive ==> j.phase == Activate))
  }

  predicate ProgressFits<D(==)>(j: Journal<D>) {
    && (j.verified.Some? ==> j.verified.value == j.manifest)
    && (!j.cancelled && (j.phase == Retire || j.phase == Activate || j.status == Active) ==> j.verified.Some?)
    && (j.operation == Migrate && j.verified.Some? ==> |j.completed| == |j.mapping|)
    && (j.operation == Migrate && (j.retired.Some? || j.absenceVerified) ==>
          j.verified.Some? && (j.phase == Retire || j.phase == Activate))
    && (j.operation == Migrate && j.phase == Activate ==> RetirementRecorded(j))
    && (j.status == Active ==>
          j.operation == Migrate && j.phase == Activate && RetirementRecorded(j) && j.rollback.None? && !j.cancelled)
  }

  predicate RollbackFits<D(==)>(j: Journal<D>) {
    && (j.rollback.Some? ==> Unique(j.rollback.value.rows))
    && (j.operation == Rollback && !j.cancelled ==>
          j.rollback.Some? && j.verified.Some? && RetirementRecorded(j))
    && (j.status == Inactive && !j.cancelled ==> j.operation == Rollback && j.phase == Activate)
    && (j.operation == Rollback && !j.cancelled && (j.phase == Activate || j.status == Inactive) ==>
          j.rollback.value.successorInactive)
  }

  /** `decodeAccountMigrationJournal` accepts the journal. */
  predicate Accepted<D(==)>(k: AccountCodecs, j: Journal<D>) {
    ManifestAccepted(k, j.manifest) && KindFits(j) && MappingFits(j) && RelocationFits(j)
    && CancellationFits(j) && ProgressFits(j) && RollbackFits(j)
  }

  // ----- The journals drivers start from -----------------------------------

  /** A migration's capture of a pool file (2820-2836). */
  function CaptureJournal<D>(id: string, anchor: string, source: D, manifest: Manifest, ids: seq<string>): Journal<D>
    requires |ids| == |manifest.accounts|
  {
    Journal(id, anchor, Pending, Migrate, Capture, File, Some(source), true, false, manifest,
            seq(|ids|, i requires 0 <= i < |ids| => Mapped(ids[i], manifest.accounts[i].ordinal)),
            [], None, None, None, false, None)
  }

  /** A fresh, empty installation, published already active (5579-5659). */
  function FreshJournal<D>(id: string, anchor: string, clock: real): Journal<D> {
    var manifest := Manifest(0, clock, [], EMPTY_ROUTING, 0.0);
    Journal(id, anchor, Active, Migrate, Activate, Absent, None, false, true, manifest,
            [], [], Some(manifest), None, None, false, None)
  }

  /** A move's capture of another generation (3585-3622). */
  function MoveJournal<D>(id: string, anchor: string, source: D, clock: real,
                          fromAnchor: string, fromId: string, rows: seq<string>): Journal<D> {
    Journal(id, anchor, Pending, Migrate, Capture, Generation, Some(source), true, false,
            Manifest(0, clock, [], EMPTY_ROUTING, 0.0),
            [], [], None, None, None, false, Some(Relocation(fromAnchor, fromId, rows, false, false, false, None)))
  }

  // ----- What the drivers save --------------------------------------------

  datatype Change<D> =
    // migrate (3364-3426), fresh initialization (5424-5492) and relocation (4072-4318)
    | BeginBuild
    | AckRow
    | FinishBuild
    | RecordVerified
    | RecordRetired
    | RecordAbsence
    | EnterActivate
    | GoActive
    // pre-retirement cancellation (4950-5001, 3173-3204)
    | BeginCancel
    | FinishCancel
    // rollback (5024-5199)
    | BeginRollback(rows: seq<string>, exported: D)
    | RollbackBuild
    | RollbackVerify
    | RollbackRetire
    | RollbackInactive
    | RollbackActivate
    | FinishRollback
    // relocation only (3742-3747, 4026-4037, 4157-4186, 4231-4306, 4574-4586)
    | Tombstone
    | Forward
    | AdoptForward
    | CancelMove
    | CancelVerified
    | Reverse(copy: D)

  predicate Running<D(==)>(j: Journal<D>, op: Operation) {
    j.status == Pending && j.operation == op && !j.cancelled
  }

  /** The driver's own guards for a change. */
  predicate Enabled<D(==)>(j: Journal<D>, c: Change<D>) {
    match c
    case BeginBuild => Running(j, Migrate) && (j.phase == Capture || j.phase == Build)
    case AckRow => Running(j, Migrate) && j.phase == Build && |j.completed| < |j.mapping|
    case FinishBuild => Running(j, Migrate) && j.phase == Build && |j.completed| == |j.mapping|
    case RecordVerified => Running(j, Migrate) && j.phase == Verify
    case RecordRetired => Running(j, Migrate) && j.phase == Retire && j.kind == File
    case RecordAbsence => Running(j, Migrate) && j.phase == Retire && j.kind == Absent
    case EnterActivate => Running(j, Migrate) && j.phase == Retire && j.kind == Absent && j.absenceVerified
    case GoActive => Running(j, Migrate) && j.phase == Activate
    case BeginCancel =>
      Running(j, Migrate) && j.kind == File && (j.phase == Capture || j.phase == Build || j.phase == Verify)
    case FinishCancel => j.status == Pending && j.cancelled && j.kind == File
    case BeginRollback(rows, _) => j.status == Active && j.kind != Generation && Unique(rows)
    case RollbackBuild => Running(j, Rollback) && (j.phase == Capture || j.phase == Build)
    case RollbackVerify => Running(j, Rollback) && j.phase == Build
    case RollbackRetire => Running(j, Rollback) && j.phase == Verify
    case RollbackInactive => Running(j, Rollback) && j.phase == Retire && j.rollback.Some?
    case RollbackActivate =>
      Running(j, Rollback) && j.phase == Retire && j.rollback.Some? && j.rollback.value.successorInactive
    case FinishRollback => Running(j, Rollback) && j.phase == Activate
    case Tombstone => Running(j, Migrate) && j.phase == Retire && j.kind == Generation
    case Forward =>
      Running(j, Migrate) && j.phase == Retire && j.kind == Generation
      && j.relocation.Some? && j.relocation.value.tombstoned
    case AdoptForward =>
      j.kind == Generation && j.relocation.Some? && j.operation == Migrate && !j.cancelled
      && j.status != Inactive && (j.phase == Retire || j.phase == Activate)
    case CancelMove =>
      j.status == Pending && j.kind == Generation && j.relocation.Some? && !j.relocation.value.forwarded
      && j.operation == Migrate
    case CancelVerified => Running(j, Migrate) && j.phase == Verify && j.kind == Generation
    case Reverse(_) => j.status == Active && j.kind == Generation && j.relocation.Some?
  }

  function WithRelocation<D(==)>(j: Journal<D>, tombstoned: bool, forwarded: bool): Journal<D>
    requires j.relocation.Some?
  {
    j.(relocation := Some(j.relocation.value.(tombstoned := tombstoned, forwarded := forwarded)))
  }

  /** The journal a driver saves for a change. */
  function Apply<D(==)>(j: Journal<D>, c: Change<D>): Journal<D>
    requires Enabled(j, c) && (j.kind == Generation ==> j.relocation.Some?)
  {
    match c
    case BeginBuild => j.(phase := Build)
    case AckRow => j.(completed := j.completed + [j.mapping[|j.completed|].id])
    case FinishBuild => j.(phase := Verify)
    case RecordVerified => j.(verified := Some(j.manifest), phase := Retire)
    case RecordRetired => j.(retired := j.source, phase := Activate)
    case RecordAbsence => j.(absenceVerified := true)
    case EnterActivate => j.(phase := Activate)
    case GoActive => j.(status := Active)
    case BeginCancel => j.(operation := Rollback, phase := Capture, cancelled := true)
    case FinishCancel => j.(status := Inactive, phase := Activate)
    case BeginRollback(rows, exported) =>
      j.(status := Pending, operation := Rollback, phase := Capture,
         rollback := Some(RollbackRecord(rows, exported, false)))
    case RollbackBuild => j.(phase := Build)
    case RollbackVerify => j.(phase := Verify)
    case RollbackRetire => j.(phase := Retire)
    case RollbackInactive => j.(rollback := Some(j.rollback.value.(successorInactive := true)))
    case RollbackActivate => j.(phase := Activate)
    case FinishRollback => j.(status := Inactive)
    case Tombstone => WithRelocation(j, true, j.relocation.value.forwarded)
    case Forward => WithRelocation(j, true, true).(phase := Activate)
    case AdoptForward => WithRelocation(j, true, true).(phase := Activate)
    case CancelMove => WithRelocation(j, false, false).(status := Inactive, cancelled := true)
    // The verification is taken and the source then found changed: one save records both.
    case CancelVerified =>
      WithRelocation(j, false, false).(verified := Some(j.manifest), status := Inactive, cancelled := true)
    case Reverse(copy) =>
      j.(relocation := Some(j.relocation.value.(reversed := true, reverseCopy := Some(copy))))
  }

  /** Past the build phase every row is acknowledged; the decoder alone does not ask this. */
  predicate RowsAcknowledged<D(==)>(j: Journal<D>) {
    j.operation == Migrate && j.phase != Capture && j.phase != Build ==> |j.completed| == |j.mapping|
  }

  /** What holds of every journal a driver saves. */
  predicate Sound<D(==)>(k: AccountCodecs, j: Journal<D>) {
    Accepted(k, j) && RowsAcknowledged(j) && (Running(j, Migrate) ==> j.rollback.None?)
    && (Running(j, Migrate) && j.phase == Verify ==> j.retired.None? && !j.absenceVerified)
    && (j.status == Pending && j.cancelled ==> j.kind == File)
  }

  /** Every journal a driver saves from a sound one is accepted by the decoder, and sound again. */
  lemma ChangesAreAccepted<D>(k: AccountCodecs, j: Journal<D>, c: Change<D>)
    requires Sound(k, j) && Enabled(j, c)
    ensures Sound(k, Apply(j, c))
  {
    hide ManifestAccepted, Unique;
  }

  /** Every driver starts from a sound journal. */
  lemma CaptureIsSound<D>(k: AccountCodecs, id: string, anchor: string, source: D, manifest: Manifest, ids: seq<string>)
    requires Unique(ids) && ManifestAccepted(k, manifest) && 1 <= manifest.sourceVersion <= 4
    requires |ids| == |manifest.accounts|
    ensures Sound(k, CaptureJournal(id, anchor, source, manifest, ids))
  {
  }

  lemma FreshIsSound<D>(k: AccountCodecs, id: string, anchor: string, clock: real)
    requires Suits(k)
    ensures Sound<D>(k, FreshJournal(id, anchor, clock))
  {
  }

  lemma MoveIsSound<D>(k: AccountCodecs, id: string, anchor: string, source: D, clock: real,
                       fromAnchor: string, fromId: string, rows: seq<string>)
    requires Suits(k) && Unique(rows) && fromAnchor != anchor
    ensures Sound(k, MoveJournal(id, anchor, source, clock, fromAnchor, fromId, rows))
  {
  }

  // ----- Progress ---------------------------------------------------------

  function Bit(b: bool): nat {
    if b then 1 else 0
  }

  /** Steps left until the journal is active or inactive. */
  function Remaining<D(==)>(j: Journal<D>): nat {
    if j.status != Pending then 0
    else if j.cancelled then 1
    else if j.operation == Rollback then
      match j.phase
      case Capture => 7
      case Build => 6
      case Verify => 5
      case Retire => 4 - Bit(j.rollback.Some? && j.rollback.value.successorInactive)
      case Activate => 2
    else
      match j.phase
      case Capture => 8 + |j.mapping|
      case Build => 7 + (if |j.completed| < |j.mapping| then |j.mapping| - |j.completed| else 0)
      case Verify => 6
      case Retire => 5 - Bit(j.absenceVerified) - Bit(j.relocation.Some? && j.relocation.value.tombstoned)
      case Activate => 2
  }

  /** The next change its own driver saves for a pending journal. */
  function Next<D(==)>(j: Journal<D>): Change<D>
    requires j.status == Pending
  {
    if j.cancelled then FinishCancel
    else if j.operation == Rollback then
      match j.phase
      case Capture => RollbackBuild
      case Build => RollbackVerify
      case Verify => RollbackRetire
      case Retire =>
        if j.rollback.Some? && j.rollback.value.successorInactive then RollbackActivate else RollbackInactive
      case Activate => FinishRollback
    else
      match j.phase
      case Capture => BeginBuild
      case Build => if |j.completed| < |j.mapping| then AckRow else FinishBuild
      case Verify => RecordVerified
      case Retire =>
        (match j.kind
         case File => RecordRetired
         case Absent => if j.absenceVerified then EnterActivate else RecordAbsence
         case Generation => if j.relocation.Some? && j.relocation.value.tombstoned then Forward else Tombstone)
      case Activate => GoActive
  }

  /** No change within an operation moves its driver back. */
  lemma ChangesNeverGoBack<D>(k: AccountCodecs, j: Journal<D>, c: Change<D>)
    requires Sound(k, j) && Enabled(j, c) && !c.BeginRollback?
    ensures Remaining(Apply(j, c)) <= Remaining(j)
  {
  }

  /** A pending journal always has a next change, which its driver's guards allow and which is progress. */
  lemma NextMakesProgress<D>(k: AccountCodecs, j: Journal<D>)
    requires Sound(k, j) && j.status == Pending
    ensures Enabled(j, Next(j)) && Remaining(Apply(j, Next(j))) < Remaining(j)
  {
    hide ManifestAccepted, Unique;
  }

  lemma NextStep<D>(k: AccountCodecs, j: Journal<D>)
    requires Sound(k, j) && j.status == Pending
    ensures Enabled(j, Next(j)) && (j.kind == Generation ==> j.relocation.Some?)
    ensures var r := Apply(j, Next(j));
            Sound(k, r) && Remaining(r) < Remaining(j) && r.id == j.id
            && (r.status == Pending ==> r.operation == j.operation && r.cancelled == j.cancelled)
            && (r.status != Pending ==> r.status == Outcome(j))
  {
    NextMakesProgress(k, j);
    ChangesAreAccepted(k, j, Next(j));
  }

  /** How a pending operation ends. */
  function Outcome<D(==)>(j: Journal<D>): Status {
    if j.operation == Migrate && !j.cancelled then Active else Inactive
  }

  /** Where re-running a journal's own driver to the end leads. */
  function Settle<D(==)>(k: AccountCodecs, j: Journal<D>): (r: Journal<D>)
    requires Sound(k, j)
    ensures Sound(k, r) && r.status != Pending && r.id == j.id
    ensures j.status == Pending ==> r.status == Outcome(j)
    decreases Remaining(j)
  {
    if j.status != Pending then j
    else
      NextStep(k, j);
      Settle(k, Apply(j, Next(j)))
  }

  /**
    The decoder accepts journals no driver saves: one in the verify phase with rows still
    unacknowledged. From it, the verification record is accepted exactly when no row is missing.
   */
  lemma VerifyNeedsEveryRow<D>(k: AccountCodecs, j: Journal<D>)
    requires Accepted(k, j) && Running(j, Migrate) && j.phase == Verify
    ensures Accepted(k, Apply(j, RecordVerified)) <==> |j.completed| == |j.mapping|
  {
  }

  lemma ParsedAccountAccepted(k: AccountCodecs, source: Value, ordinal: nat, version: int, clock: real)
    requires Suits(k) && ParseAccount(k, source, ordinal, version, clock).Some?
    ensures AccountAccepted(k, ParseAccount(k, source, ordinal, version, clock).value)
    ensures ParseAccount(k, source, ordinal, version, clock).value.ordinal == ordinal
  {
    var a := ParseAccount(k, source, ordinal, version, clock).value;
    forall raw | Decode(k.metadata, raw) == Some(a.metadata) ensures Encode(k.metadata, a.metadata).Some? {
      EncodeUndoesDecode(k.metadata, raw);
    }
    if a.quota.Some? {
      EncodeUndoesDecode(k.quota, Obj(QuotaPart(source.fields)));
    }
  }

  lemma WinnersAccepted(k: AccountCodecs, rows: seq<Value>, version: int, clock: real)
    requires Suits(k) && ParsesEachRow(k, rows, version, clock)
    ensures var accounts := Winners(ParseRows(k, rows, version, clock));
            (forall i | 0 <= i < |accounts| :: AccountAccepted(k, accounts[i]))
            && forall i, j | 0 <= i < j < |accounts| :: accounts[i].ordinal < accounts[j].ordinal
  {
    var parsed := ParseRows(k, rows, version, clock);
    var kept := Dedup.Survivors(Entries(parsed), |parsed|);
    var accounts := Winners(parsed);
    forall i | 0 <= i < |accounts| ensures AccountAccepted(k, accounts[i]) && accounts[i].ordinal == kept[i] {
      ParsedAccountAccepted(k, rows[kept[i]], kept[i], version, clock);
    }
  }

  /** A parsed pool file always makes a manifest the decoder accepts. */
  lemma ParsedManifestAccepted(k: AccountCodecs, doc: Value, clock: real)
    requires Suits(k) && Parse(k, doc, clock).Some?
    ensures ManifestAccepted(k, Parse(k, doc, clock).value)
    ensures 1 <= Parse(k, doc, clock).value.sourceVersion <= 4
  {
    WinnersAccepted(k, doc.fields["accounts"].items, SourceVersion(doc.fields), clock);
    RoutingRoundTrip(k, doc.fields);
  }
}
