/**
  The handoff between the legacy pool file and the account store, as a state machine over durable
  steps: legacy writers (packages/core/src/account-storage.ts:699-756, 776-803), migration,
  pre-retirement cancellation, fresh initialization and rollback
  (packages/core/src/account-migration.ts:2758-3104, 3206-3444, 4950-5206, 5494-5770).

  Any process may stop between any two steps; a stopped lock holder's lock is released. Each step
  is guarded by the checks the code makes on durable state right before the write. `held` is a
  history variable: what the accounts were last established to be, by an accepted legacy write or
  by the store serving them.
 */
module Migration {
  import opened Text
  import opened Codecs
  import opened Legacy
  import opened Journals

  datatype Row = Row(id: string, token: string, metadata: Value, quota: Option<Value>)

  /** One generation's durable files. `settled`: its routing and generation settings are written. */
  datatype Gen = Gen(journal: Journal<Value>, backup: Option<Value>, retired: Option<Value>,
                     rows: seq<Row>, settled: bool)

  datatype Lock = Free | WriterHas(checked: bool) | MigratorHas

  datatype Held = InFile(doc: Option<Value>) | InStore(rows: seq<Row>)

  /** `owner` is the generation published at the anchor; `staged` are captured, unpublished ones. */
  datatype State = State(file: Option<Value>, owner: Option<Gen>, staged: map<string, Gen>, lock: Lock, held: Held)

  datatype Step =
    // a legacy writer, under the accounts lock
    | WriterLocks | WriterChecks | WriterWrites(doc: Value) | WriterDeletes
    | Unlocks
    // the migrator
    | MigratorLocks
    | CaptureFile(id: string, clock: real, ids: seq<string>)
    | Publish(id: string)
    | BuildStarts | AddsRow | AcksRow | WritesSettings | BuildEnds
    | Verifies
    | CopiesRetired | UnlinksFile | RestoresUnlinked | SavesRetired
    | Activates
    // fresh initialization
    | StagesEmpty(id: string, clock: real) | PublishesEmpty(id: string)
    // a session of the active store
    | Serves(rows: seq<Row>)
    // cancellation
    | CancelBegins | CancelEnds | DiscardsRow
    // rollback
    | RollbackBegins(routing: Value) | RollbackBuilds | RollbackVerifies | RollbackRetires(routing: Value)
    | RollbackGoesInactive | RollbackActivates | RestoresFile(routing: Value) | RollbackEnds

  function RowOf(m: Mapped, a: Account): Row {
    Row(m.id, a.refreshToken, a.metadata, a.quota)
  }

  /** The rows the whole manifest imports to. */
  function ManifestRows(j: Journal<Value>): seq<Row>
    requires MappingFits(j)
  {
    seq(|j.mapping|, i requires 0 <= i < |j.mapping| => RowOf(j.mapping[i], j.manifest.accounts[i]))
  }

  function AccountsOf(rows: seq<Row>): seq<Account> {
    seq(|rows|, i requires 0 <= i < |rows| => Account(i, rows[i].token, rows[i].metadata, rows[i].quota))
  }

  function Ids(rows: seq<Row>): seq<string> {
    seq(|rows|, i requires 0 <= i < |rows| => rows[i].id)
  }

  function Tokens(rows: seq<Row>): seq<string> {
    seq(|rows|, i requires 0 <= i < |rows| => rows[i].token)
  }

  /** `assertLegacyAccountStorageWritable`: no published generation, or one gone inactive. */
  predicate Writable(s: State) {
    s.owner.None? || s.owner.value.journal.status == Inactive
  }

  /** Credentials are served from the store: its journal is active and no pool file exists. */
  predicate Admitted(s: State) {
    s.owner.Some? && s.owner.value.journal.status == Active && s.file.None?
  }

  predicate Running(s: State, op: Operation, phase: Phase) {
    s.owner.Some? && Journals.Running(s.owner.value.journal, op) && s.owner.value.journal.phase == phase
  }

  /** The pool file is present and has exactly the captured bytes. */
  predicate FileIsSource(s: State) {
    s.owner.Some? && s.file.Some? && s.file == s.owner.value.journal.source
  }

  /** `verifyImported`. */
  predicate Imported(g: Gen) {
    MappingFits(g.journal) && g.rows == ManifestRows(g.journal) && g.settled
  }

  predicate Can(s: State, c: Change<Value>) {
    s.owner.Some? && s.owner.value.journal.kind != Generation && Enabled(s.owner.value.journal, c)
  }

  function Save(s: State, c: Change<Value>): State
    requires Can(s, c)
  {
    s.(owner := Some(s.owner.value.(journal := Apply(s.owner.value.journal, c))))
  }

  function SaveIf(s: State, guard: bool, c: Change<Value>): Option<State> {
    if guard && Can(s, c) then Some(Save(s, c)) else None
  }

  const ANCHOR := "pool"

  // ----- Steps ------------------------------------------------------------

  function WriterStep(s: State, a: Step): Option<State> {
    match a
    case WriterLocks => if s.lock.Free? then Some(s.(lock := WriterHas(false))) else None
    case WriterChecks => if s.lock == WriterHas(false) && Writable(s) then Some(s.(lock := WriterHas(true))) else None
    case WriterWrites(doc) =>
      if s.lock == WriterHas(true) then Some(s.(file := Some(doc), held := InFile(Some(doc)))) else None
    case WriterDeletes =>
      if s.lock == WriterHas(true) then Some(s.(file := None, held := InFile(None))) else None
    case Unlocks => Some(s.(lock := Free))
    case MigratorLocks => if s.lock.Free? then Some(s.(lock := MigratorHas)) else None
    case _ => None
  }

  /** Capture and publication: both under the accounts lock, publication rechecking the bytes. */
  function HandoffStep(k: AccountCodecs, s: State, a: Step): Option<State> {
    match a
    case CaptureFile(id, clock, ids) =>
      if s.lock.MigratorHas? && id !in s.staged && s.file.Some? && Writable(s) then
        var m := Parse(k, s.file.value, clock);
        if m.Some? && |ids| == |m.value.accounts| && Unique(ids) then
          var journal := CaptureJournal(id, ANCHOR, s.file.value, m.value, ids);
          Some(s.(staged := s.staged[id := Gen(journal, s.file, None, [], false)]))
        else None
      else None
    case Publish(id) =>
      if s.lock.MigratorHas? && Writable(s) && id in s.staged && s.staged[id].journal.kind == File
         && s.file.Some? && s.file == s.staged[id].journal.source
      then Some(s.(owner := Some(s.staged[id]), staged := s.staged - {id}))
      else None
    case StagesEmpty(id, clock) =>
      if s.lock.MigratorHas? && id !in s.staged && s.file.None? && s.owner.None? then
        Some(s.(staged := s.staged[id := Gen(FreshJournal(id, ANCHOR, clock), None, None, [], true)]))
      else None
    case PublishesEmpty(id) =>
      if s.lock.MigratorHas? && s.owner.None? && s.file.None? && id in s.staged && s.staged[id].journal.kind == Absent
      then Some(s.(owner := Some(s.staged[id]), staged := s.staged - {id}, held := InStore(s.staged[id].rows)))
      else None
    case _ => None
  }

  function BuildStep(s: State, a: Step): Option<State> {
    match a
    case BuildStarts => SaveIf(s, true, BeginBuild)
    case AddsRow =>
      if Running(s, Migrate, Build) && MappingFits(s.owner.value.journal) then
        var g := s.owner.value;
        var i := |g.journal.completed|;
        if |g.rows| == i < |g.journal.mapping|
        then Some(s.(owner := Some(g.(rows := g.rows + [RowOf(g.journal.mapping[i], g.journal.manifest.accounts[i])]))))
        else None
      else None
    case AcksRow => SaveIf(s, s.owner.Some? && |s.owner.value.rows| == |s.owner.value.journal.completed| + 1, AckRow)
    case WritesSettings =>
      if Running(s, Migrate, Build) && |s.owner.value.journal.completed| == |s.owner.value.journal.mapping|
      then Some(s.(owner := Some(s.owner.value.(settled := true)))) else None
    case BuildEnds => SaveIf(s, s.owner.Some? && s.owner.value.settled, FinishBuild)
    case Verifies =>
      SaveIf(s, s.owner.Some? && Imported(s.owner.value) && s.owner.value.backup == s.owner.value.journal.source,
             RecordVerified)
    case _ => None
  }

  /** Retirement: a checked copy, then the unlink, both under the accounts lock. */
  function RetireStep(s: State, a: Step): Option<State> {
    match a
    case CopiesRetired =>
      if Running(s, Migrate, Retire) && s.lock.MigratorHas? && FileIsSource(s) && Imported(s.owner.value)
      then Some(s.(owner := Some(s.owner.value.(retired := s.file)))) else None
    case UnlinksFile =>
      if Running(s, Migrate, Retire) && s.lock.MigratorHas? && FileIsSource(s) && Imported(s.owner.value)
         && s.owner.value.retired == s.owner.value.journal.source
      then Some(s.(file := None)) else None
    case RestoresUnlinked =>
      if Running(s, Migrate, Retire) && s.lock.MigratorHas? && s.file.None?
         && s.owner.value.retired.Some? && s.owner.value.retired == s.owner.value.journal.source
      then Some(s.(file := s.owner.value.retired)) else None
    case SavesRetired =>
      SaveIf(s, s.owner.Some? && s.file.None? && s.owner.value.retired.Some?
                && s.owner.value.retired == s.owner.value.journal.source, RecordRetired)
    case Activates =>
      if s.owner.Some? && s.file.None? && Imported(s.owner.value)
         && s.owner.value.retired == s.owner.value.journal.source && Can(s, GoActive)
      then Some(Save(s, GoActive).(held := InStore(s.owner.value.rows))) else None
    case Serves(rows) =>
      if Admitted(s) && Unique(Ids(rows))
      then Some(s.(owner := Some(s.owner.value.(rows := rows)), held := InStore(rows))) else None
    case _ => None
  }

  function CancelStep(s: State, a: Step): Option<State> {
    match a
    case CancelBegins => SaveIf(s, FileIsSource(s) && s.owner.value.backup == s.owner.value.journal.source, BeginCancel)
    case CancelEnds => SaveIf(s, s.lock.MigratorHas? && FileIsSource(s), FinishCancel)
    case DiscardsRow =>
      if s.owner.Some? && s.owner.value.journal.status == Inactive && s.owner.value.rows != []
      then Some(s.(owner := Some(s.owner.value.(rows := s.owner.value.rows[1..])))) else None
    case _ => None
  }

  /** What a rollback exports: the store's current rows as a version-4 document. */
  function Exported(k: AccountCodecs, rows: seq<Row>, routing: Value): Option<Value> {
    var doc := Export(k, AccountsOf(rows), routing);
    if doc.Some? then Some(Obj(doc.value)) else None
  }

  /** The rows are still the ones the rollback recorded. */
  predicate Unchanged(k: AccountCodecs, g: Gen, routing: Value) {
    g.journal.rollback.Some? && g.journal.rollback.value.rows == Ids(g.rows)
    && Exported(k, g.rows, routing) == Some(g.journal.rollback.value.exported)
  }

  function RollbackStep(k: AccountCodecs, s: State, a: Step): Option<State> {
    match a
    case RollbackBegins(routing) =>
      if s.owner.Some? && s.file.None? && Exported(k, s.owner.value.rows, routing).Some?
      then SaveIf(s, true, BeginRollback(Ids(s.owner.value.rows), Exported(k, s.owner.value.rows, routing).value))
      else None
    case RollbackBuilds => SaveIf(s, true, RollbackBuild)
    case RollbackVerifies => SaveIf(s, true, RollbackVerify)
    case RollbackRetires(routing) =>
      SaveIf(s, s.owner.Some? && Unchanged(k, s.owner.value, routing), RollbackRetire)
    case RollbackGoesInactive => SaveIf(s, true, RollbackInactive)
    case RollbackActivates => SaveIf(s, true, RollbackActivate)
    case RestoresFile(routing) =>
      if Running(s, Rollback, Activate) && s.lock.MigratorHas? && s.file.None? && Unchanged(k, s.owner.value, routing)
      then Some(s.(file := Some(s.owner.value.journal.rollback.value.exported))) else None
    case RollbackEnds =>
      if s.lock.MigratorHas? && s.owner.Some? && s.owner.value.journal.rollback.Some?
         && s.file == Some(s.owner.value.journal.rollback.value.exported) && Can(s, FinishRollback)
      then Some(Save(s, FinishRollback).(held := InFile(s.file))) else None
    case _ => None
  }

  /** The state after a step, or `None` where its guards refuse it. */
  function Next(k: AccountCodecs, s: State, a: Step): Option<State> {
    match a
    case WriterLocks | WriterChecks | WriterWrites(_) | WriterDeletes | Unlocks | MigratorLocks => WriterStep(s, a)
    case CaptureFile(_, _, _) | Publish(_) | StagesEmpty(_, _) | PublishesEmpty(_) => HandoffStep(k, s, a)
    case BuildStarts | AddsRow | AcksRow | WritesSettings | BuildEnds | Verifies => BuildStep(s, a)
    case CopiesRetired | UnlinksFile | RestoresUnlinked | SavesRetired | Activates | Serves(_) => RetireStep(s, a)
    case CancelBegins | CancelEnds | DiscardsRow => CancelStep(s, a)
    case _ => RollbackStep(k, s, a)
  }

  /** A run: steps whose guards refuse them leave the state alone. */
  function Run(k: AccountCodecs, s: State, steps: seq<Step>): State
    decreases steps
  {
    if steps == [] then s
    else match Next(k, s, steps[0])
         case Some(t) => Run(k, t, steps[1..])
         case None => Run(k, s, steps[1..])
  }

  /** Any installation before its first migration. */
  function Start(file: Option<Value>): State {
    State(file, None, map[], Free, InFile(file))
  }

  // ----- What every step keeps --------------------------------------------

  /** The tokens a pool file lists, in order. */
  function DocTokens(doc: Value): seq<string> {
    if doc.Obj? && "accounts" in doc.fields && doc.fields["accounts"].Arr? then
      var rows := doc.fields["accounts"].items;
      seq(|rows|, i requires 0 <= i < |rows| => RowToken(rows[i]))
    else []
  }

  function RowToken(row: Value): string {
    if row.Obj? && "refreshToken" in row.fields && row.fields["refreshToken"].Str? then row.fields["refreshToken"].s
    else ""
  }

  /** A captured generation's journal, backup and manifest all stem from one pool file. */
  predicate GenSound(k: AccountCodecs, g: Gen) {
    var j := g.journal;
    Sound(k, j) && j.kind != Generation
    && (j.kind == File ==> g.backup == j.source && Parse(k, j.source.value, j.manifest.clock) == Some(j.manifest))
  }

  predicate StagedSound(k: AccountCodecs, g: Gen) {
    GenSound(k, g) && g.rows == [] && !g.journal.cancelled && g.journal.operation == Migrate
    && (if g.journal.kind == File
        then g.journal.status == Pending && g.journal.phase == Capture && g.journal.completed == [] && !g.settled
        else g.journal.status == Active)
  }

  /** Part of the manifest is imported: the acknowledged rows, and at most one more. */
  predicate PartlyImported(g: Gen) {
    MappingFits(g.journal)
    && var all := ManifestRows(g.journal);
       |g.journal.completed| <= |g.rows| <= |g.journal.completed| + 1 && |g.rows| <= |all| && g.rows == all[..|g.rows|]
       && (g.settled ==> |g.journal.completed| == |all|)
  }

  /** While a pool file is being imported it, or its retired copy and the whole import, exists. */
  predicate ImportingSound(s: State, g: Gen) {
    var j := g.journal;
    j.kind == File && s.held == InFile(j.source)
    && match j.phase
       case Capture => s.file == j.source && g.rows == [] && !g.settled && j.completed == []
       case Build => s.file == j.source && PartlyImported(g)
       case Verify => s.file == j.source && Imported(g)
       case Retire => Imported(g) && (s.file == j.source || (s.file.None? && g.retired == j.source))
       case Activate => Imported(g) && s.file.None? && g.retired == j.source
  }

  /** The document is what these rows export to under some routing settings. */
  ghost predicate Exports(k: AccountCodecs, rows: seq<Row>, doc: Value) {
    exists routing :: Exported(k, rows, routing) == Some(doc)
  }

  ghost predicate RollingBackSound(k: AccountCodecs, s: State, g: Gen) {
    s.held == InStore(g.rows) && g.journal.rollback.Some?
    && g.journal.rollback.value.rows == Ids(g.rows) && Exports(k, g.rows, g.journal.rollback.value.exported)
    && DocTokens(g.journal.rollback.value.exported) == Tokens(g.rows)
    && (s.file.None? || (g.journal.phase == Activate && s.file == Some(g.journal.rollback.value.exported)))
  }

  ghost predicate OwnerSound(k: AccountCodecs, s: State, g: Gen) {
    GenSound(k, g)
    && match g.journal.status
       case Inactive => s.held == InFile(s.file)
       case Active => s.held == InStore(g.rows) && s.file.None? && Unique(Ids(g.rows))
       case Pending =>
         if g.journal.cancelled then s.held == InFile(s.file) && s.file == g.journal.source
         else if g.journal.operation == Migrate then ImportingSound(s, g)
         else RollingBackSound(k, s, g)
  }

  ghost predicate Inv(k: AccountCodecs, s: State) {
    (s.lock == WriterHas(true) ==> Writable(s))
    && (forall id | id in s.staged :: StagedSound(k, s.staged[id]))
    && (if s.owner.Some? then OwnerSound(k, s, s.owner.value) else s.held == InFile(s.file))
  }

  lemma WriterKeepsInv(k: AccountCodecs, s: State, a: Step)
    requires Inv(k, s) && WriterStep(s, a).Some?
    ensures Inv(k, WriterStep(s, a).value)
  {
    hide Sound, Parse;
  }

  lemma ParsedAt(k: AccountCodecs, doc: Value, clock: real)
    requires Suits(k) && Parse(k, doc, clock).Some?
    ensures Parse(k, doc, clock).value.clock == clock
    ensures ManifestAccepted(k, Parse(k, doc, clock).value) && 1 <= Parse(k, doc, clock).value.sourceVersion <= 4
  {
    ParsedManifestAccepted(k, doc, clock);
  }

  lemma CaptureKeepsInv(k: AccountCodecs, s: State, id: string, clock: real, ids: seq<string>)
    requires Suits(k) && Inv(k, s) && HandoffStep(k, s, CaptureFile(id, clock, ids)).Some?
    ensures Inv(k, HandoffStep(k, s, CaptureFile(id, clock, ids)).value)
  {
    hide Parse, Sound, ManifestAccepted, RollingBackSound, ImportingSound;
    ParsedAt(k, s.file.value, clock);
    CaptureIsSound(k, id, ANCHOR, s.file.value, Parse(k, s.file.value, clock).value, ids);
  }

  lemma StageEmptyKeepsInv(k: AccountCodecs, s: State, id: string, clock: real)
    requires Suits(k) && Inv(k, s) && HandoffStep(k, s, StagesEmpty(id, clock)).Some?
    ensures Inv(k, HandoffStep(k, s, StagesEmpty(id, clock)).value)
  {
    FreshIsSound<Value>(k, id, ANCHOR, clock);
  }

  lemma PublishKeepsInv(k: AccountCodecs, s: State, a: Step)
    requires Inv(k, s) && HandoffStep(k, s, a).Some? && (a.Publish? || a.PublishesEmpty?)
    ensures Inv(k, HandoffStep(k, s, a).value)
  {
  }

  lemma HandoffKeepsInv(k: AccountCodecs, s: State, a: Step)
    requires Suits(k) && Inv(k, s) && HandoffStep(k, s, a).Some?
    ensures Inv(k, HandoffStep(k, s, a).value)
  {
    if a.CaptureFile? {
      CaptureKeepsInv(k, s, a.id, a.clock, a.ids);
    } else if a.StagesEmpty? {
      StageEmptyKeepsInv(k, s, a.id, a.clock);
    } else {
      PublishKeepsInv(k, s, a);
    }
  }

  lemma OneMoreRow(g: Gen)
    requires PartlyImported(g) && |g.rows| == |g.journal.completed| < |g.journal.mapping|
    ensures var i := |g.journal.completed|;
            PartlyImported(g.(rows := g.rows + [RowOf(g.journal.mapping[i], g.journal.manifest.accounts[i])]))
  {
    var all := ManifestRows(g.journal);
    assert all[..|g.rows| + 1] == all[..|g.rows|] + [all[|g.rows|]];
  }

  lemma AddRowKeepsInv(k: AccountCodecs, s: State)
    requires Inv(k, s) && BuildStep(s, AddsRow).Some?
    ensures Inv(k, BuildStep(s, AddsRow).value)
  {
    OneMoreRow(s.owner.value);
  }

  lemma AckedRow(g: Gen)
    requires PartlyImported(g) && Enabled(g.journal, AckRow) && g.journal.kind == File
    requires |g.rows| == |g.journal.completed| + 1
    ensures PartlyImported(g.(journal := Apply(g.journal, AckRow)))
  {
    var j := Apply(g.journal, AckRow);
    assert MappingFits(j);
    assert ManifestRows(j) == ManifestRows(g.journal);
  }

  lemma AckRowKeepsInv(k: AccountCodecs, s: State)
    requires Inv(k, s) && BuildStep(s, AcksRow).Some?
    ensures Inv(k, BuildStep(s, AcksRow).value)
  {
    AckedRow(s.owner.value);
    ChangesAreAccepted(k, s.owner.value.journal, AckRow);
  }

  lemma BuildStartKeepsInv(k: AccountCodecs, s: State)
    requires Inv(k, s) && BuildStep(s, BuildStarts).Some?
    ensures Inv(k, BuildStep(s, BuildStarts).value)
  {
    hide Parse;
    ChangesAreAccepted(k, s.owner.value.journal, BeginBuild);
  }

  lemma BuildEndKeepsInv(k: AccountCodecs, s: State)
    requires Inv(k, s) && BuildStep(s, BuildEnds).Some?
    ensures Inv(k, BuildStep(s, BuildEnds).value)
  {
    hide Parse;
    var g := s.owner.value;
    ChangesAreAccepted(k, g.journal, FinishBuild);
    assert ManifestRows(g.journal)[..|g.rows|] == ManifestRows(g.journal);
  }

  lemma BuildKeepsInv(k: AccountCodecs, s: State, a: Step)
    requires Inv(k, s) && BuildStep(s, a).Some?
    ensures Inv(k, BuildStep(s, a).value)
  {
    if a.AddsRow? {
      AddRowKeepsInv(k, s);
    } else if a.AcksRow? {
      AckRowKeepsInv(k, s);
    } else if a.BuildStarts? {
      BuildStartKeepsInv(k, s);
    } else if a.BuildEnds? {
      BuildEndKeepsInv(k, s);
    } else if a.Verifies? {
      ChangesAreAccepted(k, s.owner.value.journal, RecordVerified);
    }
  }

  lemma RetiredSaveKeepsInv(k: AccountCodecs, s: State)
    requires Inv(k, s) && RetireStep(s, SavesRetired).Some?
    ensures Inv(k, RetireStep(s, SavesRetired).value)
  {
    hide Parse;
    ChangesAreAccepted(k, s.owner.value.journal, RecordRetired);
  }

  lemma ActivationKeepsInv(k: AccountCodecs, s: State)
    requires Inv(k, s) && RetireStep(s, Activates).Some?
    ensures Inv(k, RetireStep(s, Activates).value)
  {
    hide Parse;
    ChangesAreAccepted(k, s.owner.value.journal, GoActive);
    var g := s.owner.value;
    assert forall i | 0 <= i < |g.rows| :: Ids(g.rows)[i] == g.journal.mapping[i].id;
  }

  lemma RetireKeepsInv(k: AccountCodecs, s: State, a: Step)
    requires Inv(k, s) && RetireStep(s, a).Some?
    ensures Inv(k, RetireStep(s, a).value)
  {
    hide Sound, Parse;
    if a.SavesRetired? {
      RetiredSaveKeepsInv(k, s);
    } else if a.Activates? {
      ActivationKeepsInv(k, s);
    }
  }

  lemma CancelKeepsInv(k: AccountCodecs, s: State, a: Step)
    requires Inv(k, s) && CancelStep(s, a).Some?
    ensures Inv(k, CancelStep(s, a).value)
  {
    hide Parse, StagedSound, RollingBackSound, ManifestAccepted;
    var j := s.owner.value.journal;
    match a
    case CancelBegins => ChangesAreAccepted(k, j, BeginCancel);
    case CancelEnds => ChangesAreAccepted(k, j, FinishCancel);
    case _ =>
  }

  /** An exported document lists the rows' tokens, in their order. */
  lemma ExportKeepsTokens(k: AccountCodecs, rows: seq<Row>, routing: Value)
    requires Suits(k) && Exported(k, rows, routing).Some?
    ensures DocTokens(Exported(k, rows, routing).value) == Tokens(rows)
  {
    var accounts := AccountsOf(rows);
    var out := ExportRows(k, accounts);
    forall i | 0 <= i < |rows| ensures RowToken(out[i]) == rows[i].token {
      ExportedToken(k, accounts[i]);
    }
  }

  lemma ExportedToken(k: AccountCodecs, a: Account)
    requires Suits(k) && ExportAccount(k, a).Some?
    ensures RowToken(Obj(ExportAccount(k, a).value)) == a.refreshToken
  {
    TokenIsNoQuotaField();
    if a.quota.Some? {
      EncodedKeys(k.quota, a.quota.value);
    }
  }

  lemma RollbackBeginKeepsInv(k: AccountCodecs, s: State, routing: Value)
    requires Suits(k) && Inv(k, s) && RollbackStep(k, s, RollbackBegins(routing)).Some?
    ensures Inv(k, RollbackStep(k, s, RollbackBegins(routing)).value)
  {
    hide Parse, Exported, DocTokens, StagedSound, ImportingSound, Ids, Tokens, ManifestAccepted, MappingFits;
    hide RelocationFits, RollbackFits, ProgressFits, KindFits;
    var g := s.owner.value;
    ExportKeepsTokens(k, g.rows, routing);
    ChangesAreAccepted(k, g.journal, BeginRollback(Ids(g.rows), Exported(k, g.rows, routing).value));
    assert Exports(k, g.rows, Exported(k, g.rows, routing).value);
  }

  /** A change to a rollback's journal that leaves the store, the file and the export alone. */
  lemma RollbackChangeKeepsInv(k: AccountCodecs, s: State, c: Change<Value>)
    requires Inv(k, s) && Can(s, c)
    requires c.RollbackBuild? || c.RollbackVerify? || c.RollbackRetire? || c.RollbackInactive? || c.RollbackActivate?
    ensures Inv(k, Save(s, c))
  {
    ChangesAreAccepted(k, s.owner.value.journal, c);
  }

  lemma RollbackKeepsInv(k: AccountCodecs, s: State, a: Step)
    requires Suits(k) && Inv(k, s) && RollbackStep(k, s, a).Some?
    ensures Inv(k, RollbackStep(k, s, a).value)
  {
    hide Parse, Sound, Exported, DocTokens, StagedSound, ImportingSound, Inv;
    match a
    case RollbackBegins(routing) => RollbackBeginKeepsInv(k, s, routing);
    case RollbackBuilds => RollbackChangeKeepsInv(k, s, RollbackBuild);
    case RollbackVerifies => RollbackChangeKeepsInv(k, s, RollbackVerify);
    case RollbackRetires(_) => RollbackChangeKeepsInv(k, s, RollbackRetire);
    case RollbackGoesInactive => RollbackChangeKeepsInv(k, s, RollbackInactive);
    case RollbackActivates => RollbackChangeKeepsInv(k, s, RollbackActivate);
    case RollbackEnds => RollbackEndKeepsInv(k, s);
    case RestoresFile(_) => RestoredFileKeepsInv(k, s, a);
    case _ =>
  }

  lemma RollbackEndKeepsInv(k: AccountCodecs, s: State)
    requires Inv(k, s) && RollbackStep(k, s, RollbackEnds).Some?
    ensures Inv(k, RollbackStep(k, s, RollbackEnds).value)
  {
    hide Parse, Sound, Exported, Exports, DocTokens, StagedSound, ImportingSound;
    ChangesAreAccepted(k, s.owner.value.journal, FinishRollback);
  }

  lemma RestoredFileKeepsInv(k: AccountCodecs, s: State, a: Step)
    requires Inv(k, s) && a.RestoresFile? && RollbackStep(k, s, a).Some?
    ensures Inv(k, RollbackStep(k, s, a).value)
  {
    hide Parse, Sound, Exported, Exports, DocTokens, StagedSound, ImportingSound;
  }

  lemma StepKeepsInv(k: AccountCodecs, s: State, a: Step)
    requires Suits(k) && Inv(k, s) && Next(k, s, a).Some?
    ensures Inv(k, Next(k, s, a).value)
  {
    hide Inv;
    if WriterStep(s, a).Some? {
      WriterKeepsInv(k, s, a);
    } else if HandoffStep(k, s, a).Some? {
      HandoffKeepsInv(k, s, a);
    } else if BuildStep(s, a).Some? {
      BuildKeepsInv(k, s, a);
    } else if RetireStep(s, a).Some? {
      RetireKeepsInv(k, s, a);
    } else if CancelStep(s, a).Some? {
      CancelKeepsInv(k, s, a);
    } else {
      RollbackKeepsInv(k, s, a);
    }
  }

  /** The invariant holds after every run from every installation. */
  lemma {:induction false} RunKeepsInv(k: AccountCodecs, s: State, steps: seq<Step>)
    requires Suits(k) && Inv(k, s)
    ensures Inv(k, Run(k, s, steps))
    decreases steps
  {
    if steps != [] {
      match Next(k, s, steps[0]) {
        case Some(t) =>
          StepKeepsInv(k, s, steps[0]);
          RunKeepsInv(k, t, steps[1..]);
        case None => RunKeepsInv(k, s, steps[1..]);
      }
    }
  }

  // ----- Main results -----------------------------------------------------

  /** A legacy writer can only write while no published generation is pending or active. */
  lemma NoWriteUnderTheStore(k: AccountCodecs, file: Option<Value>, steps: seq<Step>, doc: Value)
    requires Suits(k)
    ensures var s := Run(k, Start(file), steps);
            (Next(k, s, WriterWrites(doc)).Some? || Next(k, s, WriterDeletes).Some?) ==>
              Writable(s) && !Admitted(s) && s.held == InFile(s.file)
  {
    hide Sound, Parse, StagedSound, PartlyImported, Imported;
    RunKeepsInv(k, Start(file), steps);
  }

  /**
    No accepted legacy write is lost at the handoff: while a published migration is pending, its
    manifest is the split of the last write the guard accepted.
   */
  lemma HandoffHoldsTheLastWrite(k: AccountCodecs, file: Option<Value>, steps: seq<Step>)
    requires Suits(k)
    ensures var s := Run(k, Start(file), steps);
            s.owner.Some? && Journals.Running(s.owner.value.journal, Migrate) ==>
              s.held.InFile? && s.held.doc.Some?
              && var m := s.owner.value.journal.manifest; Parse(k, s.held.doc.value, m.clock) == Some(m)
  {
    RunKeepsInv(k, Start(file), steps);
  }

  /** Some durable place holds the accounts exactly as last established. */
  predicate Recoverable(s: State) {
    match s.held
    case InFile(doc) =>
      s.file == doc
      || (s.file.None? && s.owner.Some? && s.owner.value.retired == doc
          && s.owner.value.journal.verified == Some(s.owner.value.journal.manifest) && Imported(s.owner.value))
    case InStore(rows) => s.owner.Some? && s.owner.value.rows == rows
  }

  /**
    After every run, stopped anywhere: the pool file holds the accounts, or it is gone and both its
    byte-equal retired copy and the complete verified import hold them, or the store does.
   */
  lemma CredentialsAreRecoverable(k: AccountCodecs, file: Option<Value>, steps: seq<Step>)
    requires Suits(k)
    ensures Recoverable(Run(k, Start(file), steps))
  {
    RunKeepsInv(k, Start(file), steps);
  }

  function AccountTokens(accounts: seq<Account>): seq<string> {
    seq(|accounts|, i requires 0 <= i < |accounts| => accounts[i].refreshToken)
  }

  /** How a step may change what the accounts are. */
  ghost predicate KeepsCredentials(k: AccountCodecs, s: State, t: State, a: Step) {
    if a.WriterWrites? || a.WriterDeletes? then t.held == InFile(t.file) && s.lock == WriterHas(true)
    else if a.Serves? then Admitted(s) && t.held == InStore(a.rows)
    else
      t.held == s.held
      || (s.held.InFile? && t.held.InStore?
          && if s.held.doc.None? then t.held.rows == []
             else exists clock ::
                    Parse(k, s.held.doc.value, clock).Some?
                    && Tokens(t.held.rows) == AccountTokens(Parse(k, s.held.doc.value, clock).value.accounts))
      || (s.held.InStore? && t.held.InFile? && t.held.doc.Some? && DocTokens(t.held.doc.value) == Tokens(s.held.rows))
  }

  /**
    Only accepted legacy writes and the serving store change the accounts. When authority passes to
    the store its rows hold exactly the pool file's tokens, in order; when a rollback passes it back
    the restored file lists exactly the store's current tokens.
   */
  lemma AuthorityPassesWithItsTokens(k: AccountCodecs, file: Option<Value>, steps: seq<Step>, a: Step)
    requires Suits(k) && Next(k, Run(k, Start(file), steps), a).Some?
    ensures var s := Run(k, Start(file), steps);
            KeepsCredentials(k, s, Next(k, s, a).value, a)
  {
    RunKeepsInv(k, Start(file), steps);
    StepKeepsCredentials(k, Run(k, Start(file), steps), a);
  }

  /** Building, cancelling and all but the last rollback step leave `held` alone. */
  lemma QuietSteps(k: AccountCodecs, s: State, a: Step)
    ensures BuildStep(s, a).Some? ==> BuildStep(s, a).value.held == s.held
    ensures CancelStep(s, a).Some? ==> CancelStep(s, a).value.held == s.held
    ensures RollbackStep(k, s, a).Some? && !a.RollbackEnds? ==> RollbackStep(k, s, a).value.held == s.held
    ensures RetireStep(s, a).Some? && !a.Activates? && !a.Serves? ==> RetireStep(s, a).value.held == s.held
    ensures HandoffStep(k, s, a).Some? && !a.PublishesEmpty? ==> HandoffStep(k, s, a).value.held == s.held
  {
  }

  lemma StepKeepsCredentials(k: AccountCodecs, s: State, a: Step)
    requires Inv(k, s) && Next(k, s, a).Some?
    ensures KeepsCredentials(k, s, Next(k, s, a).value, a)
  {
    hide Sound, Parse, Imported, PartlyImported;
    QuietSteps(k, s, a);
    if a.Activates? {
      ActivationKeepsTokens(k, s);
    } else if a.PublishesEmpty? {
      assert StagedSound(k, s.staged[a.id]);
    } else if a.RollbackEnds? {
      assert RollingBackSound(k, s, s.owner.value);
    }
  }

  lemma ActivationKeepsTokens(k: AccountCodecs, s: State)
    requires Inv(k, s) && RetireStep(s, Activates).Some?
    ensures s.held.InFile? && s.held.doc.Some?
    ensures var j := s.owner.value.journal;
            Parse(k, s.held.doc.value, j.manifest.clock).Some?
            && RetireStep(s, Activates).value.held.InStore?
            && Tokens(RetireStep(s, Activates).value.held.rows)
               == AccountTokens(Parse(k, s.held.doc.value, j.manifest.clock).value.accounts)
  {
    hide Parse;
    var g := s.owner.value;
    assert ImportingSound(s, g);
    assert Tokens(ManifestRows(g.journal)) == AccountTokens(g.journal.manifest.accounts);
  }

  // ----- A stopped migration can always be finished ------------------------

  /** The migrator's next step from a pending import; `MigratorLocks` where it needs the accounts lock. */
  function Resume(s: State): Step
    requires s.owner.Some? && Journals.Running(s.owner.value.journal, Migrate)
  {
    var g := s.owner.value;
    match g.journal.phase
    case Capture => BuildStarts
    case Build =>
      if |g.rows| > |g.journal.completed| then AcksRow
      else if |g.journal.completed| < |g.journal.mapping| then AddsRow
      else if !g.settled then WritesSettings
      else BuildEnds
    case Verify => Verifies
    case Retire =>
      if s.file.None? then SavesRetired
      else if !s.lock.MigratorHas? then (if s.lock.Free? then MigratorLocks else Unlocks)
      else if g.retired != g.journal.source then CopiesRetired
      else UnlinksFile
    case Activate => Activates
  }

  /** How far a pending import still is from its activation. */
  function Left(s: State): nat
    requires s.owner.Some?
  {
    var g := s.owner.value;
    8 * Remaining(g.journal) + Bit(!g.settled)
    + Bit(g.journal.phase == Build && |g.rows| == |g.journal.completed|)
    + (if g.journal.phase == Retire && s.file.Some?
       then 1 + Bit(g.retired != g.journal.source)
            + (match s.lock case MigratorHas => 0 case Free => 1 case WriterHas(_) => 2)
       else 0)
  }

  /** `t` is nearer to activating the same generation, or has activated it. */
  predicate Forward(s: State, t: State)
    requires s.owner.Some?
  {
    t.owner.Some? && t.owner.value.journal.id == s.owner.value.journal.id && Left(t) < Left(s)
    && (Journals.Running(t.owner.value.journal, Migrate) || t.owner.value.journal.status == Active)
  }

  predicate ImportRunning(s: State) {
    s.owner.Some? && Journals.Running(s.owner.value.journal, Migrate) && ImportingSound(s, s.owner.value)
    && MappingFits(s.owner.value.journal)
  }

  lemma RowsResume(s: State)
    requires ImportRunning(s) && (Running(s, Migrate, Capture) || Running(s, Migrate, Build))
    ensures BuildStep(s, Resume(s)).Some? && Forward(s, BuildStep(s, Resume(s)).value)
  {
  }

  lemma VerifyResumes(s: State)
    requires ImportRunning(s) && Running(s, Migrate, Verify) && s.owner.value.backup == s.owner.value.journal.source
    ensures BuildStep(s, Verifies).Some? && Forward(s, BuildStep(s, Verifies).value)
  {
  }

  lemma RetireResumes(s: State)
    requires ImportRunning(s) && Running(s, Migrate, Retire) && s.owner.value.journal.source.Some?
    ensures var a := Resume(s);
            if a.MigratorLocks? || a.Unlocks? then WriterStep(s, a).Some? && Forward(s, WriterStep(s, a).value)
            else RetireStep(s, a).Some? && Forward(s, RetireStep(s, a).value)
  {
  }

  lemma ActivateResumes(s: State)
    requires ImportRunning(s) && Running(s, Migrate, Activate)
    ensures RetireStep(s, Activates).Some? && Forward(s, RetireStep(s, Activates).value)
  {
  }

  lemma ResumeMakesProgress(k: AccountCodecs, s: State)
    requires Inv(k, s) && s.owner.Some? && Journals.Running(s.owner.value.journal, Migrate)
    ensures Next(k, s, Resume(s)).Some? && Forward(s, Next(k, s, Resume(s)).value)
  {
    match s.owner.value.journal.phase
    case Verify => VerifyResumes(s);
    case Retire => RetireResumes(s);
    case Activate => ActivateResumes(s);
    case _ => RowsResume(s);
  }

  /** Wherever a published migration stopped, re-running it alone activates the same generation. */
  lemma {:induction false} MigrationCanFinish(k: AccountCodecs, s: State) returns (steps: seq<Step>)
    requires Suits(k) && Inv(k, s) && s.owner.Some? && Journals.Running(s.owner.value.journal, Migrate)
    ensures var t := Run(k, s, steps);
            t.owner.Some? && t.owner.value.journal.id == s.owner.value.journal.id
            && t.owner.value.journal.status == Active
    decreases Left(s)
  {
    ResumeMakesProgress(k, s);
    StepKeepsInv(k, s, Resume(s));
    var t := Next(k, s, Resume(s)).value;
    var rest := [];
    if Journals.Running(t.owner.value.journal, Migrate) {
      rest := MigrationCanFinish(k, t);
    }
    steps := [Resume(s)] + rest;
    assert steps[1..] == rest;
  }

  // ----- So can a stopped cancellation or rollback ---------------------------

  lemma RunsOn(k: AccountCodecs, s: State, a: Step, rest: seq<Step>)
    requires Next(k, s, a).Some?
    ensures Run(k, s, [a] + rest) == Run(k, Next(k, s, a).value, rest)
  {
    assert ([a] + rest)[1..] == rest;
  }

  lemma CancelledFacts(k: AccountCodecs, s: State)
    requires Inv(k, s) && s.owner.Some? && s.owner.value.journal.status == Pending && s.owner.value.journal.cancelled
    ensures s.owner.value.journal.kind == File && s.file == s.owner.value.journal.source && s.file.Some?
  {
    hide Parse, StagedSound, ManifestAccepted, MappingFits, RelocationFits, ProgressFits, RollbackFits;
    hide CancellationFits;
  }

  lemma CancelEndsIt(k: AccountCodecs, s: State)
    requires s.owner.Some? && s.owner.value.journal.status == Pending && s.owner.value.journal.cancelled
    requires s.owner.value.journal.kind == File && s.lock.MigratorHas? && FileIsSource(s)
    ensures Next(k, s, CancelEnds).Some?
    ensures var t := Next(k, s, CancelEnds).value;
            t.owner.Some? && t.owner.value.journal.id == s.owner.value.journal.id
            && t.owner.value.journal.status == Inactive && t.file == s.file && t.held == s.held
  {
  }

  /** Wherever a cancellation stopped, it can be ended with the pool file as it was captured. */
  lemma CancellationCanFinish(k: AccountCodecs, s: State)
    requires Suits(k) && Inv(k, s) && s.owner.Some? && s.owner.value.journal.status == Pending
    requires s.owner.value.journal.cancelled
    ensures var t := Run(k, s, [Unlocks, MigratorLocks, CancelEnds]);
            t.owner.Some? && t.owner.value.journal.id == s.owner.value.journal.id
            && t.owner.value.journal.status == Inactive && t.file == s.owner.value.journal.source && t.held == s.held
  {
    hide Inv;
    CancelledFacts(k, s);
    var s1 := s.(lock := Free);
    var s2 := s.(lock := MigratorHas);
    assert Next(k, s, Unlocks) == Some(s1) && Next(k, s1, MigratorLocks) == Some(s2);
    CancelEndsIt(k, s2);
    hide Next;
    RunsOn(k, s, Unlocks, [MigratorLocks, CancelEnds]);
    RunsOn(k, s1, MigratorLocks, [CancelEnds]);
    RunsOn(k, s2, CancelEnds, []);
    assert [CancelEnds] + [] == [CancelEnds];
    assert [Unlocks] + [MigratorLocks, CancelEnds] == [Unlocks, MigratorLocks, CancelEnds];
    assert [MigratorLocks] + [CancelEnds] == [MigratorLocks, CancelEnds];
  }

  predicate RollingBack(s: State) {
    s.owner.Some? && Journals.Running(s.owner.value.journal, Rollback)
  }

  /** The next step of a resumed rollback, the store's settings being `routing`. */
  function ResumeRollback(s: State, routing: Value): Step
    requires RollingBack(s)
  {
    var j := s.owner.value.journal;
    match j.phase
    case Capture => RollbackBuilds
    case Build => RollbackVerifies
    case Verify => RollbackRetires(routing)
    case Retire =>
      if j.rollback.Some? && j.rollback.value.successorInactive then RollbackActivates else RollbackGoesInactive
    case Activate =>
      if !s.lock.MigratorHas? then (if s.lock.Free? then MigratorLocks else Unlocks)
      else if s.file.None? then RestoresFile(routing)
      else RollbackEnds
  }

  /** How far a pending rollback still is from its end. */
  function RollbackLeft(s: State): nat
    requires s.owner.Some?
  {
    4 * Remaining(s.owner.value.journal) + Bit(s.file.None?)
    + (match s.lock case MigratorHas => 0 case Free => 1 case WriterHas(_) => 2)
  }

  /** What a pending rollback goes on from. */
  predicate Resumable(k: AccountCodecs, s: State, routing: Value) {
    RollingBack(s) && s.owner.value.journal.kind != Generation && Unchanged(k, s.owner.value, routing)
    && (s.file.None? || (s.owner.value.journal.phase == Activate
                         && s.file == Some(s.owner.value.journal.rollback.value.exported)))
  }

  lemma RollbackIsResumable(k: AccountCodecs, s: State) returns (routing: Value)
    requires Inv(k, s) && RollingBack(s)
    ensures Resumable(k, s, routing)
    ensures DocTokens(s.owner.value.journal.rollback.value.exported) == Tokens(s.owner.value.rows)
  {
    hide StagedSound, DocTokens, ImportingSound, Exported, GenSound;
    GenIsSound(k, s);
    var g := s.owner.value;
    assert RollingBackSound(k, s, g);
    routing :| Exported(k, g.rows, routing) == Some(g.journal.rollback.value.exported);
  }

  lemma GenIsSound(k: AccountCodecs, s: State)
    requires Inv(k, s) && s.owner.Some?
    ensures s.owner.value.journal.kind != Generation
  {
    hide StagedSound, DocTokens, ImportingSound, Exported, Sound, Parse;
  }

  lemma RollbackBuildResumes(k: AccountCodecs, s: State, routing: Value)
    requires Resumable(k, s, routing) && (Running(s, Rollback, Capture) || Running(s, Rollback, Build))
    ensures var a := ResumeRollback(s, routing);
            RollbackStep(k, s, a).Some? && RollbackForward(s, RollbackStep(k, s, a).value)
  {
    hide Exported, Ids;
  }

  lemma RollbackVerifyResumes(k: AccountCodecs, s: State, routing: Value)
    requires Resumable(k, s, routing) && Running(s, Rollback, Verify)
    ensures var a := ResumeRollback(s, routing);
            RollbackStep(k, s, a).Some? && RollbackForward(s, RollbackStep(k, s, a).value)
  {
    hide Exported, Ids;
  }

  lemma RollbackRetireResumes(k: AccountCodecs, s: State, routing: Value)
    requires Resumable(k, s, routing) && Running(s, Rollback, Retire)
    ensures var a := ResumeRollback(s, routing);
            RollbackStep(k, s, a).Some? && RollbackForward(s, RollbackStep(k, s, a).value)
  {
    hide Exported, Ids;
  }

  lemma ChangeResumes(k: AccountCodecs, s: State, routing: Value)
    requires Resumable(k, s, routing) && s.owner.value.journal.phase != Activate
    ensures var a := ResumeRollback(s, routing);
            RollbackStep(k, s, a).Some? && RollbackForward(s, RollbackStep(k, s, a).value)
  {
    hide RollbackStep, RollbackForward, Unchanged;
    match s.owner.value.journal.phase
    case Verify => RollbackVerifyResumes(k, s, routing);
    case Retire => RollbackRetireResumes(k, s, routing);
    case _ => RollbackBuildResumes(k, s, routing);
  }

  lemma EndResumes(k: AccountCodecs, s: State, routing: Value)
    requires Resumable(k, s, routing) && s.owner.value.journal.phase == Activate
    ensures var a := ResumeRollback(s, routing);
            Next(k, s, a).Some? && RollbackForward(s, Next(k, s, a).value)
  {
    hide Exported, Ids, HandoffStep, BuildStep, RetireStep, CancelStep;
  }

  /** `t` is nearer to the end of the same rollback, or at it, with the exported document restored. */
  predicate RollbackForward(s: State, t: State)
    requires RollingBack(s)
  {
    var j := s.owner.value.journal;
    t.owner.Some? && t.owner.value.journal.id == j.id && t.owner.value.rows == s.owner.value.rows
    && j.rollback.Some? && RollbackLeft(t) < RollbackLeft(s)
    && if t.owner.value.journal.status == Pending
       then RollingBack(t) && t.owner.value.journal.rollback.Some?
            && t.owner.value.journal.rollback.value.exported == j.rollback.value.exported
       else t.owner.value.journal.status == Inactive && t.file == Some(j.rollback.value.exported)
  }

  /** Wherever a rollback stopped, re-running it alone restores the document it exported and ends it. */
  lemma {:induction false} RollbackCanFinish(k: AccountCodecs, s: State) returns (steps: seq<Step>)
    requires Suits(k) && Inv(k, s) && RollingBack(s)
    ensures s.owner.value.journal.rollback.Some?
    ensures var t := Run(k, s, steps);
            t.owner.Some? && t.owner.value.journal.id == s.owner.value.journal.id
            && t.owner.value.journal.status == Inactive && t.file == Some(s.owner.value.journal.rollback.value.exported)
            && DocTokens(t.file.value) == Tokens(s.owner.value.rows)
    decreases RollbackLeft(s)
  {
    var g := s.owner.value;
    var routing := RollbackIsResumable(k, s);
    var a := ResumeRollback(s, routing);
    if g.journal.phase == Activate {
      EndResumes(k, s, routing);
    } else {
      ChangeResumes(k, s, routing);
    }
    StepKeepsInv(k, s, a);
    hide Inv, Exported, Exports, DocTokens, ResumeRollback, RollbackLeft, Next;
    var t := Next(k, s, a).value;
    var rest := [];
    if t.owner.value.journal.status == Pending {
      rest := RollbackCanFinish(k, t);
    }
    steps := [a] + rest;
    RunsOn(k, s, a, rest);
  }
}
