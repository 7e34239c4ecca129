/**
  Moving an account store between two anchors, back, and forward again
  (packages/core/src/account-migration.ts:3585-4345, 4388-4758), and what either anchor binds to
  meanwhile (156-318, 2555-2735, 4344-4386).

  One anchor holds the original generation; the other publishes at most one moved copy. Each
  durable write is a step, as is each comparison of the two stores, and a driver may stop between
  any two. Sessions begin nothing while a driver runs, but a write one had admitted before may land
  in its store at any time (`Lands`). `truth` is a history variable, the rows as last written by a
  session; `late` records whether a session ever wrote where `Timely` does not hold.
 */
module Relocation {
  import opened Text
  import opened Legacy
  import opened Journals

  /** A store's rows: the roster kept in the config file and the credentials kept in the state file. */
  datatype Rows = Rows(roster: seq<string>, credentials: Option<map<string, string>>)

  datatype Management = NoRecord | HeldByMove(move: string) | BuildingMove(move: string) | Repository

  datatype Config = Config(roster: seq<string>, generation: string, management: Management)

  datatype Files = Files(config: Option<Config>, credentials: Option<map<string, string>>)

  datatype Moved = Moved(journal: Journal<Rows>, files: Files)

  /** What the running driver has compared, and not yet acted on: nothing compares it again. */
  datatype Seen =
    | Nothing
    | AtStart | AtVerify           // the source is what was captured
    | AtDrain                      // and was so under the tombstone, all refresh locks held
    | AtBack(copy: Rows)           // the rows copied back are the moved store's
    | AtReturn                     // the original still is the recorded copy

  datatype State = State(
    original: Files,
    forward: Option<string>,     // the old anchor's pointer: the original generation, or a forward to this one
    target: Option<Moved>,       // what the new anchor publishes
    staged: Option<Moved>,       // captured in this run, not yet published
    poolFiles: bool,             // a pool file reappeared at one of the anchors
    running: bool,               // a driver holds the topology locks
    seen: Seen,
    truth: Rows,
    late: bool)

  datatype Step =
    | DriverStarts | DriverStops
    // forward (3585-3659, 4046-4318)
    | StagesMove(id: string) | PublishesMove
    | BuildStarts | CopiesState | CopiesConfig | Rekeys | BuildEnds | Verifies
    | WritesTombstone | SavesTombstone | WritesForward | SavesForward | AdoptsForward | Activates | ClearsTarget
    | ComparesSource | ComparesCopy | ComparesLast
    // cancel (3714-3748, 4157-4186)
    | LiftsTombstone | SavesCancel | SavesVerifiedCancel
    // back (4388-4758)
    | CopiesStateBack | CopiesConfigBack | RekeysBack | SavesReversed | RestoresPointer
    | ComparesBack | ComparesReturn
    // sessions and users, while no driver runs
    | Serves(rows: Rows) | RepositoryBegins | RepositoryEnds | PoolFilesChange(present: bool)
    // what a session of either store had under way
    | Lands(at: Holder, rows: Rows)

  const ORIGINAL := "original"
  const OLD_ANCHOR := "old"
  const NEW_ANCHOR := "new"

  function RowsOf(f: Files): Rows {
    Rows(if f.config.Some? then f.config.value.roster else [], f.credentials)
  }

  function WithRows(f: Files, rows: Rows): Files
    requires f.config.Some?
  {
    Files(Some(f.config.value.(roster := rows.roster)), rows.credentials)
  }

  function WithManagement(f: Files, m: Management): Files
    requires f.config.Some?
  {
    f.(config := Some(f.config.value.(management := m)))
  }

  function Reversed(m: Moved): bool {
    m.journal.relocation.Some? && m.journal.relocation.value.reversed
  }

  // ----- Binding ----------------------------------------------------------

  datatype Holder = Original | Target

  /** The files carry this generation's key, and no move holds them. */
  predicate Open(f: Files, id: string) {
    f.config.Some? && f.config.value.generation == id
    && (f.config.value.management == NoRecord || f.config.value.management == Repository)
  }

  /** The new anchor's own generation: active, and still forwarded to by the old anchor. */
  predicate TargetServes(s: State) {
    s.target.Some? && s.target.value.journal.status == Active && !s.poolFiles
    && s.forward == Some(s.target.value.journal.id) && Open(s.target.value.files, s.target.value.journal.id)
  }

  predicate OriginalServes(s: State) {
    !s.poolFiles && s.forward.None? && Open(s.original, ORIGINAL)
  }

  function BindOld(s: State): Option<Holder> {
    if s.forward.None? then if OriginalServes(s) then Some(Original) else None
    else if s.target.Some? && s.target.value.journal.id == s.forward.value && TargetServes(s) then Some(Target)
    else None
  }

  /** A reversed store leads back to the original once the old pointer is restored. */
  function BindNew(s: State): Option<Holder> {
    if s.target.None? then None
    else if Reversed(s.target.value) && s.forward.None? then BindOld(s)
    else if TargetServes(s) then Some(Target)
    else None
  }

  function Bound(s: State): Option<Holder> {
    if BindOld(s).Some? then BindOld(s) else BindNew(s)
  }

  function BoundFiles(s: State): Files
    requires Bound(s).Some?
  {
    if Bound(s) == Some(Original) then s.original else s.target.value.files
  }

  // ----- Steps ------------------------------------------------------------

  /** The destination's earlier copy is finished: cancelled, or reversed and restored. */
  predicate Superseded(s: State) {
    s.target.None? || s.target.value.journal.status == Inactive
    || (Reversed(s.target.value) && s.forward.None?)
  }

  predicate Pending(s: State, phase: Phase) {
    s.running && s.target.Some? && Journals.Running(s.target.value.journal, Migrate)
    && s.target.value.journal.phase == phase && s.target.value.journal.relocation.Some?
    && s.target.value.journal.source.Some?
  }

  /** `sourceMatches`: apart from management, the source still is what was copied. */
  predicate SourceMatches(s: State) {
    s.target.Some? && Some(RowsOf(s.original)) == s.target.value.journal.source && s.original.config.Some?
    && s.original.config.value.generation == ORIGINAL
    && (s.original.config.value.management == NoRecord
        || s.original.config.value.management == HeldByMove(s.target.value.journal.id))
  }

  predicate Can(s: State, c: Change<Rows>) {
    s.running && s.target.Some? && s.target.value.journal.relocation.Some? && Enabled(s.target.value.journal, c)
  }

  function Save(s: State, c: Change<Rows>): State
    requires Can(s, c)
  {
    s.(target := Some(s.target.value.(journal := Apply(s.target.value.journal, c))))
  }

  function SaveIf(s: State, guard: bool, c: Change<Rows>): Option<State> {
    if guard && Can(s, c) then Some(Save(s, c)) else None
  }

  function PutTarget(s: State, f: Files): State
    requires s.target.Some?
  {
    s.(target := Some(s.target.value.(files := f)))
  }

  function CaptureStep(s: State, a: Step): Option<State> {
    match a
    case DriverStarts => if !s.running && !s.poolFiles then Some(s.(running := true)) else None
    case DriverStops => Some(s.(running := false, staged := None, seen := Nothing))
    case StagesMove(id) =>
      if s.running && s.forward.None? && Superseded(s) && id != ORIGINAL && Unique(RowsOf(s.original).roster)
         && (s.target.Some? ==> s.target.value.journal.id != id)
         && s.original.config.Some? && s.original.config.value.generation == ORIGINAL
         && s.original.config.value.management == NoRecord
      then
        var roster := s.original.config.value.roster;
        var journal := MoveJournal(id, NEW_ANCHOR, RowsOf(s.original), 0.0, OLD_ANCHOR, ORIGINAL, roster);
        Some(s.(staged := Some(Moved(journal, Files(None, None)))))
      else None
    case PublishesMove =>
      if s.running && s.staged.Some? && s.forward.None? && Superseded(s)
      then Some(s.(target := s.staged, staged := None, seen := Nothing)) else None
    case _ => None
  }

  function BuildStep(s: State, a: Step): Option<State> {
    match a
    case BuildStarts => SaveIf(s, s.forward.None? && s.seen.AtStart?, BeginBuild)
    case CopiesState =>
      if Pending(s, Build) && s.forward.None? && s.seen.AtStart?
         && (s.target.value.files.credentials.None?
             || s.target.value.files.credentials == s.target.value.journal.source.value.credentials)
      then Some(PutTarget(s, s.target.value.files.(credentials := s.target.value.journal.source.value.credentials)))
      else None
    case CopiesConfig =>
      if Pending(s, Build) && s.forward.None? && s.seen.AtStart? && s.target.value.files.config.None?
         && s.target.value.files.credentials == s.target.value.journal.source.value.credentials
      then
        var roster := s.target.value.journal.source.value.roster;
        Some(PutTarget(s, s.target.value.files.(config := Some(Config(roster, ORIGINAL, NoRecord)))))
      else None
    case Rekeys =>
      if Pending(s, Build) && s.forward.None? && s.seen.AtStart? && s.target.value.files.config.Some?
         && s.target.value.files.credentials == s.target.value.journal.source.value.credentials
         && (s.target.value.files.config.value.generation == ORIGINAL
             || s.target.value.files.config.value.generation == s.target.value.journal.id)
      then
        var id := s.target.value.journal.id;
        var f := s.target.value.files;
        Some(PutTarget(s, f.(config := Some(f.config.value.(generation := id, management := BuildingMove(id))))))
      else None
    case BuildEnds =>
      SaveIf(s, s.target.Some? && s.forward.None? && s.target.value.files.config.Some?
                && s.target.value.files.config.value.generation == s.target.value.journal.id, FinishBuild)
    case Verifies =>
      SaveIf(s, s.target.Some? && s.forward.None? && s.seen.AtVerify?, RecordVerified)
    case _ => None
  }

  /** The comparisons a move makes of its source, each under the source's own locks and then released (3514-3541). */
  function CompareStep(s: State, a: Step): Option<State> {
    match a
    case ComparesSource =>
      if s.running && s.seen.Nothing? && s.forward.None? && s.target.Some?
         && Journals.Running(s.target.value.journal, Migrate) && SourceMatches(s)
      then Some(s.(seen := AtStart)) else None
    case ComparesCopy =>
      if Pending(s, Verify) && s.seen.AtStart? && s.forward.None? && s.target.value.files.config.Some?
         && RowsOf(s.target.value.files) == RowsOf(s.original) && SourceMatches(s)
      then Some(s.(seen := AtVerify)) else None
    case ComparesLast =>
      if Pending(s, Retire) && (s.seen.AtStart? || s.seen.AtVerify?) && s.forward.None?
         && s.target.value.journal.relocation.value.tombstoned && SourceMatches(s)
         && s.original.config.value.management == HeldByMove(s.target.value.journal.id)
      then Some(s.(seen := AtDrain)) else None
    case ComparesBack =>
      if CopyingBack(s) && s.original.config.Some? && s.original.config.value.generation == ORIGINAL
         && s.original.config.value.management == NoRecord && RowsOf(s.original) == RowsOf(s.target.value.files)
      then Some(s.(seen := AtBack(RowsOf(s.original)))) else None
    case ComparesReturn =>
      if s.running && s.target.Some? && Reversed(s.target.value) && s.forward == Some(s.target.value.journal.id)
         && Intact(s) && s.original.config.Some? && s.original.config.value.generation == ORIGINAL
         && s.original.config.value.management == NoRecord
      then Some(s.(seen := AtReturn)) else None
    case _ => None
  }

  /** The original holds what the reverse recorded. */
  predicate Intact(s: State) {
    s.target.Some? && Reversed(s.target.value)
    && s.target.value.journal.relocation.value.reverseCopy == Some(RowsOf(s.original))
  }

  /**
    No operation holds the source: a move's own tombstone is lifted first, anyone else's makes a cancel throw. A
    driver whose last comparison passed no longer cancels.
   */
  predicate Released(s: State) {
    !s.seen.AtDrain? && s.forward.None? && s.original.config.Some? && s.original.config.value.management == NoRecord
  }

  function RetireStep(s: State, a: Step): Option<State> {
    match a
    case WritesTombstone =>
      if Pending(s, Retire) && s.forward.None? && (s.seen.AtStart? || s.seen.AtVerify?) && s.original.config.Some?
         && s.original.config.value.generation == ORIGINAL
         && (s.original.config.value.management == NoRecord
             || s.original.config.value.management == HeldByMove(s.target.value.journal.id))
      then Some(s.(original := WithManagement(s.original, HeldByMove(s.target.value.journal.id)))) else None
    case SavesTombstone =>
      SaveIf(s, s.target.Some? && s.forward.None? && s.original.config.Some?
                && s.original.config.value.management == HeldByMove(s.target.value.journal.id), Change.Tombstone)
    case WritesForward =>
      if Pending(s, Retire) && s.forward.None? && s.seen.AtDrain?
      then Some(s.(forward := Some(s.target.value.journal.id), seen := Nothing)) else None
    case SavesForward => SaveIf(s, s.target.Some? && s.forward == Some(s.target.value.journal.id), Change.Forward)
    case AdoptsForward =>
      SaveIf(s, s.target.Some? && s.forward == Some(s.target.value.journal.id) && !Reversed(s.target.value),
             AdoptForward)
    case Activates => SaveIf(s, s.target.Some? && s.forward == Some(s.target.value.journal.id), GoActive)
    case ClearsTarget =>
      if s.running && s.target.Some? && s.target.value.journal.status == Active && s.target.value.files.config.Some?
         && s.forward == Some(s.target.value.journal.id)
         && s.target.value.files.config.value.management == BuildingMove(s.target.value.journal.id)
      then Some(PutTarget(s, WithManagement(s.target.value.files, NoRecord))) else None
    case LiftsTombstone =>
      if s.running && !s.seen.AtDrain? && s.forward.None? && s.target.Some? && s.original.config.Some?
         && s.target.value.journal.status == Journals.Pending
         && s.original.config.value.management == HeldByMove(s.target.value.journal.id)
      then Some(s.(original := WithManagement(s.original, NoRecord))) else None
    case SavesCancel =>
      SaveIf(s, Released(s), CancelMove)
    case SavesVerifiedCancel => SaveIf(s, Released(s), CancelVerified)
    case _ => None
  }

  /** A move back may copy: the moved store is active, forwarded to, quiet, and not yet reversed. */
  predicate CopyingBack(s: State) {
    s.running && s.target.Some? && s.target.value.journal.status == Active && !Reversed(s.target.value)
    && s.forward == Some(s.target.value.journal.id) && s.target.value.files.config.Some?
    && s.target.value.files.config.value.management == NoRecord
  }

  function BackStep(s: State, a: Step): Option<State> {
    match a
    case CopiesStateBack =>
      if CopyingBack(s) && !s.seen.AtBack?
      then Some(s.(original := s.original.(credentials := s.target.value.files.credentials))) else None
    case CopiesConfigBack =>
      if CopyingBack(s) && !s.seen.AtBack? && s.original.credentials == s.target.value.files.credentials
      then Some(s.(original := s.original.(config := s.target.value.files.config))) else None
    case RekeysBack =>
      if CopyingBack(s) && !s.seen.AtBack? && s.original.config.Some? && s.original.config.value.management == NoRecord
         && s.original.config.value.generation == s.target.value.journal.id
      then Some(s.(original := s.original.(config := Some(s.original.config.value.(generation := ORIGINAL))))) else None
    case SavesReversed =>
      if CopyingBack(s) && s.seen.AtBack? && Can(s, Reverse(s.seen.copy))
      then Some(Save(s, Reverse(s.seen.copy)).(seen := Nothing)) else None
    case RestoresPointer =>
      if s.running && s.target.Some? && s.forward == Some(s.target.value.journal.id) && s.seen.AtReturn?
      then Some(s.(forward := None, seen := Nothing)) else None
    case _ => None
  }

  /** The store has the authority, and no driver has compared it for the last time before it passes that on. */
  predicate Timely(s: State, at: Holder) {
    match at
    case Original => s.forward.None? && !s.seen.AtDrain?
    case Target => s.forward.Some? && s.target.Some? && !Reversed(s.target.value) && !s.seen.AtBack?
  }

  /** A store that was once served, so that a session may have a write under way in it. */
  predicate WasServed(s: State, at: Holder) {
    match at
    case Original => s.original.config.Some?
    case Target => s.target.Some? && s.target.value.journal.status == Active && s.target.value.files.config.Some?
  }

  function FilesAt(s: State, at: Holder): Files
    requires WasServed(s, at)
  {
    match at
    case Original => s.original
    case Target => s.target.value.files
  }

  /** A session's write: it goes to its own store, whatever has become of it. */
  function Written(s: State, at: Holder, rows: Rows): State
    requires WasServed(s, at)
  {
    var f := WithRows(FilesAt(s, at), rows);
    var t := if at == Original then s.(original := f) else PutTarget(s, f);
    t.(truth := rows, late := s.late || !Timely(s, at))
  }

  function PutBound(s: State, f: Files): State
    requires Bound(s).Some?
  {
    if Bound(s) == Some(Original) then s.(original := f) else PutTarget(s, f)
  }

  function SessionStep(s: State, a: Step): Option<State> {
    match a
    case Serves(rows) =>
      if !s.running && Bound(s).Some? then Some(Written(s, Bound(s).value, rows)) else None
    case RepositoryBegins =>
      if !s.running && Bound(s).Some? then Some(PutBound(s, WithManagement(BoundFiles(s), Repository))) else None
    case RepositoryEnds =>
      if !s.running && Bound(s).Some? then Some(PutBound(s, WithManagement(BoundFiles(s), NoRecord))) else None
    case PoolFilesChange(present) => if !s.running then Some(s.(poolFiles := present)) else None
    case Lands(at, rows) => if WasServed(s, at) then Some(Written(s, at, rows)) else None
    case _ => None
  }

  function Next(s: State, a: Step): Option<State> {
    match a
    case DriverStarts | DriverStops | StagesMove(_) | PublishesMove => CaptureStep(s, a)
    case BuildStarts | CopiesState | CopiesConfig | Rekeys | BuildEnds | Verifies => BuildStep(s, a)
    case CopiesStateBack | CopiesConfigBack | RekeysBack | SavesReversed | RestoresPointer => BackStep(s, a)
    case Serves(_) | RepositoryBegins | RepositoryEnds | PoolFilesChange(_) | Lands(_, _) => SessionStep(s, a)
    case ComparesSource | ComparesCopy | ComparesLast | ComparesBack | ComparesReturn => CompareStep(s, a)
    case _ => RetireStep(s, a)
  }

  /** A step whose guards refuse it leaves the state alone. */
  function Do(s: State, a: Step): State {
    if Next(s, a).Some? then Next(s, a).value else s
  }

  function Run(s: State, steps: seq<Step>): State
    decreases steps
  {
    if steps == [] then s else Run(Do(s, steps[0]), steps[1..])
  }

  /** An active store at its original anchor. */
  function Start(rows: Rows): State {
    State(Files(Some(Config(rows.roster, ORIGINAL, NoRecord)), rows.credentials), None, None, None, false, false,
          Nothing, rows, false)
  }

  // ----- What every step keeps --------------------------------------------

  /** The copy's progress, by phase, while the original still holds the authority. */
  predicate CopySound(m: Moved) {
    var j := m.journal;
    var f := m.files;
    j.source.Some?
    && match j.phase
       case Capture => f == Files(None, None)
       case Build =>
         (f.credentials.None? || f.credentials == j.source.value.credentials)
         && (f.config.Some? ==>
               RowsOf(f) == j.source.value
               && (f.config.value.generation == ORIGINAL
                   || (f.config.value.generation == j.id && f.config.value.management == BuildingMove(j.id))))
       case _ =>
         f.config.Some? && RowsOf(f) == j.source.value && f.config.value.generation == j.id
         && f.config.value.management == BuildingMove(j.id)
  }

  predicate MovedSound(k: AccountCodecs, m: Moved) {
    Sound(k, m.journal) && m.journal.kind == Generation && m.journal.id != ORIGINAL
  }

  predicate ForwardSound(s: State) {
    s.target.Some?
    && var m := s.target.value;
       var j := m.journal;
       s.forward == Some(j.id) && !j.cancelled && j.status != Inactive
       && (j.phase == Retire || j.phase == Activate)
       && j.relocation.Some? && j.relocation.value.tombstoned
       && m.files.config.Some? && m.files.config.value.generation == j.id
       && (j.status == Journals.Pending ==> m.files.config.value.management == BuildingMove(j.id))
       && (!s.late ==> RowsOf(m.files) == s.truth)
       && (Reversed(m) ==>
             s.original.config.Some? && s.original.config.value.generation == ORIGINAL
             && s.original.config.value.management == NoRecord
             && (!s.late ==> RowsOf(s.original) == s.truth && Intact(s)))
  }

  predicate HomeSound(s: State) {
    s.original.config.Some? && s.original.config.value.generation == ORIGINAL
    && (!s.late ==> RowsOf(s.original) == s.truth)
    && (s.target.Some? ==>
          var m := s.target.value;
          (m.journal.status == Active ==> Reversed(m))
          && (m.journal.status == Journals.Pending ==>
                !m.journal.cancelled && CopySound(m)
                && m.journal.relocation.Some? && !m.journal.relocation.value.forwarded))
  }

  /** What the running driver has compared still holds, but for a write that landed since. */
  predicate SeenSound(s: State) {
    (s.running ==> !s.poolFiles) && (!s.running ==> s.seen.Nothing?)
    && match s.seen
       case AtDrain =>
         Pending(s, Retire) && s.forward.None? && s.target.value.journal.relocation.value.tombstoned
         && (!s.late ==> s.target.value.journal.source == Some(RowsOf(s.original)))
       case AtBack(copy) =>
         CopyingBack(s) && s.original.config.Some? && s.original.config.value.generation == ORIGINAL
         && s.original.config.value.management == NoRecord
         && (!s.late ==> RowsOf(s.original) == copy == s.truth)
       case AtReturn =>
         s.forward.Some? && s.target.Some? && Reversed(s.target.value) && s.original.config.Some?
         && s.original.config.value.generation == ORIGINAL && s.original.config.value.management == NoRecord
       case _ => true
  }

  predicate SidesSound(s: State) {
    if s.forward.Some? then ForwardSound(s) else HomeSound(s)
  }

  predicate Inv(k: AccountCodecs, s: State) {
    (s.target.Some? ==> MovedSound(k, s.target.value))
    && (s.staged.Some? ==>
          MovedSound(k, s.staged.value) && CopySound(s.staged.value) && s.staged.value.journal.phase == Capture
          && Journals.Running(s.staged.value.journal, Migrate)
          && (s.target.Some? ==> s.target.value.journal.status != Journals.Pending))
    && SidesSound(s) && SeenSound(s)
  }

  lemma CaptureKeepsInv(k: AccountCodecs, s: State, a: Step)
    requires Suits(k) && Inv(k, s) && CaptureStep(s, a).Some?
    ensures Inv(k, CaptureStep(s, a).value)
  {
    if a.StagesMove? {
      MoveIsSound(k, a.id, NEW_ANCHOR, RowsOf(s.original), 0.0, OLD_ANCHOR, ORIGINAL, s.original.config.value.roster);
    }
  }

  lemma BuildSavesKeepInv(k: AccountCodecs, s: State, a: Step)
    requires Inv(k, s) && BuildStep(s, a).Some? && (a.BuildStarts? || a.BuildEnds?)
    ensures Inv(k, BuildStep(s, a).value)
  {
    ChangesAreAccepted(k, s.target.value.journal, if a.BuildStarts? then BeginBuild else FinishBuild);
  }

  lemma VerifyKeepsInv(k: AccountCodecs, s: State)
    requires Inv(k, s) && BuildStep(s, Verifies).Some?
    ensures Inv(k, BuildStep(s, Verifies).value)
  {
    ChangesAreAccepted(k, s.target.value.journal, RecordVerified);
  }

  lemma CopyKeepsInv(k: AccountCodecs, s: State, a: Step)
    requires Inv(k, s) && BuildStep(s, a).Some? && (a.CopiesState? || a.CopiesConfig? || a.Rekeys?)
    ensures Inv(k, BuildStep(s, a).value)
  {
  }

  lemma BuildKeepsInv(k: AccountCodecs, s: State, a: Step)
    requires Inv(k, s) && BuildStep(s, a).Some?
    ensures Inv(k, BuildStep(s, a).value)
  {
    if a.BuildStarts? || a.BuildEnds? {
      BuildSavesKeepInv(k, s, a);
    } else if a.Verifies? {
      VerifyKeepsInv(k, s);
    } else {
      CopyKeepsInv(k, s, a);
    }
  }

  lemma TombstoneKeepsInv(k: AccountCodecs, s: State)
    requires Inv(k, s) && RetireStep(s, SavesTombstone).Some?
    ensures Inv(k, RetireStep(s, SavesTombstone).value)
  {
    ChangesAreAccepted(k, s.target.value.journal, Change.Tombstone);
  }

  lemma ForwardKeepsInv(k: AccountCodecs, s: State, a: Step)
    requires Inv(k, s) && RetireStep(s, a).Some? && (a.SavesForward? || a.AdoptsForward?)
    ensures Inv(k, RetireStep(s, a).value)
  {
    hide CopySound;
    ChangesAreAccepted(k, s.target.value.journal, if a.SavesForward? then Change.Forward else AdoptForward);
  }

  lemma ActivateKeepsInv(k: AccountCodecs, s: State)
    requires Inv(k, s) && RetireStep(s, Activates).Some?
    ensures Inv(k, RetireStep(s, Activates).value)
  {
    ChangesAreAccepted(k, s.target.value.journal, GoActive);
  }

  lemma CancelKeepsInv(k: AccountCodecs, s: State)
    requires Inv(k, s) && RetireStep(s, SavesCancel).Some?
    ensures Inv(k, RetireStep(s, SavesCancel).value)
  {
    hide ManifestAccepted, MappingFits;
    ChangesAreAccepted(k, s.target.value.journal, CancelMove);
  }

  lemma VerifiedCancelKeepsInv(k: AccountCodecs, s: State)
    requires Inv(k, s) && RetireStep(s, SavesVerifiedCancel).Some?
    ensures Inv(k, RetireStep(s, SavesVerifiedCancel).value)
  {
    hide ManifestAccepted, MappingFits;
    ChangesAreAccepted(k, s.target.value.journal, CancelVerified);
  }

  lemma FileWritesKeepInv(k: AccountCodecs, s: State, a: Step)
    requires Inv(k, s) && RetireStep(s, a).Some?
    requires a.WritesTombstone? || a.WritesForward? || a.ClearsTarget? || a.LiftsTombstone?
    ensures Inv(k, RetireStep(s, a).value)
  {
  }

  lemma RetireKeepsInv(k: AccountCodecs, s: State, a: Step)
    requires Inv(k, s) && RetireStep(s, a).Some?
    ensures Inv(k, RetireStep(s, a).value)
  {
    hide Inv, SaveIf;
    match a
    case SavesTombstone => TombstoneKeepsInv(k, s);
    case SavesForward | AdoptsForward => ForwardKeepsInv(k, s, a);
    case Activates => ActivateKeepsInv(k, s);
    case SavesCancel => CancelKeepsInv(k, s);
    case SavesVerifiedCancel => VerifiedCancelKeepsInv(k, s);
    case _ => FileWritesKeepInv(k, s, a);
  }

  lemma BackKeepsInv(k: AccountCodecs, s: State, a: Step)
    requires Inv(k, s) && BackStep(s, a).Some?
    ensures Inv(k, BackStep(s, a).value)
  {
    if a.SavesReversed? {
      ChangesAreAccepted(k, s.target.value.journal, Reverse(RowsOf(s.original)));
    }
  }

  lemma WriteAtSourceKeepsInv(k: AccountCodecs, s: State, rows: Rows)
    requires Inv(k, s) && WasServed(s, Original)
    ensures Inv(k, Written(s, Original, rows))
  {
    hide MovedSound, CopySound;
  }

  lemma WriteAtTargetKeepsInv(k: AccountCodecs, s: State, rows: Rows)
    requires Inv(k, s) && WasServed(s, Target)
    ensures Inv(k, Written(s, Target, rows))
  {
    hide Sound, CopySound;
  }

  lemma ManagementKeepsInv(k: AccountCodecs, s: State, a: Step)
    requires Inv(k, s) && SessionStep(s, a).Some? && (a.RepositoryBegins? || a.RepositoryEnds? || a.PoolFilesChange?)
    ensures Inv(k, SessionStep(s, a).value)
  {
    hide Sound, CopySound;
  }

  lemma SessionKeepsInv(k: AccountCodecs, s: State, a: Step)
    requires Inv(k, s) && SessionStep(s, a).Some?
    ensures Inv(k, SessionStep(s, a).value)
  {
    hide Inv, Written;
    if a.Serves? || a.Lands? {
      var at := if a.Serves? then Bound(s).value else a.at;
      if at == Original {
        WriteAtSourceKeepsInv(k, s, a.rows);
      } else {
        WriteAtTargetKeepsInv(k, s, a.rows);
      }
    } else {
      ManagementKeepsInv(k, s, a);
    }
  }

  lemma CompareKeepsInv(k: AccountCodecs, s: State, a: Step)
    requires Inv(k, s) && CompareStep(s, a).Some?
    ensures Inv(k, CompareStep(s, a).value)
  {
    hide Sound, CopySound;
  }

  lemma StepKeepsInv(k: AccountCodecs, s: State, a: Step)
    requires Suits(k) && Inv(k, s)
    ensures Inv(k, Do(s, a))
  {
    hide Inv, Suits, CaptureStep, BuildStep, CompareStep, RetireStep, BackStep, SessionStep;
    if Next(s, a).Some? {
      match a
      case DriverStarts | DriverStops | StagesMove(_) | PublishesMove => CaptureKeepsInv(k, s, a);
      case BuildStarts | CopiesState | CopiesConfig | Rekeys | BuildEnds | Verifies => BuildKeepsInv(k, s, a);
      case CopiesStateBack | CopiesConfigBack | RekeysBack | SavesReversed | RestoresPointer => BackKeepsInv(k, s, a);
      case Serves(_) | RepositoryBegins | RepositoryEnds | PoolFilesChange(_) | Lands(_, _) => SessionKeepsInv(k, s, a);
      case ComparesSource | ComparesCopy | ComparesLast | ComparesBack | ComparesReturn => CompareKeepsInv(k, s, a);
      case _ => RetireKeepsInv(k, s, a);
    }
  }

  /** Who may hold a store: a pending move the original, the build of a move its own copy. */
  predicate ManagementSound(s: State) {
    if s.forward.None? then
      s.original.config.Some?
      && (s.original.config.value.management == NoRecord || s.original.config.value.management == Repository
          || (s.target.Some? && s.target.value.journal.status == Journals.Pending
              && s.original.config.value.management == HeldByMove(s.target.value.journal.id)))
    else
      s.target.Some? && s.target.value.files.config.Some?
      && (s.target.value.files.config.value.management == NoRecord
          || s.target.value.files.config.value.management == Repository
          || s.target.value.files.config.value.management == BuildingMove(s.target.value.journal.id))
  }

  lemma CopyingKeepsManagement(s: State, a: Step)
    requires ManagementSound(s)
    ensures BuildStep(s, a).Some? ==> ManagementSound(BuildStep(s, a).value)
    ensures SessionStep(s, a).Some? ==> ManagementSound(SessionStep(s, a).value)
  {
  }

  lemma CompareKeepsManagement(s: State, a: Step)
    requires ManagementSound(s) && CompareStep(s, a).Some?
    ensures ManagementSound(CompareStep(s, a).value)
  {
  }

  lemma CaptureKeepsManagement(k: AccountCodecs, s: State, a: Step)
    requires ManagementSound(s) && Inv(k, s) && CaptureStep(s, a).Some?
    ensures ManagementSound(CaptureStep(s, a).value)
  {
  }

  lemma BackKeepsManagement(s: State, a: Step)
    requires ManagementSound(s) && SeenSound(s) && BackStep(s, a).Some?
    ensures ManagementSound(BackStep(s, a).value)
  {
  }

  lemma CancelKeepsManagement(s: State, a: Step)
    requires ManagementSound(s) && (a.SavesCancel? || a.SavesVerifiedCancel?) && RetireStep(s, a).Some?
    ensures ManagementSound(RetireStep(s, a).value)
  {
  }

  lemma SavesKeepManagement(s: State, a: Step)
    requires ManagementSound(s) && RetireStep(s, a).Some?
    requires a.SavesTombstone? || a.SavesForward? || a.AdoptsForward? || a.Activates?
    ensures ManagementSound(RetireStep(s, a).value)
  {
  }

  lemma WritesKeepManagement(s: State, a: Step)
    requires ManagementSound(s) && SidesSound(s) && RetireStep(s, a).Some?
    requires a.WritesTombstone? || a.WritesForward? || a.ClearsTarget? || a.LiftsTombstone?
    ensures ManagementSound(RetireStep(s, a).value)
  {
  }

  lemma RetireKeepsManagement(s: State, a: Step)
    requires ManagementSound(s) && SidesSound(s)
    requires RetireStep(s, a).Some?
    ensures ManagementSound(RetireStep(s, a).value)
  {
    hide ManagementSound, SidesSound, SaveIf;
    match a
    case SavesCancel | SavesVerifiedCancel => CancelKeepsManagement(s, a);
    case SavesTombstone | SavesForward | AdoptsForward | Activates => SavesKeepManagement(s, a);
    case WritesTombstone | WritesForward | ClearsTarget | LiftsTombstone => WritesKeepManagement(s, a);
    case _ =>
  }

  lemma StepKeepsManagement(k: AccountCodecs, s: State, a: Step)
    requires Inv(k, s) && ManagementSound(s)
    ensures ManagementSound(Do(s, a))
  {
    hide MovedSound, SidesSound, ManagementSound;
    if Next(s, a).Some? {
      match a
      case DriverStarts | DriverStops | StagesMove(_) | PublishesMove => CaptureKeepsManagement(k, s, a);
      case BuildStarts | CopiesState | CopiesConfig | Rekeys | BuildEnds | Verifies => CopyingKeepsManagement(s, a);
      case CopiesStateBack | CopiesConfigBack | RekeysBack | SavesReversed | RestoresPointer =>
        BackKeepsManagement(s, a);
      case Serves(_) | RepositoryBegins | RepositoryEnds | PoolFilesChange(_) | Lands(_, _) =>
        CopyingKeepsManagement(s, a);
      case ComparesSource | ComparesCopy | ComparesLast | ComparesBack | ComparesReturn =>
        CompareKeepsManagement(s, a);
      case _ => RetireKeepsManagement(s, a);
    }
  }

  lemma {:induction false} RunKeepsInv(k: AccountCodecs, s: State, steps: seq<Step>)
    requires Suits(k) && Inv(k, s) && ManagementSound(s)
    ensures Inv(k, Run(s, steps)) && ManagementSound(Run(s, steps))
    decreases steps
  {
    if steps != [] {
      StepKeepsInv(k, s, steps[0]);
      StepKeepsManagement(k, s, steps[0]);
      RunKeepsInv(k, Do(s, steps[0]), steps[1..]);
    }
  }

  lemma StartsSound(k: AccountCodecs, rows: Rows)
    ensures Inv(k, Start(rows)) && ManagementSound(Start(rows))
  {
  }

  // ----- Main results -----------------------------------------------------

  lemma OthersKeepPointer(s: State, a: Step)
    requires RetireStep(s, a).None? && BackStep(s, a).None?
    ensures Do(s, a).forward == s.forward
  {
    hide RetireStep, BackStep;
  }

  lemma RetiringKeepsPointer(s: State, a: Step)
    requires !a.WritesForward? && !a.RestoresPointer?
    ensures RetireStep(s, a).Some? ==> RetireStep(s, a).value.forward == s.forward
    ensures BackStep(s, a).Some? ==> BackStep(s, a).value.forward == s.forward
  {
  }

  lemma DoesOne(s: State, a: Step)
    ensures RetireStep(s, a).Some? ==> Do(s, a) == RetireStep(s, a).value
    ensures BackStep(s, a).Some? ==> Do(s, a) == BackStep(s, a).value
  {
  }

  /** Files, journals and sessions never move the binding; only an old anchor's pointer does. */
  lemma PointerDecides(s: State, a: Step)
    ensures !a.WritesForward? && !a.RestoresPointer? ==> Do(s, a).forward == s.forward
  {
    hide Do, RetireStep, BackStep;
    if !a.WritesForward? && !a.RestoresPointer? {
      DoesOne(s, a);
      RetiringKeepsPointer(s, a);
      if RetireStep(s, a).None? && BackStep(s, a).None? {
        OthersKeepPointer(s, a);
      }
    }
  }

  lemma BoundByPointer(s: State)
    ensures Bound(s) == Some(Original) ==> s.forward.None?
    ensures Bound(s) == Some(Target) ==> s.target.Some? && s.forward == Some(s.target.value.journal.id)
  {
  }

  lemma ForwardBindsNothing(s: State)
    ensures Do(s, WritesForward) != s ==> Bound(Do(s, WritesForward)).None?
  {
  }

  /**
    From any state no step takes a served store's authority to the other one, but the restored pointer's:
    going forward, neither is served between the tombstone and the activation. Anchors that both bind agree.
   */
  lemma AuthorityFlipsOnlyBack(s: State, a: Step)
    ensures BindOld(s).Some? && BindNew(s).Some? ==> BindOld(s) == BindNew(s)
    ensures Bound(s).Some? && Bound(Do(s, a)).Some? && Bound(s) != Bound(Do(s, a)) ==> a.RestoresPointer?
  {
    PointerDecides(s, a);
    BoundByPointer(s);
    BoundByPointer(Do(s, a));
    if a.WritesForward? {
      ForwardBindsNothing(s);
    }
    hide Do;
  }

  /**
    After every run, stopped anywhere: whichever generation an anchor binds holds the rows as last
    written, unless a session's write came after its store's last comparison. The copy at the other
    anchor never takes part, so every switch of authority carries the rows over unchanged.
   */
  lemma BoundRowsAreTheLastWritten(k: AccountCodecs, rows: Rows, steps: seq<Step>)
    requires Suits(k)
    ensures var s := Run(Start(rows), steps);
            Bound(s).Some? && !s.late ==> RowsOf(BoundFiles(s)) == s.truth
  {
    RunKeepsInv(k, Start(rows), steps);
  }

  predicate Writes(a: Step) {
    a.Serves? || a.Lands?
  }

  predicate Quiet(steps: seq<Step>) {
    forall i | 0 <= i < |steps| :: !Writes(steps[i])
  }

  /** Steps other than a session's writes change neither what was last written nor `late`. */
  lemma {:induction false} QuietRunKeepsTruth(s: State, steps: seq<Step>)
    requires Quiet(steps)
    ensures Run(s, steps).truth == s.truth && Run(s, steps).late == s.late
    decreases steps
  {
    hide Do;
    if steps != [] {
      QuietStepKeepsTruth(s, steps[0]);
      QuietRunKeepsTruth(Do(s, steps[0]), steps[1..]);
    }
  }

  predicate SameTruth(s: State, t: Option<State>) {
    t.Some? ==> t.value.truth == s.truth && t.value.late == s.late
  }

  lemma DriversKeepTruth(s: State, a: Step)
    ensures SameTruth(s, CaptureStep(s, a)) && SameTruth(s, BuildStep(s, a)) && SameTruth(s, CompareStep(s, a))
  {
  }

  lemma SwitchesKeepTruth(s: State, a: Step)
    ensures SameTruth(s, RetireStep(s, a)) && SameTruth(s, BackStep(s, a))
    ensures !Writes(a) ==> SameTruth(s, SessionStep(s, a))
  {
  }

  lemma QuietStepKeepsTruth(s: State, a: Step)
    requires !Writes(a)
    ensures Do(s, a).truth == s.truth && Do(s, a).late == s.late
  {
    DriversKeepTruth(s, a);
    SwitchesKeepTruth(s, a);
    hide CaptureStep, BuildStep, CompareStep, RetireStep, BackStep, SessionStep;
  }

  lemma {:induction false} RunJoins(s: State, first: seq<Step>, rest: seq<Step>)
    ensures Run(Run(s, first), rest) == Run(s, first + rest)
    decreases first
  {
    if first == [] {
      assert first + rest == rest;
    } else {
      RunJoins(Do(s, first[0]), first[1..], rest);
      assert (first + rest)[1..] == first[1..] + rest;
    }
  }

  /** Moves, cancels, moves back and crashes between two bindings hand the same rows from one to the other. */
  lemma SwitchesKeepRows(k: AccountCodecs, rows: Rows, steps: seq<Step>, quiet: seq<Step>)
    requires Suits(k) && Quiet(quiet)
    ensures var s := Run(Start(rows), steps);
            var t := Run(s, quiet);
            Bound(s).Some? && Bound(t).Some? && !s.late ==> RowsOf(BoundFiles(t)) == RowsOf(BoundFiles(s))
  {
    var s := Run(Start(rows), steps);
    BoundRowsAreTheLastWritten(k, rows, steps);
    BoundRowsAreTheLastWritten(k, rows, steps + quiet);
    RunJoins(Start(rows), steps, quiet);
    QuietRunKeepsTruth(s, quiet);
  }

  // ----- A stopped move never strands the store ----------------------------

  /** One driver that cancels a move not yet forwarded and finishes one that is. */
  const RECOVERY: seq<Step> :=
    [DriverStops, DriverStarts, LiftsTombstone, SavesCancel, AdoptsForward, Activates, ClearsTarget, DriverStops]

  predicate MovesGeneration(s: State) {
    s.target.Some? ==>
      var j := s.target.value.journal; j.kind == Generation && j.relocation.Some? && j.operation == Migrate
  }

  lemma TargetMovesGeneration(k: AccountCodecs, s: State)
    requires Inv(k, s)
    ensures MovesGeneration(s)
  {
  }

  lemma HomeRecovers(s: State)
    requires HomeSound(s) && MovesGeneration(s) && ManagementSound(s) && s.forward.None? && s.running && s.seen.Nothing?
    ensures var t := Do(Do(s, LiftsTombstone), SavesCancel);
            t.forward.None? && Open(t.original, ORIGINAL) && t.poolFiles == s.poolFiles
  {
    var t := Do(s, LiftsTombstone);
    if s.target.Some? && s.target.value.journal.status == Journals.Pending {
      assert Enabled(t.target.value.journal, CancelMove);
    }
  }

  lemma AwayAdopts(s: State)
    requires ForwardSound(s) && MovesGeneration(s) && s.running
    requires s.target.value.journal.status == Journals.Pending && !Reversed(s.target.value)
    ensures var j := s.target.value.journal;
            Enabled(j, AdoptForward)
            && Do(s, AdoptsForward) == s.(target := Some(s.target.value.(journal := Apply(j, AdoptForward))))
  {
  }

  lemma AwayGoesActive(s: State)
    requires s.running && s.target.Some? && s.target.value.journal.relocation.Some?
    requires s.forward == Some(s.target.value.journal.id) && Enabled(s.target.value.journal, GoActive)
    ensures var j := s.target.value.journal.(status := Active);
            Do(s, Activates) == s.(target := Some(s.target.value.(journal := j)))
  {
  }

  /** The target is active, with its files, id and forward as before. */
  predicate ActivatedFrom(s: State, t: State) {
    s.target.Some? && t.target.Some? && t.target.value.journal.status == Active
    && t.target.value.files == s.target.value.files && t.target.value.journal.id == s.target.value.journal.id
    && t.forward == s.forward && t.poolFiles == s.poolFiles && t.running
  }

  lemma ActiveStaysActive(s: State, a: Step)
    requires s.running && s.target.Some? && s.target.value.journal.status == Active
    requires a.AdoptsForward? || a.Activates?
    ensures ActivatedFrom(s, Do(s, a))
  {
  }

  lemma AwayActivates(s: State)
    requires ForwardSound(s) && MovesGeneration(s) && ManagementSound(s) && s.running
    requires Reversed(s.target.value) ==> s.target.value.journal.status == Active
    ensures ActivatedFrom(s, Do(Do(s, AdoptsForward), Activates))
  {
    var t := Do(s, AdoptsForward);
    if s.target.value.journal.status == Journals.Pending {
      AwayAdopts(s);
      hide ManagementSound, ForwardSound, Do;
      AwayGoesActive(t);
    } else {
      hide ManagementSound, Do;
      ActiveStaysActive(s, AdoptsForward);
      ActiveStaysActive(t, Activates);
    }
  }

  lemma AwayRecovers(s: State)
    requires ManagementSound(s) && s.running && !s.poolFiles && s.target.Some?
    requires s.target.value.journal.status == Active && s.forward == Some(s.target.value.journal.id)
    requires s.target.value.files.config.value.generation == s.target.value.journal.id
    ensures Bound(Do(Do(s, ClearsTarget), DriverStops)) == Some(Target)
  {
  }

  lemma RunsOne(s: State, steps: seq<Step>)
    requires steps != []
    ensures Run(s, steps) == Run(Do(s, steps[0]), steps[1..])
  {
  }

  /** What a running recovery driver comes to. */
  function Settled(s: State): State {
    Do(Do(Do(Do(Do(Do(s, LiftsTombstone), SavesCancel), AdoptsForward), Activates), ClearsTarget), DriverStops)
  }

  lemma RecoveryRun(s: State)
    ensures Run(s, RECOVERY)
            == Settled(Do(Do(s, DriverStops), DriverStarts))
  {
    var a := RECOVERY;
    var s1 := Do(s, a[0]);
    var s2 := Do(s1, a[1]);
    var s3 := Do(s2, a[2]);
    var s4 := Do(s3, a[3]);
    var s5 := Do(s4, a[4]);
    var s6 := Do(s5, a[5]);
    var s7 := Do(s6, a[6]);
    RunsOne(s, a);
    RunsOne(s1, a[1..]);
    RunsOne(s2, a[2..]);
    RunsOne(s3, a[3..]);
    RunsOne(s4, a[4..]);
    RunsOne(s5, a[5..]);
    RunsOne(s6, a[6..]);
    RunsOne(s7, a[7..]);
  }

  lemma ServesAtHome(s: State)
    requires s.forward.None? && Open(s.original, ORIGINAL) && !s.poolFiles
    ensures var t := Do(Do(Do(Do(s, AdoptsForward), Activates), ClearsTarget), DriverStops);
            Bound(t) == Some(Original)
  {
    assert Do(s, AdoptsForward) == s && Do(s, Activates) == s && Do(s, ClearsTarget) == s;
  }

  lemma HomeBinds(s: State)
    requires HomeSound(s) && MovesGeneration(s) && ManagementSound(s) && s.forward.None? && s.running && !s.poolFiles
    requires s.seen.Nothing?
    ensures Bound(Settled(s)).Some?
  {
    HomeRecovers(s);
    ServesAtHome(Do(Do(s, LiftsTombstone), SavesCancel));
  }

  lemma AwayBinds(s: State)
    requires ForwardSound(s) && MovesGeneration(s) && ManagementSound(s) && s.running && !s.poolFiles
    requires Reversed(s.target.value) ==> s.target.value.journal.status == Active
    ensures Bound(Settled(s)).Some?
  {
    assert Do(s, LiftsTombstone) == s;
    assert Do(s, SavesCancel) == s;
    AwayActivates(s);
    AwayRecovers(Do(Do(s, AdoptsForward), Activates));
  }

  lemma DriverTakesOver(k: AccountCodecs, s: State)
    requires Suits(k) && Inv(k, s) && ManagementSound(s) && !s.poolFiles
    ensures var u := Do(Do(s, DriverStops), DriverStarts);
            SidesSound(u) && MovesGeneration(u) && ManagementSound(u)
            && (u.target.Some? && Reversed(u.target.value) ==> u.target.value.journal.status == Active)
            && u.running && !u.poolFiles && u.seen.Nothing?
  {
    var v := Do(s, DriverStops);
    StepKeepsInv(k, s, DriverStops);
    StepKeepsInv(k, v, DriverStarts);
    StepKeepsManagement(k, s, DriverStops);
    StepKeepsManagement(k, v, DriverStarts);
    TargetMovesGeneration(k, Do(v, DriverStarts));
  }

  lemma RecoveryBinds(k: AccountCodecs, s: State)
    requires Suits(k) && Inv(k, s) && ManagementSound(s) && !s.poolFiles
    ensures Bound(Run(s, RECOVERY)).Some?
  {
    RecoveryRun(s);
    DriverTakesOver(k, s);
    var u := Do(Do(s, DriverStops), DriverStarts);
    if u.forward.None? {
      HomeBinds(u);
    } else {
      AwayBinds(u);
    }
  }

  predicate CapturesNothing(steps: seq<Step>) {
    forall i | 0 <= i < |steps| :: !steps[i].StagesMove?
  }

  lemma RecoveryCapturesNothing()
    ensures Quiet(RECOVERY) && CapturesNothing(RECOVERY)
  {
  }

  /** Wherever drivers stopped, and with no pool file at either anchor, one recovery makes a store bind again. */
  lemma NeverStranded(k: AccountCodecs, rows: Rows, steps: seq<Step>)
    requires Suits(k) && !Run(Start(rows), steps).poolFiles
    ensures var s := Run(Start(rows), steps);
            var t := Run(s, RECOVERY);
            Bound(t).Some? && t.truth == s.truth && (!s.late ==> RowsOf(BoundFiles(t)) == s.truth)
  {
    hide Inv, Suits, ManagementSound, Run, Quiet, Bound, RowsOf, BoundFiles, Start;
    RecoveryCapturesNothing();
    var s := Run(Start(rows), steps);
    StartsSound(k, rows);
    RunKeepsInv(k, Start(rows), steps);
    RecoveryBinds(k, s);
    BoundRowsAreTheLastWritten(k, rows, steps + RECOVERY);
    RunJoins(Start(rows), steps, RECOVERY);
    QuietRunKeepsTruth(s, RECOVERY);
  }

  // ----- Which writes survive -------------------------------------------------

  /** However drivers go on, as long as no session writes again: whatever is bound holds these rows. */
  ghost predicate Survives(s: State, rows: Rows) {
    forall quiet | Quiet(quiet) :: Bound(Run(s, quiet)).Some? ==> RowsOf(BoundFiles(Run(s, quiet))) == rows
  }

  /** The same store, had these rows always been the last written. */
  function Rebased(s: State, rows: Rows): State {
    s.(truth := rows, late := false)
  }

  function RebasedOption(s: Option<State>, rows: Rows): Option<State> {
    if s.Some? then Some(Rebased(s.value, rows)) else None
  }

  lemma RebasedCapture(s: State, rows: Rows, a: Step)
    ensures CaptureStep(Rebased(s, rows), a) == RebasedOption(CaptureStep(s, a), rows)
  {
  }

  lemma RebasedBuild(s: State, rows: Rows, a: Step)
    ensures BuildStep(Rebased(s, rows), a) == RebasedOption(BuildStep(s, a), rows)
  {
  }

  lemma RebasedCompare(s: State, rows: Rows, a: Step)
    ensures CompareStep(Rebased(s, rows), a) == RebasedOption(CompareStep(s, a), rows)
  {
  }

  lemma RebasedRetire(s: State, rows: Rows, a: Step)
    ensures RetireStep(Rebased(s, rows), a) == RebasedOption(RetireStep(s, a), rows)
  {
  }

  lemma RebasedBack(s: State, rows: Rows, a: Step)
    ensures BackStep(Rebased(s, rows), a) == RebasedOption(BackStep(s, a), rows)
  {
  }

  lemma RebasedSession(s: State, rows: Rows, a: Step)
    requires !Writes(a)
    ensures SessionStep(Rebased(s, rows), a) == RebasedOption(SessionStep(s, a), rows)
  {
  }

  lemma RebasedStep(s: State, rows: Rows, a: Step)
    requires !Writes(a)
    ensures Do(Rebased(s, rows), a) == Rebased(Do(s, a), rows)
  {
    hide CaptureStep, BuildStep, CompareStep, RetireStep, BackStep, SessionStep;
    RebasedCapture(s, rows, a);
    RebasedBuild(s, rows, a);
    RebasedCompare(s, rows, a);
    RebasedRetire(s, rows, a);
    RebasedBack(s, rows, a);
    RebasedSession(s, rows, a);
  }

  lemma {:induction false} RebasedRun(k: AccountCodecs, s: State, rows: Rows, quiet: seq<Step>)
    requires Suits(k) && Inv(k, Rebased(s, rows)) && Quiet(quiet)
    ensures Inv(k, Rebased(Run(s, quiet), rows))
    decreases quiet
  {
    hide Inv, Suits, Do, Rebased;
    if quiet != [] {
      StepKeepsInv(k, Rebased(s, rows), quiet[0]);
      RebasedStep(s, rows, quiet[0]);
      RebasedRun(k, Do(s, quiet[0]), rows, quiet[1..]);
    }
  }

  lemma RebasedBound(k: AccountCodecs, s: State, rows: Rows)
    requires Inv(k, Rebased(s, rows))
    ensures Bound(s).Some? ==> RowsOf(BoundFiles(s)) == rows
  {
    hide MovedSound, CopySound, SeenSound;
  }

  lemma RebasedSurvives(k: AccountCodecs, s: State, rows: Rows)
    requires Suits(k) && Inv(k, Rebased(s, rows))
    ensures Survives(s, rows)
  {
    hide Inv, Suits, Rebased;
    forall quiet | Quiet(quiet)
      ensures Bound(Run(s, quiet)).Some? ==> RowsOf(BoundFiles(Run(s, quiet))) == rows {
      RebasedRun(k, s, rows, quiet);
      RebasedBound(k, Run(s, quiet), rows);
    }
  }

  lemma Perishes(s: State, rows: Rows, quiet: seq<Step>)
    requires Quiet(quiet) && Bound(Run(s, quiet)).Some? && RowsOf(BoundFiles(Run(s, quiet))) != rows
    ensures !Survives(s, rows)
  {
  }

  // A write in the source of a move

  /** What is left of a move whose last comparison passed. */
  const FORWARDING: seq<Step> := [WritesForward, SavesForward, Activates, ClearsTarget, DriverStops]

  lemma RunsNone(s: State)
    ensures Run(s, []) == s
  {
  }

  lemma RunsFive(s: State, a: seq<Step>)
    requires |a| == 5
    ensures Run(s, a) == Do(Do(Do(Do(Do(s, a[0]), a[1]), a[2]), a[3]), a[4])
  {
    hide Do;
    RunsOne(s, a);
    RunsOne(Do(s, a[0]), a[1..]);
    RunsOne(Do(Do(s, a[0]), a[1]), a[2..]);
    RunsOne(Do(Do(Do(s, a[0]), a[1]), a[2]), a[3..]);
    RunsOne(Do(Do(Do(Do(s, a[0]), a[1]), a[2]), a[3]), a[4..]);
  }

  lemma ForwardsOn(s: State)
    requires Pending(s, Retire) && s.forward.None? && s.seen.AtDrain? && HomeSound(s) && MovesGeneration(s)
    requires s.target.value.journal.relocation.value.tombstoned
    ensures var t := Do(Do(s, WritesForward), SavesForward);
            t.running && t.target.Some? && t.target.value.journal.relocation.Some? && t.poolFiles == s.poolFiles
            && Enabled(t.target.value.journal, GoActive) && t.forward == Some(t.target.value.journal.id)
            && t.target.value.files == s.target.value.files && t.target.value.journal.id == s.target.value.journal.id
  {
    var t := Do(s, WritesForward);
    assert Enabled(t.target.value.journal, Change.Forward);
  }

  lemma ForwardingActivates(s: State)
    requires s.running && s.target.Some? && s.target.value.journal.relocation.Some? && !s.poolFiles
    requires Enabled(s.target.value.journal, GoActive) && s.forward == Some(s.target.value.journal.id)
    requires s.target.value.files.config.Some?
    requires s.target.value.files.config.value.generation == s.target.value.journal.id
    requires s.target.value.files.config.value.management == BuildingMove(s.target.value.journal.id)
    ensures var t := Do(Do(Do(s, Activates), ClearsTarget), DriverStops);
            Bound(t) == Some(Target) && RowsOf(BoundFiles(t)) == RowsOf(s.target.value.files)
  {
    AwayGoesActive(s);
  }

  /** Once the last comparison passed, the move ends bound to what was copied, whatever the source now holds. */
  lemma ForwardingBinds(k: AccountCodecs, s: State)
    requires Inv(k, s) && s.seen.AtDrain?
    ensures var t := Run(s, FORWARDING);
            s.target.Some? && Bound(t) == Some(Target)
            && s.target.value.journal.source == Some(RowsOf(BoundFiles(t)))
  {
    TargetMovesGeneration(k, s);
    RunsFive(s, FORWARDING);
    ForwardsOn(s);
    ForwardingActivates(Do(Do(s, WritesForward), SavesForward));
  }

  lemma SourceWriteRebased(k: AccountCodecs, s: State, written: Rows)
    requires Inv(k, s) && s.forward.None?
    requires s.seen.AtDrain? ==> s.target.Some? && s.target.value.journal.source == Some(written)
    ensures Inv(k, Rebased(Do(s, Lands(Original, written)), written))
  {
    hide MovedSound, CopySound;
  }

  /**
    A write in the source, up to the forward: it survives whatever drivers do exactly if it lands before
    the last comparison, or leaves the rows as copied. After that comparison nothing looks at the source
    again, and a move that is not stopped binds the copy without it.
   */
  lemma SourceWriteSurvivesIff(k: AccountCodecs, rows: Rows, steps: seq<Step>, written: Rows)
    requires Suits(k) && Run(Start(rows), steps).forward.None?
    ensures var s := Run(Start(rows), steps);
            Survives(Do(s, Lands(Original, written)), written)
            <==> Timely(s, Original) || (s.target.Some? && s.target.value.journal.source == Some(written))
  {
    var s := Run(Start(rows), steps);
    StartsSound(k, rows);
    RunKeepsInv(k, Start(rows), steps);
    var u := Do(s, Lands(Original, written));
    if Timely(s, Original) || (s.target.Some? && s.target.value.journal.source == Some(written)) {
      SourceWriteRebased(k, s, written);
      RebasedSurvives(k, u, written);
    } else {
      StepKeepsInv(k, s, Lands(Original, written));
      SourceWriteKeepsMove(k, s, written);
      ForwardingBinds(k, u);
      ForwardingIsQuiet();
      Perishes(u, written, FORWARDING);
    }
  }

  lemma ForwardingIsQuiet()
    ensures Quiet(FORWARDING)
  {
  }

  lemma SourceWriteKeepsMove(k: AccountCodecs, s: State, written: Rows)
    requires Inv(k, s) && s.forward.None?
    ensures var u := Do(s, Lands(Original, written));
            u.target == s.target && u.seen == s.seen && RowsOf(u.original) == written
            && u.forward.None? && u.staged == s.staged && u.original.config.Some? && u.truth == written
  {
    hide MovedSound, CopySound, SeenSound;
  }

  // A write beside the store that has the authority

  /** The rows of the store that has the authority, bound or not. */
  function Authority(s: State): Rows
    requires s.forward.Some? ==> s.target.Some?
  {
    if s.forward.None? then RowsOf(s.original) else RowsOf(s.target.value.files)
  }

  lemma BesideRebased(k: AccountCodecs, s: State, at: Holder, written: Rows)
    requires Inv(k, s) && WasServed(s, at)
    requires if at == Original then s.forward.Some? && !Reversed(s.target.value) && !s.seen.AtBack? else s.forward.None?
    ensures Inv(k, Rebased(Do(s, Lands(at, written)), Authority(s)))
  {
    hide Sound, CopySound;
  }

  /**
    A write that lands in the source after the forward, or in a moved store the pointer has left: it is
    lost. Whatever drivers do, what is bound holds the other store's rows.
   */
  lemma WriteBesideIsLost(k: AccountCodecs, rows: Rows, steps: seq<Step>, at: Holder, written: Rows)
    requires Suits(k)
    requires var s := Run(Start(rows), steps);
             WasServed(s, at)
             && if at == Original then s.forward.Some? && s.target.Some? && !Reversed(s.target.value) && !s.seen.AtBack?
                else s.forward.None?
    ensures var s := Run(Start(rows), steps);
            Survives(Do(s, Lands(at, written)), Authority(s))
  {
    var s := Run(Start(rows), steps);
    StartsSound(k, rows);
    RunKeepsInv(k, Start(rows), steps);
    BesideRebased(k, s, at, written);
    RebasedSurvives(k, Do(s, Lands(at, written)), Authority(s));
  }

  // A write in the moved store, while a move back is under way

  /** What is left of a move back whose copy is compared or recorded. */
  const RETURN: seq<Step> :=
    [PoolFilesChange(false), DriverStarts, SavesReversed, ComparesReturn, RestoresPointer, DriverStops]

  /** Drivers can bring the original back as it is: what it holds was compared, or is the recorded copy. */
  predicate Returns(s: State) {
    match s.seen
    case AtBack(copy) => copy == RowsOf(s.original)
    case AtReturn => true
    case _ => Intact(s)
  }

  /** The reverse is or will be recorded with other rows than the original holds, so that it is never completed. */
  predicate Stuck(s: State, rows: Rows) {
    s.forward.Some? && s.target.Some? && s.target.value.files.config.Some? && RowsOf(s.target.value.files) == rows
    && (if s.seen.AtBack? then s.seen.copy != RowsOf(s.original)
        else Reversed(s.target.value) && !Intact(s) && (s.seen.AtReturn? ==> RowsOf(s.original) == rows))
  }

  lemma StuckBacks(k: AccountCodecs, s: State, rows: Rows, a: Step)
    requires Inv(k, s) && Stuck(s, rows) && BackStep(s, a).Some?
    ensures var t := BackStep(s, a).value;
            Stuck(t, rows) || (t.forward.None? && RowsOf(t.original) == rows && t.seen.Nothing?)
  {
    hide Sound;
  }

  lemma StuckRetires(k: AccountCodecs, s: State, rows: Rows, a: Step)
    requires Inv(k, s) && Stuck(s, rows) && RetireStep(s, a).Some?
    ensures Stuck(RetireStep(s, a).value, rows)
  {
  }

  lemma StuckOthers(k: AccountCodecs, s: State, rows: Rows, a: Step)
    requires Inv(k, s) && Stuck(s, rows) && !Writes(a) && Next(s, a).Some?
    requires RetireStep(s, a).None? && BackStep(s, a).None?
    ensures var t := Do(s, a);
            Stuck(t, rows)
            || (t.forward.Some? && t.target == s.target && !Reversed(t.target.value)
                && (t.seen.AtBack? ==> t.seen.copy == RowsOf(t.original) == rows))
  {
    hide MovedSound, RetireStep, BackStep;
  }

  lemma ReleasedRebased(k: AccountCodecs, s: State, rows: Rows)
    requires Inv(k, s)
    requires if s.forward.None? then RowsOf(s.original) == rows && s.seen.Nothing?
             else !Reversed(s.target.value) && RowsOf(s.target.value.files) == rows
                  && (s.seen.AtBack? ==> s.seen.copy == RowsOf(s.original) == rows)
    ensures Inv(k, Rebased(s, rows))
  {
    hide MovedSound, CopySound;
  }

  lemma StuckStep(k: AccountCodecs, s: State, rows: Rows, a: Step)
    requires Suits(k) && Inv(k, s) && Stuck(s, rows) && !Writes(a)
    ensures Stuck(Do(s, a), rows) || Inv(k, Rebased(Do(s, a), rows))
  {
    StepKeepsInv(k, s, a);
    DoesOne(s, a);
    StuckHolds(s, rows);
    hide Inv, Suits, BackStep, RetireStep, Rebased, Stuck, CaptureStep, BuildStep, CompareStep, SessionStep;
    if Next(s, a).Some? {
      if BackStep(s, a).Some? {
        StuckBacks(k, s, rows, a);
      } else if RetireStep(s, a).Some? {
        StuckRetires(k, s, rows, a);
      } else {
        StuckOthers(k, s, rows, a);
      }
      if !Stuck(Do(s, a), rows) {
        ReleasedRebased(k, Do(s, a), rows);
      }
    }
  }

  lemma StuckHolds(s: State, rows: Rows)
    requires Stuck(s, rows)
    ensures s.target.Some? && RowsOf(s.target.value.files) == rows
  {
  }

  lemma {:induction false} StuckRun(k: AccountCodecs, s: State, rows: Rows, quiet: seq<Step>)
    requires Suits(k) && Inv(k, s) && Stuck(s, rows) && Quiet(quiet)
    ensures Stuck(Run(s, quiet), rows) || Inv(k, Rebased(Run(s, quiet), rows))
    decreases quiet
  {
    hide Inv, Suits, Do, Rebased, Stuck;
    if quiet != [] {
      StuckStep(k, s, rows, quiet[0]);
      StepKeepsInv(k, s, quiet[0]);
      var t := Do(s, quiet[0]);
      if Stuck(t, rows) {
        StuckRun(k, t, rows, quiet[1..]);
      } else {
        RebasedRun(k, t, rows, quiet[1..]);
      }
    }
  }

  lemma StuckBound(s: State, rows: Rows)
    requires Stuck(s, rows)
    ensures Bound(s).Some? ==> RowsOf(BoundFiles(s)) == rows
  {
  }

  lemma StuckSurvives(k: AccountCodecs, s: State, rows: Rows)
    requires Suits(k) && Inv(k, s) && Stuck(s, rows)
    ensures Survives(s, rows)
  {
    hide Inv, Suits, Rebased, Stuck;
    forall quiet | Quiet(quiet)
      ensures Bound(Run(s, quiet)).Some? ==> RowsOf(BoundFiles(Run(s, quiet))) == rows {
      StuckRun(k, s, rows, quiet);
      if Stuck(Run(s, quiet), rows) {
        StuckBound(Run(s, quiet), rows);
      } else {
        RebasedBound(k, Run(s, quiet), rows);
      }
    }
  }

  lemma MovedWriteRebased(k: AccountCodecs, s: State, written: Rows)
    requires Inv(k, s) && s.forward.Some? && WasServed(s, Target) && (!Returns(s) || RowsOf(s.original) == written)
    ensures var u := Do(s, Lands(Target, written));
            Stuck(u, written) || Inv(k, Rebased(u, written))
  {
    hide Sound;
  }

  /** A recorded reverse that a driver can complete. */
  predicate Restorable(s: State) {
    s.target.Some? && s.forward == Some(s.target.value.journal.id) && Reversed(s.target.value)
    && s.original.config.Some? && s.original.config.value.generation == ORIGINAL
    && s.original.config.value.management == NoRecord && (Intact(s) || s.seen.AtReturn?)
  }

  lemma Restores(s: State)
    requires Restorable(s) && s.running && !s.poolFiles
    ensures var t := Do(Do(Do(s, ComparesReturn), RestoresPointer), DriverStops);
            Bound(t) == Some(Original) && t.original == s.original
  {
  }

  lemma RunsReturn(s: State)
    ensures Run(s, RETURN)
            == var u := Do(Do(Do(s, PoolFilesChange(false)), DriverStarts), SavesReversed);
               Do(Do(Do(u, ComparesReturn), RestoresPointer), DriverStops)
  {
    hide Do;
    RunsOne(s, RETURN);
    RunsFive(Do(s, RETURN[0]), RETURN[1..]);
  }

  lemma ReturnRuns(s: State)
    requires Restorable(s) && !s.seen.AtBack? && (s.running ==> !s.poolFiles)
    ensures var t := Run(s, RETURN); Bound(t) == Some(Original) && t.original == s.original
  {
    RunsReturn(s);
    ReturnStarts(s);
    hide Do, Bound;
    Restores(s.(poolFiles := false, running := true));
  }

  lemma ReturnStarts(s: State)
    requires !s.seen.AtBack? && (s.running ==> !s.poolFiles)
    ensures var u := s.(poolFiles := false, running := true);
            Do(Do(s, PoolFilesChange(false)), DriverStarts) == u && Do(u, SavesReversed) == u
  {
  }

  lemma RecordsReverse(k: AccountCodecs, s: State)
    requires Inv(k, s) && s.forward.Some? && s.seen.AtBack? && s.seen.copy == RowsOf(s.original)
    ensures var u := Do(s, SavesReversed);
            Restorable(u) && u.running && !u.poolFiles && u.original == s.original
            && Do(s, PoolFilesChange(false)) == s && Do(s, DriverStarts) == s
  {
    TargetMovesGeneration(k, s);
    BackIsSound(k, s);
    hide Inv, ForwardSound, MovedSound, CopySound, MovesGeneration;
    assert MovesGeneration(s);
    ReverseEnabled(s);
  }

  lemma BackIsSound(k: AccountCodecs, s: State)
    requires Inv(k, s)
    ensures SeenSound(s)
  {
  }

  lemma ReverseEnabled(s: State)
    requires CopyingBack(s) && MovesGeneration(s) && s.seen.AtBack?
    ensures s.target.value.journal.relocation.Some? && Can(s, Reverse(s.seen.copy))
  {
  }

  lemma ReturnsRestorable(k: AccountCodecs, s: State)
    requires Inv(k, s) && s.forward.Some? && Returns(s) && !s.seen.AtBack?
    ensures Restorable(s) && (s.running ==> !s.poolFiles)
  {
    hide MovedSound;
  }

  lemma ReturnBinds(k: AccountCodecs, s: State)
    requires Inv(k, s) && s.forward.Some? && Returns(s)
    ensures var t := Run(s, RETURN);
            Bound(t) == Some(Original) && RowsOf(BoundFiles(t)) == RowsOf(s.original)
  {
    if s.seen.AtBack? {
      RunsReturn(s);
      RecordsReverse(k, s);
      Restores(Do(s, SavesReversed));
    } else {
      ReturnsRestorable(k, s);
      ReturnRuns(s);
    }
  }

  lemma MovedWriteKeepsCopy(k: AccountCodecs, s: State, written: Rows)
    requires Inv(k, s) && s.forward.Some? && WasServed(s, Target)
    ensures var u := Do(s, Lands(Target, written));
            u.forward.Some? && u.original == s.original && Returns(u) == Returns(s)
            && (!s.running && Bound(s) == Some(Target) ==> u == Do(s, Serves(written)))
  {
    hide MovedSound, SidesSound, SeenSound;
  }

  /**
    A write in the moved store, served or landing, at any point of a move back: it survives whatever
    drivers do exactly if no copy was yet compared for the last time or recorded, or it left the rows as
    the original has them.
   */
  lemma LateWriteSurvivesIff(k: AccountCodecs, rows: Rows, steps: seq<Step>, written: Rows)
    requires Suits(k)
    requires var s := Run(Start(rows), steps); s.forward.Some? && WasServed(s, Target)
    ensures var s := Run(Start(rows), steps);
            Survives(Do(s, Lands(Target, written)), written) <==> !Returns(s) || RowsOf(s.original) == written
    ensures var s := Run(Start(rows), steps);
            !s.running && Bound(s) == Some(Target) ==> Do(s, Lands(Target, written)) == Do(s, Serves(written))
  {
    var s := Run(Start(rows), steps);
    StartsSound(k, rows);
    RunKeepsInv(k, Start(rows), steps);
    var u := Do(s, Lands(Target, written));
    MovedWriteKeepsCopy(k, s, written);
    StepKeepsInv(k, s, Lands(Target, written));
    if !Returns(s) || RowsOf(s.original) == written {
      MovedWriteRebased(k, s, written);
      if Stuck(u, written) {
        StuckSurvives(k, u, written);
      } else {
        RebasedSurvives(k, u, written);
      }
    } else {
      ReturnBinds(k, u);
      ReturnIsQuiet();
      Perishes(u, written, RETURN);
    }
  }

  lemma ReturnIsQuiet()
    ensures Quiet(RETURN)
  {
  }

  // A write that stops a move

  /** What a pending or captured move copies is not what the source holds; no forward is written. */
  predicate Outdated(s: State) {
    s.forward.None? && s.original.config.Some? && !s.seen.AtDrain?
    && (s.target.Some? && s.target.value.journal.status == Journals.Pending ==>
          s.target.value.journal.source != Some(RowsOf(s.original)))
    && (s.staged.Some? ==> s.staged.value.journal.source != Some(RowsOf(s.original)))
    && (s.target.Some? && s.target.value.journal.status == Active ==> Reversed(s.target.value))
  }

  lemma OutdatedBuilds(k: AccountCodecs, s: State, a: Step)
    requires Inv(k, s) && Outdated(s) && !Writes(a) && !a.StagesMove?
    requires RetireStep(s, a).None? && CompareStep(s, a).None?
    ensures Outdated(Do(s, a)) && RowsOf(Do(s, a).original) == RowsOf(s.original)
  {
    hide RetireStep, CompareStep, SeenSound, MovedSound, CopySound, SidesSound;
  }

  /** Every comparison of an outdated move fails. */
  lemma OutdatedComparesNot(s: State, a: Step)
    requires Outdated(s)
    ensures CompareStep(s, a).None?
  {
  }

  lemma OutdatedRetires(k: AccountCodecs, s: State, a: Step)
    requires Outdated(s) && RetireStep(s, a).Some?
    ensures var t := RetireStep(s, a).value; Outdated(t) && RowsOf(t.original) == RowsOf(s.original)
  {
  }

  lemma OutdatedStays(k: AccountCodecs, s: State, a: Step)
    requires Inv(k, s) && Outdated(s) && !Writes(a) && !a.StagesMove?
    ensures Outdated(Do(s, a)) && RowsOf(Do(s, a).original) == RowsOf(s.original)
  {
    hide Inv, Outdated, CaptureStep, BuildStep, SessionStep, RowsOf, CompareStep;
    if RetireStep(s, a).Some? {
      OutdatedRetires(k, s, a);
    } else {
      OutdatedComparesNot(s, a);
      OutdatedBuilds(k, s, a);
    }
  }

  lemma {:induction false} OutdatedRun(k: AccountCodecs, s: State, steps: seq<Step>)
    requires Suits(k) && Inv(k, s) && Outdated(s) && Quiet(steps) && CapturesNothing(steps)
    ensures Outdated(Run(s, steps)) && RowsOf(Run(s, steps).original) == RowsOf(s.original)
    decreases steps
  {
    if steps != [] {
      OutdatedStays(k, s, steps[0]);
      StepKeepsInv(k, s, steps[0]);
      hide Inv, Outdated, Suits, Do;
      OutdatedRun(k, Do(s, steps[0]), steps[1..]);
    }
  }

  /**
    A write that lands before the last comparison and changes what a pending move copied stops that
    move for good: until another is captured the old anchor is never forwarded, nothing but the original
    is bound, and that holds the write; a recovery binds it.
   */
  lemma LandedWriteStopsTheMove(k: AccountCodecs, rows: Rows, steps: seq<Step>, written: Rows, quiet: seq<Step>)
    requires Suits(k) && Quiet(quiet) && CapturesNothing(quiet)
    requires var s := Run(Start(rows), steps);
             Timely(s, Original) && s.target.Some? && s.target.value.journal.status == Journals.Pending
             && s.target.value.journal.source != Some(written)
    ensures var t := Run(Do(Run(Start(rows), steps), Lands(Original, written)), quiet);
            t.forward.None? && t.truth == written && RowsOf(t.original) == written && Bound(t) != Some(Target)
            && (!t.poolFiles ==> Bound(Run(t, RECOVERY)) == Some(Original))
  {
    var s := Run(Start(rows), steps);
    StartsSound(k, rows);
    RunKeepsInv(k, Start(rows), steps);
    var u := Do(s, Lands(Original, written));
    LandsOutdates(k, s, written);
    hide Inv, Suits, Outdated, Do, Run, Bound, ManagementSound, RowsOf, Start;
    OutdatedRun(k, u, quiet);
    QuietRunKeepsTruth(u, quiet);
    RunKeepsInv(k, u, quiet);
    var t := Run(u, quiet);
    if !t.poolFiles {
      RecoveryBinds(k, t);
      RecoveryCapturesNothing();
      OutdatedRun(k, t, RECOVERY);
      OutdatedBinds(Run(t, RECOVERY));
    }
    OutdatedBinds(t);
  }

  lemma OutdatedBinds(s: State)
    requires Outdated(s)
    ensures s.forward.None? && Bound(s) != Some(Target)
  {
  }

  lemma LandsOutdates(k: AccountCodecs, s: State, written: Rows)
    requires Suits(k) && Inv(k, s) && ManagementSound(s) && Timely(s, Original)
    requires s.target.Some? && s.target.value.journal.status == Journals.Pending
    requires s.target.value.journal.source != Some(written)
    ensures var u := Do(s, Lands(Original, written));
            Inv(k, u) && ManagementSound(u) && Outdated(u) && RowsOf(u.original) == written && u.truth == written
  {
    StepKeepsInv(k, s, Lands(Original, written));
    StepKeepsManagement(k, s, Lands(Original, written));
    SourceWriteKeepsMove(k, s, written);
    NothingStaged(k, s);
    hide Inv, ManagementSound, RowsOf, Do;
  }

  lemma NothingStaged(k: AccountCodecs, s: State)
    requires Inv(k, s) && s.target.Some? && s.target.value.journal.status == Journals.Pending
    ensures s.staged.None?
  {
  }

  // ----- Writes that are lost --------------------------------------------------

  const MOVE_ID := "moved"

  const COPYING: seq<Step> :=
    [DriverStarts, StagesMove(MOVE_ID), PublishesMove, ComparesSource, BuildStarts, CopiesState, CopiesConfig, Rekeys,
     BuildEnds, ComparesCopy, Verifies]

  const RETIRING: seq<Step> := [WritesTombstone, SavesTombstone, ComparesLast]

  const RETURNING: seq<Step> :=
    [DriverStarts, CopiesStateBack, CopiesConfigBack, RekeysBack, ComparesBack, SavesReversed, DriverStops]

  function MoveOf(rows: Rows): Journal<Rows> {
    MoveJournal(MOVE_ID, NEW_ANCHOR, rows, 0.0, OLD_ANCHOR, ORIGINAL, rows.roster)
  }

  function Stored(rows: Rows, id: string, m: Management): Files {
    Files(Some(Config(rows.roster, id, m)), rows.credentials)
  }

  function MoveAt(rows: Rows, phase: Phase): Moved {
    Moved(MoveOf(rows).(phase := phase), Stored(rows, MOVE_ID, BuildingMove(MOVE_ID)))
  }

  /** The move verified, its driver still running. */
  function ReadyToRetire(rows: Rows): State {
    var j := MoveOf(rows).(phase := Retire, verified := Some(MoveOf(rows).manifest));
    State(Stored(rows, ORIGINAL, NoRecord), None, Some(Moved(j, Stored(rows, MOVE_ID, BuildingMove(MOVE_ID)))),
          None, false, true, AtVerify, rows, false)
  }

  /** The last comparison has passed. */
  function ReadyToForward(rows: Rows): State {
    var m := ReadyToRetire(rows).target.value;
    ReadyToRetire(rows).(original := Stored(rows, ORIGINAL, HeldByMove(MOVE_ID)), seen := AtDrain,
                         target := Some(m.(journal := WithRelocation(m.journal, true, false))))
  }

  /** The journal of a move that has forwarded its source. */
  function ForwardedMove(rows: Rows): Journal<Rows> {
    WithRelocation(MoveOf(rows), true, true).(phase := Activate, verified := Some(MoveOf(rows).manifest))
  }

  function Switched(rows: Rows): State {
    State(Stored(rows, ORIGINAL, HeldByMove(MOVE_ID)), Some(MOVE_ID),
          Some(Moved(ForwardedMove(rows).(status := Active), Stored(rows, MOVE_ID, NoRecord))), None, false, false,
          Nothing, rows, false)
  }

  lemma CopyingRun(rows: Rows)
    requires Unique(rows.roster)
    ensures Run(Start(rows), COPYING) == ReadyToRetire(rows)
  {
    var a := COPYING;
    var s := Start(rows);
    var j := MoveOf(rows);
    var s2 := s.(running := true, staged := Some(Moved(j, Files(None, None))));
    assert Do(Do(s, a[0]), a[1]) == s2;
    var s4 := s2.(target := Some(Moved(j, Files(None, None))), staged := None, seen := AtStart);
    assert Do(Do(s2, a[2]), a[3]) == s4;
    var s5 := s4.(target := Some(Moved(j.(phase := Build), Files(None, None))));
    assert Do(s4, a[4]) == s5;
    var s7 := PutTarget(s5, Stored(rows, ORIGINAL, NoRecord));
    assert Do(Do(s5, a[5]), a[6]) == s7;
    var s8 := s5.(target := Some(MoveAt(rows, Build)));
    assert Do(s7, a[7]) == s8;
    var s10 := s5.(target := Some(MoveAt(rows, Verify)), seen := AtVerify);
    assert Do(Do(s8, a[8]), a[9]) == s10;
    assert Do(s10, a[10]) == ReadyToRetire(rows);
    hide Do;
    RunsOne(s, a);
    RunsOne(Do(s, a[0]), a[1..]);
    RunsOne(s2, a[2..]);
    RunsOne(Do(s2, a[2]), a[3..]);
    RunsOne(s4, a[4..]);
    RunsOne(s5, a[5..]);
    RunsOne(Do(s5, a[5]), a[6..]);
    RunsOne(s7, a[7..]);
    RunsOne(s8, a[8..]);
    RunsOne(Do(s8, a[8]), a[9..]);
    RunsOne(s10, a[10..]);
  }

  lemma RetiringRun(rows: Rows)
    ensures Run(ReadyToRetire(rows), RETIRING) == ReadyToForward(rows)
  {
    var a := RETIRING;
    var s := ReadyToRetire(rows);
    var s1 := s.(original := Stored(rows, ORIGINAL, HeldByMove(MOVE_ID)));
    assert Do(s, a[0]) == s1;
    var s2 := ReadyToForward(rows).(seen := AtVerify);
    assert Do(s1, a[1]) == s2;
    assert Do(s2, a[2]) == ReadyToForward(rows);
    hide Do;
    RunsOne(s, a);
    RunsOne(s1, a[1..]);
    RunsOne(s2, a[2..]);
  }

  /** What forwarding comes to, whatever the source holds and was last written. */
  lemma ForwardingRun(rows: Rows, original: Files, truth: Rows, late: bool)
    ensures var s := ReadyToForward(rows).(original := original, truth := truth, late := late);
            Run(s, FORWARDING) == Switched(rows).(original := original, truth := truth, late := late)
  {
    var s := ReadyToForward(rows).(original := original, truth := truth, late := late);
    RunsFive(s, FORWARDING);
    ForwardingRecords(rows, original, truth, late);
    ForwardingEnds(rows, original, truth, late);
  }

  function Forwarded(rows: Rows, original: Files, truth: Rows, late: bool): State {
    State(original, Some(MOVE_ID), Some(Moved(ForwardedMove(rows), Stored(rows, MOVE_ID, BuildingMove(MOVE_ID)))), None,
          false, true, Nothing, truth, late)
  }

  lemma ForwardingRecords(rows: Rows, original: Files, truth: Rows, late: bool)
    ensures var s := ReadyToForward(rows).(original := original, truth := truth, late := late);
            Do(Do(s, WritesForward), SavesForward) == Forwarded(rows, original, truth, late)
  {
    var s := ReadyToForward(rows).(original := original, truth := truth, late := late);
    assert Do(s, WritesForward) == s.(forward := Some(MOVE_ID), seen := Nothing);
  }

  lemma ForwardingEnds(rows: Rows, original: Files, truth: Rows, late: bool)
    ensures Do(Do(Do(Forwarded(rows, original, truth, late), Activates), ClearsTarget), DriverStops)
            == Switched(rows).(original := original, truth := truth, late := late)
  {
    var s := Forwarded(rows, original, truth, late);
    var m := s.target.value.(journal := ForwardedMove(rows).(status := Active));
    assert Do(s, Activates) == s.(target := Some(m));
  }

  /** The reverse recorded, the pointer not yet restored. */
  function Recorded(rows: Rows): State {
    var m := Switched(rows).target.value;
    var r := m.journal.relocation.value.(reversed := true, reverseCopy := Some(rows));
    Switched(rows).(original := Stored(rows, ORIGINAL, NoRecord),
                    target := Some(m.(journal := m.journal.(relocation := Some(r)))))
  }

  lemma ReturningRun(rows: Rows)
    ensures Run(Switched(rows), RETURNING) == Recorded(rows)
  {
    var a := RETURNING;
    var s := Switched(rows);
    var s3 := s.(original := Stored(rows, MOVE_ID, NoRecord), running := true);
    assert Do(Do(Do(s, a[0]), a[1]), a[2]) == s3;
    var s5 := s3.(original := Stored(rows, ORIGINAL, NoRecord), seen := AtBack(rows));
    assert Do(Do(s3, a[3]), a[4]) == s5;
    RunsOne(s, a);
    RunsOne(Do(s, a[0]), a[1..]);
    RunsOne(Do(Do(s, a[0]), a[1]), a[2..]);
    RunsOne(s3, a[3..]);
    RunsOne(Do(s3, a[3]), a[4..]);
    RunsOne(s5, a[5..]);
    RunsOne(Do(s5, a[5]), a[6..]);
  }

  lemma SwitchedRun(rows: Rows)
    requires Unique(rows.roster)
    ensures Run(Start(rows), COPYING + RETIRING) == ReadyToForward(rows)
    ensures Run(Start(rows), COPYING + RETIRING + FORWARDING) == Switched(rows)
  {
    hide Run;
    CopyingRun(rows);
    RetiringRun(rows);
    var r := ReadyToForward(rows);
    ForwardingRun(rows, r.original, rows, false);
    assert r == r.(original := r.original, truth := rows, late := false);
    RunJoins(Start(rows), COPYING, RETIRING);
    RunJoins(Start(rows), COPYING + RETIRING, FORWARDING);
  }

  lemma LandsInSource(rows: Rows, written: Rows)
    ensures var r := ReadyToForward(rows);
            r.original.config.Some?
            && Do(r, Lands(Original, written))
               == r.(original := WithRows(r.original, written), truth := written, late := true)
  {
  }

  lemma SwitchedBinds(rows: Rows, original: Files, truth: Rows, late: bool)
    ensures var s := Switched(rows).(original := original, truth := truth, late := late);
            Bound(s) == Some(Target) && RowsOf(BoundFiles(s)) == rows && s.truth == truth
  {
  }

  /**
    The write is really lost, going forward: from any store, one that lands between the last comparison
    and the forward is not in the store the move ends bound to.
   */
  lemma LandedWriteCanBeLost(rows: Rows, written: Rows)
    requires Unique(rows.roster)
    ensures var s := Run(Start(rows), COPYING + RETIRING + [Lands(Original, written)] + FORWARDING);
            Bound(s) == Some(Target) && s.truth == written && RowsOf(BoundFiles(s)) == rows
  {
    LandsInSource(rows, written);
    var r := ReadyToForward(rows);
    var f := WithRows(r.original, written);
    var u := r.(original := f, truth := written, late := true);
    hide Run, Do, ReadyToForward, Switched;
    assert Run(r, [Lands(Original, written)]) == u by {
      RunsOne(r, [Lands(Original, written)]);
      RunsNone(u);
    }
    ForwardingRun(rows, f, written, true);
    SwitchedRun(rows);
    RunJoins(Start(rows), COPYING + RETIRING, [Lands(Original, written)]);
    RunJoins(Start(rows), COPYING + RETIRING + [Lands(Original, written)], FORWARDING);
    SwitchedBinds(rows, f, written, true);
  }

  lemma LateServes(rows: Rows, written: Rows)
    ensures var u := Do(Recorded(rows), Serves(written));
            u.truth == written && RowsOf(u.original) == rows && Restorable(u) && u.seen.Nothing? && !u.running
  {
    var s := Recorded(rows);
    assert Bound(s) == Some(Target);
    hide Bound;
  }

  lemma ReturnHolds(s: State)
    requires Bound(Run(s, RETURN)) == Some(Original)
    ensures BoundFiles(Run(s, RETURN)) == Run(s, RETURN).original
  {
  }

  /** And moving back: a session writes while the reverse is recorded but not published. */
  lemma LateWriteCanBeLost(rows: Rows, written: Rows)
    requires Unique(rows.roster)
    ensures var s := Run(Start(rows), COPYING + RETIRING + FORWARDING + RETURNING + [Serves(written)] + RETURN);
            Bound(s) == Some(Original) && s.truth == written && RowsOf(BoundFiles(s)) == rows
  {
    hide Run;
    var path := COPYING + RETIRING + FORWARDING;
    SwitchedRun(rows);
    ReturningRun(rows);
    LateServes(rows, written);
    var u := Do(Recorded(rows), Serves(written));
    assert Run(Recorded(rows), [Serves(written)]) == u by {
      RunsOne(Recorded(rows), [Serves(written)]);
      assert [Serves(written)][1..] == [];
      RunsNone(u);
    }
    hide Do, Recorded, Switched, Restorable;
    ReturnRuns(u);
    ReturnIsQuiet();
    QuietRunKeepsTruth(u, RETURN);
    ReturnHolds(u);
    RunJoins(Start(rows), path, RETURNING);
    RunJoins(Start(rows), path + RETURNING, [Serves(written)]);
    RunJoins(Start(rows), path + RETURNING + [Serves(written)], RETURN);
  }
}
