/**
  Replacing the whole account pool (packages/core/src/account-repository.ts:2867-3099) as a state
  machine over durable writes: the transfer file, the management journal, the staged rows, the one
  atomic roster publication (common-auth-embedded/store/publication.js) and its permanent receipt. A
  call may stop between any two writes and a later call with the same inputs goes on from what is
  stored. Other operations are refused from the moment the journal is written, but those that passed
  that check before may still write their row or a new order afterwards.

  One counter draws the credential epochs of all rows, so that an id and an epoch name one credential
  of one row for good; the store draws them per id. Digests and fingerprints are modelled by the
  contents they identify.
 */
module Replacement {
  import opened Text
  import opened Codecs

  datatype Input = Input(id: string, token: string, identity: Option<string>, metadata: Value)

  /** A row as stored; `staged` names the operation that prepared it, until it is published. */
  datatype Row = Row(token: string, epoch: nat, identity: Option<string>, metadata: Value, enabled: bool,
                     complete: bool, quota: bool, staged: Option<string>)

  type Rows = map<string, Row>

  datatype Fence = Fence(epoch: nat, identity: Option<string>, token: string)

  datatype Finalized = Finalized(id: string, epoch: nat, identity: Option<string>, enabled: bool)

  datatype Plan = Plan(operation: string, remove: map<string, Fence>, finalize: seq<Finalized>, order: seq<string>)

  datatype Progress = Add | Publish | Verified

  datatype Journal = Journal(id: string, inputs: seq<Input>, step: Progress, completed: seq<string>, plan: Plan)

  datatype Receipt = Receipt(plan: Plan, cleaned: bool)

  datatype Ref = Ref(id: string, epoch: nat, identity: Option<string>)

  /** The operations that check for a pending journal only when they are admitted. */
  datatype Op =
    | Refresh(ref: Ref)        // a token, an identity learnt, metadata; or the row disabled
    | Transition(ref: Ref)     // setEnabled, recordAccessVerdict: the flag and metadata
    | Observation(ref: Ref)    // updateMetadata, recordCooldown, recordUsage and their like: metadata
    | Reading(ref: Ref)        // recordQuota
    | Identify(ref: Ref, learnt: string)  // recordIdentity, which compares the epoch alone
    | Reorder(ids: seq<string>)

  /** What the running call has verified of the pool, and not yet acted on; a call that stops forgets it. */
  datatype Checked = Unchecked | Prepared | Shown

  datatype Planned = Planned(id: string, inputs: seq<Input>, remove: map<string, Fence>)

  datatype State = State(
    rows: Rows,
    order: seq<string>,
    receipts: map<string, Receipt>,
    journal: Option<Journal>,
    transfers: map<string, seq<Input>>,
    lastEpoch: nat,
    planned: Option<Planned>,              // held in memory by a call that has not written its journal
    checked: Checked,
    admitted: set<Op>,                     // admitted and not yet committed
    // history
    before: Rows,                          // the rows when the pending journal was written
    used: set<string>,                     // operation ids ever drawn
    done: map<string, seq<Input>>)         // operations completed, with the inputs of the completing call

  datatype Step =
    | Plans(id: string, inputs: seq<Input>) | Starts | Stops
    | Stages(inputs: seq<Input>) | SavesRow(inputs: seq<Input>) | EndsAdding(inputs: seq<Input>)
    | VerifiesPrepared(inputs: seq<Input>) | Publishes(inputs: seq<Input>) | Cleans(inputs: seq<Input>)
    | VerifiesShown(inputs: seq<Input>) | SavesVerified(inputs: seq<Input>)
    | DiscardsTransfer(inputs: seq<Input>) | Clears(inputs: seq<Input>)
    // ordinary operations: `to` holds what a write brings
    | Changes(rows: Rows, order: seq<string>, epoch: nat) | Admits(op: Op) | Commits(op: Op, to: Row)

  // ----- Inputs and rows --------------------------------------------------

  function InputIds(inputs: seq<Input>): seq<string> {
    seq(|inputs|, i requires 0 <= i < |inputs| => inputs[i].id)
  }

  function MetadataString(v: Value, key: string): Option<string> {
    if v.Obj? && key in v.fields && v.fields[key].Str? then Some(v.fields[key].s) else None
  }

  /** `metadata.enabled !== false`. */
  predicate Wanted(input: Input) {
    !(input.metadata.Obj? && "enabled" in input.metadata.fields && input.metadata.fields["enabled"] == Bool(false))
  }

  /** Two inputs may share no id, token, recorded identity or email. */
  predicate Apart(a: Input, b: Input) {
    a.id != b.id && a.token != b.token && (a.identity.Some? ==> a.identity != b.identity)
    && (MetadataString(a.metadata, "email").Some? ==>
          MetadataString(a.metadata, "email") != MetadataString(b.metadata, "email"))
  }

  /** `checkPoolInputs`. */
  predicate GoodInputs(inputs: seq<Input>) {
    (forall i | 0 <= i < |inputs| ::
       inputs[i].id != "" && Trimmed(inputs[i].id) && NotBlank(inputs[i].token)
       && inputs[i].identity != Some("")
       && inputs[i].id !in {"__proto__", "constructor", "prototype"})
    && (forall i, j | 0 <= i < j < |inputs| :: Apart(inputs[i], inputs[j]))
  }

  /** The row is the input's: its token, identity and metadata, complete, and no quota reading. */
  predicate Holds(row: Row, input: Input) {
    row.token == input.token && row.identity == input.identity
    && row.metadata == input.metadata && row.complete && !row.quota
  }

  function PreparedRow(input: Input, epoch: nat, id: string): Row {
    Row(input.token, epoch, input.identity, input.metadata, false, true, false, Some(id))
  }

  function FenceOf(row: Row): Fence {
    Fence(row.epoch, row.identity, row.token)
  }

  function Fences(rows: Rows): map<string, Fence> {
    map id | id in rows :: FenceOf(rows[id])
  }

  /** `order` names every row once. */
  predicate IsOrder(order: seq<string>, rows: Rows) {
    (forall i, j | 0 <= i < j < |order| :: order[i] != order[j])
    && (forall i | 0 <= i < |order| :: order[i] in rows) && forall id | id in rows :: id in order
  }

  /** In the pool's order, the rows staged under one operation, or under none. */
  function Under(order: seq<string>, rows: Rows, mark: Option<string>): seq<string> {
    if order == [] then []
    else
      var n := |order| - 1;
      var first := Under(order[..n], rows, mark);
      if order[n] in rows && rows[order[n]].staged == mark then first + [order[n]] else first
  }

  /** The rows that are not staged. */
  function Served(rows: Rows): Rows {
    map id | id in rows && rows[id].staged.None? :: rows[id]
  }

  function FinalizedFor(finalize: seq<Finalized>, id: string): Option<Finalized> {
    if finalize == [] then None else if finalize[0].id == id then Some(finalize[0]) else FinalizedFor(finalize[1..], id)
  }

  /** The first input the plan does not finalize yet. */
  function NextInput(pending: seq<Input>, finalize: seq<Finalized>): Option<Input> {
    if pending == [] then None
    else if FinalizedFor(finalize, pending[0].id).Some? then NextInput(pending[1..], finalize)
    else Some(pending[0])
  }

  /** Exactly the inputs' rows, enabled as asked. */
  predicate ShowsInputs(rows: Rows, inputs: seq<Input>) {
    (forall i | 0 <= i < |inputs| ::
       inputs[i].id in rows && Holds(rows[inputs[i].id], inputs[i])
       && rows[inputs[i].id].enabled == Wanted(inputs[i]) && rows[inputs[i].id].staged.None?)
    && forall id | id in rows :: id in InputIds(inputs)
  }

  /** `verifyPool` of a published pool: the inputs' rows, in their order. */
  predicate ShowsExactly(s: State, inputs: seq<Input>) {
    s.order == InputIds(inputs) && ShowsInputs(s.rows, inputs)
  }

  /** `verifyPool` of the staged rows: the inputs in order, disabled, with the recorded epochs. */
  predicate PreparedExactly(s: State, id: string, inputs: seq<Input>, finalize: seq<Finalized>) {
    Under(s.order, s.rows, Some(id)) == InputIds(inputs)
    && forall i | 0 <= i < |inputs| ::
         inputs[i].id in s.rows && Holds(s.rows[inputs[i].id], inputs[i]) && !s.rows[inputs[i].id].enabled
         && FinalizedFor(finalize, inputs[i].id).Some?
         && FinalizedFor(finalize, inputs[i].id).value.epoch == s.rows[inputs[i].id].epoch
  }

  // ----- What the store asks of a publication ------------------------------

  /** Every row the plan removes still is what the plan recorded. */
  predicate Removable(rows: Rows, remove: map<string, Fence>) {
    forall id | id in remove ::
      id in rows && rows[id].staged.None? && rows[id].complete && FenceOf(rows[id]) == remove[id]
  }

  function PublishedRow(row: Row, f: Option<Finalized>): Row {
    if f.Some? then row.(staged := None, enabled := f.value.enabled) else row
  }

  /** The rows that stay, as the plan leaves them. */
  function Survivors(rows: Rows, plan: Plan): Rows {
    map id | id in rows && id !in plan.remove :: PublishedRow(rows[id], FinalizedFor(plan.finalize, id))
  }

  predicate PreparedFor(rows: Rows, plan: Plan, f: Finalized) {
    f.id in rows && rows[f.id].staged == Some(plan.operation) && !rows[f.id].enabled && rows[f.id].complete
    && rows[f.id].epoch == f.epoch && rows[f.id].identity == f.identity
  }

  /** Two rows of one known identity are not both enabled, and one token has one known identity. */
  predicate Compatible(a: Row, b: Row) {
    a.identity.Some? && b.identity.Some? ==>
      (a.identity == b.identity ==> !(a.enabled && b.enabled)) && (a.token == b.token ==> a.identity == b.identity)
  }

  /** A new credential that a removed row holds belongs to the identity known there, if both know one. */
  predicate Attributed(token: string, identity: Option<string>, was: Fence) {
    token == was.token && identity.Some? && was.identity.Some? ==> identity == was.identity
  }

  /** Everything `publishRoster` checks before its one write. */
  predicate StoreAccepts(rows: Rows, plan: Plan) {
    var left := Survivors(rows, plan);
    IsOrder(plan.order, left) && Removable(rows, plan.remove)
    && (forall i | 0 <= i < |plan.finalize| ::
          PreparedFor(rows, plan, plan.finalize[i]) && plan.finalize[i].id !in plan.remove)
    && (forall i, j | 0 <= i < j < |plan.finalize| :: plan.finalize[i].id != plan.finalize[j].id)
    && (forall a, b | a in left && b in left && a != b :: Compatible(left[a], left[b]))
    && forall i, id | 0 <= i < |plan.finalize| && id in plan.remove ::
         Attributed(rows[plan.finalize[i].id].token, plan.finalize[i].identity, plan.remove[id])
  }

  // ----- Steps ------------------------------------------------------------

  /** The journal is this call's: its record was started with these very inputs. */
  predicate Owns(s: State, inputs: seq<Input>, step: Progress) {
    s.journal.Some? && GoodInputs(inputs) && s.journal.value.inputs == inputs && s.journal.value.step == step
    && s.journal.value.plan.order == InputIds(inputs)
  }

  predicate HasTransfer(s: State, inputs: seq<Input>) {
    s.journal.Some? && s.journal.value.id in s.transfers && s.transfers[s.journal.value.id] == inputs
  }

  predicate Cleaned(s: State) {
    s.journal.Some? && s.journal.value.id in s.receipts
    && s.receipts[s.journal.value.id] == Receipt(s.journal.value.plan, true)
  }

  function StartStep(s: State, a: Step): Option<State> {
    match a
    case Plans(id, inputs) =>
      if s.journal.None? && GoodInputs(inputs) && id !in s.used
         && (forall row | row in s.rows :: s.rows[row].complete && s.rows[row].staged.None?)
         && (forall i | 0 <= i < |inputs| :: inputs[i].id !in s.rows)
      then Some(s.(transfers := s.transfers[id := inputs], used := s.used + {id},
                   planned := Some(Planned(id, inputs, Fences(s.rows)))))
      else None
    case Starts =>
      if s.planned.Some? && s.journal.None? then
        var p := s.planned.value;
        Some(s.(planned := None, before := s.rows,
                journal := Some(Journal(p.id, p.inputs, Add, [], Plan(p.id, p.remove, [], InputIds(p.inputs))))))
      else None
    case Stops => Some(s.(planned := None, checked := Unchecked))
    case _ => None
  }

  function AddStep(s: State, a: Step): Option<State> {
    match a
    case Stages(inputs) =>
      if Owns(s, inputs, Add) && HasTransfer(s, inputs) then
        var r := s.journal.value;
        var next := NextInput(inputs, r.plan.finalize);
        if next.Some? && next.value.id !in s.rows then
          Some(s.(lastEpoch := s.lastEpoch + 1, order := s.order + [next.value.id],
                  rows := s.rows[next.value.id := PreparedRow(next.value, s.lastEpoch + 1, r.id)]))
        else None
      else None
    case SavesRow(inputs) =>
      // `add` under a reservation that already holds this very row returns it.
      if Owns(s, inputs, Add) && HasTransfer(s, inputs) then
        var r := s.journal.value;
        var next := NextInput(inputs, r.plan.finalize);
        if next.Some? && next.value.id in s.rows
           && s.rows[next.value.id] == PreparedRow(next.value, s.rows[next.value.id].epoch, r.id) then
          var f := r.plan.finalize
                   + [Finalized(next.value.id, s.rows[next.value.id].epoch, next.value.identity, Wanted(next.value))];
          Some(s.(journal := Some(r.(completed := seq(|f|, i requires 0 <= i < |f| => f[i].id),
                                     plan := r.plan.(finalize := f)))))
        else None
      else None
    case EndsAdding(inputs) =>
      if Owns(s, inputs, Add) && HasTransfer(s, inputs) && NextInput(inputs, s.journal.value.plan.finalize).None?
      then Some(s.(journal := Some(s.journal.value.(step := Publish, completed := InputIds(inputs)))))
      else None
    case _ => None
  }

  function PublishStep(s: State, a: Step): Option<State> {
    match a
    case VerifiesPrepared(inputs) =>
      if Owns(s, inputs, Publish) && s.journal.value.id !in s.receipts
         && PreparedExactly(s, s.journal.value.id, inputs, s.journal.value.plan.finalize)
      then Some(s.(checked := Prepared)) else None
    case Publishes(inputs) =>
      if Owns(s, inputs, Publish) && s.journal.value.id !in s.receipts && s.checked == Prepared
         && StoreAccepts(s.rows, s.journal.value.plan)
      then
        var r := s.journal.value;
        Some(s.(rows := Survivors(s.rows, r.plan), order := r.plan.order, checked := Unchecked,
                receipts := s.receipts[r.id := Receipt(r.plan, false)]))
      else None
    case Cleans(inputs) =>
      if Owns(s, inputs, Publish) && s.journal.value.id in s.receipts
         && s.receipts[s.journal.value.id].plan == s.journal.value.plan
      then Some(s.(receipts := s.receipts[s.journal.value.id := Receipt(s.journal.value.plan, true)])) else None
    case VerifiesShown(inputs) =>
      if (Owns(s, inputs, Publish) || Owns(s, inputs, Verified)) && Cleaned(s) && ShowsExactly(s, inputs)
      then Some(s.(checked := Shown)) else None
    case SavesVerified(inputs) =>
      if Owns(s, inputs, Publish) && s.checked == Shown
      then Some(s.(journal := Some(s.journal.value.(step := Verified, completed := InputIds(inputs))))) else None
    case DiscardsTransfer(inputs) =>
      if Owns(s, inputs, Verified) && s.checked == Shown
      then Some(s.(transfers := s.transfers - {s.journal.value.id})) else None
    case Clears(inputs) =>
      if Owns(s, inputs, Verified) && s.checked == Shown && s.journal.value.id !in s.transfers
      then Some(s.(journal := None, checked := Unchecked, done := s.done[s.journal.value.id := inputs])) else None
    case _ => None
  }

  /** The row the operation was admitted for: its id and epoch, and its identity as it was known then. */
  predicate Fits(op: Op, row: Row) {
    !op.Reorder? && row.staged.None? && row.epoch == op.ref.epoch
    && if op.Identify? then row.identity.None? || row.identity == Some(op.learnt) else row.identity == op.ref.identity
  }

  /** The row an operation writes, `to` holding the new values. */
  function Written(op: Op, row: Row, to: Row): Row {
    match op
    case Refresh(_) =>
      row.(token := to.token, metadata := to.metadata, enabled := row.enabled && to.enabled,
           identity := if row.identity.None? then to.identity else row.identity)
    case Transition(_) => row.(enabled := to.enabled, metadata := to.metadata)
    case Observation(_) => row.(metadata := to.metadata)
    case Reading(_) => row.(quota := true)
    case Identify(_, learnt) => row.(identity := Some(learnt))
    case Reorder(_) => row
  }

  predicate Holder(rows: Rows, id: string, identity: string) {
    id in rows && rows[id].staged.None? && rows[id].enabled && rows[id].identity == Some(identity)
  }

  /** `disableIdentityDuplicates`: of the enabled rows of one identity only the first stays enabled. */
  function WithoutDuplicates(rows: Rows, order: seq<string>, identity: string): Rows {
    map id | id in rows ::
      if Holder(rows, id, identity)
         && exists i, j | 0 <= i < j < |order| :: order[j] == id && Holder(rows, order[i], identity)
      then rows[id].(enabled := false) else rows[id]
  }

  function AfterWrite(s: State, op: Op, to: Row): Rows
    requires !op.Reorder? && op.ref.id in s.rows
  {
    var row := Written(op, s.rows[op.ref.id], to);
    var rows := s.rows[op.ref.id := row];
    if row.identity.Some? && (op.Identify? || row.identity != s.rows[op.ref.id].identity)
    then WithoutDuplicates(rows, s.order, row.identity.value) else rows
  }

  /** An admitted operation ends: it writes, or is refused because its row is no longer the one it was for. */
  function Committed(s: State, op: Op, to: Row): State {
    var t := s.(admitted := s.admitted - {op});
    if op.Reorder? then (if IsOrder(op.ids, s.rows) then t.(order := op.ids) else t)
    else if op.ref.id in s.rows && Fits(op, s.rows[op.ref.id]) then t.(rows := AfterWrite(s, op, to))
    else t
  }

  /** Operations are admitted only while no journal is pending, but may commit later. */
  function OrdinaryStep(s: State, a: Step): Option<State> {
    match a
    case Changes(rows, order, epoch) =>
      if s.journal.None? && GoodPool(rows, order, epoch) && epoch >= s.lastEpoch
         && (s.planned.Some? ==> forall id | id in rows :: id in s.rows)
      then Some(s.(rows := rows, order := order, lastEpoch := epoch)) else None
    case Admits(op) =>
      if s.journal.None? && (!op.Reorder? ==> op.ref.epoch <= s.lastEpoch)
      then Some(s.(admitted := s.admitted + {op})) else None
    case Commits(op, to) => if op in s.admitted then Some(Committed(s, op, to)) else None
    case _ => None
  }

  /** A pool with nothing staged, all of whose epochs are drawn. */
  predicate GoodPool(rows: Rows, order: seq<string>, epoch: nat) {
    IsOrder(order, rows) && forall id | id in rows :: rows[id].staged.None? && rows[id].epoch <= epoch
  }

  function Next(s: State, a: Step): Option<State> {
    match a
    case Plans(_, _) | Starts | Stops => StartStep(s, a)
    case Stages(_) | SavesRow(_) | EndsAdding(_) => AddStep(s, a)
    case Changes(_, _, _) | Admits(_) | Commits(_, _) => OrdinaryStep(s, a)
    case _ => PublishStep(s, a)
  }

  /** A step whose guards refuse it leaves the state alone. */
  function Do(s: State, a: Step): State {
    if Next(s, a).Some? then Next(s, a).value else s
  }

  function Run(s: State, steps: seq<Step>): State
    decreases steps
  {
    if steps == [] then s else Run(Do(s, steps[0]), steps[1..])
  }

  /** Any pool, before its first replacement. */
  function Start(rows: Rows, order: seq<string>, epoch: nat): State {
    State(rows, order, map[], None, map[], epoch, None, Unchecked, {}, map[], {}, map[])
  }

  // ----- What every step keeps --------------------------------------------

  /** The same rows with the same epochs; identities may have been learnt, and other fields written. */
  predicate SameAccounts(a: Rows, b: Rows) {
    a.Keys == b.Keys
    && forall id | id in a ::
         b[id].epoch == a[id].epoch && b[id].complete == a[id].complete
         && (a[id].identity.Some? ==> b[id].identity == a[id].identity)
  }

  /** The plan finalizes the first inputs, in their order. */
  predicate FinalizesPrefix(finalize: seq<Finalized>, inputs: seq<Input>) {
    |finalize| <= |inputs|
    && forall i | 0 <= i < |finalize| ::
         finalize[i].id == inputs[i].id && finalize[i].identity == inputs[i].identity
         && finalize[i].enabled == Wanted(inputs[i])
  }

  /** No operation admitted can be for the row. */
  predicate Beyond(row: Row, admitted: set<Op>) {
    forall op | op in admitted && !op.Reorder? :: op.ref.epoch < row.epoch
  }

  /** The row is the one prepared for the input. */
  predicate Staged(s: State, input: Input, id: string) {
    input.id in s.rows && s.rows[input.id] == PreparedRow(input, s.rows[input.id].epoch, id)
    && Beyond(s.rows[input.id], s.admitted)
  }

  /** The inputs staged: those finalized, and at most one more. */
  function StagedCount(s: State, r: Journal): nat {
    var n := |r.plan.finalize|;
    if n < |r.inputs| && r.inputs[n].id in s.rows then n + 1 else n
  }

  /** The first `k` inputs are prepared, those finalized with the epochs recorded, and no other input has a row. */
  predicate PreparedRows(s: State, r: Journal, k: nat)
    requires |r.plan.finalize| <= k <= |r.inputs|
  {
    (forall i | 0 <= i < k :: Staged(s, r.inputs[i], r.id))
    && (forall i | 0 <= i < |r.plan.finalize| :: r.plan.finalize[i].epoch == s.rows[r.inputs[i].id].epoch)
    && (forall i | k <= i < |r.inputs| :: r.inputs[i].id !in s.rows)
  }

  /** A row is staged for an input, or one the plan removes; the plan removes no input. */
  predicate OldOrStaged(rows: Rows, r: Journal) {
    (forall id | id in rows :: if rows[id].staged.None? then id in r.plan.remove else id in InputIds(r.inputs))
    && forall i | 0 <= i < |r.inputs| :: r.inputs[i].id !in r.plan.remove
  }

  /** Before publication: the rows the plan removes, and those of the first inputs. */
  predicate PreparingSound(s: State, r: Journal)
    requires |r.plan.finalize| <= |r.inputs|
  {
    r.step != Verified && (r.step == Publish ==> |r.plan.finalize| == |r.inputs|)
    && PreparedRows(s, r, StagedCount(s, r)) && OldOrStaged(s.rows, r) && SameAccounts(s.before, Served(s.rows))
  }

  predicate PublishedSound(s: State, r: Journal)
    requires r.id in s.receipts
  {
    s.receipts[r.id].plan == r.plan && |r.plan.finalize| == |r.inputs| && r.step != Add
    && (r.step == Verified ==> s.receipts[r.id].cleaned)
    && ShowsInputs(s.rows, r.inputs)
    && forall id | id in s.rows :: Beyond(s.rows[id], s.admitted)
  }

  predicate JournalSound(s: State, r: Journal)
    requires s.journal == Some(r)
  {
    GoodInputs(r.inputs) && r.plan.operation == r.id && r.plan.order == InputIds(r.inputs) && r.id in s.used
    && FinalizesPrefix(r.plan.finalize, r.inputs) && r.id !in s.done
    && (r.step != Verified ==> r.id in s.transfers)
    && (r.id in s.transfers ==> s.transfers[r.id] == r.inputs)
    && if r.id in s.receipts then PublishedSound(s, r) else PreparingSound(s, r)
  }

  predicate PlannedSound(s: State, p: Planned) {
    GoodInputs(p.inputs) && p.id in s.used && p.id !in s.receipts && p.id !in s.done
    && p.id in s.transfers && s.transfers[p.id] == p.inputs
    && (forall i | 0 <= i < |p.inputs| :: p.inputs[i].id !in p.remove)
    && (forall id | id in s.rows :: id in p.remove)
  }

  predicate Inv(s: State) {
    IsOrder(s.order, s.rows)
    && (forall id | id in s.rows :: s.rows[id].epoch <= s.lastEpoch)
    && (s.journal.None? ==> forall id | id in s.rows :: s.rows[id].staged.None?)
    && (forall id | id in s.receipts :: id in s.used)
    && (forall id | id in s.done :: id in s.used && id !in s.transfers)
    && (forall op | op in s.admitted && !op.Reorder? :: op.ref.epoch <= s.lastEpoch)
    && (s.planned.Some? ==> s.journal.None? && PlannedSound(s, s.planned.value))
    && (s.journal.Some? ==> JournalSound(s, s.journal.value)) && CheckedSound(s)
  }

  /** A call that verified the pool works on the journal in the step it verified for. */
  predicate CheckedSound(s: State) {
    match s.checked
    case Unchecked => true
    case Prepared => s.journal.Some? && s.journal.value.step == Publish && s.journal.value.id !in s.receipts
    case Shown => s.journal.Some? && s.journal.value.step != Add && Cleaned(s)
  }

  // ----- Orders and plans --------------------------------------------------

  lemma {:induction false} UnderHas(order: seq<string>, rows: Rows, mark: Option<string>, id: string)
    ensures id in Under(order, rows, mark) <==> id in order && id in rows && rows[id].staged == mark
    decreases |order|
  {
    if order != [] {
      var n := |order| - 1;
      UnderHas(order[..n], rows, mark, id);
      assert order == order[..n] + [order[n]];
    }
  }

  /** Only which rows are staged matters. */
  lemma {:induction false} UnderSame(order: seq<string>, a: Rows, b: Rows, mark: Option<string>)
    requires forall id | id in order :: (id in a && a[id].staged == mark) <==> (id in b && b[id].staged == mark)
    ensures Under(order, a, mark) == Under(order, b, mark)
    decreases |order|
  {
    if order != [] {
      UnderSame(order[..|order| - 1], a, b, mark);
    }
  }

  lemma UnderLast(order: seq<string>, id: string, rows: Rows, mark: Option<string>)
    ensures Under(order + [id], rows, mark)
            == Under(order, rows, mark) + if id in rows && rows[id].staged == mark then [id] else []
  {
    assert (order + [id])[..|order|] == order;
  }

  lemma {:induction false} FinalizedNot(finalize: seq<Finalized>, id: string)
    requires forall i | 0 <= i < |finalize| :: finalize[i].id != id
    ensures FinalizedFor(finalize, id).None?
    decreases |finalize|
  {
    if finalize != [] {
      FinalizedNot(finalize[1..], id);
    }
  }

  lemma {:induction false} FinalizedAt(finalize: seq<Finalized>, i: nat)
    requires i < |finalize| && forall j, k | 0 <= j < k < |finalize| :: finalize[j].id != finalize[k].id
    ensures FinalizedFor(finalize, finalize[i].id) == Some(finalize[i])
    decreases |finalize|
  {
    if i > 0 {
      FinalizedAt(finalize[1..], i - 1);
    }
  }

  lemma OwnIds(inputs: seq<Input>)
    requires GoodInputs(inputs)
    ensures forall i, j | 0 <= i < j < |inputs| :: inputs[i].id != inputs[j].id
    ensures forall i | 0 <= i < |inputs| :: inputs[i].id in InputIds(inputs)
    ensures forall id | id in InputIds(inputs) :: exists i | 0 <= i < |inputs| :: inputs[i].id == id
  {
    forall i, j | 0 <= i < j < |inputs| ensures inputs[i].id != inputs[j].id {
      assert Apart(inputs[i], inputs[j]);
    }
    forall i | 0 <= i < |inputs| ensures inputs[i].id in InputIds(inputs) {
      assert InputIds(inputs)[i] == inputs[i].id;
    }
  }

  /** A plan finalizes an input exactly if it is among the first ones. */
  lemma FinalizedInput(finalize: seq<Finalized>, inputs: seq<Input>, i: nat)
    requires GoodInputs(inputs) && FinalizesPrefix(finalize, inputs) && i < |inputs|
    ensures FinalizedFor(finalize, inputs[i].id) == if i < |finalize| then Some(finalize[i]) else None
  {
    OwnIds(inputs);
    if i < |finalize| {
      FinalizedAt(finalize, i);
    } else {
      FinalizedNot(finalize, inputs[i].id);
    }
  }

  /** With a prefix of the inputs finalized, the next one is the first input after it. */
  lemma {:induction false} NextInputFollows(inputs: seq<Input>, finalize: seq<Finalized>, k: nat)
    requires GoodInputs(inputs) && FinalizesPrefix(finalize, inputs) && k <= |finalize|
    ensures NextInput(inputs[k..], finalize) == if |finalize| < |inputs| then Some(inputs[|finalize|]) else None
    decreases |inputs| - k
  {
    hide GoodInputs, FinalizedFor;
    if k < |inputs| {
      FinalizedInput(finalize, inputs, k);
    }
    if k < |finalize| {
      assert inputs[k..][1..] == inputs[k + 1..];
      NextInputFollows(inputs, finalize, k + 1);
    }
  }

  lemma NextInputIs(inputs: seq<Input>, finalize: seq<Finalized>)
    requires GoodInputs(inputs) && FinalizesPrefix(finalize, inputs)
    ensures NextInput(inputs, finalize) == if |finalize| < |inputs| then Some(inputs[|finalize|]) else None
  {
    assert inputs[0..] == inputs;
    NextInputFollows(inputs, finalize, 0);
  }

  // ----- Every step keeps the invariant --------------------------------------

  lemma BeginningKeepsInv(s: State)
    requires Inv(s) && StartStep(s, Starts).Some?
    ensures Inv(StartStep(s, Starts).value)
  {
    hide GoodInputs, IsOrder, Fences;
    var t := StartStep(s, Starts).value;
    assert Served(t.rows) == t.rows;
  }

  lemma PlanningKeepsInv(s: State, a: Step)
    requires Inv(s) && StartStep(s, a).Some? && !a.Starts?
    ensures Inv(StartStep(s, a).value)
  {
    hide GoodInputs, IsOrder, FenceOf;
    if s.journal.Some? {
      var r := s.journal.value;
      if r.id !in s.receipts {
        FinalizesFew(r);
        SameRowsPrepared(s, StartStep(s, a).value, r);
      }
    }
    hide PreparingSound, FinalizesPrefix;
  }

  lemma StartKeepsInv(s: State, a: Step)
    requires Inv(s) && StartStep(s, a).Some?
    ensures Inv(StartStep(s, a).value)
  {
    hide Inv;
    if a.Starts? {
      BeginningKeepsInv(s);
    } else {
      PlanningKeepsInv(s, a);
    }
  }

  lemma OneMorePreparedRow(s: State, t: State, r: Journal)
    requires GoodInputs(r.inputs) && |r.plan.finalize| < |r.inputs| && PreparedRows(s, r, |r.plan.finalize|)
    requires var input := r.inputs[|r.plan.finalize|];
             t.rows == s.rows[input.id := PreparedRow(input, s.lastEpoch + 1, r.id)]
    requires t.admitted == s.admitted && forall op | op in s.admitted && !op.Reorder? :: op.ref.epoch <= s.lastEpoch
    ensures PreparedRows(t, r, |r.plan.finalize| + 1)
  {
    OwnIds(r.inputs);
    hide GoodInputs;
    var n := |r.plan.finalize|;
    forall i | 0 <= i < n + 1 ensures Staged(t, r.inputs[i], r.id) {
      if i < n {
        assert Staged(s, r.inputs[i], r.id);
      }
    }
  }

  /** One row more prepared, and no other touched. */
  lemma OneMorePrepared(s: State, t: State, r: Journal)
    requires GoodInputs(r.inputs) && |r.plan.finalize| < |r.inputs| && PreparingSound(s, r)
    requires var input := r.inputs[|r.plan.finalize|];
             input.id !in s.rows && t.rows == s.rows[input.id := PreparedRow(input, s.lastEpoch + 1, r.id)]
    requires t.admitted == s.admitted && t.before == s.before
    requires forall op | op in s.admitted && !op.Reorder? :: op.ref.epoch <= s.lastEpoch
    ensures PreparingSound(t, r)
  {
    OneMorePreparedRow(s, t, r);
    OwnIds(r.inputs);
    hide GoodInputs, SameAccounts, PreparedRows;
    assert Served(t.rows) == Served(s.rows);
  }

  lemma StagingKeepsInv(s: State, inputs: seq<Input>)
    requires Inv(s) && AddStep(s, Stages(inputs)).Some?
    ensures Inv(AddStep(s, Stages(inputs)).value)
  {
    hide NextInput, GoodInputs, PreparingSound, PlannedSound, FinalizesPrefix, InputIds;
    var r := s.journal.value;
    NextInputIs(inputs, r.plan.finalize);
    var t := AddStep(s, Stages(inputs)).value;
    var id := inputs[|r.plan.finalize|].id;
    OneMorePrepared(s, t, r);
    assert t.order == s.order + [id] && id !in s.rows && t.rows.Keys == s.rows.Keys + {id};
    forall x | x in t.rows ensures x in t.order {
      assert x == id || x in s.order;
    }
  }

  /** Recording a staged row: the plan grows by the next input, whose row is there. */
  lemma OneMoreFinalized(s: State, r: Journal, q: Journal)
    requires GoodInputs(r.inputs) && |r.plan.finalize| < |r.inputs| && PreparingSound(s, r)
    requires FinalizesPrefix(r.plan.finalize, r.inputs)
    requires var input := r.inputs[|r.plan.finalize|];
             input.id in s.rows
             && q.plan == r.plan.(finalize :=
                  r.plan.finalize + [Finalized(input.id, s.rows[input.id].epoch, input.identity, Wanted(input))])
    requires q.inputs == r.inputs && q.id == r.id && q.step == r.step == Add
    ensures FinalizesPrefix(q.plan.finalize, q.inputs) && PreparingSound(s, q)
  {
    hide GoodInputs, SameAccounts, Wanted, Staged, Served, InputIds;
    var n := |r.plan.finalize|;
    assert StagedCount(s, r) == n + 1 && StagedCount(s, q) == n + 1;
  }

  lemma SameRowsPrepared(s: State, t: State, r: Journal)
    requires |r.plan.finalize| <= |r.inputs| && PreparingSound(s, r)
    requires t.rows == s.rows && t.admitted == s.admitted && t.before == s.before
    ensures PreparingSound(t, r)
  {
    hide SameAccounts, OldOrStaged;
    assert forall i | 0 <= i < |r.inputs| && Staged(s, r.inputs[i], r.id) :: Staged(t, r.inputs[i], r.id);
  }

  lemma SavedRowKeepsInv(s: State, inputs: seq<Input>)
    requires Inv(s) && AddStep(s, SavesRow(inputs)).Some?
    ensures Inv(AddStep(s, SavesRow(inputs)).value)
  {
    hide NextInput, GoodInputs, PreparingSound, PlannedSound, IsOrder, PreparedRow, InputIds;
    var r := s.journal.value;
    NextInputIs(inputs, r.plan.finalize);
    var t := AddStep(s, SavesRow(inputs)).value;
    OneMoreFinalized(s, r, t.journal.value);
    SameRowsPrepared(s, t, t.journal.value);
  }

  lemma AddingEndKeepsInv(s: State, inputs: seq<Input>)
    requires Inv(s) && AddStep(s, EndsAdding(inputs)).Some?
    ensures Inv(AddStep(s, EndsAdding(inputs)).value)
  {
    hide NextInput, GoodInputs;
    NextInputIs(inputs, s.journal.value.plan.finalize);
  }

  /** The publication leaves exactly the inputs, in their order. */
  lemma PublicationShows(s: State, inputs: seq<Input>)
    requires Inv(s) && PublishStep(s, Publishes(inputs)).Some?
    ensures ShowsExactly(PublishStep(s, Publishes(inputs)).value, inputs)
  {
    hide GoodInputs, Under, FinalizedFor, SameAccounts, Compatible, Attributed, IsOrder;
    var r := s.journal.value;
    var t := PublishStep(s, Publishes(inputs)).value;
    OwnIds(inputs);
    forall i | 0 <= i < |inputs|
      ensures inputs[i].id in t.rows && Holds(t.rows[inputs[i].id], inputs[i])
              && t.rows[inputs[i].id].enabled == Wanted(inputs[i]) && t.rows[inputs[i].id].staged.None? {
      assert Staged(s, inputs[i], r.id);
      FinalizedInput(r.plan.finalize, inputs, i);
    }
  }

  lemma PublicationKeepsInv(s: State, inputs: seq<Input>)
    requires Inv(s) && PublishStep(s, Publishes(inputs)).Some?
    ensures Inv(PublishStep(s, Publishes(inputs)).value)
  {
    PublicationShows(s, inputs);
    PublishedBeyond(s, inputs);
    hide GoodInputs, PreparedExactly, PreparingSound, StoreAccepts, Survivors, IsOrder, Holds, InputIds, ShowsInputs;
    hide FinalizesPrefix, PlannedSound;
  }

  lemma SurvivorsOrdered(rows: Rows, plan: Plan)
    requires StoreAccepts(rows, plan)
    ensures IsOrder(plan.order, Survivors(rows, plan))
  {
  }

  lemma PublishedBeyond(s: State, inputs: seq<Input>)
    requires Inv(s) && PublishStep(s, Publishes(inputs)).Some?
    ensures var t := PublishStep(s, Publishes(inputs)).value;
            |s.journal.value.plan.finalize| == |inputs| && s.journal.value.id in s.transfers
            && (forall id | id in t.rows :: t.rows[id].staged.None? && Beyond(t.rows[id], t.admitted))
            && (forall id | id in t.rows :: t.rows[id].epoch <= t.lastEpoch) && IsOrder(t.order, t.rows)
  {
    PublicationShows(s, inputs);
    SurvivorsOrdered(s.rows, s.journal.value.plan);
    var t := PublishStep(s, Publishes(inputs)).value;
    ShownIsServed(t.rows, inputs);
    SurvivorsKeepEpochs(s.rows, s.journal.value.plan);
    hide GoodInputs, StoreAccepts, IsOrder, SameAccounts, OldOrStaged, PlannedSound, Holds, Wanted, Survivors;
    forall id | id in t.rows ensures Beyond(t.rows[id], t.admitted) {
      var i := IndexOf(inputs, id);
      assert Staged(s, inputs[i], s.journal.value.id);
    }
  }

  lemma SurvivorsKeepEpochs(rows: Rows, plan: Plan)
    ensures forall id | id in Survivors(rows, plan) :: id in rows && Survivors(rows, plan)[id].epoch == rows[id].epoch
  {
  }

  function IndexOf(inputs: seq<Input>, id: string): (i: nat)
    requires id in InputIds(inputs)
    ensures i < |inputs| && inputs[i].id == id
  {
    assert exists i | 0 <= i < |inputs| :: InputIds(inputs)[i] == id;
    if inputs[0].id == id then 0
    else
      assert forall i | 1 <= i < |inputs| :: InputIds(inputs)[i] == InputIds(inputs[1..])[i - 1];
      1 + IndexOf(inputs[1..], id)
  }

  lemma VerifyingKeepsInv(s: State, inputs: seq<Input>)
    requires Inv(s) && PublishStep(s, VerifiesPrepared(inputs)).Some?
    ensures Inv(PublishStep(s, VerifiesPrepared(inputs)).value)
  {
    var t := PublishStep(s, VerifiesPrepared(inputs)).value;
    FinalizesFew(s.journal.value);
    SameRowsPrepared(s, t, s.journal.value);
    hide GoodInputs, IsOrder, FinalizesPrefix, PreparingSound, PlannedSound, PreparedExactly, InputIds;
  }

  lemma CleanupKeepsInv(s: State, a: Step)
    requires Inv(s) && PublishStep(s, a).Some? && !a.Publishes? && !a.VerifiesPrepared?
    ensures Inv(PublishStep(s, a).value)
  {
    hide GoodInputs, IsOrder, FinalizesPrefix, PreparingSound, PlannedSound, InputIds, Beyond;
    if a.Clears? {
      ShownIsServed(s.rows, s.journal.value.inputs);
    }
    hide ShowsInputs;
  }

  lemma ShownIsServed(rows: Rows, inputs: seq<Input>)
    requires ShowsInputs(rows, inputs)
    ensures forall id | id in rows :: rows[id].staged.None?
  {
    forall id | id in rows ensures rows[id].staged.None? {
      var i := IndexOf(inputs, id);
    }
  }

  /** The staged rows are the same. */
  predicate SameStaged(a: Rows, b: Rows) {
    forall id | id in a && id in b :: a[id].staged == b[id].staged && (a[id].staged.Some? ==> a[id] == b[id])
  }

  lemma DuplicatesKeep(rows: Rows, order: seq<string>, identity: string)
    ensures var t := WithoutDuplicates(rows, order, identity);
            SameAccounts(rows, t) && SameStaged(rows, t)
            && forall id | id in rows :: t[id] == rows[id] || t[id] == rows[id].(enabled := false)
  {
  }

  lemma RowKeeps(rows: Rows, id: string, row: Row)
    requires id in rows && row.staged == rows[id].staged == None
    requires row.epoch == rows[id].epoch && row.complete == rows[id].complete
    requires rows[id].identity.Some? ==> row.identity == rows[id].identity
    ensures SameAccounts(rows, rows[id := row]) && SameStaged(rows, rows[id := row])
  {
  }

  lemma KeepsJoin(a: Rows, b: Rows, c: Rows)
    requires SameAccounts(a, b) && SameStaged(a, b) && SameAccounts(b, c) && SameStaged(b, c)
    ensures SameAccounts(a, c) && SameStaged(a, c)
  {
  }

  lemma WrittenKeeps(op: Op, row: Row, to: Row)
    requires Fits(op, row)
    ensures var t := Written(op, row, to);
            t.epoch == row.epoch && t.staged == row.staged == None && t.complete == row.complete
            && (row.identity.Some? ==> t.identity == row.identity)
  {
  }

  /** What a late write of a row leaves: all rows, their epochs, and all identities that were known. */
  lemma WriteKeepsAccounts(s: State, op: Op, to: Row)
    requires !op.Reorder? && op.ref.id in s.rows && Fits(op, s.rows[op.ref.id])
    ensures SameAccounts(s.rows, AfterWrite(s, op, to)) && SameStaged(s.rows, AfterWrite(s, op, to))
  {
    hide WithoutDuplicates, Written, Fits, SameAccounts, SameStaged;
    var row := Written(op, s.rows[op.ref.id], to);
    var rows := s.rows[op.ref.id := row];
    WrittenKeeps(op, s.rows[op.ref.id], to);
    RowKeeps(s.rows, op.ref.id, row);
    if row.identity.Some? {
      DuplicatesKeep(rows, s.order, row.identity.value);
      KeepsJoin(s.rows, rows, WithoutDuplicates(rows, s.order, row.identity.value));
    }
  }

  /** A late write leaves a replacement prepared as it was. */
  lemma WritePrepared(s: State, t: State, r: Journal)
    requires |r.plan.finalize| <= |r.inputs| && PreparingSound(s, r)
    requires SameAccounts(s.rows, t.rows) && SameStaged(s.rows, t.rows)
    requires t.admitted <= s.admitted && t.before == s.before
    ensures PreparingSound(t, r)
  {
    hide OldOrStaged, InputIds;
    assert StagedCount(s, r) == StagedCount(t, r);
    forall i | 0 <= i < |r.inputs| && Staged(s, r.inputs[i], r.id) ensures Staged(t, r.inputs[i], r.id) {
    }
    WriteServes(s.rows, t.rows);
    WriteOldOrStaged(s.rows, t.rows, r);
  }

  lemma WriteServes(a: Rows, b: Rows)
    requires SameAccounts(a, b) && SameStaged(a, b)
    ensures SameAccounts(Served(a), Served(b))
  {
    assert forall id :: id in Served(a) <==> id in Served(b);
  }

  lemma WriteOldOrStaged(a: Rows, b: Rows, r: Journal)
    requires SameAccounts(a, b) && SameStaged(a, b) && OldOrStaged(a, r)
    ensures OldOrStaged(b, r)
  {
  }

  /** No admitted operation fits a row past all of their epochs. */
  lemma BeyondIsSafe(s: State, op: Op, to: Row)
    requires op in s.admitted && forall id | id in s.rows :: Beyond(s.rows[id], s.admitted)
    ensures var t := Committed(s, op, to); t.rows == s.rows
  {
    if !op.Reorder? && op.ref.id in s.rows {
      assert Beyond(s.rows[op.ref.id], s.admitted);
    }
  }

  lemma CommitKeepsInv(s: State, op: Op, to: Row)
    requires Inv(s) && op in s.admitted
    ensures Inv(Committed(s, op, to))
  {
    hide GoodInputs, Written, WithoutDuplicates;
    var t := Committed(s, op, to);
    if op.Reorder? || t.rows == s.rows {
      CommitsNoRow(s, t);
    } else {
      WriteKeepsAccounts(s, op, to);
      if IsPublished(s) {
        PublishedIsSafe(s, op, to);
      }
      CommitsRow(s, t);
    }
  }

  lemma CommitsNoRow(s: State, t: State)
    requires Inv(s) && t == s.(admitted := t.admitted, order := t.order)
    requires t.admitted <= s.admitted && IsOrder(t.order, t.rows)
    ensures Inv(t)
  {
    hide GoodInputs, IsOrder, PreparingSound, FinalizesPrefix;
    if s.journal.Some? {
      var r := s.journal.value;
      if r.id in s.receipts {
        assert forall id | id in s.rows :: Beyond(s.rows[id], t.admitted) by {
          assert forall id | id in s.rows :: Beyond(s.rows[id], s.admitted);
        }
      } else {
        assert |r.plan.finalize| <= |r.inputs| by {
          FinalizesFew(r);
        }
        assert SameAccounts(s.rows, t.rows) && SameStaged(s.rows, t.rows);
        WritePrepared(s, t, r);
      }
    }
  }

  lemma FinalizesFew(r: Journal)
    requires FinalizesPrefix(r.plan.finalize, r.inputs)
    ensures |r.plan.finalize| <= |r.inputs|
  {
  }

  predicate IsPublished(s: State) {
    s.journal.Some? && s.journal.value.id in s.receipts
  }

  lemma PublishedIsSafe(s: State, op: Op, to: Row)
    requires Inv(s) && op in s.admitted && IsPublished(s)
    ensures Committed(s, op, to).rows == s.rows
  {
    hide GoodInputs, FinalizesPrefix, ShowsInputs;
    BeyondIsSafe(s, op, to);
  }

  lemma CommitsRow(s: State, t: State)
    requires Inv(s) && t == s.(admitted := t.admitted, rows := t.rows) && t.admitted <= s.admitted && !IsPublished(s)
    requires SameAccounts(s.rows, t.rows) && SameStaged(s.rows, t.rows)
    ensures Inv(t)
  {
    hide GoodInputs, PreparingSound;
    if s.journal.Some? {
      WritePrepared(s, t, s.journal.value);
    }
  }

  lemma ChangesKeepInv(s: State, a: Step)
    requires Inv(s) && OrdinaryStep(s, a).Some? && !a.Commits?
    ensures Inv(OrdinaryStep(s, a).value)
  {
    hide GoodInputs;
  }

  lemma StepKeepsInv(s: State, a: Step)
    requires Inv(s)
    ensures Inv(Do(s, a))
  {
    if Next(s, a).Some? {
      hide Inv, StartStep, AddStep, PublishStep, Committed;
      match a
      case Plans(_, _) | Starts | Stops => StartKeepsInv(s, a);
      case Stages(inputs) => StagingKeepsInv(s, inputs);
      case SavesRow(inputs) => SavedRowKeepsInv(s, inputs);
      case EndsAdding(inputs) => AddingEndKeepsInv(s, inputs);
      case Commits(op, to) => CommitKeepsInv(s, op, to);
      case Changes(_, _, _) | Admits(_) => ChangesKeepInv(s, a);
      case Publishes(inputs) => PublicationKeepsInv(s, inputs);
      case VerifiesPrepared(inputs) => VerifyingKeepsInv(s, inputs);
      case _ => CleanupKeepsInv(s, a);
    }
  }

  lemma {:induction false} RunKeepsInv(s: State, steps: seq<Step>)
    requires Inv(s)
    ensures Inv(Run(s, steps))
    decreases steps
  {
    hide Inv, Do;
    if steps != [] {
      StepKeepsInv(s, steps[0]);
      RunKeepsInv(Do(s, steps[0]), steps[1..]);
    }
  }

  // ----- Main results -----------------------------------------------------

  /**
    In every run, stopped anywhere: until the one publication commits, readers are served the very
    accounts the pool held when the journal was written, with no epoch changed and no identity but one
    learnt, whatever operations admitted earlier wrote since; from then on exactly the inputs.
   */
  lemma RosterIsOldOrNew(rows: Rows, order: seq<string>, epoch: nat, steps: seq<Step>)
    requires GoodPool(rows, order, epoch)
    ensures var s := Run(Start(rows, order, epoch), steps);
            s.journal.Some? ==>
              if s.journal.value.id in s.receipts then ShowsInputs(s.rows, s.journal.value.inputs)
              else SameAccounts(s.before, Served(s.rows))
  {
    RunKeepsInv(Start(rows, order, epoch), steps);
  }

  /** What readers are served: the rows that are not staged, and their order. */
  predicate ServesAlike(s: State, t: State) {
    Served(s.rows) == Served(t.rows) && Under(s.order, s.rows, None) == Under(t.order, t.rows, None)
  }

  /** A reorder moves rows and changes none. */
  predicate OnlyMoved(s: State, t: State, op: Op) {
    op.Reorder? && t.rows == s.rows && t.order == op.ids
  }

  /** Of its own row an operation writes what it is for. */
  predicate WritesItsOwn(op: Op, a: Row, b: Row) {
    (b.token != a.token ==> op.Refresh?)
    && (b.identity != a.identity ==> op.Refresh? || (op.Identify? && b.identity == Some(op.learnt)))
    && (b.metadata != a.metadata ==> op.Refresh? || op.Transition? || op.Observation?)
    && (b.quota != a.quota ==> op.Reading?)
  }

  /**
    A row operation keeps the order and every account; a token changes only where a refresh was
    admitted for the row, an identity only where it was unknown, to what that operation learnt; of
    other rows only duplicates of that identity are disabled.
   */
  predicate OnlyWritten(s: State, t: State, op: Op) {
    !op.Reorder? && t.order == s.order && SameAccounts(s.rows, t.rows) && SameStaged(s.rows, t.rows)
    && forall id | id in s.rows && id in t.rows ::
         if id == op.ref.id then WritesItsOwn(op, s.rows[id], t.rows[id])
         else t.rows[id] == s.rows[id] || (t.rows[id] == s.rows[id].(enabled := false) && (op.Refresh? || op.Identify?))
  }

  /**
    While a replacement is pending two things change what readers are served: operations admitted
    before it, of which only a reorder still lands once it is published, and the publication, which
    turns exactly the rows its plan removes into exactly the inputs, in their order.
   */
  lemma OnlyPublicationSwapsRosters(rows: Rows, order: seq<string>, epoch: nat, steps: seq<Step>, a: Step)
    requires GoodPool(rows, order, epoch)
    ensures var s := Run(Start(rows, order, epoch), steps);
            var t := Do(s, a);
            s.journal.Some? && !ServesAlike(s, t) ==>
              (a.Commits? && a.op in s.admitted
               && (OnlyMoved(s, t, a.op) || (!IsPublished(s) && OnlyWritten(s, t, a.op))))
              || (a.Publishes? && !IsPublished(s) && Removable(s.rows, s.journal.value.plan.remove)
                  && Served(s.rows).Keys == s.journal.value.plan.remove.Keys && ShowsExactly(t, s.journal.value.inputs))
  {
    hide ServesAlike, OnlyMoved, OnlyWritten, Removable, Served, ShowsExactly;
    RunKeepsInv(Start(rows, order, epoch), steps);
    var s := Run(Start(rows, order, epoch), steps);
    if s.journal.Some? && !ServesAlike(s, Do(s, a)) {
      RosterSwaps(s, a);
    }
  }

  lemma WrittenIsOwn(op: Op, row: Row, to: Row)
    requires !op.Reorder?
    ensures WritesItsOwn(op, row, Written(op, row, to))
    ensures WritesItsOwn(op, row, Written(op, row, to).(enabled := false))
    ensures Written(op, row, to).identity != row.identity ==> op.Refresh? || op.Identify?
  {
  }

  lemma WriteIsOwn(s: State, op: Op, to: Row)
    requires !op.Reorder? && op.ref.id in s.rows && Fits(op, s.rows[op.ref.id])
    ensures OnlyWritten(s, Committed(s, op, to), op)
  {
    WriteKeepsAccounts(s, op, to);
    WrittenIsOwn(op, s.rows[op.ref.id], to);
    hide WithoutDuplicates, SameAccounts, SameStaged, Written, WritesItsOwn, Fits;
    var row := Written(op, s.rows[op.ref.id], to);
    if row.identity.Some? {
      DuplicatesKeep(s.rows[op.ref.id := row], s.order, row.identity.value);
    }
  }

  lemma AddedServesAlike(s: State, t: State, id: string, row: Row)
    requires IsOrder(s.order, s.rows) && id !in s.rows && row.staged.Some?
    requires t.rows == s.rows[id := row] && t.order == s.order + [id]
    ensures ServesAlike(s, t)
  {
    UnderLast(s.order, id, t.rows, None);
    hide Under;
    UnderSame(s.order, s.rows, t.rows, None);
    assert Served(t.rows) == Served(s.rows);
  }

  lemma StagingServesAlike(s: State, inputs: seq<Input>)
    requires Inv(s)
    ensures ServesAlike(s, Do(s, Stages(inputs)))
  {
    hide GoodInputs, NextInput, JournalSound, IsOrder, ServesAlike, PlannedSound, HasTransfer;
    if AddStep(s, Stages(inputs)).Some? {
      var t := AddStep(s, Stages(inputs)).value;
      var next := NextInput(inputs, s.journal.value.plan.finalize).value;
      AddedServesAlike(s, t, next.id, t.rows[next.id]);
    } else {
      assert ServesAlike(s, s) by {
        AlikeItself(s);
      }
    }
  }

  lemma AlikeItself(s: State)
    ensures ServesAlike(s, s)
  {
  }

  lemma PublicationSwaps(s: State, inputs: seq<Input>)
    requires Inv(s) && PublishStep(s, Publishes(inputs)).Some?
    ensures var r := s.journal.value;
            r.id !in s.receipts && Removable(s.rows, r.plan.remove) && Served(s.rows).Keys == r.plan.remove.Keys
            && r.inputs == inputs
  {
    hide GoodInputs, PreparedExactly, Compatible, Attributed;
    var r := s.journal.value;
    assert forall id :: id in Served(s.rows) <==> id in r.plan.remove;
  }

  lemma RosterSwaps(s: State, a: Step)
    requires Inv(s) && s.journal.Some? && !ServesAlike(s, Do(s, a))
    ensures var t := Do(s, a);
            (a.Commits? && a.op in s.admitted
               && (OnlyMoved(s, t, a.op) || (!IsPublished(s) && OnlyWritten(s, t, a.op))))
            || (a.Publishes? && !IsPublished(s) && Removable(s.rows, s.journal.value.plan.remove)
                && Served(s.rows).Keys == s.journal.value.plan.remove.Keys && ShowsExactly(t, s.journal.value.inputs))
  {
    hide GoodInputs, NextInput, StoreAccepts, PreparedExactly, AfterWrite, OnlyWritten, JournalSound, Removable;
    hide Survivors, ShowsExactly, Fits, Served, IsOrder;
    match a
    case Commits(op, to) =>
      if Next(s, a).Some? && !op.Reorder? && op.ref.id in s.rows && Fits(op, s.rows[op.ref.id]) {
        WriteIsOwn(s, op, to);
        if IsPublished(s) {
          PublishedIsSafe(s, op, to);
        }
      }
    case Publishes(inputs) =>
      if Next(s, a).Some? {
        PublicationShows(s, inputs);
        PublicationSwaps(s, inputs);
      }
    case Stages(inputs) => StagingServesAlike(s, inputs);
    case _ =>
  }

  /** A journal that may still need its inputs always has them, and a plan finalizes a prefix of their order. */
  lemma InputsAreKept(rows: Rows, order: seq<string>, epoch: nat, steps: seq<Step>)
    requires GoodPool(rows, order, epoch)
    ensures var s := Run(Start(rows, order, epoch), steps);
            s.journal.Some? ==>
              var r := s.journal.value;
              (r.step != Verified ==> r.id in s.transfers && s.transfers[r.id] == r.inputs)
              && FinalizesPrefix(r.plan.finalize, r.inputs)
  {
    RunKeepsInv(Start(rows, order, epoch), steps);
  }

  /**
    A completed operation was completed once, for the inputs it was started with, after it had
    published them; nothing of it is left pending.
   */
  lemma CompletesOnce(rows: Rows, order: seq<string>, epoch: nat, steps: seq<Step>, inputs: seq<Input>)
    requires GoodPool(rows, order, epoch)
    ensures var s := Run(Start(rows, order, epoch), steps);
            Next(s, Clears(inputs)).Some? ==>
              var r := s.journal.value;
              var t := Next(s, Clears(inputs)).value;
              r.id !in s.done && r.inputs == inputs && t.done == s.done[r.id := inputs]
              && t.journal.None? && r.id !in t.transfers
              && r.id in t.receipts && t.receipts[r.id].cleaned && ShowsInputs(t.rows, inputs)
  {
    RunKeepsInv(Start(rows, order, epoch), steps);
  }

  // ----- Which replacements can still be completed --------------------------

  /** The next write of a call that resumes the pending journal with its inputs. */
  function Resume(s: State): Step
    requires s.journal.Some?
  {
    var r := s.journal.value;
    var n := |r.plan.finalize|;
    match r.step
    case Add =>
      if n >= |r.inputs| then EndsAdding(r.inputs)
      else if r.inputs[n].id in s.rows then SavesRow(r.inputs)
      else Stages(r.inputs)
    case Publish =>
      if r.id !in s.receipts then if s.checked == Prepared then Publishes(r.inputs) else VerifiesPrepared(r.inputs)
      else if !s.receipts[r.id].cleaned then Cleans(r.inputs)
      else if s.checked == Shown then SavesVerified(r.inputs)
      else VerifiesShown(r.inputs)
    case Verified =>
      if s.checked != Shown then VerifiesShown(r.inputs)
      else if r.id in s.transfers then DiscardsTransfer(r.inputs)
      else Clears(r.inputs)
  }

  function Left(s: State): int {
    if s.journal.None? then 0
    else
      var r := s.journal.value;
      match r.step
      case Add => 11 + 2 * |r.inputs| - |r.plan.finalize| - StagedCount(s, r)
      case Publish =>
        if r.id !in s.receipts then if s.checked == Prepared then 9 else 10
        else if !s.receipts[r.id].cleaned then 8
        else if s.checked == Shown then 6 else 7
      case Verified => (if r.id in s.transfers then 4 else 2) + if s.checked == Shown then 0 else 1
  }

  /** No input holds a removed row's token under another known identity. */
  predicate Unconflicted(inputs: seq<Input>, remove: map<string, Fence>) {
    forall i, id | 0 <= i < |inputs| && id in remove :: Attributed(inputs[i].token, inputs[i].identity, remove[id])
  }

  /**
    Published, and still in the inputs' order; or the rows to remove still are what was planned, what is
    staged is in order, and the inputs contradict no removed row. The order no longer matters to a call
    that has verified it and is still running.
   */
  predicate Publishable(s: State) {
    s.journal.Some?
    && var r := s.journal.value;
       if r.id in s.receipts then s.order == InputIds(r.inputs) || s.checked == Shown
       else Removable(s.rows, r.plan.remove) && Unconflicted(r.inputs, r.plan.remove)
            && (Under(s.order, s.rows, Some(r.id)) <= InputIds(r.inputs) || s.checked == Prepared)
  }

  /** The staged rows in order are exactly the first inputs'. */
  lemma StagedInOrder(s: State, r: Journal)
    requires IsOrder(s.order, s.rows) && GoodInputs(r.inputs) && |r.plan.finalize| <= |r.inputs|
    requires PreparedRows(s, r, StagedCount(s, r)) && Under(s.order, s.rows, Some(r.id)) <= InputIds(r.inputs)
    ensures Under(s.order, s.rows, Some(r.id)) == InputIds(r.inputs)[..StagedCount(s, r)]
  {
    OwnIds(r.inputs);
    hide GoodInputs, IsOrder, Under;
    var u := Under(s.order, s.rows, Some(r.id));
    var k := StagedCount(s, r);
    var ids := InputIds(r.inputs);
    forall i | 0 <= i < k ensures ids[i] in u {
      assert Staged(s, r.inputs[i], r.id);
      AllInOrder(s, ids[i]);
      UnderHas(s.order, s.rows, Some(r.id), ids[i]);
    }
    if k < |ids| {
      UnderHas(s.order, s.rows, Some(r.id), ids[k]);
    }
    PrefixIs(u, ids, k);
  }

  lemma PrefixIs(u: seq<string>, ids: seq<string>, k: nat)
    requires u <= ids && k <= |ids| && forall i, j | 0 <= i < j < |ids| :: ids[i] != ids[j]
    requires (forall i | 0 <= i < k :: ids[i] in u) && (k < |ids| ==> ids[k] !in u)
    ensures u == ids[..k]
  {
    assert forall i | 0 <= i < |u| :: ids[i] == u[i] && u[i] in u;
    if 0 < k {
      var j :| 0 <= j < |u| && u[j] == ids[k - 1];
      assert ids[j] == ids[k - 1];
    }
  }

  lemma AllInOrder(s: State, id: string)
    requires IsOrder(s.order, s.rows) && id in s.rows
    ensures id in s.order
  {
  }

  lemma StagedAppends(s: State, t: State, id: string, row: Row, mark: string)
    requires IsOrder(s.order, s.rows) && id !in s.rows && row.staged == Some(mark)
    requires t.rows == s.rows[id := row] && t.order == s.order + [id]
    ensures Under(t.order, t.rows, Some(mark)) == Under(s.order, s.rows, Some(mark)) + [id]
  {
    UnderLast(s.order, id, t.rows, Some(mark));
    hide Under;
    UnderSame(s.order, s.rows, t.rows, Some(mark));
  }

  lemma RemovableStays(a: Rows, b: Rows, remove: map<string, Fence>)
    requires forall id | id in remove :: (id in a <==> id in b) && (id in a ==> a[id] == b[id])
    ensures Removable(a, remove) == Removable(b, remove)
  {
  }

  lemma StagingStep(s: State)
    requires Inv(s) && s.journal.Some? && s.journal.value.id !in s.receipts && s.journal.value.step == Add
    requires var r := s.journal.value;
             |r.plan.finalize| < |r.inputs| && r.inputs[|r.plan.finalize|].id !in s.rows
    ensures var r := s.journal.value;
            var t := Do(s, Stages(r.inputs));
            t.journal == s.journal && t.receipts == s.receipts
            && Removable(t.rows, r.plan.remove) == Removable(s.rows, r.plan.remove)
            && Under(t.order, t.rows, Some(r.id))
               == Under(s.order, s.rows, Some(r.id)) + [r.inputs[|r.plan.finalize|].id]
            && StagedCount(s, r) == |r.plan.finalize| && StagedCount(t, r) == StagedCount(s, r) + 1
  {
    hide GoodInputs, NextInput, Removable, Under, IsOrder, SameAccounts, PreparedRows, PlannedSound;
    var r := s.journal.value;
    NextInputIs(r.inputs, r.plan.finalize);
    var t := Do(s, Stages(r.inputs));
    var id := r.inputs[|r.plan.finalize|].id;
    StagedAppends(s, t, id, t.rows[id], r.id);
    RemovableStays(s.rows, t.rows, r.plan.remove);
  }

  lemma StagingProgresses(s: State)
    requires Inv(s) && Publishable(s) && s.journal.value.step == Add
    requires var r := s.journal.value; |r.plan.finalize| < |r.inputs| && r.inputs[|r.plan.finalize|].id !in s.rows
    ensures Publishable(Do(s, Stages(s.journal.value.inputs)))
  {
    hide GoodInputs, NextInput, Removable, Under, Unconflicted, IsOrder, PreparedRows, OldOrStaged, SameAccounts;
    hide PlannedSound;
    hide FinalizesPrefix;
    var r := s.journal.value;
    assert r.id !in s.receipts;
    StagingStep(s);
    StagedInOrder(s, r);
    hide Inv, Do;
    var n := |r.plan.finalize|;
    assert InputIds(r.inputs)[..n] + [r.inputs[n].id] == InputIds(r.inputs)[..n + 1];
  }

  /** The same replacement is pending. */
  predicate GoesOn(s: State, t: State) {
    s.journal.Some? && t.journal.Some? && t.journal.value.id == s.journal.value.id
    && t.journal.value.inputs == s.journal.value.inputs
  }

  lemma AddingProgresses(s: State)
    requires Inv(s) && Publishable(s) && s.journal.value.step == Add
    ensures var t := Do(s, Resume(s));
            Publishable(t) && GoesOn(s, t) && 0 <= Left(t) < Left(s)
  {
    hide GoodInputs, NextInput, Removable, Under, Unconflicted, IsOrder, PreparedRows, OldOrStaged, SameAccounts;
    hide PlannedSound;
    var r := s.journal.value;
    var n := |r.plan.finalize|;
    NextInputIs(r.inputs, r.plan.finalize);
    if n < |r.inputs| {
      if r.inputs[n].id !in s.rows {
        StagingStep(s);
        StagingProgresses(s);
      } else {
        NextIsStaged(s, r);
      }
    }
  }

  lemma NextIsStaged(s: State, r: Journal)
    requires |r.plan.finalize| < |r.inputs| && r.inputs[|r.plan.finalize|].id in s.rows
    requires PreparedRows(s, r, StagedCount(s, r))
    ensures Staged(s, r.inputs[|r.plan.finalize|], r.id)
  {
  }

  lemma AcceptsOrder(s: State, r: Journal)
    requires IsOrder(s.order, s.rows) && s.journal == Some(r) && JournalSound(s, r) && r.id !in s.receipts
    requires r.step == Publish && Removable(s.rows, r.plan.remove)
    ensures IsOrder(r.plan.order, Survivors(s.rows, r.plan))
  {
    OwnIds(r.inputs);
    hide GoodInputs, IsOrder, SameAccounts, FinalizedFor, Under;
    var left := Survivors(s.rows, r.plan);
    var ids := InputIds(r.inputs);
    forall i | 0 <= i < |ids| ensures ids[i] in left {
      assert Staged(s, r.inputs[i], r.id);
    }
    forall id | id in left ensures id in ids {
    }
    IsOrderOf(ids, left);
  }

  lemma IsOrderOf(ids: seq<string>, rows: Rows)
    requires (forall i, j | 0 <= i < j < |ids| :: ids[i] != ids[j]) && (forall i | 0 <= i < |ids| :: ids[i] in rows)
    requires forall id | id in rows :: id in ids
    ensures IsOrder(ids, rows)
  {
  }

  lemma InputsCompatible(inputs: seq<Input>, i: nat, j: nat, a: Row, b: Row)
    requires GoodInputs(inputs) && i < |inputs| && j < |inputs| && i != j
    requires a.token == inputs[i].token && a.identity == inputs[i].identity
    requires b.token == inputs[j].token && b.identity == inputs[j].identity
    ensures Compatible(a, b)
  {
    if i < j {
      assert Apart(inputs[i], inputs[j]);
    } else {
      assert Apart(inputs[j], inputs[i]);
    }
  }

  lemma AcceptsFinalized(s: State, r: Journal)
    requires s.journal == Some(r) && JournalSound(s, r) && r.id !in s.receipts && r.step == Publish
    ensures forall i | 0 <= i < |r.plan.finalize| ::
              PreparedFor(s.rows, r.plan, r.plan.finalize[i]) && r.plan.finalize[i].id !in r.plan.remove
              && s.rows[r.plan.finalize[i].id].token == r.inputs[i].token
    ensures forall i, j | 0 <= i < j < |r.plan.finalize| :: r.plan.finalize[i].id != r.plan.finalize[j].id
  {
    OwnIds(r.inputs);
    hide GoodInputs, SameAccounts;
    forall i | 0 <= i < |r.plan.finalize|
      ensures PreparedFor(s.rows, r.plan, r.plan.finalize[i]) && r.plan.finalize[i].id !in r.plan.remove
              && s.rows[r.plan.finalize[i].id].token == r.inputs[i].token {
      assert Staged(s, r.inputs[i], r.id);
    }
  }

  lemma AcceptsSurvivors(s: State, r: Journal, a: string, b: string)
    requires s.journal == Some(r) && JournalSound(s, r) && r.id !in s.receipts && r.step == Publish
    requires var left := Survivors(s.rows, r.plan);
             IsOrder(r.plan.order, left) && a in left && b in left && a != b
    ensures var left := Survivors(s.rows, r.plan); Compatible(left[a], left[b])
  {
    hide GoodInputs, SameAccounts, FinalizedFor, Compatible, OldOrStaged;
    var left := Survivors(s.rows, r.plan);
    assert a in r.plan.order && b in r.plan.order;
    var i, j := IndexOf(r.inputs, a), IndexOf(r.inputs, b);
    assert Staged(s, r.inputs[i], r.id) && Staged(s, r.inputs[j], r.id);
    InputsCompatible(r.inputs, i, j, left[a], left[b]);
  }

  lemma PreparesExactly(s: State, r: Journal)
    requires IsOrder(s.order, s.rows) && s.journal == Some(r) && JournalSound(s, r) && r.id !in s.receipts
    requires r.step == Publish
    requires Under(s.order, s.rows, Some(r.id)) <= InputIds(r.inputs)
    ensures PreparedExactly(s, r.id, r.inputs, r.plan.finalize)
  {
    StagedInOrder(s, r);
    hide GoodInputs, SameAccounts, FinalizedFor, Under, IsOrder, OldOrStaged;
    forall i | 0 <= i < |r.inputs|
      ensures r.inputs[i].id in s.rows && Holds(s.rows[r.inputs[i].id], r.inputs[i]) && !s.rows[r.inputs[i].id].enabled
              && FinalizedFor(r.plan.finalize, r.inputs[i].id).Some?
              && FinalizedFor(r.plan.finalize, r.inputs[i].id).value.epoch == s.rows[r.inputs[i].id].epoch {
      assert Staged(s, r.inputs[i], r.id);
      FinalizedInput(r.plan.finalize, r.inputs, i);
    }
  }

  /** A publishable replacement that is wholly prepared passes every check of the store. */
  lemma StoreWillAccept(s: State, r: Journal)
    requires IsOrder(s.order, s.rows) && s.journal == Some(r) && JournalSound(s, r) && r.id !in s.receipts
    requires r.step == Publish && Removable(s.rows, r.plan.remove) && Unconflicted(r.inputs, r.plan.remove)
    ensures StoreAccepts(s.rows, r.plan)
  {
    hide JournalSound, Removable, Compatible, IsOrder, Survivors, Attributed;
    AcceptsOrder(s, r);
    AcceptsFinalized(s, r);
    FinalizesAll(s, r);
    var left := Survivors(s.rows, r.plan);
    forall a, b | a in left && b in left && a != b ensures Compatible(left[a], left[b]) {
      AcceptsSurvivors(s, r, a, b);
    }
    forall i, id | 0 <= i < |r.plan.finalize| && id in r.plan.remove
      ensures Attributed(s.rows[r.plan.finalize[i].id].token, r.plan.finalize[i].identity, r.plan.remove[id]) {
      assert Attributed(r.inputs[i].token, r.inputs[i].identity, r.plan.remove[id]);
    }
  }

  lemma PublicationEnabled(s: State)
    requires Inv(s) && Publishable(s) && s.journal.value.id !in s.receipts && s.journal.value.step == Publish
    ensures PublishStep(s, if s.checked == Prepared then Publishes(s.journal.value.inputs)
                           else VerifiesPrepared(s.journal.value.inputs)).Some?
  {
    hide JournalSound, Under, Removable, IsOrder, StoreAccepts, PreparedExactly, PublishStep, InputIds, Unconflicted;
    var r := s.journal.value;
    if s.checked == Prepared {
      StoreWillAccept(s, r);
    } else {
      PreparesExactly(s, r);
    }
    PublishStepIs(s, r);
  }

  lemma FinalizesAll(s: State, r: Journal)
    requires s.journal == Some(r) && JournalSound(s, r) && r.id !in s.receipts && r.step == Publish
    ensures |r.plan.finalize| == |r.inputs|
    ensures forall i | 0 <= i < |r.inputs| :: r.plan.finalize[i].identity == r.inputs[i].identity
  {
    hide GoodInputs, PreparedRows, OldOrStaged, SameAccounts;
  }

  lemma PublishStepIs(s: State, r: Journal)
    requires s.journal == Some(r) && JournalSound(s, r) && r.id !in s.receipts && r.step == Publish
    ensures PreparedExactly(s, r.id, r.inputs, r.plan.finalize) ==> PublishStep(s, VerifiesPrepared(r.inputs)).Some?
    ensures s.checked == Prepared && StoreAccepts(s.rows, r.plan) ==> PublishStep(s, Publishes(r.inputs)).Some?
  {
    hide GoodInputs, PreparingSound, StoreAccepts, PreparedExactly, FinalizesPrefix;
  }

  lemma PublishingProgresses(s: State)
    requires Inv(s) && Publishable(s) && s.journal.value.step != Add
    ensures Progresses(s, Do(s, Resume(s)))
  {
    if s.journal.value.step == Publish && s.journal.value.id !in s.receipts {
      PublicationEnabled(s);
      hide JournalSound, Under, Removable, PreparedExactly, StoreAccepts, Survivors, PlannedSound, Unconflicted;
      hide IsOrder, Owns;
    } else {
      if s.journal.value.step == Verified {
        PublishedThen(s);
      }
      EndingProgresses(s);
    }
  }

  lemma PublishedThen(s: State)
    requires Inv(s) && s.journal.Some? && s.journal.value.step == Verified
    ensures IsPublished(s)
  {
    hide GoodInputs, PreparedRows, OldOrStaged, SameAccounts, PlannedSound, ShowsInputs;
  }

  /** Nearer to the end of the same replacement, or at it. */
  predicate Progresses(s: State, t: State)
    requires s.journal.Some?
  {
    0 <= Left(t) < Left(s)
    && if t.journal.None? then
         s.journal.value.step == Verified && t.done == s.done[s.journal.value.id := s.journal.value.inputs]
         && t.rows == s.rows
       else Publishable(t) && GoesOn(s, t)
  }

  lemma EndingPublishes(s: State)
    requires Inv(s) && Publishable(s) && IsPublished(s) && s.journal.value.step == Publish && s.checked != Shown
    ensures Progresses(s, Do(s, Resume(s)))
  {
    hide GoodInputs, Under, Removable, PreparedExactly, StoreAccepts, Survivors, PreparingSound, PlannedSound;
    hide Unconflicted, Holds, IsOrder, FinalizesPrefix, ShowsInputs, InputIds;
  }

  lemma EndingVerifies(s: State)
    requires Inv(s) && Publishable(s) && IsPublished(s) && s.journal.value.step == Publish && s.checked == Shown
    ensures Progresses(s, Do(s, Resume(s)))
  {
    hide GoodInputs, Under, Removable, PreparedExactly, StoreAccepts, Survivors, PreparingSound, PlannedSound;
    hide Unconflicted, Holds, IsOrder, FinalizesPrefix, ShowsInputs, InputIds;
  }

  lemma EndingClears(s: State)
    requires Inv(s) && Publishable(s) && IsPublished(s) && s.journal.value.step == Verified
    ensures Progresses(s, Do(s, Resume(s)))
  {
    hide GoodInputs, Under, Removable, PreparedExactly, StoreAccepts, Survivors, PreparingSound, PlannedSound;
    hide Unconflicted, Holds, IsOrder, FinalizesPrefix, ShowsInputs, InputIds;
  }

  lemma EndingProgresses(s: State)
    requires Inv(s) && Publishable(s) && s.journal.value.step != Add && IsPublished(s)
    ensures Progresses(s, Do(s, Resume(s)))
  {
    hide Inv, Publishable, Do, Resume, Progresses;
    if s.journal.value.step == Verified {
      EndingClears(s);
    } else if s.checked == Shown {
      EndingVerifies(s);
    } else {
      EndingPublishes(s);
    }
  }

  /** Wherever calls stopped, calling again with the same inputs completes a publishable replacement. */
  lemma {:induction false} PublishableCompletes(s: State) returns (steps: seq<Step>)
    requires Inv(s) && Publishable(s)
    ensures var r := s.journal.value;
            var t := Run(s, steps);
            t.journal.None? && r.id in t.done && t.done[r.id] == r.inputs && ShowsInputs(t.rows, r.inputs)
    decreases Left(s)
  {
    var a := Resume(s);
    if s.journal.value.step == Add {
      AddingProgresses(s);
    } else {
      PublishingProgresses(s);
      if s.journal.value.step == Verified {
        VerifiedShows(s);
      }
    }
    StepKeepsInv(s, a);
    hide Inv, Resume, Left, Do, Publishable, ShowsInputs;
    var t := Do(s, a);
    var rest := [];
    if t.journal.Some? {
      rest := PublishableCompletes(t);
    }
    steps := [a] + rest;
    assert steps[1..] == rest;
  }

  lemma VerifiedShows(s: State)
    requires Inv(s) && s.journal.Some? && s.journal.value.step == Verified
    ensures ShowsInputs(s.rows, s.journal.value.inputs)
  {
    hide GoodInputs, PreparedRows, SameAccounts, OldOrStaged, PlannedSound;
  }

  /** What the store accepts is publishable. */
  lemma AcceptedIsPublishable(s: State, inputs: seq<Input>)
    requires Inv(s) && PublishStep(s, Publishes(inputs)).Some?
    ensures Publishable(s)
  {
    hide GoodInputs, Under, Removable, Survivors, Compatible, IsOrder, OldOrStaged, SameAccounts, PlannedSound;
    var r := s.journal.value;
    forall i, id | 0 <= i < |r.inputs| && id in r.plan.remove
      ensures Attributed(r.inputs[i].token, r.inputs[i].identity, r.plan.remove[id]) {
      assert r.plan.finalize[i].id == r.inputs[i].id;
    }
  }

  lemma UnpublishableStep(s: State, a: Step)
    requires Inv(s) && s.journal.Some? && !Publishable(s) && s.admitted == {}
    ensures var t := Do(s, a);
            t.journal.Some? && t.journal.value.id == s.journal.value.id && !Publishable(t) && t.admitted == {}
  {
    var r := s.journal.value;
    if a.Publishes? {
      if Next(s, a).Some? {
        AcceptedIsPublishable(s, a.inputs);
      }
    } else if a.Stages? {
      if Next(s, a).Some? {
        StagingOnlyThen(s, a.inputs);
        StagingStep(s);
        hide Inv, Removable, Under, Unconflicted, InputIds, GoodInputs;
      }
    } else {
      UnpublishableOther(s, a);
    }
  }

  predicate StaysUnpublishable(s: State, t: State) {
    s.journal.Some? && t.journal.Some? && t.journal.value.id == s.journal.value.id
    && !Publishable(t) && t.admitted == {}
  }

  lemma UnpublishableWaits(s: State, a: Step)
    requires Inv(s) && s.journal.Some? && !Publishable(s) && s.admitted == {}
    requires a.Changes? || a.Admits? || a.Commits? || a.Plans? || a.Starts? || a.Stops?
    ensures StaysUnpublishable(s, Do(s, a))
  {
    hide GoodInputs, NextInput, Removable, Under, Unconflicted, IsOrder, PreparedRows, OldOrStaged, SameAccounts;
    hide ShowsInputs, PlannedSound, FinalizesPrefix, InputIds, Committed, Wanted, PreparedRow, FinalizedFor;
    assert Do(s, a).journal == s.journal && Do(s, a).rows == s.rows && Do(s, a).order == s.order;
  }

  lemma UnpublishableAdds(s: State, a: Step)
    requires Inv(s) && s.journal.Some? && !Publishable(s) && s.admitted == {} && (a.SavesRow? || a.EndsAdding?)
    ensures StaysUnpublishable(s, Do(s, a))
  {
    hide GoodInputs, NextInput, Removable, Under, Unconflicted, IsOrder, PreparedRows, OldOrStaged, SameAccounts;
    hide ShowsInputs, PlannedSound, FinalizesPrefix, InputIds, Committed, Wanted, PreparedRow, FinalizedFor;
    assert Do(s, a).rows == s.rows && Do(s, a).order == s.order;
  }

  lemma UnpublishableEnds(s: State, a: Step)
    requires Inv(s) && s.journal.Some? && !Publishable(s) && s.admitted == {}
    requires PublishStep(s, a).Some? && !a.Publishes?
    ensures StaysUnpublishable(s, Do(s, a))
  {
    hide GoodInputs, NextInput, Removable, Under, Unconflicted, IsOrder, PreparedRows, OldOrStaged, SameAccounts;
    hide ShowsInputs, PlannedSound, FinalizesPrefix, InputIds, Committed, Wanted, PreparedRow, FinalizedFor;
    assert Do(s, a).rows == s.rows && Do(s, a).order == s.order;
  }

  lemma UnpublishableOther(s: State, a: Step)
    requires Inv(s) && s.journal.Some? && !Publishable(s) && s.admitted == {} && !a.Publishes? && !a.Stages?
    ensures StaysUnpublishable(s, Do(s, a))
  {
    if a.SavesRow? || a.EndsAdding? {
      UnpublishableAdds(s, a);
    } else if a.Changes? || a.Admits? || a.Commits? || a.Plans? || a.Starts? || a.Stops? {
      UnpublishableWaits(s, a);
    } else if PublishStep(s, a).Some? {
      UnpublishableEnds(s, a);
    }
    hide Inv, Publishable, PublishStep, AddStep, OrdinaryStep, StartStep;
  }

  lemma StagingOnlyThen(s: State, inputs: seq<Input>)
    requires Inv(s) && AddStep(s, Stages(inputs)).Some?
    ensures var r := s.journal.value;
            r.id !in s.receipts && r.step == Add && inputs == r.inputs
            && |r.plan.finalize| < |r.inputs| && r.inputs[|r.plan.finalize|].id !in s.rows
  {
    hide GoodInputs, NextInput, IsOrder, PreparedRows, OldOrStaged, SameAccounts;
    NextInputIs(inputs, s.journal.value.plan.finalize);
  }

  /** Nothing a step does makes an unpublishable replacement publishable, once no operation is outstanding. */
  lemma {:induction false} UnpublishableStays(s: State, steps: seq<Step>)
    requires Inv(s) && s.journal.Some? && !Publishable(s) && s.admitted == {}
    ensures var t := Run(s, steps);
            t.journal.Some? && t.journal.value.id == s.journal.value.id && !Publishable(t)
    decreases steps
  {
    hide Inv, Do, Publishable;
    if steps != [] {
      StepKeepsInv(s, steps[0]);
      UnpublishableStep(s, steps[0]);
      UnpublishableStays(Do(s, steps[0]), steps[1..]);
    }
  }

  predicate Completed(s: State, id: string) {
    s.journal.None? && id in s.done
  }

  /**
    Once no operation admitted before it is outstanding, a pending replacement can be completed exactly
    when it is publishable, as anyone can tell from the journal and the pool.
   */
  lemma CompletableIff(rows: Rows, order: seq<string>, epoch: nat, steps: seq<Step>)
    requires GoodPool(rows, order, epoch)
    requires var s := Run(Start(rows, order, epoch), steps); s.journal.Some? && s.admitted == {}
    ensures var s := Run(Start(rows, order, epoch), steps);
            Publishable(s) <==> exists more :: Completed(Run(s, more), s.journal.value.id)
  {
    var s := Run(Start(rows, order, epoch), steps);
    RunKeepsInv(Start(rows, order, epoch), steps);
    hide Inv, Publishable, Run;
    if Publishable(s) {
      var more := PublishableCompletes(s);
      assert Completed(Run(s, more), s.journal.value.id);
    } else {
      forall more ensures !Completed(Run(s, more), s.journal.value.id) {
        UnpublishableStays(s, more);
      }
    }
  }

  // ----- What strands a replacement ------------------------------------------

  /** A pool and inputs `replacePool` will start on. */
  predicate Startable(rows: Rows, order: seq<string>, epoch: nat, inputs: seq<Input>) {
    GoodPool(rows, order, epoch) && GoodInputs(inputs)
    && (forall id | id in rows :: rows[id].complete) && forall i | 0 <= i < |inputs| :: inputs[i].id !in rows
  }

  function Begun(rows: Rows, order: seq<string>, epoch: nat, id: string, inputs: seq<Input>, admitted: set<Op>): State {
    State(rows, order, map[], Some(Journal(id, inputs, Add, [], Plan(id, Fences(rows), [], InputIds(inputs)))),
          map[id := inputs], epoch, None, Unchecked, admitted, rows, {id}, map[])
  }

  lemma {:induction false} NothingUnder(order: seq<string>, rows: Rows, id: string)
    requires forall row | row in rows :: rows[row].staged.None?
    ensures Under(order, rows, Some(id)) == []
    decreases |order|
  {
    if order != [] {
      NothingUnder(order[..|order| - 1], rows, id);
    }
  }

  lemma FencesRemovable(rows: Rows)
    requires forall id | id in rows :: rows[id].staged.None? && rows[id].complete
    ensures Removable(rows, Fences(rows))
  {
  }

  lemma Begins(rows: Rows, order: seq<string>, epoch: nat, id: string, inputs: seq<Input>, admitted: set<Op>)
    requires Startable(rows, order, epoch, inputs)
    ensures var s := Start(rows, order, epoch).(admitted := admitted);
            Do(Do(s, Plans(id, inputs)), Starts) == Begun(rows, order, epoch, id, inputs, admitted)
    ensures Publishable(Begun(rows, order, epoch, id, inputs, admitted)) <==> Unconflicted(inputs, Fences(rows))
  {
    hide GoodInputs, IsOrder, Unconflicted, Removable;
    NothingUnder(order, rows, id);
    FencesRemovable(rows);
  }

  /** The token and identity a removed row was planned with are still its own. */
  predicate SameCredential(a: Row, b: Row) {
    a.token == b.token && a.identity == b.identity
  }

  /** A write leaves the fences of all rows but its own, and that one exactly if the credential stays. */
  lemma WriteKeepsFences(s: State, op: Op, to: Row)
    requires !op.Reorder? && op.ref.id in s.rows && Fits(op, s.rows[op.ref.id])
    ensures var rows := AfterWrite(s, op, to);
            var row := Written(op, s.rows[op.ref.id], to);
            rows.Keys == s.rows.Keys
            && (forall id | id in s.rows && id != op.ref.id :: FenceOf(rows[id]) == FenceOf(s.rows[id]))
            && FenceOf(rows[op.ref.id]) == FenceOf(row) && row.epoch == s.rows[op.ref.id].epoch
  {
    WriteKeepsAccounts(s, op, to);
    WrittenKeeps(op, s.rows[op.ref.id], to);
    hide WithoutDuplicates, Written, Fits, SameStaged;
    var row := Written(op, s.rows[op.ref.id], to);
    if row.identity.Some? {
      DuplicatesKeep(s.rows[op.ref.id := row], s.order, row.identity.value);
    }
  }

  lemma WriteRemovableIff(rows: Rows, op: Op, to: Row, s: State, t: State)
    requires s.rows == rows && !op.Reorder? && op.ref.id in rows && Fits(op, rows[op.ref.id])
    requires t.rows == AfterWrite(s, op, to)
    requires forall id | id in rows :: rows[id].staged.None? && rows[id].complete
    ensures Removable(t.rows, Fences(rows)) <==> SameCredential(rows[op.ref.id], Written(op, rows[op.ref.id], to))
    ensures forall id | id in t.rows :: t.rows[id].staged.None?
  {
    WriteKeepsAccounts(s, op, to);
    WriteKeepsFences(s, op, to);
    hide AfterWrite, Written, Fits, FenceOf;
    var row := Written(op, rows[op.ref.id], to);
    assert FenceOf(row) == FenceOf(rows[op.ref.id]) <==> SameCredential(rows[op.ref.id], row) by {
      FencesAlike(row, rows[op.ref.id]);
    }
  }

  lemma FencesAlike(a: Row, b: Row)
    requires a.epoch == b.epoch
    ensures FenceOf(a) == FenceOf(b) <==> SameCredential(b, a)
  {
  }

  lemma CommitsBegun(rows: Rows, order: seq<string>, epoch: nat, op: Op, to: Row, id: string, inputs: seq<Input>)
    requires Startable(rows, order, epoch, inputs)
    requires !op.Reorder? && op.ref.id in rows && Fits(op, rows[op.ref.id])
    ensures var s := Begun(rows, order, epoch, id, inputs, {op});
            var t := Do(s, Commits(op, to));
            t.journal == s.journal && t.receipts == map[] && t.admitted == {} && t.rows == AfterWrite(s, op, to)
            && t.order == s.order
  {
    hide GoodInputs, IsOrder, AfterWrite, Fits;
  }

  /** An operation admitted before a replacement was planned, and committed after it was recorded. */
  function Late(op: Op, to: Row, id: string, inputs: seq<Input>): seq<Step> {
    [Admits(op), Plans(id, inputs), Starts, Commits(op, to)]
  }

  lemma LateRun(rows: Rows, order: seq<string>, epoch: nat, op: Op, to: Row, id: string, inputs: seq<Input>)
    requires Startable(rows, order, epoch, inputs) && !op.Reorder? && op.ref.epoch <= epoch
    ensures Run(Start(rows, order, epoch), Late(op, to, id, inputs))
            == Do(Begun(rows, order, epoch, id, inputs, {op}), Commits(op, to))
  {
    var s := Start(rows, order, epoch);
    var a := Late(op, to, id, inputs);
    Begins(rows, order, epoch, id, inputs, {op});
    assert Do(s, a[0]) == s.(admitted := {op}) by {
      assert s.admitted + {op} == {op};
    }
    RunsFour(s, a);
  }

  lemma RunsFour(s: State, a: seq<Step>)
    requires |a| == 4
    ensures Run(s, a) == Do(Do(Do(Do(s, a[0]), a[1]), a[2]), a[3])
  {
    hide Do;
    assert a[1..][0] == a[1] && a[1..][1..] == a[2..] && a[2..][1..] == a[3..] && a[3..][1..] == [];
    var s1 := Do(s, a[0]);
    var s2 := Do(s1, a[1]);
    var s3 := Do(s2, a[2]);
    assert Run(s3, a[3..]) == Run(Do(s3, a[3]), []);
    assert Run(s2, a[2..]) == Run(s3, a[3..]);
    assert Run(s1, a[1..]) == Run(s2, a[2..]);
  }

  /**
    From any pool and whatever it wrote: such an operation strands the replacement exactly if it
    changed its row's token or identity, or the inputs contradicted the pool to begin with.
   */
  lemma LateWriteStrandsIff(rows: Rows, order: seq<string>, epoch: nat, op: Op, to: Row, id: string, inputs: seq<Input>)
    requires Startable(rows, order, epoch, inputs)
    requires !op.Reorder? && op.ref.id in rows && Fits(op, rows[op.ref.id])
    ensures var s := Run(Start(rows, order, epoch), Late(op, to, id, inputs));
            s.journal.Some? && s.journal.value.id == id && s.admitted == {}
            && (Publishable(s) <==> SameCredential(rows[op.ref.id], Written(op, rows[op.ref.id], to))
                                    && Unconflicted(inputs, Fences(rows)))
  {
    assert op.ref.epoch <= epoch;
    LateRun(rows, order, epoch, op, to, id, inputs);
    CommitsBegun(rows, order, epoch, op, to, id, inputs);
    var s := Begun(rows, order, epoch, id, inputs, {op});
    var t := Do(s, Commits(op, to));
    WriteRemovableIff(rows, op, to, s, t);
    NothingUnder(t.order, t.rows, id);
    hide Do, Run, Start, Late, Removable, Unconflicted, SameCredential, AfterWrite, Written, Startable, Under, Fits;
  }

  /** A refresh that brought another token is one. */
  lemma LateRefreshStrands(rows: Rows, order: seq<string>, epoch: nat, ref: Ref, to: Row, id: string,
                           inputs: seq<Input>)
    requires Startable(rows, order, epoch, inputs)
    requires ref.id in rows && Fits(Refresh(ref), rows[ref.id]) && to.token != rows[ref.id].token
    ensures var s := Run(Start(rows, order, epoch), Late(Refresh(ref), to, id, inputs));
            s.journal.Some? && s.admitted == {} && !Publishable(s)
  {
    hide Run, Startable, Unconflicted, Publishable;
    LateWriteStrandsIff(rows, order, epoch, Refresh(ref), to, id, inputs);
  }

  /** So is an identity recorded on a row that had none, with no refresh anywhere. */
  lemma LateIdentityStrands(rows: Rows, order: seq<string>, epoch: nat, ref: Ref, identity: string, id: string,
                            inputs: seq<Input>)
    requires Startable(rows, order, epoch, inputs)
    requires ref.id in rows && Fits(Identify(ref, identity), rows[ref.id]) && rows[ref.id].identity.None?
    ensures var s := Run(Start(rows, order, epoch), Late(Identify(ref, identity), rows[ref.id], id, inputs));
            s.journal.Some? && s.admitted == {} && !Publishable(s)
  {
    hide Run, Startable, Unconflicted, Publishable;
    LateWriteStrandsIff(rows, order, epoch, Identify(ref, identity), rows[ref.id], id, inputs);
  }

  /** Metadata, readings and flags never are. */
  lemma LateObservationIsHarmless(rows: Rows, order: seq<string>, epoch: nat, op: Op, to: Row, id: string,
                                  inputs: seq<Input>)
    requires Startable(rows, order, epoch, inputs) && Unconflicted(inputs, Fences(rows))
    requires (op.Transition? || op.Observation? || op.Reading?) && op.ref.id in rows && Fits(op, rows[op.ref.id])
    ensures var s := Run(Start(rows, order, epoch), Late(op, to, id, inputs));
            s.journal.Some? && s.admitted == {} && Publishable(s)
  {
    hide Run, Startable, Unconflicted, Publishable;
    LateWriteStrandsIff(rows, order, epoch, op, to, id, inputs);
  }

  lemma FirstOrdered(ids: seq<string>, rows: Rows)
    requires IsOrder(ids, rows)
    ensures ids != [] ==> ids[0] in rows
  {
  }

  lemma FirstShown(rows: Rows, inputs: seq<Input>)
    requires ShowsInputs(rows, inputs) && inputs != []
    ensures inputs[0].id in rows
  {
  }

  /** Nor is a new order, unless it already named an input. */
  lemma LateReorderIsHarmless(s: State, op: Op, to: Row)
    requires Inv(s) && Publishable(s) && op in s.admitted && op.Reorder?
    requires forall i | 0 <= i < |s.journal.value.inputs| :: s.journal.value.inputs[i].id !in op.ids
    ensures Publishable(Committed(s, op, to))
  {
    var r := s.journal.value;
    OwnIds(r.inputs);
    hide GoodInputs, PreparedRows, SameAccounts, PlannedSound, Removable, Unconflicted, Under, FinalizesPrefix;
    if IsOrder(op.ids, s.rows) {
      if r.id in s.receipts {
        if r.inputs != [] {
          FirstShown(s.rows, r.inputs);
        } else {
          FirstOrdered(op.ids, s.rows);
          assert InputIds(r.inputs) == [];
        }
      } else {
        assert forall id | id in s.rows :: s.rows[id].staged.None? by {
          assert forall id | id in s.rows :: id in op.ids;
        }
        NothingUnder(op.ids, s.rows, r.id);
      }
    }
  }

  /**
    A late reorder of a published pool, even one whose journal only remains to be cleared: once the call
    stops it strands the replacement exactly if it is not the inputs' order, which every later call checks.
   */
  lemma PublishedReorderStrandsIff(s: State, op: Op, to: Row)
    requires Inv(s) && IsPublished(s) && op in s.admitted && op.Reorder? && IsOrder(op.ids, s.rows)
    ensures Publishable(Do(Do(s, Commits(op, to)), Stops)) <==> op.ids == InputIds(s.journal.value.inputs)
  {
    hide Inv, IsOrder, InputIds;
  }

  /**
    With nothing outstanding at all: a replacement that gives a row's token to another known identity
    is accepted, recorded, and can never be completed.
   */
  lemma ReattributionStrands(row: string, was: Row, input: Input, id: string)
    requires was.complete && was.staged.None? && row != input.id && GoodInputs([input])
    requires input.token == was.token && input.identity.Some? && was.identity.Some? && input.identity != was.identity
    ensures var s := Run(Start(map[row := was], [row], was.epoch), [Plans(id, [input]), Starts]);
            s.journal.Some? && s.journal.value.id == id && s.admitted == {} && !Publishable(s)
  {
    var rows := map[row := was];
    assert Startable(rows, [row], was.epoch, [input]);
    Begins(rows, [row], was.epoch, id, [input], {});
    hide GoodInputs, Do, Startable;
    assert !Unconflicted([input], Fences(rows)) by {
      assert !Attributed([input][0].token, [input][0].identity, Fences(rows)[row]);
    }
    var s := Start(rows, [row], was.epoch);
    assert s == s.(admitted := {});
    var a := [Plans(id, [input]), Starts];
    assert a[1..] == [Starts] && a[1..][1..] == [];
    assert Run(Do(s, a[0]), a[1..]) == Run(Do(Do(s, a[0]), Starts), []);
  }
}
