/**
  `AccountSelector` (packages/core/src/account-selector.ts:400-1212, 1709-2065): the one owner of a
  pool's rows and of the state kept by row index.

  Row keys are given by a function that reads no mutable state. Pruning a session table drops some
  other sessions; which ones is the subject of the module Sessions and left open here. Health and
  token trackers, sinks and diagnostics are not modelled.
 */
module Selector {
  import opened Text
  import opened Cursors
  import opened Rows

  /** A clock that never goes back. */
  class Clock {
    var time: real

    method Now() returns (now: real)
      modifies this
      ensures now == time && time >= old(time)
    {
      var step: real :| step >= 0.0;
      time := time + step;
      now := time;
    }
  }

  class Row {
    var index: int
    var data: Data
    const key: Option<string>

    constructor (key: Option<string>, data: Data)
      ensures this.key == key && this.data == data
    {
      this.key, this.data, this.index := key, data, -1;
    }

    /** `isRateLimitedForFamily`: drops limits that have passed, then looks at what is left. */
    method IsRateLimited(q: Request, clock: Clock) returns (limited: bool)
      modifies this`data, clock
      ensures clock.time >= old(clock.time) && Fades(old(data), data, clock.time)
      ensures limited ==> Limited(old(data), q, old(clock.time))
      ensures !limited ==> !Limited(data, q, clock.time)
    {
      ghost var start := clock.time;
      var now := clock.Now();
      ClearingFades(data, now);
      data := ClearExpired(data, now);
      ghost var cleared := now;
      if q.model.Some? {
        now := clock.Now();
        if LimitedFor(data, q.Key(), now) {
          return true;
        }
      }
      now := clock.Now();
      return LimitedFor(data, FamilyKey(q.family), now);
    }

    method IsOverSoftQuota(q: Request, threshold: real, clock: Clock) returns (over: bool)
      modifies clock
      ensures clock.time >= old(clock.time)
      ensures over ==> OverSoftQuota(data, q, threshold, old(clock.time))
      ensures !over ==> !OverSoftQuota(data, q, threshold, clock.time)
    {
      if threshold >= 100.0 || data.quota.None? || data.quotaAt.None? {
        return false;
      }
      var now := clock.Now();
      if now - data.quotaAt.value > q.ttl {
        return false;
      }
      var reading := ReadingFor(data, q);
      return reading.Some? && reading.value.remaining.Some? && UsedPercent(reading.value.remaining.value) >= threshold;
    }

    /** `isAccountCoolingDown`: drops a cooldown that has passed. */
    method IsCoolingDown(clock: Clock) returns (cooling: bool)
      modifies this`data, clock
      ensures clock.time >= old(clock.time) && Fades(old(data), data, clock.time)
      ensures cooling ==> Cooling(old(data), old(clock.time))
      ensures !cooling ==> !Cooling(data, clock.time)
    {
      if data.coolingUntil.None? {
        return false;
      }
      var now := clock.Now();
      if now >= data.coolingUntil.value {
        data := data.(coolingUntil := None);
        return false;
      }
      return true;
    }

    /** `markTouchedForQuota` and, if asked, `touchLastUsed`. */
    method Touch(key: QuotaKey, use: bool, clock: Clock)
      modifies this`data, clock
      ensures clock.time >= old(clock.time)
      ensures data == old(data).(lastUsed := data.lastUsed, touched := data.touched)
    {
      var now := clock.Now();
      if use {
        data := data.(lastUsed := now);
      }
      data := data.(touched := data.touched[key := now]);
    }

    /** Everything a selection asks of a row but that it is not excluded. */
    method IsOpen(q: Request, threshold: real, clock: Clock) returns (open: bool)
      modifies this`data, clock
      ensures clock.time >= old(clock.time) && Fades(old(data), data, clock.time)
      ensures open ==> Open(data, q, threshold, clock.time)
      ensures !open ==> !Open(old(data), q, threshold, old(clock.time))
    {
      if !Eligible(data) {
        return false;
      }
      var limited := IsRateLimited(q, clock);
      if limited {
        return false;
      }
      ghost var first, t1 := data, clock.time;
      FadedAlike(old(data), first, q, threshold, t1, t1);
      var over := IsOverSoftQuota(q, threshold, clock);
      if over {
        return false;
      }
      ghost var t2 := clock.time;
      var cooling := IsCoolingDown(clock);
      FadesChain(old(data), first, data, t1, clock.time);
      if cooling {
        return false;
      }
      return true;
    }
  }

  datatype Key = Named(name: string) | Itself(row: Row)

  datatype PerFamily<+T> = PerFamily(claude: T, gemini: T) {
    function At(f: Family): T {
      match f case Claude => claude case Gemini => gemini
    }
  }

  function Put<T>(p: PerFamily<T>, f: Family, v: T): PerFamily<T> {
    match f case Claude => p.(claude := v) case Gemini => p.(gemini := v)
  }

  datatype Session = Session(
    parent: Option<string>,
    current: PerFamily<int>,
    cursors: PerFamily<nat>,
    offsets: PerFamily<bool>,
    used: set<int>)

  // ----- Membership ---------------------------------------------------------

  ghost predicate DistinctRows(rows: seq<Row>) {
    forall i, j | 0 <= i < j < |rows| :: rows[i] != rows[j]
  }

  /** No two rows have the same key; a row without one is matched with none. */
  ghost predicate DistinctKeys(rows: seq<Row>, keyOf: Row -> Option<Key>) {
    forall i, j | 0 <= i < j < |rows| :: keyOf(rows[i]).Some? ==> keyOf(rows[i]) != keyOf(rows[j])
  }

  function FindKey(rows: seq<Row>, keyOf: Row -> Option<Key>, key: Option<Key>): (r: Option<Row>)
    ensures r.Some? ==> r.value in rows && keyOf(r.value) == key && key.Some?
    ensures r.None? && key.Some? ==> forall i | 0 <= i < |rows| :: keyOf(rows[i]) != key
  {
    if rows == [] || key.None? then None
    else if keyOf(rows[0]) == key then Some(rows[0])
    else FindKey(rows[1..], keyOf, key)
  }

  /** The rows after a replacement: the kept object where a key is unchanged, else the new one. */
  function Matched(was: seq<Row>, next: seq<Row>, keyOf: Row -> Option<Key>): seq<Row> {
    seq(|next|, j requires 0 <= j < |next| => FindKey(was, keyOf, keyOf(next[j])).GetOr(next[j]))
  }

  /** An index that named a row names the same row still, or none if the row left. */
  ghost predicate Follows(was: seq<Row>, now: seq<Row>, before: int, after: int) {
    if 0 <= before < |was| && was[before] in now then 0 <= after < |now| && now[after] == was[before]
    else after == -1
  }

  /** The same rows are marked, those that left excepted. */
  ghost predicate FollowsSet(was: seq<Row>, now: seq<Row>, before: set<int>, after: set<int>) {
    forall j :: j in after <==> 0 <= j < |now| && exists i :: i in before && 0 <= i < |was| && was[i] == now[j]
  }

  ghost predicate FollowsCounts(was: seq<Row>, now: seq<Row>, before: map<int, PerFamily<nat>>,
                                after: map<int, PerFamily<nat>>) {
    (forall j :: j in after <==> 0 <= j < |now| && exists i :: i in before && 0 <= i < |was| && was[i] == now[j])
    && forall i, j | i in before && 0 <= i < |was| && j in after && 0 <= j < |now| && was[i] == now[j] ::
      after[j] == before[i]
  }

  ghost predicate FollowsSession(was: seq<Row>, now: seq<Row>, before: Session, after: Session) {
    after.parent == before.parent && after.cursors == before.cursors && after.offsets == before.offsets
    && Follows(was, now, before.current.claude, after.current.claude)
    && Follows(was, now, before.current.gemini, after.current.gemini)
    && FollowsSet(was, now, before.used, after.used)
  }

  /** `moved` sends each old index of a kept row to its new one. */
  ghost predicate MovesRows(was: seq<Row>, now: seq<Row>, moved: map<int, int>) {
    (forall i :: i in moved <==> 0 <= i < |was| && was[i] in now)
    && forall i | i in moved :: 0 <= moved[i] < |now| && now[moved[i]] == was[i]
  }

  function Remap(moved: map<int, int>, index: int): int {
    if index in moved then moved[index] else -1
  }

  function RemapSet(moved: map<int, int>, indexes: set<int>): set<int> {
    set i | i in indexes && i in moved :: moved[i]
  }

  function RemapSession(moved: map<int, int>, s: Session): Session {
    s.(current := PerFamily(Remap(moved, s.current.claude), Remap(moved, s.current.gemini)),
       used := RemapSet(moved, s.used))
  }

  lemma RemapFollows(was: seq<Row>, now: seq<Row>, moved: map<int, int>, index: int)
    requires MovesRows(was, now, moved)
    ensures Follows(was, now, index, Remap(moved, index))
  {
  }

  lemma RemapSetFollows(was: seq<Row>, now: seq<Row>, moved: map<int, int>, indexes: set<int>)
    requires MovesRows(was, now, moved) && DistinctRows(now)
    ensures FollowsSet(was, now, indexes, RemapSet(moved, indexes))
  {
    forall j | 0 <= j < |now| && exists i :: i in indexes && 0 <= i < |was| && was[i] == now[j]
      ensures j in RemapSet(moved, indexes) {
      var i :| i in indexes && 0 <= i < |was| && was[i] == now[j];
      assert now[moved[i]] == now[j];
    }
  }

  /** No two indexes move to one place. */
  ghost predicate Injective(moved: map<int, int>) {
    forall i, j | i in moved && j in moved && moved[i] == moved[j] :: i == j
  }

  lemma MovesApart(was: seq<Row>, now: seq<Row>, moved: map<int, int>)
    requires MovesRows(was, now, moved) && DistinctRows(was)
    ensures Injective(moved)
  {
    forall i, j | i in moved && j in moved && moved[i] == moved[j] ensures i == j {
      assert was[i] == was[j];
    }
  }

  function RemapCounts(moved: map<int, int>, counts: map<int, PerFamily<nat>>): map<int, PerFamily<nat>>
    requires Injective(moved)
  {
    map i | i in counts && i in moved :: moved[i] := counts[i]
  }

  lemma RemapCountsFollows(was: seq<Row>, now: seq<Row>, moved: map<int, int>, counts: map<int, PerFamily<nat>>)
    requires MovesRows(was, now, moved) && DistinctRows(was) && DistinctRows(now) && Injective(moved)
    ensures FollowsCounts(was, now, counts, RemapCounts(moved, counts))
  {
    var after := RemapCounts(moved, counts);
    forall i, j | i in counts && 0 <= i < |was| && 0 <= j < |now| && was[i] == now[j]
      ensures j in after && after[j] == counts[i] {
      assert now[moved[i]] == now[j];
    }
    forall j | j in after ensures 0 <= j < |now| && exists i :: i in counts && 0 <= i < |was| && was[i] == now[j] {
      var i :| i in counts && i in moved && moved[i] == j;
      assert was[i] == now[j];
    }
  }

  /** The pool-wide selection follows its row, or falls back where the row left. */
  ghost predicate FollowsOrFalls(was: seq<Row>, now: seq<Row>, before: int, after: int, fallback: int) {
    if now == [] || (0 <= before < |was| && was[before] in now) then Follows(was, now, before, after)
    else after == fallback
  }

  lemma RemapSessionFollows(was: seq<Row>, now: seq<Row>, moved: map<int, int>, s: Session)
    requires MovesRows(was, now, moved) && DistinctRows(now)
    ensures FollowsSession(was, now, s, RemapSession(moved, s))
  {
    RemapFollows(was, now, moved, s.current.claude);
    RemapFollows(was, now, moved, s.current.gemini);
    RemapSetFollows(was, now, moved, s.used);
  }

  /** The first rows of `next` have been matched. */
  ghost predicate Placed(was: seq<Row>, next: seq<Row>, keyOf: Row -> Option<Key>, rows: seq<Row>) {
    |rows| <= |next| && rows == Matched(was, next, keyOf)[..|rows|] && DistinctRows(rows)
    && (forall n | 0 <= n < |rows| && rows[n] in was :: keyOf(rows[n]).Some? && keyOf(rows[n]) == keyOf(next[n]))
    && forall n | 0 <= n < |rows| && rows[n] !in was :: rows[n] == next[n]
  }

  /** `previous` holds by key the rows not matched yet. */
  ghost predicate Pending(was: seq<Row>, keyOf: Row -> Option<Key>, rows: seq<Row>, previous: map<Key, Row>) {
    (forall k | k in previous :: previous[k] in was && previous[k] !in rows && keyOf(previous[k]) == Some(k))
    && forall n | 0 <= n < |was| && was[n] !in rows && keyOf(was[n]).Some? ::
         keyOf(was[n]).value in previous && previous[keyOf(was[n]).value] == was[n]
  }

  ghost predicate Matchable(was: seq<Row>, next: seq<Row>, keyOf: Row -> Option<Key>) {
    DistinctRows(was) && DistinctRows(next) && DistinctKeys(was, keyOf) && DistinctKeys(next, keyOf)
    && forall j | 0 <= j < |next| && next[j] in was :: keyOf(next[j]).Some?
  }

  lemma NextIsUnplaced(was: seq<Row>, next: seq<Row>, keyOf: Row -> Option<Key>, rows: seq<Row>)
    requires Matchable(was, next, keyOf) && Placed(was, next, keyOf, rows) && |rows| < |next|
    ensures next[|rows|] !in rows
  {
    forall n | 0 <= n < |rows| ensures rows[n] != next[|rows|] {
      assert next[n] != next[|rows|];
    }
  }

  lemma UnmatchedIsNew(was: seq<Row>, next: seq<Row>, keyOf: Row -> Option<Key>, rows: seq<Row>,
                       previous: map<Key, Row>)
    requires Matchable(was, next, keyOf) && Placed(was, next, keyOf, rows) && |rows| < |next|
    requires Pending(was, keyOf, rows, previous)
    requires keyOf(next[|rows|]).None? || keyOf(next[|rows|]).value !in previous
    ensures next[|rows|] !in was && Placed(was, next, keyOf, rows + [next[|rows|]])
    ensures Pending(was, keyOf, rows + [next[|rows|]], previous)
  {
    var row := next[|rows|];
    NextIsUnplaced(was, next, keyOf, rows);
    forall n | 0 <= n < |was| && keyOf(was[n]).Some? ensures keyOf(was[n]) != keyOf(row) {
      assert was[n] in rows ==> exists m :: 0 <= m < |rows| && keyOf(next[m]) == keyOf(was[n]);
    }
    assert Matched(was, next, keyOf)[|rows|] == row;
    assert Matched(was, next, keyOf)[..|rows| + 1] == Matched(was, next, keyOf)[..|rows|] + [row];
  }

  lemma MatchIsFound(was: seq<Row>, next: seq<Row>, keyOf: Row -> Option<Key>, rows: seq<Row>, previous: map<Key, Row>)
    requires Matchable(was, next, keyOf) && Placed(was, next, keyOf, rows) && |rows| < |next|
    requires Pending(was, keyOf, rows, previous)
    requires keyOf(next[|rows|]).Some? && keyOf(next[|rows|]).value in previous
    ensures var k := keyOf(next[|rows|]).value;
            previous[k] in was && previous[k] !in rows
            && Placed(was, next, keyOf, rows + [previous[k]])
            && Pending(was, keyOf, rows + [previous[k]], previous - {k})
  {
    var k := keyOf(next[|rows|]).value;
    var prior := previous[k];
    var n :| 0 <= n < |was| && was[n] == prior;
    var found := FindKey(was, keyOf, Some(k));
    assert found.Some?;
    var m :| 0 <= m < |was| && was[m] == found.value;
    assert keyOf(was[m]) == keyOf(was[n]);
    assert m == n;
    assert Matched(was, next, keyOf)[|rows|] == prior;
    assert Matched(was, next, keyOf)[..|rows| + 1] == Matched(was, next, keyOf)[..|rows|] + [prior];
  }

  lemma NothingPlaced(was: seq<Row>, next: seq<Row>, keyOf: Row -> Option<Key>)
    ensures Placed(was, next, keyOf, []) && MovesRows(was, [], map[])
  {
  }

  /** All rows are matched once as many are placed as were given. */
  lemma AllPlaced(was: seq<Row>, next: seq<Row>, keyOf: Row -> Option<Key>, rows: seq<Row>)
    requires Placed(was, next, keyOf, rows) && |rows| == |next| && Matchable(was, next, keyOf)
    ensures rows == Matched(was, next, keyOf) && DistinctRows(rows)
    ensures NextOnlyInPlace(rows, next)
  {
    forall i, j | 0 <= i < |rows| && 0 <= j < |next| && rows[i] == next[j] ensures i == j {
      if rows[i] in was {
        assert keyOf(next[i]) == keyOf(next[j]);
      }
    }
  }

  /** A row of `next` is among the rows only at its own place. */
  ghost predicate NextOnlyInPlace(rows: seq<Row>, next: seq<Row>) {
    forall i, j | 0 <= i < |rows| && 0 <= j < |next| && rows[i] == next[j] :: i == j
  }

  lemma MovesNewRow(was: seq<Row>, rows: seq<Row>, moved: map<int, int>, row: Row)
    requires MovesRows(was, rows, moved) && row !in was
    ensures MovesRows(was, rows + [row], moved)
  {
  }

  lemma MovesKeptRow(was: seq<Row>, rows: seq<Row>, moved: map<int, int>, n: int)
    requires MovesRows(was, rows, moved) && DistinctRows(was) && 0 <= n < |was| && was[n] !in rows
    ensures MovesRows(was, rows + [was[n]], moved[n := |rows|])
  {
  }

  /** The pool-wide selection after a membership change. */
  function Reselected(moved: map<int, int>, count: nat, former: int, fallback: int): int {
    if Remap(moved, former) >= 0 || count == 0 then Remap(moved, former) else fallback
  }

  lemma ReselectedFollows(was: seq<Row>, now: seq<Row>, moved: map<int, int>, former: int, fallback: int)
    requires MovesRows(was, now, moved)
    ensures FollowsOrFalls(was, now, former, Reselected(moved, |now|, former, fallback), fallback)
  {
    RemapFollows(was, now, moved, former);
  }

  function ReselectedAll(moved: map<int, int>, count: nat, former: PerFamily<int>,
                         fallback: (Family, int, nat) -> int): PerFamily<int> {
    PerFamily(Reselected(moved, count, former.claude, fallback(Claude, former.claude, count)),
              Reselected(moved, count, former.gemini, fallback(Gemini, former.gemini, count)))
  }

  /** Each family's selection follows its row or falls back. */
  ghost predicate SelectionKept(was: seq<Row>, now: seq<Row>, before: PerFamily<int>, after: PerFamily<int>,
                                fallback: (Family, int, nat) -> int) {
    forall f: Family :: FollowsOrFalls(was, now, before.At(f), after.At(f), fallback(f, before.At(f), |now|))
  }

  lemma SelectionFollows(was: seq<Row>, now: seq<Row>, moved: map<int, int>, former: PerFamily<int>,
                         fallback: (Family, int, nat) -> int)
    requires MovesRows(was, now, moved)
    ensures SelectionKept(was, now, former, ReselectedAll(moved, |now|, former, fallback), fallback)
  {
    ReselectedFollows(was, now, moved, former.claude, fallback(Claude, former.claude, |now|));
    ReselectedFollows(was, now, moved, former.gemini, fallback(Gemini, former.gemini, |now|));
  }

  function RemapSessions(moved: map<int, int>, sessions: map<string, Session>): map<string, Session> {
    map id | id in sessions :: RemapSession(moved, sessions[id])
  }

  lemma SessionsFollow(was: seq<Row>, now: seq<Row>, moved: map<int, int>, sessions: map<string, Session>)
    requires MovesRows(was, now, moved) && DistinctRows(now)
    ensures var after := RemapSessions(moved, sessions);
            after.Keys == sessions.Keys
            && forall id | id in sessions :: FollowsSession(was, now, sessions[id], after[id])
  {
    forall id | id in sessions ensures FollowsSession(was, now, sessions[id], RemapSession(moved, sessions[id])) {
      RemapSessionFollows(was, now, moved, sessions[id]);
    }
  }

  // ----- What a selection reads -------------------------------------------------

  /** A request's session; an absent and an empty parent are the same. */
  datatype Identity = Identity(id: string, parent: Option<string>)

  datatype Strategy = Sticky | RoundRobin | Hybrid

  /** What the unseen hybrid scoring sees of a row. */
  datatype Candidate = Candidate(index: int, lastUsed: real, limited: bool, cooling: bool)

  /** Hybrid scoring picks, if anything, a candidate that is neither limited nor cooling down. */
  ghost predicate PicksUnblocked(pick: (seq<Candidate>, int) -> Option<int>) {
    forall cs: seq<Candidate>, current: int | pick(cs, current).Some? ::
      exists c | c in cs :: c.index == pick(cs, current).value && !c.limited && !c.cooling
  }

  /** `getEligibleAccounts`: the rows a request may use at all. */
  function EligibleRows(rows: seq<Row>, excluded: set<int>): set<Row>
    reads rows
  {
    set r | r in rows && Eligible(r.data) && r.index !in excluded
  }

  /** Soft quota never blocks the sole usable row. */
  function EffectiveThreshold(rows: seq<Row>, threshold: real, excluded: set<int>): real
    reads rows
  {
    if |EligibleRows(rows, excluded)| > 1 then threshold else 100.0
  }

  lemma HeadApart(rows: seq<Row>)
    requires rows != [] && DistinctRows(rows)
    ensures DistinctRows(rows[1..]) && rows[0] !in rows[1..]
  {
    forall j | 1 <= j < |rows| ensures rows[j] != rows[0] {
    }
  }

  /** The rows among these, in their order. */
  function Where(rows: seq<Row>, kept: set<Row>): (r: seq<Row>)
    ensures forall x | x in r :: x in rows && x in kept
    ensures forall x | x in rows && x in kept :: x in r
    ensures DistinctRows(rows) ==> DistinctRows(r)
  {
    if rows == [] then []
    else
      assert DistinctRows(rows) ==> DistinctRows(rows[1..]) && rows[0] !in rows[1..] by {
        if DistinctRows(rows) {
          HeadApart(rows);
        }
      }
      (if rows[0] in kept then [rows[0]] else []) + Where(rows[1..], kept)
  }

  /** The order of rows taken from a list in its own order. */
  lemma {:induction false} WhereAppends(rows: seq<Row>, row: Row, kept: set<Row>)
    requires DistinctRows(rows + [row])
    ensures Where(rows + [row], kept) == Where(rows, kept) + if row in kept then [row] else []
    decreases rows
  {
    if rows == [] {
      assert (rows + [row])[1..] == [];
    } else {
      assert (rows + [row])[1..] == rows[1..] + [row];
      HeadApart(rows + [row]);
      WhereAppends(rows[1..], row, kept);
    }
  }

  /** Only whether each of the listed rows is kept matters. */
  lemma {:induction false} WhereDepends(rows: seq<Row>, a: set<Row>, b: set<Row>)
    requires forall r: Row | r in rows :: r in a <==> r in b
    ensures Where(rows, a) == Where(rows, b)
    decreases rows
  {
    if rows != [] {
      WhereDepends(rows[1..], a, b);
    }
  }

  function Members(rows: seq<Row>): set<Row> {
    set r | r in rows
  }

  /** Some of the rows of a list, in its order. */
  ghost predicate TakenFrom(open: seq<Row>, rows: seq<Row>) {
    DistinctRows(open) && open == Where(rows, Members(open))
  }

  /** The next row of the list is taken or not. */
  lemma NextTaken(rows: seq<Row>, i: nat, open: seq<Row>)
    requires DistinctRows(rows) && i < |rows| && TakenFrom(open, rows[..i])
    ensures TakenFrom(open, rows[..i + 1]) && TakenFrom(open + [rows[i]], rows[..i + 1])
  {
    hide Where;
    assert rows[..i + 1] == rows[..i] + [rows[i]];
    assert rows[i] !in rows[..i];
    WhereAppends(rows[..i], rows[i], Members(open));
    WhereAppends(rows[..i], rows[i], Members(open + [rows[i]]));
    WhereDepends(rows[..i], Members(open), Members(open + [rows[i]]));
    assert rows[i] !in open;
  }

  lemma {:induction false} WhereTwice(rows: seq<Row>, a: set<Row>, b: set<Row>)
    ensures Where(Where(rows, a), b) == Where(rows, a * b)
    decreases rows
  {
    hide Where, DistinctRows;
    WhereOf(rows, a);
    WhereOf(rows, a * b);
    if rows == [] {
      WhereOf([], b);
    } else {
      WhereTwice(rows[1..], a, b);
      var rest := Where(rows[1..], a);
      if rows[0] in a {
        var both := [rows[0]] + rest;
        WhereOf(both, b);
        assert both[1..] == rest;
      } else {
        assert [] + rest == rest;
      }
    }
  }

  lemma WhereOf(rows: seq<Row>, kept: set<Row>)
    ensures Where(rows, kept) == if rows == [] then [] else
                                 (if rows[0] in kept then [rows[0]] else []) + Where(rows[1..], kept)
  {
  }

  /** What is taken from rows in the order of a list is in that order. */
  lemma StaysInOrder(rows: seq<Row>, open: seq<Row>, kept: set<Row>)
    requires open == Where(rows, Members(open))
    ensures Where(open, kept) == Where(rows, Members(Where(open, kept)))
  {
    WhereTwice(rows, Members(open), kept);
    WhereDepends(rows, Members(open) * kept, Members(Where(open, kept)));
  }

  lemma NoneTaken(rows: seq<Row>)
    ensures TakenFrom([], rows[..0])
  {
  }

  function Reporting(rows: seq<Row>): seq<Row>
    reads rows
  {
    Where(rows, set r | r in rows && ReportsArgon(r.data))
  }

  /** `preferArgonAccounts`: rows reporting the requested Argon allowance, where there are any. */
  function PreferArgon(rows: seq<Row>, q: Request): (r: seq<Row>)
    reads rows
    ensures forall x | x in r :: x in rows
    ensures rows != [] ==> r != []
    ensures DistinctRows(rows) ==> DistinctRows(r)
  {
    if q.argon && Reporting(rows) != [] then Reporting(rows) else rows
  }

  /** `preferAccountOutsideParent`: rows other than the one the parent session holds, where there are any. */
  function Outside(rows: seq<Row>, parent: int): (r: seq<Row>)
    reads rows
    ensures forall x | x in r :: x in rows
    ensures rows != [] ==> r != []
    ensures DistinctRows(rows) ==> DistinctRows(r)
  {
    var others := Where(rows, set x | x in rows && x.index != parent);
    if parent >= 0 && others != [] then others else rows
  }

  /** Rows already used in the session, where there are any. */
  function UsedFirst(rows: seq<Row>, used: set<int>): (r: seq<Row>)
    reads rows
    ensures forall x | x in r :: x in rows
    ensures rows != [] ==> r != []
    ensures DistinctRows(rows) ==> DistinctRows(r)
  {
    var marked := Where(rows, set x | x in rows && x.index in used);
    if marked != [] then marked else rows
  }

  function Among(cs: seq<Candidate>, indexes: set<int>): (r: seq<Candidate>)
    ensures forall c | c in r :: c in cs
  {
    if cs == [] then [] else (if cs[0].index in indexes then [cs[0]] else []) + Among(cs[1..], indexes)
  }

  // ----- Round robin ------------------------------------------------------------

  /** The row whose turn it is. */
  function Turn(candidates: seq<Row>, cursor: nat): (r: Row)
    requires candidates != []
    ensures r in candidates
  {
    candidates[Wrap(cursor, |candidates|)]
  }

  lemma {:induction false} NextWrap(c: nat, n: nat)
    requires n > 0
    ensures Wrap(c + 1, n) == if Wrap(c, n) + 1 == n then 0 else Wrap(c, n) + 1
  {
    if c >= n {
      NextWrap(c - n, n);
    }
  }

  lemma {:induction false} WrapsOnce(c: nat, i: nat, n: nat)
    requires i < n
    ensures Wrap(c + i, n) == if Wrap(c, n) + i < n then Wrap(c, n) + i else Wrap(c, n) + i - n
  {
    if i > 0 {
      WrapsOnce(c, i - 1, n);
      NextWrap(c + i - 1, n);
    }
  }

  /** The row that takes the turn `later` turns on. */
  function LaterTurn(candidates: seq<Row>, cursor: nat, later: nat): Row
    requires candidates != []
  {
    Turn(candidates, cursor + later)
  }

  /** As many consecutive turns as there are candidates give each of them exactly one. */
  lemma TurnsVisitEach(candidates: seq<Row>, cursor: nat, row: Row) returns (i: nat)
    requires DistinctRows(candidates) && row in candidates
    ensures i < |candidates| && LaterTurn(candidates, cursor, i) == row
    ensures forall j | 0 <= j < |candidates| && j != i :: LaterTurn(candidates, cursor, j) != row
  {
    var n := |candidates|;
    var k :| 0 <= k < n && candidates[k] == row;
    var w := Wrap(cursor, n);
    i := if k >= w then k - w else k + n - w;
    WrapsOnce(cursor, i, n);
    forall j | 0 <= j < n && j != i ensures LaterTurn(candidates, cursor, j) != row {
      WrapsOnce(cursor, j, n);
      assert Wrap(cursor + j, n) != k;
    }
  }

  /** The candidates for each of some picks are the same rows. */
  predicate Same(lists: seq<seq<Row>>) {
    forall i | 0 <= i < |lists| :: Members(lists[i]) == Members(lists[0])
  }

  predicate PickedOnce(picks: seq<Option<Row>>, row: Row) {
    exists i | 0 <= i < |picks| ::
      picks[i] == Some(row) && forall j | 0 <= j < |picks| && j != i :: picks[j] != Some(row)
  }

  lemma SameLists(rows: seq<Row>, lists: seq<seq<Row>>)
    requires Same(lists) && forall i | 0 <= i < |lists| :: lists[i] == Where(rows, Members(lists[i]))
    ensures forall i | 0 <= i < |lists| :: lists[i] == lists[0]
  {
  }

  /** The candidates for a pick are in the order of the pool. */
  lemma CandidatesInOrder(rows: seq<Row>, open: seq<Row>, q: Request, parent: int, used: set<int>)
    requires open == Where(rows, Members(open))
    ensures var candidates := UsedFirst(Outside(PreferArgon(open, q), parent), used);
            candidates == Where(rows, Members(candidates))
            && (open == [] ==> candidates == [])
  {
    hide Where, Members, Reporting;
    ReportingInOrder(rows, open);
    var argon := PreferArgon(open, q);
    StaysInOrder(rows, argon, set x | x in argon && x.index != parent);
    var outside := Outside(argon, parent);
    StaysInOrder(rows, outside, set x | x in outside && x.index in used);
    NoneAmongNone(argon, open);
    NoneAmongNone(outside, argon);
    NoneAmongNone(UsedFirst(outside, used), outside);
  }

  lemma NoneAmongNone(some: seq<Row>, rows: seq<Row>)
    requires forall r | r in some :: r in rows
    ensures rows == [] ==> some == []
  {
    if some != [] {
      assert some[0] in rows;
    }
  }

  lemma ReportingInOrder(rows: seq<Row>, open: seq<Row>)
    requires open == Where(rows, Members(open))
    ensures Reporting(open) == Where(rows, Members(Reporting(open)))
    ensures forall r | r in Reporting(open) :: r in open
  {
    hide Where, Members;
    StaysInOrder(rows, open, set r | r in open && ReportsArgon(r.data));
  }

  // ----- Least waits --------------------------------------------------------------

  /** The least of some waits, those unknown left out. */
  predicate LeastKnown(waits: seq<Option<real>>, wait: Option<real>) {
    (wait.None? ==> forall n | 0 <= n < |waits| :: waits[n].None?)
    && (wait.Some? ==> wait in waits && forall n | 0 <= n < |waits| && waits[n].Some? :: wait.value <= waits[n].value)
  }

  lemma LeastOfNone(waits: seq<Option<real>>)
    ensures LeastKnown(waits[..0], None)
  {
  }

  lemma LeastWithNext(waits: seq<Option<real>>, i: nat, wait: Option<real>)
    requires i < |waits| && LeastKnown(waits[..i], wait)
    ensures var better := waits[i].Some? && (wait.None? || waits[i].value < wait.value);
            LeastKnown(waits[..i + 1], if better then waits[i] else wait)
  {
    assert waits[..i + 1] == waits[..i] + [waits[i]];
  }

  lemma LeastOfRows(rows: seq<Row>, waits: seq<Option<real>>, wait: Option<real>)
    requires |rows| == |waits| && LeastKnown(waits, wait)
    ensures wait.None? ==> forall n | 0 <= n < |waits| :: waits[n].None?
    ensures wait.Some? ==> forall n | 0 <= n < |waits| && waits[n].Some? :: wait.value <= waits[n].value
    ensures wait.Some? ==> exists n :: 0 <= n < |waits| && waits[n] == wait && rows[n] in rows
  {
    if wait.Some? {
      var n :| 0 <= n < |waits| && waits[n] == wait;
      assert rows[n] in rows;
    }
  }

  lemma LeastWaitIsExact(pool: set<Row>, data: map<Row, Data>, q: Request, now: real, cooldowns: bool, wait: real,
                         t: real)
    requires pool <= data.Keys && t >= now
    requires forall r: Row | r in pool :: wait <= Wait(data[r], q, now, cooldowns)
    requires exists r: Row | r in pool :: wait == Wait(data[r], q, now, cooldowns)
    ensures (exists r: Row | r in pool :: Ready(data[r], q, t, cooldowns)) <==> t >= now + wait
  {
    hide Ready, Wait;
    forall r: Row | r in pool ensures Ready(data[r], q, t, cooldowns) <==> t >= now + Wait(data[r], q, now, cooldowns) {
      WaitIsExact(data[r], q, now, cooldowns, t);
    }
  }

  lemma LeastSelectableIsExact(pool: set<Row>, data: map<Row, Data>, q: Request, threshold: real, soft: bool, now: real,
                               wait: Option<real>, t: real)
    requires pool <= data.Keys && t >= now
    requires wait.None? ==> forall r: Row | r in pool :: SelectableWait(data[r], q, threshold, soft, now).None?
    requires wait.Some? ==>
               (forall r: Row | r in pool && SelectableWait(data[r], q, threshold, soft, now).Some? ::
                  wait.value <= SelectableWait(data[r], q, threshold, soft, now).value)
               && exists r: Row | r in pool :: SelectableWait(data[r], q, threshold, soft, now) == wait
    ensures (exists r: Row | r in pool :: Selectable(data[r], q, threshold, soft, now, t))
            <==> wait.Some? && t >= now + wait.value
  {
    hide Selectable, SelectableWait;
    forall r: Row | r in pool
      ensures Selectable(data[r], q, threshold, soft, now, t)
              <==> SelectableWait(data[r], q, threshold, soft, now).Some?
                   && t >= now + SelectableWait(data[r], q, threshold, soft, now).value {
      SelectableWaitIsExact(data[r], q, threshold, soft, now, t);
    }
  }

  /** A wait is unknown exactly for a row over soft quota whose reading names no later reset. */
  lemma UnknownWaits(pool: set<Row>, data: map<Row, Data>, q: Request, threshold: real, soft: bool, now: real)
    requires pool <= data.Keys
    ensures forall r: Row | r in pool ::
              SelectableWait(data[r], q, threshold, soft, now).None?
              <==> soft && OverSoftQuota(data[r], q, threshold, now) && QuotaReset(data[r], q, now).None?
  {
  }

  // ----- Removal ------------------------------------------------------------

  function Without(rows: seq<Row>, at: int): seq<Row>
    requires 0 <= at < |rows|
  {
    rows[..at] + rows[at + 1..]
  }

  /** Where an index of `n` rows points once the row at `at` is gone. */
  function Shift(at: int, n: int, index: int): int {
    if index < 0 || index >= n || index == at then -1 else if index > at then index - 1 else index
  }

  function ItselfKey(row: Row): Option<Key> {
    Some(Itself(row))
  }

  function KeepData(prior: Data, newer: Data): Data {
    prior
  }

  function Successor(f: Family, former: int, count: nat): int {
    if former < count then former else -1
  }

  function ShiftCursor(at: int, count: nat, cursor: nat): nat
    requires at >= 0 && count > 0
  {
    Wrap(if cursor > at then cursor - 1 else cursor, count)
  }

  function ShiftCursors(at: int, count: nat, cursors: PerFamily<nat>): PerFamily<nat>
    requires at >= 0
  {
    if count == 0 then PerFamily(0, 0)
    else PerFamily(ShiftCursor(at, count, cursors.claude), ShiftCursor(at, count, cursors.gemini))
  }

  function WithShiftedCursors(at: int, count: nat, s: Session): Session
    requires at >= 0
  {
    s.(cursors := ShiftCursors(at, count, s.cursors))
  }

  function ShiftSession(at: int, n: nat, s: Session): Session
    requires 0 <= at < n
  {
    s.(current := PerFamily(Shift(at, n, s.current.claude), Shift(at, n, s.current.gemini)),
       cursors := ShiftCursors(at, n - 1, s.cursors),
       used := ShiftSet(at, n, s.used))
  }

  function ShiftSet(at: int, n: int, indexes: set<int>): set<int> {
    set i | i in indexes && Shift(at, n, i) >= 0 :: Shift(at, n, i)
  }

  /** The pool-wide selection passes on to the next row, if there is one. */
  function ShiftSelection(at: int, n: int, index: int): int {
    if index == at && n > 1 then (if at < n - 1 then at else -1)
    else if index < 0 && n > 1 then index
    else Shift(at, n, index)
  }

  ghost predicate ShiftedState(at: int, n: int, current: PerFamily<int>, current': PerFamily<int>, used: set<int>,
                               used': set<int>, counts: map<int, PerFamily<nat>>, counts': map<int, PerFamily<nat>>,
                               toast: int, toast': int) {
    current' == PerFamily(ShiftSelection(at, n, current.claude), ShiftSelection(at, n, current.gemini))
    && used' == ShiftSet(at, n, used)
    && (forall i | i in counts && Shift(at, n, i) >= 0 ::
          Shift(at, n, i) in counts' && counts'[Shift(at, n, i)] == counts[i])
    && (forall j | j in counts' :: exists i :: i in counts && Shift(at, n, i) == j)
    && toast' == Shift(at, n, toast)
  }

  /** A row's place among the others once one is gone. */
  lemma WithoutAt(was: seq<Row>, at: int, i: int)
    requires DistinctRows(was) && 0 <= at < |was| && 0 <= i < |was|
    ensures was[i] in Without(was, at) <==> i != at
    ensures i != at ==> 0 <= Shift(at, |was|, i) < |was| - 1 && Without(was, at)[Shift(at, |was|, i)] == was[i]
    ensures DistinctRows(Without(was, at))
  {
    var now := Without(was, at);
    forall j | 0 <= j < |now| ensures now[j] == was[if j < at then j else j + 1] {
    }
  }

  lemma FollowsShift(was: seq<Row>, at: int, before: int, after: int)
    requires DistinctRows(was) && 0 <= at < |was| && Follows(was, Without(was, at), before, after)
    ensures after == Shift(at, |was|, before)
  {
    if 0 <= before < |was| {
      WithoutAt(was, at, before);
    }
  }

  lemma FollowsSetShift(was: seq<Row>, at: int, before: set<int>, after: set<int>)
    requires DistinctRows(was) && 0 <= at < |was| && FollowsSet(was, Without(was, at), before, after)
    ensures after == ShiftSet(at, |was|, before)
  {
    var now := Without(was, at);
    forall j | j in after ensures j in ShiftSet(at, |was|, before) {
      var i :| i in before && 0 <= i < |was| && was[i] == now[j];
      WithoutAt(was, at, i);
      assert Shift(at, |was|, i) == j;
    }
    forall i | i in before && Shift(at, |was|, i) >= 0 ensures Shift(at, |was|, i) in after {
      WithoutAt(was, at, i);
    }
  }

  lemma FollowsCountsShift(was: seq<Row>, at: int, before: map<int, PerFamily<nat>>, after: map<int, PerFamily<nat>>)
    requires DistinctRows(was) && 0 <= at < |was| && FollowsCounts(was, Without(was, at), before, after)
    ensures forall i | i in before && Shift(at, |was|, i) >= 0 ::
              Shift(at, |was|, i) in after && after[Shift(at, |was|, i)] == before[i]
    ensures forall j | j in after :: exists i :: i in before && Shift(at, |was|, i) == j
  {
    var now := Without(was, at);
    forall j | j in after ensures exists i :: i in before && Shift(at, |was|, i) == j {
      var i :| i in before && 0 <= i < |was| && was[i] == now[j];
      WithoutAt(was, at, i);
      assert Shift(at, |was|, i) == j;
    }
    forall i | i in before && Shift(at, |was|, i) >= 0
      ensures Shift(at, |was|, i) in after && after[Shift(at, |was|, i)] == before[i] {
      WithoutAt(was, at, i);
    }
  }

  lemma FallsShift(was: seq<Row>, at: int, before: int, after: int, f: Family)
    requires DistinctRows(was) && 0 <= at < |was|
    requires FollowsOrFalls(was, Without(was, at), before, after, Successor(f, before, |was| - 1))
    ensures after == ShiftSelection(at, |was|, before)
  {
    if 0 <= before < |was| {
      WithoutAt(was, at, before);
    }
  }

  lemma RemovalShifts(was: seq<Row>, at: int, current: PerFamily<int>, current': PerFamily<int>, used: set<int>,
                      used': set<int>,
                      counts: map<int, PerFamily<nat>>, counts': map<int, PerFamily<nat>>, toast: int, toast': int)
    requires DistinctRows(was) && 0 <= at < |was|
    requires SelectionKept(was, Without(was, at), current, current', Successor)
    requires FollowsSet(was, Without(was, at), used, used') && FollowsCounts(was, Without(was, at), counts, counts')
    requires Follows(was, Without(was, at), toast, toast')
    ensures ShiftedState(at, |was|, current, current', used, used', counts, counts', toast, toast')
  {
    hide Follows, FollowsSet, FollowsCounts, FollowsOrFalls, Shift, ShiftSelection;
    assert current.At(Claude) == current.claude && current'.At(Claude) == current'.claude;
    assert current.At(Gemini) == current.gemini && current'.At(Gemini) == current'.gemini;
    FallsShift(was, at, current.claude, current'.claude, Claude);
    FallsShift(was, at, current.gemini, current'.gemini, Gemini);
    FollowsSetShift(was, at, used, used');
    FollowsCountsShift(was, at, counts, counts');
    FollowsShift(was, at, toast, toast');
  }

  lemma SessionsShift(was: seq<Row>, at: int, before: map<string, Session>, after: map<string, Session>)
    requires DistinctRows(was) && 0 <= at < |was| && after.Keys == before.Keys
    requires forall id | id in after :: FollowsSession(was, Without(was, at), before[id], after[id])
    ensures forall id | id in after ::
              WithShiftedCursors(at, |was| - 1, after[id]) == ShiftSession(at, |was|, before[id])
  {
    forall id | id in after
      ensures WithShiftedCursors(at, |was| - 1, after[id]) == ShiftSession(at, |was|, before[id]) {
      FollowsShift(was, at, before[id].current.claude, after[id].current.claude);
      FollowsShift(was, at, before[id].current.gemini, after[id].current.gemini);
      FollowsSetShift(was, at, before[id].used, after[id].used);
    }
  }

  lemma WithoutMatches(was: seq<Row>, at: int)
    requires DistinctRows(was) && 0 <= at < |was|
    ensures Matchable(was, Without(was, at), ItselfKey) && Matched(was, Without(was, at), ItselfKey) == Without(was, at)
    ensures forall j | 0 <= j < |Without(was, at)| :: Without(was, at)[j] in was
  {
    WithoutAt(was, at, at);
  }

  class AccountSelector {
    var accounts: seq<Row>
    var cursors: PerFamily<nat>
    var current: PerFamily<int>
    var sessions: map<string, Session>
    var used: set<int>
    var offsets: PerFamily<bool>
    var counts: map<int, PerFamily<nat>>
    var lastToast: int

    /** Each row's index is its position. */
    ghost predicate Valid()
      reads this, accounts
    {
      forall i | 0 <= i < |accounts| :: accounts[i].index == i
    }

    constructor ()
      ensures Valid() && accounts == []
    {
      accounts, cursors, current := [], PerFamily(0, 0), PerFamily(-1, -1);
      sessions, used, offsets, counts, lastToast := map[], {}, PerFamily(false, false), map[], -1;
    }

    method RowsByKey(keyOf: Row -> Option<Key>) returns (previous: map<Key, Row>)
      requires DistinctKeys(accounts, keyOf)
      ensures Pending(accounts, keyOf, [], previous)
    {
      previous := map[];
      for i := 0 to |accounts|
        invariant forall k | k in previous :: previous[k] in accounts[..i] && keyOf(previous[k]) == Some(k)
        invariant forall n | 0 <= n < i && keyOf(accounts[n]).Some? ::
                    keyOf(accounts[n]).value in previous && previous[keyOf(accounts[n]).value] == accounts[n]
      {
        var key := keyOf(accounts[i]);
        if key.Some? {
          previous := previous[key.value := accounts[i]];
        }
      }
    }

    /** Matches `next` to the rows by key. */
    method MatchRows(next: seq<Row>, keyOf: Row -> Option<Key>) returns (rows: seq<Row>, moved: map<int, int>)
      requires Valid() && Matchable(accounts, next, keyOf)
      ensures rows == Matched(accounts, next, keyOf) && DistinctRows(rows) && NextOnlyInPlace(rows, next)
      ensures MovesRows(accounts, rows, moved)
    {
      var previous := RowsByKey(keyOf);
      hide Placed, Pending, MovesRows, Matched, DistinctKeys, Matchable;
      rows, moved := [], map[];
      NothingPlaced(accounts, next, keyOf);
      for j := 0 to |next|
        invariant |rows| == j
        invariant Placed(accounts, next, keyOf, rows)
        invariant Pending(accounts, keyOf, rows, previous)
        invariant MovesRows(accounts, rows, moved)
      {
        var row := next[j];
        var key := keyOf(row);
        NextIsUnplaced(accounts, next, keyOf, rows);
        if key.None? || key.value !in previous {
          UnmatchedIsNew(accounts, next, keyOf, rows, previous);
          MovesNewRow(accounts, rows, moved, row);
          rows := rows + [row];
        } else {
          var prior := previous[key.value];
          MatchIsFound(accounts, next, keyOf, rows, previous);
          MovesKeptRow(accounts, rows, moved, prior.index);
          previous := previous - {key.value};
          moved := moved[prior.index := |rows|];
          rows := rows + [prior];
        }
      }
      AllPlaced(accounts, next, keyOf, rows);
    }

    /** Refreshes each kept row from its fresh one and gives every row its new index. */
    method RefreshRows(rows: seq<Row>, next: seq<Row>, refresh: (Data, Data) -> Data)
      requires |rows| == |next| && DistinctRows(rows)
      requires NextOnlyInPlace(rows, next)
      modifies rows
      ensures forall j | 0 <= j < |rows| :: rows[j].index == j
      ensures forall j | 0 <= j < |rows| ::
                rows[j].data
                == if rows[j] == next[j] then old(rows[j].data) else refresh(old(rows[j].data), old(next[j].data))
    {
      for j := 0 to |rows|
        invariant forall n | 0 <= n < j :: rows[n].index == n
        invariant forall n | 0 <= n < j ::
                    rows[n].data
                    == if rows[n] == next[n] then old(rows[n].data) else refresh(old(rows[n].data), old(next[n].data))
        invariant forall n | j <= n < |rows| :: rows[n].data == old(rows[n].data) && next[n].data == old(next[n].data)
      {
        if rows[j] != next[j] {
          rows[j].data := refresh(rows[j].data, next[j].data);
        }
        rows[j].index := j;
      }
    }

    /** Moves all index-keyed state to the kept rows' new indexes, and drops that of rows that left. */
    method MoveState(ghost was: seq<Row>, rows: seq<Row>, moved: map<int, int>, fallback: (Family, int, nat) -> int)
      requires MovesRows(was, rows, moved) && DistinctRows(was) && DistinctRows(rows) && Injective(moved)
      modifies this`current, this`sessions, this`used, this`counts, this`lastToast
      ensures SelectionKept(was, rows, old(current), current, fallback)
      ensures sessions.Keys == old(sessions).Keys
      ensures forall id | id in sessions :: FollowsSession(was, rows, old(sessions)[id], sessions[id])
      ensures FollowsSet(was, rows, old(used), used)
      ensures FollowsCounts(was, rows, old(counts), counts)
      ensures Follows(was, rows, old(lastToast), lastToast)
    {
      hide MovesRows, DistinctRows, Follows, SelectionKept, FollowsSet, FollowsCounts, FollowsSession;
      hide Remap, RemapSet, RemapCounts, RemapSessions, ReselectedAll, Injective;
      SelectionFollows(was, rows, moved, current, fallback);
      current := ReselectedAll(moved, |rows|, current, fallback);
      SessionsFollow(was, rows, moved, sessions);
      sessions := RemapSessions(moved, sessions);
      RemapSetFollows(was, rows, moved, used);
      used := RemapSet(moved, used);
      RemapCountsFollows(was, rows, moved, counts);
      counts := RemapCounts(moved, counts);
      RemapFollows(was, rows, moved, lastToast);
      lastToast := Remap(moved, lastToast);
    }

    /**
      Every membership change: rows are matched by key, and all index-keyed state follows them. What
      named a kept row names the same object; departed rows leave nothing and new rows inherit nothing.
     */
    method Reconcile(next: seq<Row>, keyOf: Row -> Option<Key>, refresh: (Data, Data) -> Data,
                     fallback: (Family, int, nat) -> int)
      requires Valid() && Matchable(accounts, next, keyOf)
      modifies this, accounts, next
      ensures Valid() && accounts == Matched(old(accounts), next, keyOf)
      ensures forall j | 0 <= j < |accounts| ::
                var row := accounts[j];
                row.data == if row == next[j] then old(row.data) else refresh(old(row.data), old(next[j].data))
      ensures SelectionKept(old(accounts), accounts, old(current), current, fallback)
      ensures sessions.Keys == old(sessions).Keys
      ensures forall id | id in sessions :: FollowsSession(old(accounts), accounts, old(sessions)[id], sessions[id])
      ensures FollowsSet(old(accounts), accounts, old(used), used)
      ensures FollowsCounts(old(accounts), accounts, old(counts), counts)
      ensures Follows(old(accounts), accounts, old(lastToast), lastToast)
      ensures cursors == old(cursors) && offsets == old(offsets)
    {
      var rows, moved := MatchRows(next, keyOf);
      RowsComeFrom(accounts, next, keyOf);
      DistinctByIndex();
      MovesApart(accounts, rows, moved);
      hide Matched, MovesRows, SelectionKept, FollowsSession, FollowsSet, FollowsCounts, Follows, Matchable, Injective;
      RefreshRows(rows, next, refresh);
      MoveState(accounts, rows, moved, fallback);
      accounts := rows;
    }

    /**
      Removes one row: exactly the rows after it move down by one, with everything kept under their
      indexes. A pool-wide selection on it passes to the row that takes its place.
     */
    method RemoveAccount(row: Row) returns (removed: bool)
      requires Valid()
      modifies this, accounts
      ensures Valid() && removed == (row in old(accounts))
      ensures !removed ==>
                accounts == old(accounts) && cursors == old(cursors) && current == old(current)
                && sessions == old(sessions)
                && used == old(used) && counts == old(counts) && lastToast == old(lastToast)
      ensures forall r: Row | r in old(accounts) && r in accounts :: r.data == old(r.data)
      ensures removed ==>
                var at := old(row.index);
                0 <= at < |old(accounts)| && old(accounts)[at] == row
                && accounts == Without(old(accounts), at)
                && ShiftedState(at, |old(accounts)|, old(current), current, old(used), used, old(counts), counts,
                                old(lastToast), lastToast)
                && cursors == ShiftCursors(at, |accounts|, old(cursors))
                && if accounts == [] then sessions == map[]
                   else sessions.Keys == old(sessions).Keys
                        && forall id | id in sessions ::
                          sessions[id] == ShiftSession(at, |old(accounts)|, old(sessions)[id])
    {
      if row !in accounts {
        return false;
      }
      hide ShiftedState, ShiftCursors, ShiftSession, WithShiftedCursors;
      var at := IndexOfRow(row);
      DropRow(at);
      assert |accounts| == |old(accounts)| - 1;
      hide Without;
      DropCursors(at);
      return true;
    }

    /** The cursors' part of a removal, its row gone. */
    method DropCursors(at: int)
      requires at >= 0
      modifies this`cursors, this`sessions
      ensures cursors == if accounts == [] then PerFamily(0, 0) else ShiftCursors(at, |accounts|, old(cursors))
      ensures if accounts == [] then sessions == map[]
              else sessions.Keys == old(sessions).Keys
                   && forall id | id in sessions ::
                     sessions[id] == WithShiftedCursors(at, |accounts|, old(sessions)[id])
    {
      var count := |accounts|;
      if count == 0 {
        cursors := PerFamily(0, 0);
        sessions := map[];
      } else {
        cursors := ShiftCursors(at, count, cursors);
        sessions := map id | id in sessions :: WithShiftedCursors(at, count, sessions[id]);
      }
    }

    /** The membership part of a removal. */
    method DropRow(at: int)
      requires Valid() && 0 <= at < |accounts|
      modifies this, accounts
      ensures Valid() && accounts == Without(old(accounts), at) && cursors == old(cursors)
      ensures forall r: Row | r in old(accounts) && r in accounts :: r.data == old(r.data)
      ensures ShiftedState(at, |old(accounts)|, old(current), current, old(used), used, old(counts), counts,
                           old(lastToast), lastToast)
      ensures sessions.Keys == old(sessions).Keys
      ensures forall id | id in sessions ::
                WithShiftedCursors(at, |old(accounts)| - 1, sessions[id])
                == ShiftSession(at, |old(accounts)|, old(sessions)[id])
    {
      ghost var was := accounts;
      DistinctByIndex();
      WithoutMatches(accounts, at);
      var next := Without(accounts, at);
      hide Matchable, Matched, SelectionKept, FollowsSet, FollowsCounts, FollowsSession, Follows, Without;
      hide ShiftedState, ShiftSession, ShiftCursors;
      Reconcile(next, ItselfKey, KeepData, Successor);
      RemovalShifts(was, at, old(current), current, old(used), used, old(counts), counts, old(lastToast), lastToast);
      SessionsShift(was, at, old(sessions), sessions);
    }

    /** `indexOf`. */
    method IndexOfRow(row: Row) returns (at: int)
      requires Valid() && row in accounts
      ensures 0 <= at < |accounts| && accounts[at] == row && at == row.index
    {
      at := 0;
      while accounts[at] != row
        invariant 0 <= at < |accounts| && row !in accounts[..at]
        decreases |accounts| - at
      {
        at := at + 1;
      }
    }

    // ----- Selection ------------------------------------------------------------

    /** The rows that may be selected now. */
    method OpenRows(q: Request, threshold: real, excluded: set<int>, clock: Clock) returns (open: seq<Row>)
      requires Valid()
      modifies accounts`data, clock
      ensures clock.time >= old(clock.time)
      ensures forall r: Row | r in accounts :: Fades(old(r.data), r.data, clock.time)
      ensures TakenFrom(open, accounts)
      ensures forall r: Row | r in open ::
                r in accounts && r.index !in excluded && Open(r.data, q, threshold, clock.time)
      ensures forall r: Row | r in accounts && r.index !in excluded && r !in open ::
                !Open(old(r.data), q, threshold, old(clock.time))
    {
      hide TakenFrom, DistinctRows, Open, Fades;
      open := [];
      DistinctByIndex();
      NoneTaken(accounts);
      for i := 0 to |accounts|
        invariant clock.time >= old(clock.time)
        invariant forall n | 0 <= n < i :: Fades(old(accounts[n].data), accounts[n].data, clock.time)
        invariant forall n | i <= n < |accounts| :: accounts[n].data == old(accounts[n].data)
        invariant TakenFrom(open, accounts[..i])
        invariant forall r: Row | r in open ::
                    r in accounts[..i] && r.index !in excluded && Open(r.data, q, threshold, clock.time)
        invariant forall n | 0 <= n < i && accounts[n].index !in excluded && accounts[n] !in open ::
                    !Open(old(accounts[n].data), q, threshold, old(clock.time))
      {
        var row := accounts[i];
        NextTaken(accounts, i, open);
        UnfadedRows(clock.time);
        if row.index !in excluded {
          ghost var t := clock.time;
          var ok := row.IsOpen(q, threshold, clock);
          forall n | 0 <= n < i ensures Fades(old(accounts[n].data), accounts[n].data, clock.time) {
            FadesLater(old(accounts[n].data), accounts[n].data, t, clock.time);
          }
          forall r: Row | r in open ensures Open(r.data, q, threshold, clock.time) {
            OpenStays(r.data, q, threshold, t, clock.time);
          }
          if ok {
            open := open + [row];
          } else if Open(old(row.data), q, threshold, old(clock.time)) {
            OpenStays(old(row.data), q, threshold, old(clock.time), t);
            assert false;
          }
        }
      }
      assert accounts[..|accounts|] == accounts;
    }

    /** `getRequestSessionState`: the request's own session, opened if need be; others may be pruned. */
    method OpenSession(who: Identity)
      modifies this`sessions
      ensures who.id in sessions
      ensures if who.id in old(sessions)
              then sessions[who.id] == old(sessions)[who.id].(parent := if who.parent.Some? then who.parent
                                                                        else old(sessions)[who.id].parent)
              else sessions[who.id] == Session(who.parent, PerFamily(-1, -1), cursors, PerFamily(false, false), {})
      ensures forall id | id in sessions && id != who.id :: id in old(sessions) && sessions[id] == old(sessions)[id]
    {
      var kept: set<string> :| kept <= sessions.Keys && (who.id in sessions ==> who.id in kept);
      sessions := map id | id in sessions && id in kept :: sessions[id];
      if who.id in sessions {
        if who.parent.Some? {
          sessions := sessions[who.id := sessions[who.id].(parent := who.parent)];
        }
      } else {
        sessions := sessions[who.id := Session(who.parent, PerFamily(-1, -1), cursors, PerFamily(false, false), {})];
      }
    }

    /** The round-robin position a request reads; a new session starts from the pool's. */
    function CursorFor(f: Family, who: Option<Identity>): nat
      reads this`cursors, this`sessions
    {
      if who.Some? && who.value.id in sessions then sessions[who.value.id].cursors.At(f) else cursors.At(f)
    }

    /** The index selected for a request: its session's, which an unopened session has none of, or the pool's. */
    function ActiveIndex(f: Family, who: Option<Identity>): int
      reads this`current, this`sessions
    {
      if who.None? then current.At(f)
      else if who.value.id in sessions then sessions[who.value.id].current.At(f)
      else -1
    }

    function UsedIn(who: Option<Identity>): set<int>
      reads this`used, this`sessions
    {
      if who.None? then used else if who.value.id in sessions then sessions[who.value.id].used else {}
    }

    function OffsetApplied(f: Family, who: Option<Identity>): bool
      reads this`offsets, this`sessions
    {
      if who.None? then offsets.At(f) else who.value.id in sessions && sessions[who.value.id].offsets.At(f)
    }

    /** The index the request's parent session is pinned to, if it has one in the table. */
    function ParentIndex(f: Family, who: Option<Identity>): int
      reads this`sessions
    {
      if who.None? then -1
      else
        var parent := if who.value.parent.Some? then who.value.parent
                      else if who.value.id in sessions then sessions[who.value.id].parent
                      else None;
        if parent.Some? && parent.value in sessions then sessions[parent.value].current.At(f) else -1
    }

    /** `parent` is the parent's index, or none where its session was pruned just now. */
    method PreferOutsideParent(rows: seq<Row>, f: Family, who: Option<Identity>)
      returns (preferred: seq<Row>, ghost parent: int)
      modifies this`sessions
      ensures preferred == Outside(rows, parent) && (parent < 0 || parent == old(ParentIndex(f, who)))
      ensures CursorFor(f, who) == old(CursorFor(f, who)) && ActiveIndex(f, who) == old(ActiveIndex(f, who))
      ensures UsedIn(who) == old(UsedIn(who))
    {
      parent := -1;
      if who.None? {
        return rows, parent;
      }
      OpenSession(who.value);
      var id := sessions[who.value.id].parent;
      if id.None? {
        return rows, parent;
      }
      var index := if id.value in sessions then sessions[id.value].current.At(f) else -1;
      parent := index;
      if index < 0 {
        return rows, parent;
      }
      var isolated := Where(rows, set r | r in rows && r.index != index);
      return if isolated != [] then isolated else rows, parent;
    }

    method AdvanceCursor(f: Family, who: Option<Identity>)
      modifies this`cursors, this`sessions
      ensures cursors == Put(old(cursors), f, old(cursors).At(f) + 1)
      ensures CursorFor(f, who) == old(CursorFor(f, who)) + 1 && ActiveIndex(f, who) == old(ActiveIndex(f, who))
    {
      if who.Some? {
        OpenSession(who.value);
        var s := sessions[who.value.id];
        sessions := sessions[who.value.id := s.(cursors := Put(s.cursors, f, s.cursors.At(f) + 1))];
      }
      cursors := Put(cursors, f, cursors.At(f) + 1);
    }

    /** The open rows, narrowed by each preference that leaves some. */
    method Candidates(open: seq<Row>, q: Request, who: Option<Identity>)
      returns (candidates: seq<Row>, ghost parent: int)
      modifies this`sessions
      ensures parent < 0 || parent == old(ParentIndex(q.family, who))
      ensures candidates == UsedFirst(Outside(PreferArgon(open, q), parent), old(UsedIn(who)))
      ensures CursorFor(q.family, who) == old(CursorFor(q.family, who))
      ensures open != [] <==> candidates != []
      ensures forall r: Row | r in candidates :: r in open
      ensures DistinctRows(open) ==> DistinctRows(candidates)
    {
      hide Where, DistinctRows, Outside, PreferArgon, UsedFirst, Reporting;
      var argon := PreferArgon(open, q);
      var available, outside := PreferOutsideParent(argon, q.family, who);
      parent := outside;
      assert Outside(argon, parent) == available;
      if who.Some? {
        OpenSession(who.value);
      }
      assert Outside(argon, parent) == available;
      var marked := if who.Some? then sessions[who.value.id].used else used;
      candidates := UsedFirst(available, marked);
      assert PreferArgon(open, q) == argon;
      assert open != [] ==> argon != [] && available != [] && candidates != [];
      NoneAmongNone(candidates, open);
    }

    /**
      `getNextForFamily`. A row is found exactly where one may be selected (on a clock that stands still;
      otherwise, what is open at the start is found, and what is found is open at the end), and it is the
      one whose turn it is among the candidates: the open rows, preferring those that report a requested
      Argon allowance, then those the parent session does not hold, then those used in the session.
     */
    method GetNext(q: Request, threshold: real, who: Option<Identity>, excluded: set<int>, clock: Clock)
      returns (next: Option<Row>, ghost open: seq<Row>, ghost parent: int, ghost candidates: seq<Row>)
      requires Valid()
      modifies this`cursors, this`sessions, accounts`data, clock
      ensures clock.time >= old(clock.time)
      ensures forall r: Row | r in accounts :: Fades(old(r.data), r.data, clock.time)
      ensures var limit := old(EffectiveThreshold(accounts, threshold, excluded));
              TakenFrom(open, accounts)
              && (forall r: Row | r in open ::
                    r in accounts && r.index !in excluded && Open(r.data, q, limit, clock.time))
              && (forall r: Row | r in accounts && r.index !in excluded && r !in open ::
                    !Open(old(r.data), q, limit, old(clock.time)))
      ensures next.None? <==> open == []
      ensures (parent < 0 || parent == old(ParentIndex(q.family, who)))
              && candidates == UsedFirst(Outside(PreferArgon(open, q), parent), old(UsedIn(who)))
      ensures next.Some? ==> candidates != [] && DistinctRows(candidates)
                             && next.value == Turn(candidates, old(CursorFor(q.family, who))) && next.value in open
                             && CursorFor(q.family, who) == old(CursorFor(q.family, who)) + 1
      ensures next.None? ==> CursorFor(q.family, who) == old(CursorFor(q.family, who)) && cursors == old(cursors)
    {
      hide Open, Fades, Where, Members, DistinctRows, Outside, PreferArgon, UsedFirst, Reporting;
      var limit := EffectiveThreshold(accounts, threshold, excluded);
      var rows := OpenRows(q, limit, excluded, clock);
      open := rows;
      var list, outside := Candidates(rows, q, who);
      parent, candidates := outside, list;
      if list == [] {
        return None, open, parent, candidates;
      }
      var row := Turn(list, CursorFor(q.family, who));
      ghost var argon := PreferArgon(open, q);
      ghost var available := Outside(argon, parent);
      ghost var marked := old(UsedIn(who));
      assert UsedFirst(available, marked) == list;
      AdvanceCursor(q.family, who);
      assert PreferArgon(open, q) == argon && Outside(argon, parent) == available
        && UsedFirst(available, marked) == list;
      return Some(row), open, parent, candidates;
    }

    /**
      Consecutive picks, as many as there are candidates: where the same rows are candidates each time,
      every one of them is picked exactly once.
     */
    method TakeTurns(q: Request, threshold: real, who: Option<Identity>, excluded: set<int>, n: nat, clock: Clock)
      returns (picks: seq<Option<Row>>, ghost lists: seq<seq<Row>>)
      requires Valid()
      modifies this`cursors, this`sessions, accounts`data, clock
      ensures |picks| == n && |lists| == n
      ensures forall i | 0 <= i < n :: picks[i].Some? <==> lists[i] != []
      ensures Same(lists) && n > 0 && n == |lists[0]| ==> forall row | row in lists[0] :: PickedOnce(picks, row)
    {
      hide Open, Fades, EffectiveThreshold, Where, Members, PreferArgon, Outside, UsedFirst, CursorFor;
      picks, lists := [], [];
      ghost var start, found := CursorFor(q.family, who), true;
      for k := 0 to n
        invariant |picks| == k && |lists| == k
        invariant forall i | 0 <= i < k :: lists[i] == Where(accounts, Members(lists[i])) && DistinctRows(lists[i])
        invariant forall i | 0 <= i < k :: picks[i].Some? <==> lists[i] != []
        invariant found || exists i | 0 <= i < k :: picks[i].None?
        invariant found ==>
                    (forall i | 0 <= i < k :: picks[i].Some?)
                    && CursorFor(q.family, who) == start + k
                    && forall i | 0 <= i < k :: picks[i] == Some(LaterTurn(lists[i], start, i))
      {
        ghost var marked := UsedIn(who);
        var pick;
        ghost var open, parent, candidates;
        pick, open, parent, candidates := GetNext(q, threshold, who, excluded, clock);
        CandidatesInOrder(accounts, open, q, parent, marked);
        ghost var was := picks;
        picks, lists := picks + [pick], lists + [candidates];
        if found && pick.None? {
          assert picks[k].None?;
        } else if !found {
          var i :| 0 <= i < k && was[i].None?;
          assert picks[i].None?;
        }
        found := found && pick.Some?;
      }
      if Same(lists) && n > 0 && n == |lists[0]| {
        forall row | row in lists[0] ensures PickedOnce(picks, row) {
          SameLists(accounts, lists);
          var i := TurnsVisitEach(lists[0], start, row);
          assert picks[i] == Some(row);
        }
      }
    }

    method SetActiveIndex(f: Family, index: int, who: Option<Identity>)
      modifies this`current, this`sessions
      ensures who.None? ==> current == Put(old(current), f, index) && sessions == old(sessions)
      ensures who.Some? ==>
                who.value.id in sessions
                && current == if sessions[who.value.id].parent.None? then Put(old(current), f, index) else old(current)
      ensures ActiveIndex(f, who) == index
      ensures OffsetApplied(f, who) == old(OffsetApplied(f, who))
    {
      if who.None? {
        current := Put(current, f, index);
        return;
      }
      OpenSession(who.value);
      var s := sessions[who.value.id];
      sessions := sessions[who.value.id := s.(current := Put(s.current, f, index))];
      if s.parent.None? {
        current := Put(current, f, index);
      }
    }

    method GetActiveIndex(f: Family, who: Option<Identity>) returns (index: int)
      modifies this`sessions
      ensures index == ActiveIndex(f, who) == old(ActiveIndex(f, who))
      ensures CursorFor(f, who) == old(CursorFor(f, who)) && OffsetApplied(f, who) == old(OffsetApplied(f, who))
      ensures who.Some? ==> who.value.id in sessions
    {
      if who.None? {
        return current.At(f);
      }
      OpenSession(who.value);
      return sessions[who.value.id].current.At(f);
    }

    /** `getCurrentAccountForFamily`. */
    method GetCurrent(f: Family, who: Option<Identity>) returns (row: Option<Row>)
      modifies this`sessions
      ensures ActiveIndex(f, who) == old(ActiveIndex(f, who))
      ensures var index := ActiveIndex(f, who);
              row == if 0 <= index < |accounts| && Eligible(accounts[index].data) then Some(accounts[index]) else None
    {
      var index := GetActiveIndex(f, who);
      if 0 <= index < |accounts| && Eligible(accounts[index].data) {
        return Some(accounts[index]);
      }
      return None;
    }

    /** Recording a selection closes no row. */
    method TouchOpen(row: Row, q: Request, limit: real, use: bool, clock: Clock)
      requires Open(row.data, q, limit, clock.time)
      modifies row`data, clock
      ensures clock.time >= old(clock.time) && Open(row.data, q, limit, clock.time)
      ensures Fades(old(row.data), row.data, clock.time)
    {
      ghost var t := clock.time;
      row.Touch(q.Key(), use, clock);
      OpenStays(row.data, q, limit, t, clock.time);
    }

    /** The row a session is pinned to, while it may still be selected. */
    method GetPinned(q: Request, limit: real, who: Identity, excluded: set<int>, clock: Clock)
      returns (row: Option<Row>)
      requires Valid()
      modifies this`sessions, accounts`data, clock
      ensures clock.time >= old(clock.time)
      ensures forall r: Row | r in accounts :: Fades(old(r.data), r.data, clock.time)
      ensures row.Some? ==>
                row.value in accounts && row.value.index !in excluded && Open(row.value.data, q, limit, clock.time)
      ensures row.Some? ==> row.value.index == ActiveIndex(q.family, Some(who))
    {
      var pinned := GetCurrent(q.family, Some(who));
      if pinned.None? || pinned.value.index in excluded {
        return None;
      }
      var open := pinned.value.IsOpen(q, limit, clock);
      if !open {
        return None;
      }
      TouchOpen(pinned.value, q, limit, false, clock);
      return pinned;
    }

    /** What hybrid scoring is shown of the rows. */
    method Metrics(rows: seq<Row>, q: Request, limit: real, clock: Clock) returns (cs: seq<Candidate>)
      requires Valid() && DistinctRows(rows) && forall r: Row | r in rows :: r in accounts && Eligible(r.data)
      modifies accounts`data, clock
      ensures clock.time >= old(clock.time) && |cs| == |rows|
      ensures forall r: Row | r in accounts :: Fades(old(r.data), r.data, clock.time)
      ensures forall n | 0 <= n < |cs| ::
                cs[n].index == rows[n].index
                && (!cs[n].limited && !cs[n].cooling ==> Open(rows[n].data, q, limit, clock.time))
    {
      cs := [];
      for i := 0 to |rows|
        invariant clock.time >= old(clock.time) && |cs| == i
        invariant forall r: Row | r in accounts :: Fades(old(r.data), r.data, clock.time)
        invariant forall n | 0 <= n < i ::
                    cs[n].index == rows[n].index
                    && (!cs[n].limited && !cs[n].cooling ==> Open(rows[n].data, q, limit, clock.time))
        invariant forall n | i <= n < |rows| :: Eligible(rows[n].data)
      {
        var c := MetricsOf(rows[i], q, limit, clock);
        cs := cs + [c];
      }
    }

    method MetricsOf(row: Row, q: Request, limit: real, clock: Clock) returns (c: Candidate)
      requires Eligible(row.data)
      modifies row`data, clock
      ensures clock.time >= old(clock.time) && Fades(old(row.data), row.data, clock.time)
      ensures c.index == row.index && (!c.limited && !c.cooling ==> Open(row.data, q, limit, clock.time))
    {
      var limited := row.IsRateLimited(q, clock);
      if !limited {
        limited := row.IsOverSoftQuota(q, limit, clock);
      }
      ghost var first, t := row.data, clock.time;
      var cooling := row.IsCoolingDown(clock);
      FadesChain(old(row.data), first, row.data, t, clock.time);
      return Candidate(row.index, row.data.lastUsed, limited, cooling);
    }

    method HybridRows(f: Family, who: Option<Identity>, excluded: set<int>) returns (rows: seq<Row>)
      requires Valid()
      modifies this`sessions
      ensures DistinctRows(rows)
      ensures forall r: Row | r in rows :: r in accounts && Eligible(r.data) && r.index !in excluded
    {
      DistinctByIndex();
      var eligible := Where(accounts, EligibleRows(accounts, excluded));
      ghost var parent;
      rows, parent := PreferOutsideParent(eligible, f, who);
    }

    method HybridIndex(cs: seq<Candidate>, preferred: set<int>, current: int,
                       pick: (seq<Candidate>, int) -> Option<int>)
      returns (selected: Option<int>)
      requires PicksUnblocked(pick)
      ensures selected.Some? ==> exists c | c in cs :: c.index == selected.value && !c.limited && !c.cooling
    {
      selected := pick(Among(cs, preferred), current);
      if selected.None? {
        selected := pick(cs, current);
      }
    }

    /** The hybrid strategy: the rows reporting Argon first, then all. */
    method PickHybrid(q: Request, limit: real, who: Option<Identity>, excluded: set<int>, clock: Clock,
                      pick: (seq<Candidate>, int) -> Option<int>)
      returns (row: Option<Row>)
      requires Valid() && PicksUnblocked(pick)
      modifies this`current, this`sessions, accounts`data, clock
      ensures clock.time >= old(clock.time)
      ensures forall r: Row | r in accounts :: Fades(old(r.data), r.data, clock.time)
      ensures row.Some? ==>
                row.value in accounts && row.value.index !in excluded && Open(row.value.data, q, limit, clock.time)
      ensures row.Some? ==> row.value.index == ActiveIndex(q.family, who)
    {
      hide PicksUnblocked, Fades, PreferArgon, Open, DistinctRows, EligibleRows;
      var rows := HybridRows(q.family, who, excluded);
      var cs := Metrics(rows, q, limit, clock);
      var index := GetActiveIndex(q.family, who);
      var preferred := PreferArgon(rows, q);
      var selected := HybridIndex(cs, set r | r in preferred :: r.index, index, pick);
      if selected.None? {
        return None;
      }
      PickedIsOpen(rows, cs, q, limit, clock.time, selected.value);
      row := Some(accounts[selected.value]);
      ghost var first, t := row.value.data, clock.time;
      TouchOpen(row.value, q, limit, true, clock);
      forall r: Row | r in accounts ensures Fades(old(r.data), r.data, clock.time) {
        if r == row.value {
          FadesChain(old(r.data), first, r.data, t, clock.time);
        } else {
          FadesLater(old(r.data), r.data, t, clock.time);
        }
      }
      SetActiveIndex(q.family, selected.value, who);
    }

    lemma PickedIsOpen(rows: seq<Row>, cs: seq<Candidate>, q: Request, limit: real, t: real, index: int)
      requires Valid() && |cs| == |rows| && (forall r: Row | r in rows :: r in accounts)
      requires forall n | 0 <= n < |cs| ::
                 cs[n].index == rows[n].index && (!cs[n].limited && !cs[n].cooling ==> Open(rows[n].data, q, limit, t))
      requires exists c | c in cs :: c.index == index && !c.limited && !c.cooling
      ensures 0 <= index < |accounts| && accounts[index] in rows && Open(accounts[index].data, q, limit, t)
    {
      var c :| c in cs && c.index == index && !c.limited && !c.cooling;
      var n :| 0 <= n < |cs| && cs[n] == c;
      assert rows[n] in accounts;
    }

    /**
      The opt-in process offset: a session's first sticky selection starts as many rows on as the process
      id says, from the selected row or, without one, from the round-robin position.
     */
    method ApplyOffset(pid: Option<nat>, f: Family, who: Option<Identity>)
      modifies this`current, this`sessions, this`offsets
      ensures if pid.Some? && !old(OffsetApplied(f, who)) && |accounts| > 1
              then
                var start := old(ActiveIndex(f, who));
                var base := if start >= 0 then start as nat else old(CursorFor(f, who));
                ActiveIndex(f, who) == Wrap(base + Wrap(pid.value, |accounts|), |accounts|) && OffsetApplied(f, who)
              else
                ActiveIndex(f, who) == old(ActiveIndex(f, who)) && OffsetApplied(f, who) == old(OffsetApplied(f, who))
    {
      if who.Some? {
        OpenSession(who.value);
      }
      var applied := if who.Some? then sessions[who.value.id].offsets.At(f) else offsets.At(f);
      if pid.None? || applied || |accounts| <= 1 {
        return;
      }
      var active := GetActiveIndex(f, who);
      var base := if active >= 0 then active else CursorFor(f, who);
      SetActiveIndex(f, Wrap(base + Wrap(pid.value, |accounts|), |accounts|), who);
      if who.Some? {
        var s := sessions[who.value.id];
        sessions := sessions[who.value.id := s.(offsets := Put(s.offsets, f, true))];
      } else {
        offsets := Put(offsets, f, true);
      }
    }

    /** The sticky selection: the current row while it is among those to prefer. */
    method StickyCurrent(q: Request, limit: real, who: Option<Identity>, excluded: set<int>, clock: Clock)
      returns (row: Option<Row>)
      requires Valid()
      modifies this`sessions, accounts`data, clock
      ensures clock.time >= old(clock.time)
      ensures forall r: Row | r in accounts :: Fades(old(r.data), r.data, clock.time)
      ensures row.Some? ==>
                row.value in accounts && row.value.index !in excluded && Open(row.value.data, q, limit, clock.time)
      ensures row.Some? ==> row.value.index == ActiveIndex(q.family, who)
    {
      var active := GetCurrent(q.family, who);
      var open := OpenRows(q, limit, excluded, clock);
      if active.None? || active.value !in PreferArgon(open, q) {
        return None;
      }
      ghost var first, t := active.value.data, clock.time;
      var still := active.value.IsOpen(q, limit, clock);
      FadesChain(old(active.value.data), first, active.value.data, t, clock.time);
      if !still {
        return None;
      }
      TouchOpen(active.value, q, limit, false, clock);
      return active;
    }

    /** The next row in turn, recorded as selected. */
    method SelectNext(q: Request, limit: real, who: Option<Identity>, excluded: set<int>, clock: Clock)
      returns (row: Option<Row>)
      requires Valid() && limit == EffectiveThreshold(accounts, limit, excluded)
      modifies this`current, this`cursors, this`sessions, accounts`data, clock
      ensures clock.time >= old(clock.time)
      ensures forall r: Row | r in accounts :: Fades(old(r.data), r.data, clock.time)
      ensures row.Some? ==>
                row.value in accounts && row.value.index !in excluded && Open(row.value.data, q, limit, clock.time)
      ensures row.Some? ==> row.value.index == ActiveIndex(q.family, who)
      ensures row.None? ==> forall r: Row | r in accounts && r.index !in excluded ::
                !Open(old(r.data), q, limit, old(clock.time))
    {
      hide Open, Fades, EffectiveThreshold, Where, Members, DistinctRows, PreferArgon, Outside, UsedFirst;
      ghost var open, parent, candidates;
      row, open, parent, candidates := GetNext(q, limit, who, excluded, clock);
      if row.None? {
        return None;
      }
      ghost var first, t := row.value.data, clock.time;
      TouchOpen(row.value, q, limit, false, clock);
      forall r: Row | r in accounts ensures Fades(old(r.data), r.data, clock.time) {
        if r == row.value {
          FadesChain(old(r.data), first, r.data, t, clock.time);
        } else {
          FadesLater(old(r.data), r.data, t, clock.time);
        }
      }
      SetActiveIndex(q.family, row.value.index, who);
    }

    /** The sticky strategy, which every other falls back to. */
    method SelectSticky(q: Request, limit: real, pid: Option<nat>, who: Option<Identity>, excluded: set<int>,
                        clock: Clock)
      returns (row: Option<Row>)
      requires Valid() && limit == EffectiveThreshold(accounts, limit, excluded)
      modifies this`current, this`cursors, this`sessions, this`offsets, accounts`data, clock
      ensures clock.time >= old(clock.time)
      ensures forall r: Row | r in accounts :: Fades(old(r.data), r.data, clock.time)
      ensures row.Some? ==>
                row.value in accounts && row.value.index !in excluded && Open(row.value.data, q, limit, clock.time)
      ensures row.Some? ==> row.value.index == ActiveIndex(q.family, who)
      ensures row.None? ==> forall r: Row | r in accounts && r.index !in excluded ::
                !Open(old(r.data), q, limit, old(clock.time))
    {
      hide Open;
      ApplyOffset(pid, q.family, who);
      row := StickyCurrent(q, limit, who, excluded, clock);
      if row.Some? {
        return;
      }
      assert EligibleRows(accounts, excluded) == old(EligibleRows(accounts, excluded));
      hide Fades, EffectiveThreshold;
      ghost var between := map r | r in accounts :: r.data;
      ghost var t := clock.time;
      row := SelectNext(q, limit, who, excluded, clock);
      forall r: Row | r in accounts ensures Fades(old(r.data), r.data, clock.time) {
        FadesChain(old(r.data), between[r], r.data, t, clock.time);
      }
      if row.None? {
        forall r: Row | r in accounts && r.index !in excluded ensures !Open(old(r.data), q, limit, old(clock.time)) {
          ClosedBefore(old(r.data), between[r], q, limit, old(clock.time), t);
        }
      }
    }

    /** The strategy's own choice for a request that is pinned to no usable row. */
    method SelectUnpinned(q: Request, limit: real, strategy: Strategy, pid: Option<nat>, who: Option<Identity>,
                          excluded: set<int>, clock: Clock, pick: (seq<Candidate>, int) -> Option<int>)
      returns (row: Option<Row>)
      requires Valid() && limit == EffectiveThreshold(accounts, limit, excluded) && PicksUnblocked(pick)
      modifies this`current, this`cursors, this`sessions, this`offsets, accounts`data, clock
      ensures clock.time >= old(clock.time)
      ensures forall r: Row | r in accounts :: Fades(old(r.data), r.data, clock.time)
      ensures row.Some? ==>
                row.value in accounts && row.value.index !in excluded && Open(row.value.data, q, limit, clock.time)
      ensures row.Some? ==> row.value.index == ActiveIndex(q.family, who)
      ensures row.None? ==> forall r: Row | r in accounts && r.index !in excluded ::
                !Open(old(r.data), q, limit, old(clock.time))
    {
      hide Open;
      if strategy == RoundRobin {
        row := SelectNext(q, limit, who, excluded, clock);
        return;
      }
      if strategy == Hybrid {
        row := PickHybrid(q, limit, who, excluded, clock, pick);
        if row.Some? {
          return;
        }
      }
      assert EligibleRows(accounts, excluded) == old(EligibleRows(accounts, excluded));
      hide Fades, EffectiveThreshold;
      ghost var between := map r | r in accounts :: r.data;
      ghost var t := clock.time;
      row := SelectSticky(q, limit, pid, who, excluded, clock);
      forall r: Row | r in accounts ensures Fades(old(r.data), r.data, clock.time) {
        if strategy == Hybrid {
          FadesChain(old(r.data), between[r], r.data, t, clock.time);
        }
      }
      if row.None? {
        forall r: Row | r in accounts && r.index !in excluded ensures !Open(old(r.data), q, limit, old(clock.time)) {
          if strategy == Hybrid {
            ClosedBefore(old(r.data), between[r], q, limit, old(clock.time), t);
          }
        }
      }
    }

    /**
      `getCurrentOrNextForFamily`, by every strategy, pinned or not: what it returns may be selected when
      it is returned, and it returns nothing only where nothing could be selected when it was called. On
      a clock that stands still the two are one condition. What it returns is from then on the row
      selected for the request.
     */
    method GetCurrentOrNext(q: Request, threshold: real, strategy: Strategy, pid: Option<nat>, who: Option<Identity>,
                            excluded: set<int>, clock: Clock, pick: (seq<Candidate>, int) -> Option<int>)
      returns (row: Option<Row>)
      requires Valid() && PicksUnblocked(pick)
      modifies this`current, this`cursors, this`sessions, this`offsets, accounts`data, clock
      ensures Valid() && clock.time >= old(clock.time)
      ensures forall r: Row | r in accounts :: Fades(old(r.data), r.data, clock.time)
      ensures var limit := old(EffectiveThreshold(accounts, threshold, excluded));
              (row.Some? ==>
                 row.value in accounts && row.value.index !in excluded && Open(row.value.data, q, limit, clock.time))
              && (row.None? ==> forall r: Row | r in accounts && r.index !in excluded ::
                                  !Open(old(r.data), q, limit, old(clock.time)))
      ensures row.Some? ==> row.value.index == ActiveIndex(q.family, who)
    {
      hide Open;
      var limit := EffectiveThreshold(accounts, threshold, excluded);
      if who.Some? {
        row := GetPinned(q, limit, who.value, excluded, clock);
        if row.Some? {
          return;
        }
      }
      assert EligibleRows(accounts, excluded) == old(EligibleRows(accounts, excluded));
      assert limit == EffectiveThreshold(accounts, limit, excluded);
      hide Fades, EffectiveThreshold;
      ghost var between := map r | r in accounts :: r.data;
      ghost var t := clock.time;
      row := SelectUnpinned(q, limit, strategy, pid, who, excluded, clock, pick);
      forall r: Row | r in accounts ensures Fades(old(r.data), r.data, clock.time) {
        if who.Some? {
          FadesChain(old(r.data), between[r], r.data, t, clock.time);
        }
      }
      if row.None? {
        forall r: Row | r in accounts && r.index !in excluded ensures !Open(old(r.data), q, limit, old(clock.time)) {
          if who.Some? {
            ClosedBefore(old(r.data), between[r], q, limit, old(clock.time), t);
          }
        }
      }
    }

    // ----- Waits ------------------------------------------------------------------

    /** The eligible rows among the permitted indexes. */
    function Pool(allowed: Option<set<int>>): set<Row>
      reads this`accounts, accounts
    {
      set r | r in accounts && Eligible(r.data) && (allowed.None? || r.index in allowed.value)
    }

    /**
      `getMinWaitTimeForFamily`, on a clock that stands at `now`: from now on, some permitted eligible row
      is ready exactly from `now + wait`.
     */
    method GetMinWait(q: Request, allowed: Option<set<int>>, cooldowns: bool, now: real) returns (wait: real)
      requires Valid()
      modifies accounts`data
      ensures forall r: Row | r in accounts :: Fades(old(r.data), r.data, now)
      ensures wait >= 0.0 && (old(Pool(allowed)) == {} ==> wait == 0.0)
      ensures old(Pool(allowed)) != {} ==>
                forall t: real | Reached(t, now) ::
                  (exists r: Row | r in old(Pool(allowed)) :: old(Ready(r.data, q, t, cooldowns)))
                  <==> Reached(t, now + wait)
    {
      ghost var pool := Pool(allowed);
      ghost var before := map r | r in accounts :: r.data;
      wait := LeastWait(q, allowed, cooldowns, now);
      hide Ready, Wait;
      if pool != {} {
        forall t: real | Reached(t, now)
          ensures (exists r: Row | r in pool :: Ready(before[r], q, t, cooldowns)) <==> Reached(t, now + wait) {
          LeastWaitIsExact(pool, before, q, now, cooldowns, wait, t);
        }
      }
    }

    method LeastWait(q: Request, allowed: Option<set<int>>, cooldowns: bool, now: real) returns (wait: real)
      requires Valid()
      modifies accounts`data
      ensures forall r: Row | r in accounts :: Fades(old(r.data), r.data, now)
      ensures wait >= 0.0 && (old(Pool(allowed)) == {} ==> wait == 0.0)
      ensures forall r: Row | r in old(Pool(allowed)) :: wait <= old(Wait(r.data, q, now, cooldowns))
      ensures old(Pool(allowed)) != {} ==> exists r: Row | r in old(Pool(allowed)) ::
                wait == old(Wait(r.data, q, now, cooldowns))
    {
      hide Wait;
      ghost var pool := Pool(allowed);
      ghost var waits := seq(|accounts|, n requires 0 <= n < |accounts| reads this, accounts =>
                                         Wait(accounts[n].data, q, now, cooldowns));
      var best: Option<real> := None;
      for i := 0 to |accounts|
        invariant forall r: Row | r in accounts :: Fades(old(r.data), r.data, now)
        invariant forall n | i <= n < |accounts| :: accounts[n].data == old(accounts[n].data)
        invariant best.None? ==> forall n | 0 <= n < i :: accounts[n] !in pool
        invariant best.Some? ==> best.value >= 0.0
        invariant best.Some? ==> forall n | 0 <= n < i && accounts[n] in pool :: best.value <= waits[n]
        invariant best.Some? ==> exists n | 0 <= n < i :: accounts[n] in pool && best.value == waits[n]
      {
        var row := accounts[i];
        if Eligible(row.data) && (allowed.None? || row.index in allowed.value) {
          ClearingFades(row.data, now);
          FadedWait(row.data, ClearExpired(row.data, now), q, now, cooldowns);
          row.data := ClearExpired(row.data, now);
          var w := Wait(row.data, q, now, cooldowns);
          WaitIsNotNegative(row.data, q, now, cooldowns);
          if best.None? || w < best.value {
            best := Some(w);
          }
        }
      }
      return best.GetOr(0.0);
    }

    /**
      `getMinSelectableWaitTimeForFamily`, on a clock that stands at `now`: from now on, some permitted
      eligible row is ready, and past the reset its soft quota waits for, exactly from `now + wait`; there
      is no wait exactly where no such row ever will be, as far as is known.
     */
    method GetMinSelectableWait(q: Request, threshold: real, allowed: Option<set<int>>, now: real)
      returns (wait: Option<real>)
      requires Valid()
      modifies accounts`data
      ensures forall r: Row | r in accounts :: Fades(old(r.data), r.data, now)
      ensures var pool := old(Pool(allowed));
              var soft := |pool| > 1 && threshold < 100.0;
              (forall t: real | Reached(t, now) ::
                 (exists r: Row | r in pool :: old(Selectable(r.data, q, threshold, soft, now, t)))
                 <==> wait.Some? && Reached(t, now + wait.value))
              && (wait.None? <==> forall r: Row | r in pool ::
                                    soft && old(OverSoftQuota(r.data, q, threshold, now))
                                    && old(QuotaReset(r.data, q, now)).None?)
    {
      ghost var pool := Pool(allowed);
      ghost var soft := |pool| > 1 && threshold < 100.0;
      ghost var before := map r | r in accounts :: r.data;
      wait := LeastSelectableWait(q, threshold, allowed, now);
      UnknownWaits(pool, before, q, threshold, soft, now);
      hide Selectable, SelectableWait, OverSoftQuota, QuotaReset;
      forall t: real | Reached(t, now)
        ensures (exists r: Row | r in pool :: Selectable(before[r], q, threshold, soft, now, t))
                <==> wait.Some? && Reached(t, now + wait.value) {
        LeastSelectableIsExact(pool, before, q, threshold, soft, now, wait, t);
      }
    }

    method LeastSelectableWait(q: Request, threshold: real, allowed: Option<set<int>>, now: real)
      returns (wait: Option<real>)
      requires Valid()
      modifies accounts`data
      ensures forall r: Row | r in accounts :: Fades(old(r.data), r.data, now)
      ensures var pool := old(Pool(allowed));
              var soft := |pool| > 1 && threshold < 100.0;
              (wait.None? ==> forall r: Row | r in pool :: old(SelectableWait(r.data, q, threshold, soft, now)).None?)
              && (wait.Some? ==>
                    (forall r: Row | r in pool && old(SelectableWait(r.data, q, threshold, soft, now)).Some? ::
                       wait.value <= old(SelectableWait(r.data, q, threshold, soft, now)).value)
                    && exists r: Row | r in pool :: old(SelectableWait(r.data, q, threshold, soft, now)) == wait)
    {
      hide SelectableWait, Fades, Wait, OverSoftQuota, QuotaReset, Eligible;
      var pool := Pool(allowed);
      assert forall r: Row | r in pool :: r in accounts && Eligible(r.data);
      hide Pool;
      var soft := |pool| > 1 && threshold < 100.0;
      ghost var waits := seq(|accounts|, n requires 0 <= n < |accounts| reads this, accounts =>
                                         if accounts[n] in pool
                                         then SelectableWait(accounts[n].data, q, threshold, soft, now) else None);
      hide LeastKnown;
      LeastOfNone(waits);
      wait := None;
      UnfadedRows(now);
      for i := 0 to |accounts|
        invariant forall r: Row | r in accounts :: Fades(old(r.data), r.data, now)
        invariant LeastKnown(waits[..i], wait)
      {
        var row := accounts[i];
        LeastWithNext(waits, i, wait);
        if row in pool {
          var known := FadedRowWait(row, old(map r | r in accounts :: r.data), q, threshold, soft, now);
          if known.Some? && (wait.None? || known.value < wait.value) {
            wait := known;
          }
        }
      }
      assert waits[..|accounts|] == waits;
      LeastOfRows(accounts, waits, wait);
      forall r: Row | r in pool
        ensures exists n :: 0 <= n < |waits| && accounts[n] == r
                            && waits[n] == old(SelectableWait(r.data, q, threshold, soft, now)) {
        var n :| 0 <= n < |accounts| && accounts[n] == r;
        assert waits[n] == old(SelectableWait(r.data, q, threshold, soft, now));
      }
    }

    /** The wait of a row whose passed limits may have been dropped since `first`, and others' with them. */
    method FadedRowWait(row: Row, ghost first: map<Row, Data>, q: Request, threshold: real, soft: bool, now: real)
      returns (known: Option<real>)
      requires Valid() && row in accounts
      requires forall r: Row | r in accounts :: r in first && Fades(first[r], r.data, now)
      requires Eligible(first[row])
      modifies accounts`data
      ensures forall r: Row | r in accounts :: Fades(first[r], r.data, now)
      ensures known == SelectableWait(first[row], q, threshold, soft, now)
    {
      hide SelectableWait, Fades, Eligible;
      FadedSelectable(first[row], row.data, q, threshold, soft, now);
      FadedEligible(first[row], row.data, now);
      ghost var between := map r | r in accounts :: r.data;
      known := RowWait(row, q, threshold, soft, now);
      forall r: Row | r in accounts ensures Fades(first[r], r.data, now) {
        FadesChain(first[r], between[r], r.data, now, now);
      }
    }

    lemma UnfadedRows(now: real)
      ensures forall r: Row | r in accounts :: Fades(r.data, r.data, now)
    {
    }

    /** One row's wait: the hard limits through the pool's own computation, then the soft quota. */
    method RowWait(row: Row, q: Request, threshold: real, soft: bool, now: real) returns (known: Option<real>)
      requires Valid() && row in accounts && Eligible(row.data)
      modifies accounts`data
      ensures forall r: Row | r in accounts :: Fades(old(r.data), r.data, now)
      ensures known == old(SelectableWait(row.data, q, threshold, soft, now))
    {
      assert Pool(Some({row.index})) == {row};
      var hard := LeastWait(q, Some({row.index}), true, now);
      var over := OverSoftQuota(row.data, q, threshold, now);
      if !(soft && over) {
        return Some(hard);
      }
      if q.family != Claude && (q.model.None? || q.model.value == "") {
        return None;
      }
      var reading := ReadingFor(row.data, q);
      if reading.None? || reading.value.reset.None? || reading.value.reset.value <= now {
        return None;
      }
      return Some(Max(hard, reading.value.reset.value - now));
    }

    lemma DistinctByIndex()
      requires Valid()
      ensures DistinctRows(accounts)
    {
    }
  }

  lemma RowsComeFrom(was: seq<Row>, next: seq<Row>, keyOf: Row -> Option<Key>)
    ensures var rows := Matched(was, next, keyOf);
            |rows| == |next| && forall j | 0 <= j < |rows| :: rows[j] in was || rows[j] in next
  {
  }
}
