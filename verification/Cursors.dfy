/**
  Which account is selected, before and after a migration and a rollback: the pool file's cursors
  (packages/core/src/account-storage.ts:512-527, account-manager.ts:565-578), the imported row refs
  (account-migration.ts:1932-1948, account-manager.ts:806-829) and the cursors a rollback exports
  (account-migration.ts:4768-4795).
 */
module Cursors {
  import opened Text

  datatype Family = Claude | Gemini

  /** A row's identity in the store. */
  datatype RowRef = RowRef(id: string, credentialEpoch: nat, identity: Option<string>)

  /** Stored selection; an absent and a null cursor or ref mean the same here. */
  datatype Routing = Routing(
    activeIndex: Option<real>,
    indexByFamily: map<Family, real>,
    activeRow: Option<RowRef>,
    rowByFamily: map<Family, RowRef>)

  // ----- JavaScript numbers -----------------------------------------------

  /** `a % n` for whole `a`. */
  function Wrap(a: nat, n: nat): (r: nat)
    requires n > 0
    ensures r < n && (a < n ==> r == a)
  {
    if a < n then a else Wrap(a - n, n)
  }

  lemma {:induction false} WrapIsRemainder(a: nat, n: nat) returns (q: nat)
    requires n > 0
    ensures a == q * n + Wrap(a, n)
  {
    q := 0;
    if a >= n {
      var d := WrapIsRemainder(a - n, n);
      q := d + 1;
    }
  }

  /** `x % n`: the remainder has the sign of `x`. */
  function Remainder(x: real, n: nat): real
    requires n > 0
  {
    if x >= 0.0 then Wrap(x.Floor, n) as real + (x - x.Floor as real)
    else -(Wrap((-x).Floor, n) as real + (-x - (-x).Floor as real))
  }

  /** `Remainder` is the remainder of division by `n`, rounded toward zero. */
  lemma RemainderIsRemainder(x: real, n: nat) returns (q: int)
    requires n > 0
    ensures x == (q * n) as real + Remainder(x, n)
    ensures if x >= 0.0 then 0.0 <= Remainder(x, n) < n as real && q >= 0
            else -(n as real) < Remainder(x, n) <= 0.0 && q <= 0
  {
    var a := if x >= 0.0 then x else -x;
    var d := WrapIsRemainder(a.Floor, n);
    q := if x >= 0.0 then d else -d;
    assert (q * n) as real == if x >= 0.0 then (d * n) as real else -((d * n) as real);
  }

  /** `rows[x]`: an array element only for whole in-range `x`. */
  function At(rows: seq<RowRef>, x: real): Option<RowRef> {
    if x >= 0.0 && x == x.Floor as real && x.Floor < |rows| then Some(rows[x.Floor]) else None
  }

  function ClampNonNegativeInt(value: Option<real>, fallback: nat): (r: nat)
    ensures value.Some? && value.value >= 0.0 ==> r as real <= value.value < r as real + 1.0
  {
    match value
    case None => fallback
    case Some(v) => if v < 0.0 then 0 else v.Floor
  }

  /** `Math.max(0, Math.min(x, n - 1))`, fractions kept. */
  function Clamp(x: real, n: nat): (r: real)
    requires n > 0
    ensures 0.0 <= r <= n as real - 1.0
    ensures 0.0 <= x <= n as real - 1.0 ==> r == x
  {
    if x > n as real - 1.0 then n as real - 1.0 else if x < 0.0 then 0.0 else x
  }

  function Get(m: map<Family, real>, f: Family): Option<real> {
    if f in m then Some(m[f]) else None
  }

  // ----- The two loaders --------------------------------------------------

  /** The position the pool-file loader selects: clamp on read, then floor and wrap. */
  function PoolFileIndex(routing: Routing, f: Family, n: nat): (i: nat)
    requires n > 0
    ensures i < n
  {
    var normalized := Clamp(routing.activeIndex.GetOr(0.0), n);
    var fallback := Wrap(ClampNonNegativeInt(Some(normalized), 0), n);
    Wrap(ClampNonNegativeInt(Get(routing.indexByFamily, f), fallback), n)
  }

  function IndexOf(rows: seq<RowRef>, ref: Option<RowRef>): (r: Option<nat>)
    ensures r.Some? ==> r.value < |rows| && ref == Some(rows[r.value])
    ensures r.None? ==> ref.None? || ref.value !in rows
  {
    if rows == [] || ref.None? then None
    else if rows[0] == ref.value then Some(0)
    else match IndexOf(rows[1..], ref) case None => None case Some(i) => Some(i + 1)
  }

  /** The position the store-backed manager selects (`routedIndex`): refs first, then cursors. */
  function RoutedIndex(rows: seq<RowRef>, routing: Routing, f: Family): (i: nat)
    requires |rows| > 0
    ensures i < |rows|
  {
    var own := IndexOf(rows, RefOf(routing, f));
    if own.Some? then own.value
    else Wrap(ClampNonNegativeInt(Get(routing.indexByFamily, f), RoutedDefault(rows, routing)), |rows|)
  }

  function RefOf(routing: Routing, f: Family): Option<RowRef> {
    if f in routing.rowByFamily then Some(routing.rowByFamily[f]) else None
  }

  function RoutedDefault(rows: seq<RowRef>, routing: Routing): (i: nat)
    requires |rows| > 0
    ensures i < |rows|
  {
    var byRow := IndexOf(rows, routing.activeRow);
    if byRow.Some? then byRow.value else Wrap(ClampNonNegativeInt(routing.activeIndex, 0), |rows|)
  }

  predicate Distinct(rows: seq<RowRef>) {
    forall i, j | 0 <= i < j < |rows| :: rows[i] != rows[j]
  }

  lemma IndexOfMember(rows: seq<RowRef>, i: nat)
    requires Distinct(rows) && i < |rows|
    ensures IndexOf(rows, Some(rows[i])) == Some(i)
  {
    var r := IndexOf(rows, Some(rows[i]));
    assert rows[i] in rows;
    assert rows[r.value] == rows[i];
  }

  // ----- Import -----------------------------------------------------------

  /** The routing a migration writes (`expectedRouting`): the cursors, and the rows they pick. */
  function ExpectedRouting(imported: Routing, rows: seq<RowRef>): Routing
    requires |rows| > 0
  {
    var n := |rows|;
    var effective := Clamp(imported.activeIndex.GetOr(0.0), n);
    var rowOf := (f: Family) => At(rows, Remainder(Get(imported.indexByFamily, f).GetOr(effective), n));
    Routing(imported.activeIndex, imported.indexByFamily, At(rows, effective),
            map f: Family | f in {Claude, Gemini} && rowOf(f).Some? :: rowOf(f).value)
  }

  /** A whole non-negative cursor wraps as a natural number does; any other picks no row or row 0. */
  lemma RemainderPicks(rows: seq<RowRef>, c: real)
    requires |rows| > 0
    ensures At(rows, Remainder(c, |rows|)).Some? ==>
              At(rows, Remainder(c, |rows|)) == Some(rows[Wrap(ClampNonNegativeInt(Some(c), 0), |rows|)])
  {
    var r := Remainder(c, |rows|);
    if c < 0.0 && At(rows, r).Some? {
      var q := RemainderIsRemainder(c, |rows|);
      assert r == 0.0;
    } else if c >= 0.0 && At(rows, r).Some? {
      assert c - c.Floor as real < 1.0;
      assert r.Floor == Wrap(c.Floor, |rows|);
    }
  }

  /** The whole-pool selection comes out where the pool file's clamped cursor pointed. */
  lemma DefaultSurvivesImport(imported: Routing, rows: seq<RowRef>)
    requires |rows| > 0 && Distinct(rows)
    ensures RoutedDefault(rows, ExpectedRouting(imported, rows))
         == Clamp(imported.activeIndex.GetOr(0.0), |rows|).Floor
  {
    var effective := Clamp(imported.activeIndex.GetOr(0.0), |rows|);
    if effective == effective.Floor as real {
      IndexOfMember(rows, effective.Floor);
    }
  }

  /** What a family's imported ref, or else its cursor, comes to. */
  lemma FamilySurvivesImport(rows: seq<RowRef>, stored: Option<real>, effective: real)
    requires |rows| > 0 && Distinct(rows) && 0.0 <= effective <= |rows| as real - 1.0
    ensures var own := IndexOf(rows, At(rows, Remainder(stored.GetOr(effective), |rows|)));
            (if own.Some? then own.value else Wrap(ClampNonNegativeInt(stored, effective.Floor), |rows|))
            == Wrap(ClampNonNegativeInt(stored, effective.Floor), |rows|)
  {
    var picked := At(rows, Remainder(stored.GetOr(effective), |rows|));
    RemainderPicks(rows, stored.GetOr(effective));
    if picked.Some? {
      IndexOfMember(rows, Wrap(ClampNonNegativeInt(Some(stored.GetOr(effective)), 0), |rows|));
    }
  }

  /**
    For every finite cursor, negative, fractional and oversized ones included, the account the
    pool-file loader selects is the one the store-backed manager selects after the import.
   */
  lemma SelectionSurvivesImport(imported: Routing, rows: seq<RowRef>, f: Family)
    requires |rows| > 0 && Distinct(rows)
    ensures RoutedIndex(rows, ExpectedRouting(imported, rows), f) == PoolFileIndex(imported, f, |rows|)
  {
    DefaultSurvivesImport(imported, rows);
    var effective := Clamp(imported.activeIndex.GetOr(0.0), |rows|);
    FamilySurvivesImport(rows, Get(imported.indexByFamily, f), effective);
  }

  // ----- Export -----------------------------------------------------------

  /** The cursors a rollback writes (`exportRouting`): changed only where they name another row. */
  function ExportRouting(routing: Routing, rows: seq<RowRef>): Routing
    requires |rows| > 0
  {
    var n := |rows|;
    var global := IndexOf(rows, routing.activeRow);
    var effective := Clamp(routing.activeIndex.GetOr(0.0), n);
    var activeIndex := if global.Some? && global.value as real != effective then Some(global.value as real)
                       else routing.activeIndex;
    var fallback := Clamp(activeIndex.GetOr(0.0), n);
    Routing(activeIndex,
            map f: Family | f in {Claude, Gemini} && ExportedCursor(routing, rows, f, fallback).Some?
              :: ExportedCursor(routing, rows, f, fallback).value,
            routing.activeRow, routing.rowByFamily)
  }

  function ExportedCursor(routing: Routing, rows: seq<RowRef>, f: Family, fallback: real): Option<real>
    requires |rows| > 0
  {
    var index := IndexOf(rows, RefOf(routing, f));
    var cursor := Remainder(Get(routing.indexByFamily, f).GetOr(fallback), |rows|);
    if index.Some? && index.value as real != cursor then Some(index.value as real)
    else Get(routing.indexByFamily, f)
  }

  /** A family whose cursor already picks the row `i` keeps picking it; any other is set to `i`. */
  lemma ExportedCursorPicks(rows: seq<RowRef>, stored: Option<real>, fallback: real, i: nat)
    requires Distinct(rows) && i < |rows| && 0.0 <= fallback <= |rows| as real - 1.0
    ensures var cursor := Remainder(stored.GetOr(fallback), |rows|);
            var written := if i as real != cursor then Some(i as real) else stored;
            Wrap(ClampNonNegativeInt(written, fallback.Floor), |rows|) == i
  {
    var cursor := Remainder(stored.GetOr(fallback), |rows|);
    if i as real == cursor {
      assert At(rows, cursor) == Some(rows[i]);
      RemainderPicks(rows, stored.GetOr(fallback));
    }
  }

  /** A pool-file loader reading the exported cursors selects the row each family's ref names. */
  lemma SelectionSurvivesRollback(routing: Routing, rows: seq<RowRef>, f: Family, i: nat)
    requires Distinct(rows) && i < |rows| && RefOf(routing, f) == Some(rows[i])
    ensures PoolFileIndex(ExportRouting(routing, rows), f, |rows|) == i
  {
    IndexOfMember(rows, i);
    var out := ExportRouting(routing, rows);
    var fallback := Clamp(out.activeIndex.GetOr(0.0), |rows|);
    assert Get(out.indexByFamily, f) == ExportedCursor(routing, rows, f, fallback);
    ExportedCursorPicks(rows, Get(routing.indexByFamily, f), fallback, i);
  }

  /** Importing a pool file and rolling the store back keeps every family's selected account. */
  lemma SelectionSurvivesRoundTrip(imported: Routing, rows: seq<RowRef>, f: Family)
    requires |rows| > 0 && Distinct(rows)
    ensures PoolFileIndex(ExportRouting(ExpectedRouting(imported, rows), rows), f, |rows|)
         == PoolFileIndex(imported, f, |rows|)
  {
    var routing := ExpectedRouting(imported, rows);
    SelectionSurvivesImport(imported, rows, f);
    if f in routing.rowByFamily {
      var i := RoutedIndex(rows, routing, f);
      assert RefOf(routing, f).value in rows;
      SelectionSurvivesRollback(routing, rows, f, i);
    } else {
      DefaultKeptByExport(imported, rows);
      assert Get(ExportRouting(routing, rows).indexByFamily, f) == Get(imported.indexByFamily, f);
    }
  }

  lemma DefaultKeptByExport(imported: Routing, rows: seq<RowRef>)
    requires |rows| > 0 && Distinct(rows)
    ensures ExportRouting(ExpectedRouting(imported, rows), rows).activeIndex == imported.activeIndex
  {
    var effective := Clamp(imported.activeIndex.GetOr(0.0), |rows|);
    if effective == effective.Floor as real {
      IndexOfMember(rows, effective.Floor);
    }
  }
}
