/**
  The bounded session tables: `AgyRequestSessionStore`
  (packages/core/src/agy-request-metadata.ts:85-182) and the selector's request sessions
  (packages/core/src/account-selector.ts:723-776). A JavaScript Map is its entries in insertion
  order; a session's context is an opaque, never reused number.
 */
module Sessions {
  import opened Text

  datatype Entry = Entry(key: string, context: nat, accessed: int, requested: int)

  type Table = seq<Entry>

  predicate Unique(t: Table) {
    forall i, j | 0 <= i < j < |t| :: t[i].key != t[j].key
  }

  predicate Has(t: Table, key: string) {
    exists i | 0 <= i < |t| :: t[i].key == key
  }

  function Find(t: Table, key: string): (r: Option<nat>)
    ensures r.Some? ==> r.value < |t| && t[r.value].key == key
    ensures r.None? <==> !Has(t, key)
  {
    if t == [] then None
    else if t[0].key == key then Some(0)
    else
      var rest := Find(t[1..], key);
      assert Has(t, key) ==> Has(t[1..], key) by {
        if Has(t, key) {
          var i :| 0 <= i < |t| && t[i].key == key;
          assert t[1..][i - 1].key == key;
        }
      }
      assert Has(t[1..], key) ==> Has(t, key);
      if rest.Some? then Some(rest.value + 1) else None
  }

  // ----- Pruning ------------------------------------------------------------

  predicate Expired(e: Entry, expiry: int, preserved: string) {
    e.key != preserved && e.accessed < expiry
  }

  /** The entries that have not expired, the preserved one among them. */
  function Fresh(t: Table, expiry: int, preserved: string): Table {
    if t == [] then []
    else (if Expired(t[0], expiry, preserved) then [] else [t[0]]) + Fresh(t[1..], expiry, preserved)
  }

  /** The first of the least recently accessed entries, the preserved one left out. */
  predicate IsOldest(t: Table, preserved: string, i: int) {
    0 <= i < |t| && t[i].key != preserved
    && (forall j | 0 <= j < i :: t[j].key != preserved ==> t[i].accessed < t[j].accessed)
    && (forall j | i <= j < |t| :: t[j].key != preserved ==> t[i].accessed <= t[j].accessed)
  }

  function Oldest(t: Table, preserved: string): (r: Option<nat>)
    ensures r.Some? ==> IsOldest(t, preserved, r.value)
    ensures r.None? ==> forall j | 0 <= j < |t| :: t[j].key == preserved
  {
    if t == [] then None
    else
      var n := |t| - 1;
      var best := Oldest(t[..n], preserved);
      if t[n].key != preserved && (best.None? || t[n].accessed < t[best.value].accessed) then Some(n) else best
  }

  function Remove(t: Table, i: nat): Table
    requires i < |t|
  {
    t[..i] + t[i + 1..]
  }

  /** Whether the entry to evict has a key the code takes for none: the empty string. */
  predicate Evictable(t: Table, preserved: string) {
    Oldest(t, preserved).Some? && t[Oldest(t, preserved).value].key != ""
  }

  /** Evicts while the table is full, to make room for a key it does not hold. */
  function Evict(t: Table, max: int, preserved: string): Table
    decreases |t|
  {
    if |t| >= max && !Has(t, preserved) && Evictable(t, preserved)
    then Evict(Remove(t, Oldest(t, preserved).value), max, preserved)
    else t
  }

  function Prune(t: Table, now: int, ttl: int, max: int, preserved: string): Table {
    Evict(Fresh(t, now - ttl, preserved), max, preserved)
  }

  // ----- The request store -----------------------------------------------------

  /** `getOrCreate`, for a clock reading. */
  function GetOrCreate(t: Table, now: int, ttl: int, max: int, key: string, context: nat): Table {
    Access(Prune(t, now, ttl, max, key), now, key, context)
  }

  function Access(pruned: Table, now: int, key: string, context: nat): Table {
    var at := Find(pruned, key);
    if at.Some? then pruned[at.value := pruned[at.value].(accessed := now)]
    else pruned + [Entry(key, context, now, 0)]
  }

  function Max(a: int, b: int): int {
    if a >= b then a else b
  }

  /** The timestamp `beginRequest` gives an entry it has just accessed. */
  function NextTimestamp(e: Entry): int {
    Max(e.accessed, e.requested + 1)
  }

  /** `beginRequest`, on a table `getOrCreate` has just returned from. */
  function Stamp(t: Table, key: string): Table {
    var at := Find(t, key);
    if at.Some? then t[at.value := t[at.value].(requested := NextTimestamp(t[at.value]))] else t
  }

  class AgyRequestSessionStore {
    const ttl: int
    const max: int
    var entries: Table
    var created: nat

    constructor (ttl: int, max: int)
      ensures this.ttl == ttl && this.max == max && entries == []
    {
      this.ttl, this.max, this.entries, this.created := ttl, max, [], 0;
    }

    method GetOrCreateEntry(key: string, now: int) returns (context: nat)
      requires Unique(entries)
      modifies this
      ensures entries == GetOrCreate(old(entries), now, ttl, max, key, old(created))
      ensures Find(entries, key).Some? && context == entries[Find(entries, key).value].context
      ensures created == old(created) + if Find(Prune(old(entries), now, ttl, max, key), key).None? then 1 else 0
    {
      PruneEntries(now, key);
      var at := Find(entries, key);
      if at.Some? {
        entries := entries[at.value := entries[at.value].(accessed := now)];
        SameKeys(entries, Prune(old(entries), now, ttl, max, key), key);
        return entries[at.value].context;
      }
      AppendedIsFound(entries, Entry(key, created, now, 0));
      entries := entries + [Entry(key, created, now, 0)];
      created := created + 1;
      return created - 1;
    }

    method BeginRequest(key: string, now: int) returns (context: nat, timestamp: int)
      requires Unique(entries)
      modifies this
      ensures entries == Stamp(GetOrCreate(old(entries), now, ttl, max, key, old(created)), key)
      ensures var t := GetOrCreate(old(entries), now, ttl, max, key, old(created));
              Find(t, key).Some? && context == t[Find(t, key).value].context
              && timestamp == NextTimestamp(t[Find(t, key).value])
    {
      context := GetOrCreateEntry(key, now);
      var at := Find(entries, key).value;
      var stored := entries[at];
      timestamp := if stored.accessed >= stored.requested + 1 then stored.accessed else stored.requested + 1;
      entries := entries[at := stored.(requested := timestamp)];
    }

    method PruneEntries(now: int, key: string)
      modifies this`entries
      ensures entries == Prune(old(entries), now, ttl, max, key)
    {
      DropExpired(now - ttl, key);
      MakeRoom(key);
    }

    method DropExpired(expiry: int, key: string)
      modifies this`entries
      ensures entries == Fresh(old(entries), expiry, key)
    {
      var i := 0;
      while i < |entries|
        invariant 0 <= i <= |entries|
        invariant Fresh(old(entries), expiry, key) == entries[..i] + Fresh(entries[i..], expiry, key)
        decreases |entries| - i
      {
        ghost var rest := entries[i..];
        assert rest[0] == entries[i] && rest[1..] == entries[i + 1..];
        if entries[i].key != key && entries[i].accessed < expiry {
          ghost var was := entries;
          entries := entries[..i] + entries[i + 1..];
          assert entries[i..] == was[i + 1..] && entries[..i] == was[..i];
        } else {
          assert entries[..i + 1] == entries[..i] + [entries[i]];
          i := i + 1;
        }
      }
      assert entries[..i] == entries && Fresh(entries[i..], expiry, key) == [];
    }

    method MakeRoom(key: string)
      modifies this`entries
      ensures entries == Evict(old(entries), max, key)
    {
      while |entries| >= max && Find(entries, key).None?
        invariant Evict(entries, max, key) == Evict(old(entries), max, key)
        decreases |entries|
      {
        var oldest := OldestEntry(key);
        if oldest.None? || entries[oldest.value].key == "" {
          break;
        }
        entries := entries[..oldest.value] + entries[oldest.value + 1..];
      }
    }

    method OldestEntry(preserved: string) returns (oldest: Option<nat>)
      ensures oldest == Oldest(entries, preserved)
    {
      oldest := None;
      for i := 0 to |entries|
        invariant oldest == Oldest(entries[..i], preserved)
      {
        assert entries[..i + 1][..i] == entries[..i];
        if entries[i].key != preserved && (oldest.None? || entries[i].accessed < entries[oldest.value].accessed) {
          oldest := Some(i);
        }
      }
      assert entries[..|entries|] == entries;
    }
  }

  /** Replacing an entry by one of the same key finds the same entry. */
  lemma {:induction false} SameKeys(a: Table, b: Table, key: string)
    requires |a| == |b| && forall i | 0 <= i < |a| :: a[i].key == b[i].key
    ensures Find(a, key) == Find(b, key)
  {
    if a != [] && a[0].key != key {
      SameKeys(a[1..], b[1..], key);
    }
  }

  lemma {:induction false} AppendedIsFound(t: Table, e: Entry)
    requires Find(t, e.key).None?
    ensures Find(t + [e], e.key) == Some(|t|)
  {
    if t == [] {
      assert t + [e] == [e];
    } else {
      assert t[0].key != e.key;
      assert (t + [e])[1..] == t[1..] + [e];
      AppendedIsFound(t[1..], e);
    }
  }

  // ----- What pruning keeps and drops ----------------------------------------

  predicate Subset(a: Table, b: Table) {
    forall i | 0 <= i < |a| :: a[i] in b
  }

  lemma RemoveKeeps(t: Table, i: nat)
    requires Unique(t) && i < |t|
    ensures Unique(Remove(t, i)) && Subset(Remove(t, i), t) && |Remove(t, i)| == |t| - 1
    ensures forall e | e in t && e != t[i] :: e in Remove(t, i)
  {
    var r := Remove(t, i);
    forall e | e in t && e != t[i] ensures e in r {
      var j :| 0 <= j < |t| && t[j] == e;
      assert j < i ==> r[j] == e;
      assert j > i ==> r[j - 1] == e;
    }
  }

  lemma {:induction false} FreshKeeps(t: Table, expiry: int, preserved: string)
    requires Unique(t)
    ensures Unique(Fresh(t, expiry, preserved)) && |Fresh(t, expiry, preserved)| <= |t|
    ensures forall e :: e in Fresh(t, expiry, preserved) <==> e in t && !Expired(e, expiry, preserved)
  {
    if t != [] {
      FreshKeeps(t[1..], expiry, preserved);
      var rest := Fresh(t[1..], expiry, preserved);
      assert t == [t[0]] + t[1..];
      forall i | 0 <= i < |rest| ensures rest[i].key != t[0].key {
        assert rest[i] in t[1..];
      }
    }
  }

  lemma {:induction false} EvictKeeps(t: Table, max: int, preserved: string)
    requires Unique(t)
    ensures var r := Evict(t, max, preserved);
            Unique(r) && Subset(r, t) && |r| <= |t|
            && (Has(t, preserved) || |t| < max ==> r == t)
            && (|r| < |t| ==> |r| >= max - 1)
    decreases |t|
  {
    hide Oldest;
    if |t| >= max && !Has(t, preserved) && Evictable(t, preserved) {
      var i := Oldest(t, preserved).value;
      RemoveKeeps(t, i);
      EvictKeeps(Remove(t, i), max, preserved);
    }
  }

  /** No entry the table holds was accessed before this one. */
  predicate NoEarlier(t: Table, e: Entry) {
    forall i | 0 <= i < |t| :: e.accessed <= t[i].accessed
  }

  /** What eviction drops is no more recent than anything it leaves. */
  lemma {:induction false} EvictDropsOldest(t: Table, max: int, preserved: string, e: Entry)
    requires Unique(t) && e in t && e !in Evict(t, max, preserved)
    ensures NoEarlier(Evict(t, max, preserved), e)
    decreases |t|
  {
    if |t| >= max && !Has(t, preserved) && Evictable(t, preserved) {
      var i := Oldest(t, preserved).value;
      var less := Remove(t, i);
      RemoveKeeps(t, i);
      if e == t[i] {
        EvictKeeps(less, max, preserved);
        EarlierThanRest(t, i, preserved);
        var r := Evict(less, max, preserved);
        forall j | 0 <= j < |r| ensures e.accessed <= r[j].accessed {
          assert r[j] in less;
          var k :| 0 <= k < |less| && less[k] == r[j];
        }
      } else {
        EvictDropsOldest(less, max, preserved, e);
      }
    }
  }

  lemma EarlierThanRest(t: Table, i: nat, preserved: string)
    requires IsOldest(t, preserved, i) && !Has(t, preserved)
    ensures NoEarlier(Remove(t, i), t[i])
  {
    forall j | 0 <= j < |t| ensures t[i].accessed <= t[j].accessed {
      assert t[j].key != preserved;
    }
  }

  /** No table key is the empty string, which the code takes for no key. */
  predicate Named(t: Table) {
    forall i | 0 <= i < |t| :: t[i].key != ""
  }

  /** The table's bound; a table of no entries still takes the one being accessed. */
  function Bound(max: int): int {
    Max(1, max)
  }

  lemma PruneIsUnique(t: Table, now: int, ttl: int, max: int, key: string)
    requires Unique(t)
    ensures Unique(Prune(t, now, ttl, max, key))
  {
    FreshKeeps(t, now - ttl, key);
    EvictKeeps(Fresh(t, now - ttl, key), max, key);
  }

  /** Accessing an entry, or adding it, leaves every other entry as pruning left it. */
  lemma AccessedTable(t: Table, now: int, ttl: int, max: int, key: string, context: nat)
    requires Unique(t)
    ensures var p := Prune(t, now, ttl, max, key);
            var r := GetOrCreate(t, now, ttl, max, key, context);
            Unique(p) && Unique(r) && Has(r, key)
            && (forall e: Entry | e.key != key :: e in r <==> e in p)
            && |r| == |p| + if Has(p, key) then 0 else 1
  {
    PruneIsUnique(t, now, ttl, max, key);
    hide Prune;
    var p := Prune(t, now, ttl, max, key);
    var r := GetOrCreate(t, now, ttl, max, key, context);
    var at := Find(p, key);
    var i := if at.Some? then at.value else |p|;
    assert r[i].key == key;
    forall e: Entry | e.key != key ensures e in r <==> e in p {
      if e in p {
        var j :| 0 <= j < |p| && p[j] == e;
        assert r[j] == e;
      }
      if e in r {
        var j :| 0 <= j < |r| && r[j] == e;
        assert p[j] == e;
      }
    }
  }

  lemma StillThere(t: Table, expiry: int, key: string)
    requires Unique(t)
    ensures Has(t, key) <==> Has(Fresh(t, expiry, key), key)
  {
    FreshKeeps(t, expiry, key);
    var live := Fresh(t, expiry, key);
    if Has(t, key) {
      var i :| 0 <= i < |t| && t[i].key == key;
      assert t[i] in live;
    }
    if Has(live, key) {
      var i :| 0 <= i < |live| && live[i].key == key;
      assert live[i] in t;
    }
  }

  /**
    An access keeps the entry it accesses. Another entry goes only when it has expired or, the table
    being full of unexpired ones and the key new, when nothing it keeps was accessed earlier.
   */
  lemma AccessKeepsRecent(t: Table, now: int, ttl: int, max: int, key: string, context: nat, e: Entry)
    requires Unique(t) && e in t && e.key != key
    ensures var r := GetOrCreate(t, now, ttl, max, key, context);
            Has(r, key)
            && (e !in r ==>
                  e.accessed < now - ttl
                  || (|Fresh(t, now - ttl, key)| >= max && !Has(t, key)
                      && forall s | s in r && s.key != key :: s in t && e.accessed <= s.accessed))
  {
    hide Evict, Fresh, Find, GetOrCreate;
    var live := Fresh(t, now - ttl, key);
    AccessedTable(t, now, ttl, max, key, context);
    FreshKeeps(t, now - ttl, key);
    EvictKeeps(live, max, key);
    StillThere(t, now - ttl, key);
    if e.accessed >= now - ttl && e !in Prune(t, now, ttl, max, key) {
      EvictDropsOldest(live, max, key, e);
    }
  }

  // ----- The bound ------------------------------------------------------------

  /** The full table has no entry the code can evict: the oldest is keyed by the empty string. */
  predicate Stuck(t: Table, now: int, ttl: int, max: int, key: string) {
    var live := Fresh(t, now - ttl, key);
    |live| >= Bound(max) && !Has(t, key) && !Evictable(live, key)
  }

  lemma EvictOnce(t: Table, max: int, key: string)
    requires Unique(t) && |t| <= Bound(max) && !Has(t, key)
    ensures |Evict(t, max, key)| < Bound(max) <==> |t| < Bound(max) || Evictable(t, key)
  {
    EvictKeeps(t, max, key);
    if |t| >= max && Evictable(t, key) {
      var i := Oldest(t, key).value;
      RemoveKeeps(t, i);
      EvictKeeps(Remove(t, i), max, key);
    }
  }

  /** One access keeps the bound exactly when the table is not full behind an empty-string key. */
  lemma BoundKeptIff(t: Table, now: int, ttl: int, max: int, key: string, context: nat)
    requires Unique(t) && |t| <= Bound(max)
    ensures |GetOrCreate(t, now, ttl, max, key, context)| <= Bound(max) <==> !Stuck(t, now, ttl, max, key)
  {
    hide Evict, Fresh, Find, GetOrCreate, Evictable;
    var live := Fresh(t, now - ttl, key);
    FreshKeeps(t, now - ttl, key);
    StillThere(t, now - ttl, key);
    AccessedTable(t, now, ttl, max, key, context);
    EvictKeeps(live, max, key);
    if !Has(t, key) {
      EvictOnce(live, max, key);
      forall i | 0 <= i < |Evict(live, max, key)| ensures Evict(live, max, key)[i].key != key {
        assert Evict(live, max, key)[i] in live;
      }
    }
  }

  // ----- Whole runs -----------------------------------------------------------

  datatype Op = Get(key: string, now: int) | Begin(key: string, now: int) | Forget(key: string) | ForgetAll

  /** A request: its session, the clock it read, and the timestamp it was given. */
  datatype Issue = Issue(context: nat, now: int, timestamp: int)

  datatype Store = Store(entries: Table, created: nat, issued: seq<Issue>)

  function Delete(t: Table, key: string): Table {
    var at := Find(t, key);
    if at.Some? then Remove(t, at.value) else t
  }

  function Opened(s: Store, key: string, now: int, ttl: int, max: int): Store {
    s.(entries := GetOrCreate(s.entries, now, ttl, max, key, s.created),
       created := s.created + if Find(Prune(s.entries, now, ttl, max, key), key).None? then 1 else 0)
  }

  function Stamped(s: Store, key: string, now: int): Store {
    var at := Find(s.entries, key);
    if at.None? then s
    else
      var e := s.entries[at.value];
      s.(entries := Stamp(s.entries, key), issued := s.issued + [Issue(e.context, now, NextTimestamp(e))])
  }

  function Do(s: Store, op: Op, ttl: int, max: int): Store {
    match op
    case Get(key, now) => Opened(s, key, now, ttl, max)
    case Begin(key, now) => Stamped(Opened(s, key, now, ttl, max), key, now)
    case Forget(key) => s.(entries := Delete(s.entries, key))
    case ForgetAll => s.(entries := [])
  }

  function Run(s: Store, ops: seq<Op>, ttl: int, max: int): Store
    decreases ops
  {
    if ops == [] then s else Run(Do(s, ops[0], ttl, max), ops[1..], ttl, max)
  }

  const EMPTY := Store([], 0, [])

  /** Every session in the table is its own, and was given no timestamp past its record. */
  predicate Tracked(s: Store) {
    Unique(s.entries)
    && (forall i | 0 <= i < |s.entries| :: s.entries[i].context < s.created)
    && (forall i, j | 0 <= i < j < |s.entries| :: s.entries[i].context != s.entries[j].context)
    && (forall n | 0 <= n < |s.issued| :: s.issued[n].context < s.created)
    && (forall i, n | 0 <= i < |s.entries| && 0 <= n < |s.issued| ::
          s.entries[i].context == s.issued[n].context ==> s.issued[n].timestamp <= s.entries[i].requested)
  }

  /** Per session, every request's timestamp is later than the one before, and no earlier than the clock. */
  predicate Increasing(issued: seq<Issue>) {
    (forall m, n | 0 <= m < n < |issued| && issued[m].context == issued[n].context ::
       issued[m].timestamp < issued[n].timestamp)
    && forall n | 0 <= n < |issued| :: issued[n].now <= issued[n].timestamp
  }

  /** The same entry, perhaps accessed since. */
  predicate SameSession(e: Entry, f: Entry) {
    e.key == f.key && e.context == f.context && e.requested == f.requested
  }

  predicate From(t: Table, f: Entry) {
    exists k | 0 <= k < |t| :: SameSession(t[k], f)
  }

  predicate Inherits(r: Table, t: Table) {
    forall i | 0 <= i < |r| :: From(t, r[i])
  }

  lemma PruneKeeps(t: Table, now: int, ttl: int, max: int, key: string)
    requires Unique(t)
    ensures Unique(Prune(t, now, ttl, max, key)) && Subset(Prune(t, now, ttl, max, key), t)
  {
    var live := Fresh(t, now - ttl, key);
    FreshKeeps(t, now - ttl, key);
    EvictKeeps(live, max, key);
    var p := Prune(t, now, ttl, max, key);
    forall i | 0 <= i < |p| ensures p[i] in t {
      assert p[i] in live;
    }
  }

  /** Whatever is left of a tracked table is tracked. */
  lemma InheritingIsTracked(s: Store, r: Table)
    requires Tracked(s) && Unique(r) && Inherits(r, s.entries)
    ensures Tracked(s.(entries := r))
  {
    forall i | 0 <= i < |r|
      ensures r[i].context < s.created
      ensures forall n | 0 <= n < |s.issued| ::
                r[i].context == s.issued[n].context ==> s.issued[n].timestamp <= r[i].requested {
      assert From(s.entries, r[i]);
      var k :| 0 <= k < |s.entries| && SameSession(s.entries[k], r[i]);
    }
    forall i, j | 0 <= i < j < |r| ensures r[i].context != r[j].context {
      assert From(s.entries, r[i]) && From(s.entries, r[j]);
      var k :| 0 <= k < |s.entries| && SameSession(s.entries[k], r[i]);
      var l :| 0 <= l < |s.entries| && SameSession(s.entries[l], r[j]);
      assert k < l || l < k;
    }
  }

  /** The table holds the key, last accessed at that time. */
  predicate AccessedAt(t: Table, key: string, now: int) {
    Has(t, key) && forall i | 0 <= i < |t| :: t[i].key == key ==> t[i].accessed == now
  }

  lemma TrackedIsUnique(s: Store)
    requires Tracked(s)
    ensures Unique(s.entries)
  {
  }

  lemma AddedIsTracked(s: Store, key: string, now: int)
    requires Tracked(s) && !Has(s.entries, key)
    ensures Tracked(s.(entries := s.entries + [Entry(key, s.created, now, 0)], created := s.created + 1))
  {
  }

  lemma OpenedIsTracked(s: Store, key: string, now: int, ttl: int, max: int)
    requires Tracked(s)
    ensures Tracked(Opened(s, key, now, ttl, max)) && AccessedAt(Opened(s, key, now, ttl, max).entries, key, now)
  {
    hide Evict, Fresh, Prune, Tracked;
    TrackedIsUnique(s);
    AccessedTable(s.entries, now, ttl, max, key, s.created);
    PruneKeeps(s.entries, now, ttl, max, key);
    var p := Prune(s.entries, now, ttl, max, key);
    var at := Find(p, key);
    var r := if at.Some? then p[at.value := p[at.value].(accessed := now)] else p;
    forall i | 0 <= i < |r| ensures From(s.entries, r[i]) {
      assert p[i] in s.entries;
      var k :| 0 <= k < |s.entries| && s.entries[k] == p[i];
      assert SameSession(s.entries[k], r[i]);
    }
    InheritingIsTracked(s, r);
    if at.None? {
      AddedIsTracked(s.(entries := r), key, now);
    }
  }

  lemma StampedIsTracked(s: Store, key: string, now: int)
    requires Tracked(s) && Increasing(s.issued) && AccessedAt(s.entries, key, now)
    ensures Tracked(Stamped(s, key, now)) && Increasing(Stamped(s, key, now).issued)
  {
  }

  lemma DoIsTracked(s: Store, op: Op, ttl: int, max: int)
    requires Tracked(s) && Increasing(s.issued)
    ensures Tracked(Do(s, op, ttl, max)) && Increasing(Do(s, op, ttl, max).issued)
  {
    hide Tracked, Increasing, GetOrCreate, Prune, Find, AccessedAt;
    match op
    case Get(key, now) => OpenedIsTracked(s, key, now, ttl, max);
    case Begin(key, now) =>
      OpenedIsTracked(s, key, now, ttl, max);
      StampedIsTracked(Opened(s, key, now, ttl, max), key, now);
    case Forget(key) => DeletedIsTracked(s, key);
    case ForgetAll => NoneIsTracked(s);
  }

  lemma DeletedIsTracked(s: Store, key: string)
    requires Tracked(s)
    ensures Tracked(s.(entries := Delete(s.entries, key))) && |Delete(s.entries, key)| <= |s.entries|
  {
    var at := Find(s.entries, key);
    if at.Some? {
      var r := Remove(s.entries, at.value);
      RemoveKeeps(s.entries, at.value);
      forall i | 0 <= i < |r| ensures From(s.entries, r[i]) {
        assert r[i] in s.entries;
        var k :| 0 <= k < |s.entries| && s.entries[k] == r[i];
        assert SameSession(s.entries[k], r[i]);
      }
      InheritingIsTracked(s, r);
    }
  }

  lemma NoneIsTracked(s: Store)
    requires Tracked(s)
    ensures Tracked(s.(entries := []))
  {
  }

  lemma {:induction false} RunIsTracked(s: Store, ops: seq<Op>, ttl: int, max: int)
    requires Tracked(s) && Increasing(s.issued)
    ensures Tracked(Run(s, ops, ttl, max)) && Increasing(Run(s, ops, ttl, max).issued)
    decreases ops
  {
    hide Tracked, Increasing, Do;
    if ops != [] {
      DoIsTracked(s, ops[0], ttl, max);
      RunIsTracked(Do(s, ops[0], ttl, max), ops[1..], ttl, max);
    }
  }

  /**
    In every run of a new store, on any clock, even one that goes back: for as long as a session lives
    its requests get strictly increasing timestamps, none earlier than the clock it was made at.
   */
  lemma TimestampsIncrease(ops: seq<Op>, ttl: int, max: int)
    ensures Increasing(Run(EMPTY, ops, ttl, max).issued)
  {
    RunIsTracked(EMPTY, ops, ttl, max);
  }

  predicate NamesKey(op: Op) {
    match op
    case Get(key, _) => key != ""
    case Begin(key, _) => key != ""
    case _ => true
  }

  lemma NamedIsNeverStuck(t: Table, now: int, ttl: int, max: int, key: string)
    requires Unique(t) && Named(t)
    ensures !Stuck(t, now, ttl, max, key)
  {
    var live := Fresh(t, now - ttl, key);
    FreshKeeps(t, now - ttl, key);
    StillThere(t, now - ttl, key);
    if live != [] && !Has(t, key) {
      assert live[0].key != key;
      assert live[Oldest(live, key).value] in t;
    }
  }

  predicate Bounded(s: Store, max: int) {
    Unique(s.entries) && Named(s.entries) && |s.entries| <= Bound(max)
  }

  lemma OpenedIsBounded(s: Store, key: string, now: int, ttl: int, max: int)
    requires Bounded(s, max) && key != ""
    ensures Bounded(Opened(s, key, now, ttl, max), max)
  {
    hide GetOrCreate, Prune, Fresh, Evict, Find, Stuck;
    var r := GetOrCreate(s.entries, now, ttl, max, key, s.created);
    NamedIsNeverStuck(s.entries, now, ttl, max, key);
    BoundKeptIff(s.entries, now, ttl, max, key, s.created);
    AccessedTable(s.entries, now, ttl, max, key, s.created);
    PruneKeeps(s.entries, now, ttl, max, key);
    forall i | 0 <= i < |r| ensures r[i].key != "" {
      if r[i].key != key {
        assert r[i] in Prune(s.entries, now, ttl, max, key);
        assert r[i] in s.entries;
      }
    }
  }

  lemma DoIsBounded(s: Store, op: Op, ttl: int, max: int)
    requires Bounded(s, max) && NamesKey(op)
    ensures Bounded(Do(s, op, ttl, max), max)
  {
    hide GetOrCreate, Prune;
    match op
    case Get(key, now) => OpenedIsBounded(s, key, now, ttl, max);
    case Begin(key, now) => OpenedIsBounded(s, key, now, ttl, max);
    case Forget(key) =>
      if Find(s.entries, key).Some? {
        RemoveKeeps(s.entries, Find(s.entries, key).value);
        forall i | 0 <= i < |Delete(s.entries, key)| ensures Delete(s.entries, key)[i].key != "" {
          assert Delete(s.entries, key)[i] in s.entries;
        }
      }
    case ForgetAll =>
  }

  lemma {:induction false} RunIsBounded(s: Store, ops: seq<Op>, ttl: int, max: int)
    requires Bounded(s, max) && forall i | 0 <= i < |ops| :: NamesKey(ops[i])
    ensures Bounded(Run(s, ops, ttl, max), max)
    decreases ops
  {
    hide Bounded, Do;
    if ops != [] {
      DoIsBounded(s, ops[0], ttl, max);
      RunIsBounded(Do(s, ops[0], ttl, max), ops[1..], ttl, max);
    }
  }

  /** In every run of a new store over nonempty keys it holds at most `max` sessions, or one where `max` is less. */
  lemma StaysBounded(ops: seq<Op>, ttl: int, max: int)
    requires forall i | 0 <= i < |ops| :: NamesKey(ops[i])
    ensures |Run(EMPTY, ops, ttl, max).entries| <= Bound(max)
  {
    RunIsBounded(EMPTY, ops, ttl, max);
  }

  // ----- The selector's request sessions ---------------------------------------

  const MAX_ACCOUNT_SESSION_STATES := 256

  /** `pruneRequestSessionStates`: at most one eviction. */
  function PruneSessions(t: Table, now: int, ttl: int, preserved: string): Table {
    var live := Fresh(t, now - ttl, preserved);
    if |live| >= MAX_ACCOUNT_SESSION_STATES && !Has(live, preserved) && Evictable(live, preserved)
    then Remove(live, Oldest(live, preserved).value) else live
  }

  /** In a table within its bound one eviction is all the request store would do, so its results carry over. */
  lemma OneEvictionSuffices(t: Table, now: int, ttl: int, preserved: string)
    requires Unique(t) && |t| <= MAX_ACCOUNT_SESSION_STATES
    ensures PruneSessions(t, now, ttl, preserved) == Prune(t, now, ttl, MAX_ACCOUNT_SESSION_STATES, preserved)
  {
    hide Fresh, Oldest, Unique;
    var live := Fresh(t, now - ttl, preserved);
    FreshKeeps(t, now - ttl, preserved);
    if |live| >= MAX_ACCOUNT_SESSION_STATES && !Has(live, preserved) && Evictable(live, preserved) {
      var i := Oldest(live, preserved).value;
      RemoveKeeps(live, i);
      EvictKeeps(Remove(live, i), MAX_ACCOUNT_SESSION_STATES, preserved);
    }
  }

  /** `getRequestSessionState` at a clock reading, `deleteSessionState`, and the clearing of an emptied pool. */
  datatype Use = Opens(key: string, now: int) | Deletes(key: string) | Clears

  function DoUse(t: Table, use: Use, ttl: int): Table {
    match use
    case Opens(key, now) => Access(PruneSessions(t, now, ttl, key), now, key, 0)
    case Deletes(key) => Delete(t, key)
    case Clears => []
  }

  function RunUses(t: Table, uses: seq<Use>, ttl: int): Table
    decreases uses
  {
    if uses == [] then t else RunUses(DoUse(t, uses[0], ttl), uses[1..], ttl)
  }

  /** The same use of a request store. */
  function AsOp(use: Use): Op {
    match use
    case Opens(key, now) => Get(key, now)
    case Deletes(key) => Forget(key)
    case Clears => ForgetAll
  }

  predicate NamesSession(use: Use) {
    use.Opens? ==> use.key != ""
  }

  lemma UseStaysBounded(t: Table, use: Use, ttl: int)
    requires Bounded(Store(t, 0, []), MAX_ACCOUNT_SESSION_STATES) && NamesSession(use)
    ensures Bounded(Store(DoUse(t, use, ttl), 0, []), MAX_ACCOUNT_SESSION_STATES)
  {
    hide PruneSessions, Prune, Access;
    DoIsBounded(Store(t, 0, []), AsOp(use), ttl, MAX_ACCOUNT_SESSION_STATES);
    if use.Opens? {
      OneEvictionSuffices(t, use.now, ttl, use.key);
    }
  }

  lemma {:induction false} UsesStayBounded(t: Table, uses: seq<Use>, ttl: int)
    requires Bounded(Store(t, 0, []), MAX_ACCOUNT_SESSION_STATES) && forall i | 0 <= i < |uses| :: NamesSession(uses[i])
    ensures Bounded(Store(RunUses(t, uses, ttl), 0, []), MAX_ACCOUNT_SESSION_STATES)
    decreases uses
  {
    hide Bounded, DoUse, NamesSession;
    if uses != [] {
      UseStaysBounded(t, uses[0], ttl);
      UsesStayBounded(DoUse(t, uses[0], ttl), uses[1..], ttl);
    }
  }

  /** In every run of a new selector over nonempty session ids it holds at most 256 sessions. */
  lemma SelectorStaysBounded(uses: seq<Use>, ttl: int)
    requires forall i | 0 <= i < |uses| :: NamesSession(uses[i])
    ensures |RunUses([], uses, ttl)| <= MAX_ACCOUNT_SESSION_STATES
  {
    UsesStayBounded([], uses, ttl);
  }
}
