/**
  Row changes waiting to be written: how the manager coalesces and requeues them
  (packages/core/src/account-manager.ts:209-252, 1104-1146, 1182-1212), and how rate-limit maps and
  request counts from several writers are merged (packages/core/src/account-repository.ts:543-561,
  account-manager.ts:359-374).

  An absent, a null and an empty rate-limit map are not told apart. Within one, a key may hold null.
 */
module Pending {
  import opened Text

  /** Reset times by key; `None` is a stored null. */
  type Resets = map<string, Option<real>>

  datatype Cooldown = Cooldown(until: real, reason: string)

  datatype Metadata = Metadata(resets: Resets, cooldown: Option<Cooldown>, switchReason: Option<string>, lastUsed: real)

  datatype Rate = Reset(at: real) | Clear

  datatype Change =
    | RateLimit(key: string, rate: Rate)
    | Cool(value: Option<Cooldown>)
    | Switch(reason: string)
    | Use(at: real)

  datatype Write = Write(rates: map<string, Rate>, cooldown: Option<Option<Cooldown>>, switchReason: Option<string>,
                         lastUsed: Option<real>)

  const NOTHING := Write(map[], None, None, None)

  function Max(a: real, b: real): real {
    if a >= b then a else b
  }

  // ----- Merging resets -------------------------------------------------------

  /** The later of two times of a key; a null gives way to any time. */
  function Later(a: Option<real>, b: Option<real>): Option<real> {
    if a.None? then b else if b.None? then a else Some(Max(a.value, b.value))
  }

  /** `mergeRateLimitResets`. */
  function MergeResets(stored: Resets, incoming: Resets): Resets {
    map k | k in stored.Keys + incoming.Keys ::
      if k !in stored then incoming[k] else if k !in incoming then stored[k]
      else if incoming[k].None? then stored[k]
      else if stored[k].None? || incoming[k].value > stored[k].value then incoming[k]
      else stored[k]
  }

  /**
    Whichever of two writers comes first, and however three are grouped, the same map results; writing it
    again changes nothing.
   */
  lemma ResetsJoin(a: Resets, b: Resets, c: Resets)
    ensures MergeResets(a, b) == MergeResets(b, a)
    ensures MergeResets(MergeResets(a, b), c) == MergeResets(a, MergeResets(b, c))
    ensures MergeResets(MergeResets(a, b), b) == MergeResets(a, b)
  {
    ResetsGroup(a, b, c);
    ResetsGroup(a, b, b);
    assert MergeResets(b, b) == b;
  }

  lemma ResetsGroup(a: Resets, b: Resets, c: Resets)
    ensures MergeResets(MergeResets(a, b), c) == MergeResets(a, MergeResets(b, c))
  {
    var l, r := MergeResets(MergeResets(a, b), c), MergeResets(a, MergeResets(b, c));
    assert l.Keys == r.Keys;
  }

  function MergeAll(stored: Resets, incoming: seq<Resets>): Resets
    decreases incoming
  {
    if incoming == [] then stored else MergeAll(MergeResets(stored, incoming[0]), incoming[1..])
  }

  predicate Seen(stored: Resets, incoming: seq<Resets>, key: string, at: Option<real>) {
    (key in stored && stored[key] == at)
    || exists i | 0 <= i < |incoming| :: key in incoming[i] && incoming[i][key] == at
  }

  /**
    After any number of writes in any order a key holds the latest time ever written for it, and null
    only if none was.
   */
  lemma {:induction false} LatestSurvives(stored: Resets, incoming: seq<Resets>, key: string)
    ensures key in MergeAll(stored, incoming) <==> exists at :: Seen(stored, incoming, key, at)
    ensures key in MergeAll(stored, incoming) ==> Seen(stored, incoming, key, MergeAll(stored, incoming)[key])
    ensures forall at | Seen(stored, incoming, key, at) && at.Some? ::
              key in MergeAll(stored, incoming) && MergeAll(stored, incoming)[key].Some?
              && MergeAll(stored, incoming)[key].value >= at.value
    decreases incoming
  {
    if incoming == [] {
      assert key in stored ==> Seen(stored, incoming, key, stored[key]);
    } else {
      var first := MergeResets(stored, incoming[0]);
      LatestSurvives(first, incoming[1..], key);
      SeenFirst(stored, incoming, key);
    }
  }

  /** A time is seen in the first map or later ones; merging the first keeps the later of its two. */
  lemma SeenFirst(stored: Resets, incoming: seq<Resets>, key: string)
    requires incoming != []
    ensures var first := MergeResets(stored, incoming[0]);
            (forall at | Seen(first, incoming[1..], key, at) :: Seen(stored, incoming, key, at))
            && forall at | Seen(stored, incoming, key, at) ::
                 exists b :: Seen(first, incoming[1..], key, b) && (at.Some? ==> b.Some? && b.value >= at.value)
  {
    var first := MergeResets(stored, incoming[0]);
    forall at | Seen(first, incoming[1..], key, at) ensures Seen(stored, incoming, key, at) {
      if !(key in first && first[key] == at) {
        var i :| 0 <= i < |incoming| - 1 && key in incoming[1..][i] && incoming[1..][i][key] == at;
        assert incoming[i + 1] == incoming[1..][i];
      }
    }
    forall at | Seen(stored, incoming, key, at)
      ensures exists b :: Seen(first, incoming[1..], key, b) && (at.Some? ==> b.Some? && b.value >= at.value) {
      if (key in stored && stored[key] == at) || (key in incoming[0] && incoming[0][key] == at) {
        assert Seen(first, incoming[1..], key, first[key]);
      } else {
        var i :| 0 <= i < |incoming| && key in incoming[i] && incoming[i][key] == at;
        assert incoming[1..][i - 1] == incoming[i];
        assert Seen(first, incoming[1..], key, at);
      }
    }
  }

  // ----- Request counts ---------------------------------------------------------

  datatype Counts = Counts(day: int, claude: nat, gemini: nat)

  function Larger(a: nat, b: nat): nat {
    if a >= b then a else b
  }

  /** `laterCounts`. */
  function LaterCounts(a: Option<Counts>, b: Option<Counts>): Option<Counts> {
    if a.None? then b
    else if b.None? then a
    else if a.value.day != b.value.day then (if a.value.day > b.value.day then a else b)
    else Some(Counts(a.value.day, Larger(a.value.claude, b.value.claude), Larger(a.value.gemini, b.value.gemini)))
  }

  /** Copies of a counter that only grows within a day can be merged in any order. */
  lemma CountsJoin(a: Option<Counts>, b: Option<Counts>, c: Option<Counts>)
    ensures LaterCounts(a, b) == LaterCounts(b, a) && LaterCounts(a, a) == a
    ensures LaterCounts(LaterCounts(a, b), c) == LaterCounts(a, LaterCounts(b, c))
  {
  }

  // ----- Coalescing ---------------------------------------------------------------

  function LaterUse(a: Option<real>, b: real): Option<real> {
    if a.None? then Some(b) else Some(Max(a.value, b))
  }

  /** One change, queued: it replaces what was queued for the same field. */
  function Queued(w: Write, c: Change): Write {
    match c
    case RateLimit(key, rate) => w.(rates := w.rates[key := rate])
    case Cool(value) => w.(cooldown := Some(value))
    case Switch(reason) => w.(switchReason := Some(reason))
    case Use(at) => w.(lastUsed := LaterUse(w.lastUsed, at))
  }

  /** A burst of changes as one write. */
  function Coalesce(cs: seq<Change>): Write {
    if cs == [] then NOTHING else Queued(Coalesce(cs[..|cs| - 1]), cs[|cs| - 1])
  }

  /** `requeueRowWrite`: a failed write goes back behind what was queued since. */
  function Requeued(failed: Write, newer: Write): Write {
    Write(failed.rates + newer.rates,
          if newer.cooldown.Some? then newer.cooldown else failed.cooldown,
          if newer.switchReason.Some? then newer.switchReason else failed.switchReason,
          if failed.lastUsed.Some? then LaterUse(newer.lastUsed, failed.lastUsed.value) else newer.lastUsed)
  }

  lemma CoalesceStep(cs: seq<Change>)
    ensures Coalesce(cs) == if cs == [] then NOTHING else Queued(Coalesce(cs[..|cs| - 1]), cs[|cs| - 1])
  {
  }

  lemma RequeueOne(failed: Write, newer: Write, c: Change)
    ensures Requeued(failed, Queued(newer, c)) == Queued(Requeued(failed, newer), c)
  {
    match c
    case RateLimit(key, rate) =>
      assert failed.rates + newer.rates[key := rate] == (failed.rates + newer.rates)[key := rate];
    case _ =>
  }

  /**
    Requeueing a write that met contention gives the write that coalesces its changes with the ones that
    wait, its own first.
   */
  lemma {:induction false} RequeueKeepsOrder(cs: seq<Change>, ds: seq<Change>)
    ensures Requeued(Coalesce(cs), Coalesce(ds)) == Coalesce(cs + ds)
    decreases ds
  {
    hide Coalesce, Queued;
    CoalesceStep(ds);
    CoalesceStep(cs + ds);
    if ds == [] {
      assert cs + ds == cs;
      assert Coalesce(cs).rates + map[] == Coalesce(cs).rates;
    } else {
      var n := |ds| - 1;
      RequeueKeepsOrder(cs, ds[..n]);
      assert (cs + ds)[..|cs + ds| - 1] == cs + ds[..n];
      assert (cs + ds)[|cs + ds| - 1] == ds[n];
      RequeueOne(Coalesce(cs), Coalesce(ds[..n]), ds[n]);
    }
  }

  // ----- A row's changes, from the queue to the row ---------------------------

  /** What became of the changes of one row: a dispatched write carries all that waited. */
  datatype Log = Log(queued: seq<Change>,            // all of them, in their order
                     waiting: seq<Change>,
                     inFlight: seq<seq<Change>>,     // dispatched and not settled, in that order
                     applied: seq<seq<Change>>,      // committed, in that order
                     failed: seq<seq<Change>>)       // given up: refused, or of unknown outcome

  const NEW_ROW := Log([], [], [], [], [])

  datatype Event = Queues(change: Change) | Dispatches | Commits(i: nat) | Contends(i: nat) | Fails(i: nat)

  function Without<T>(s: seq<T>, i: nat): seq<T>
    requires i < |s|
  {
    s[..i] + s[i + 1..]
  }

  /** A save need not wait for the last one to settle, and of two writes either may settle first. */
  function Step(l: Log, e: Event): Log {
    match e
    case Queues(c) => l.(queued := l.queued + [c], waiting := l.waiting + [c])
    case Dispatches => if l.waiting == [] then l else l.(inFlight := l.inFlight + [l.waiting], waiting := [])
    case Commits(i) =>
      if i >= |l.inFlight| then l
      else l.(inFlight := Without(l.inFlight, i), applied := l.applied + [l.inFlight[i]])
    case Contends(i) =>
      if i >= |l.inFlight| then l
      else l.(inFlight := Without(l.inFlight, i), waiting := l.inFlight[i] + l.waiting)
    case Fails(i) =>
      if i >= |l.inFlight| then l
      else l.(inFlight := Without(l.inFlight, i), failed := l.failed + [l.inFlight[i]])
  }

  function Run(l: Log, es: seq<Event>): Log
    decreases es
  {
    if es == [] then l else Run(Step(l, es[0]), es[1..])
  }

  function Flat(batches: seq<seq<Change>>): seq<Change> {
    if batches == [] then [] else batches[0] + Flat(batches[1..])
  }

  lemma {:induction false} FlatJoins(a: seq<seq<Change>>, b: seq<seq<Change>>)
    ensures Flat(a + b) == Flat(a) + Flat(b)
    decreases a
  {
    if a == [] {
      assert a + b == b;
    } else {
      FlatJoins(a[1..], b);
      assert (a + b)[1..] == a[1..] + b;
    }
  }

  lemma FlatOfOne(batch: seq<Change>)
    ensures Flat([batch]) == batch
  {
    assert [batch][1..] == [];
    assert batch + [] == batch;
  }

  function Count(batches: seq<seq<Change>>): multiset<Change> {
    multiset(Flat(batches))
  }

  lemma CountJoins(a: seq<seq<Change>>, b: seq<seq<Change>>)
    ensures Count(a + b) == Count(a) + Count(b)
  {
    FlatJoins(a, b);
  }

  lemma CountAppends(batches: seq<seq<Change>>, batch: seq<Change>)
    ensures Count(batches + [batch]) == Count(batches) + multiset(batch)
  {
    FlatOfOne(batch);
    CountJoins(batches, [batch]);
  }

  lemma CountWithout(batches: seq<seq<Change>>, i: nat)
    requires i < |batches|
    ensures Count(batches) == Count(Without(batches, i)) + multiset(batches[i])
  {
    hide Count;
    CountJoins(batches[..i], batches[i + 1..]);
    CountAppends(batches[..i], batches[i]);
    CountJoins(batches[..i] + [batches[i]], batches[i + 1..]);
    assert batches == batches[..i] + [batches[i]] + batches[i + 1..];
  }

  predicate Kept(l: Log) {
    multiset(l.queued) == Count(l.applied) + Count(l.inFlight) + multiset(l.waiting) + Count(l.failed)
  }

  lemma StepKeeps(l: Log, e: Event)
    requires Kept(l)
    ensures Kept(Step(l, e))
  {
    hide Without, Count;
    match e
    case Queues(_) =>
    case Dispatches =>
      CountAppends(l.inFlight, l.waiting);
    case Commits(i) =>
      if i < |l.inFlight| {
        CountWithout(l.inFlight, i);
        CountAppends(l.applied, l.inFlight[i]);
      }
    case Contends(i) =>
      if i < |l.inFlight| {
        CountWithout(l.inFlight, i);
      }
    case Fails(i) =>
      if i < |l.inFlight| {
        CountWithout(l.inFlight, i);
        CountAppends(l.failed, l.inFlight[i]);
      }
  }

  /**
    In every run, in whatever order writes settle, each change is in one place: contention loses none and
    has none written twice.
   */
  lemma {:induction false} NothingIsLost(l: Log, es: seq<Event>)
    requires Kept(l)
    ensures Kept(Run(l, es))
    decreases es
  {
    hide Kept, Step;
    if es != [] {
      StepKeeps(l, es[0]);
      NothingIsLost(Step(l, es[0]), es[1..]);
    }
  }

  /** The changes reach the row in their order. */
  predicate InOrder(l: Log) {
    l.queued == Flat(l.applied) + Flat(l.inFlight) + l.waiting
  }

  /** Of the writes in flight the first commits, or the last is requeued. */
  predicate InTurn(l: Log, e: Event) {
    match e
    case Commits(i) => i == 0
    case Contends(i) => i + 1 == |l.inFlight|
    case Fails(_) => false
    case _ => true
  }

  predicate AllInTurn(l: Log, es: seq<Event>)
    decreases es
  {
    es == [] || (InTurn(l, es[0]) && AllInTurn(Step(l, es[0]), es[1..]))
  }

  lemma DispatchInOrder(l: Log)
    requires InOrder(l)
    ensures InOrder(Step(l, Dispatches))
  {
    hide Flat;
    FlatJoins(l.inFlight, [l.waiting]);
    FlatOfOne(l.waiting);
    var applied, inFlight, waiting := Flat(l.applied), Flat(l.inFlight), l.waiting;
    assert applied + inFlight + waiting == applied + (inFlight + waiting) + [];
  }

  lemma CommitInOrder(l: Log)
    requires InOrder(l) && l.inFlight != []
    ensures InOrder(Step(l, Commits(0)))
  {
    FlatJoins(l.applied, [l.inFlight[0]]);
    FlatOfOne(l.inFlight[0]);
    hide Flat;
    var applied, first, rest := Flat(l.applied), l.inFlight[0], l.inFlight[1..];
    assert Without(l.inFlight, 0) == rest;
    assert Flat(l.inFlight) == first + Flat(rest) by { FlatFirst(l.inFlight); }
    assert applied + (first + Flat(rest)) + l.waiting == (applied + first) + Flat(rest) + l.waiting;
  }

  lemma FlatFirst(batches: seq<seq<Change>>)
    requires batches != []
    ensures Flat(batches) == batches[0] + Flat(batches[1..])
  {
  }

  lemma ContendInOrder(l: Log)
    requires InOrder(l) && l.inFlight != []
    ensures InOrder(Step(l, Contends(|l.inFlight| - 1)))
  {
    hide Flat;
    var n := |l.inFlight| - 1;
    var applied, last := Flat(l.applied), l.inFlight[n];
    FlatJoins(l.inFlight[..n], [last]);
    FlatOfOne(last);
    assert l.inFlight == l.inFlight[..n] + [last];
    assert Without(l.inFlight, n) == l.inFlight[..n];
    assert applied + (Flat(l.inFlight[..n]) + last) + l.waiting == applied + Flat(l.inFlight[..n]) + (last + l.waiting);
  }

  lemma StepInOrder(l: Log, e: Event)
    requires InOrder(l) && InTurn(l, e)
    ensures InOrder(Step(l, e))
  {
    hide Flat;
    match e
    case Queues(_) =>
    case Dispatches => DispatchInOrder(l);
    case Commits(i) =>
      if l.inFlight != [] {
        CommitInOrder(l);
      }
    case Contends(i) =>
      ContendInOrder(l);
    case Fails(_) =>
  }

  /**
    As long as no write commits before an earlier one of its row, none is requeued with a later one in
    flight and none is given up, nothing is overtaken: what was written, what is in flight and what waits
    follow one another.
   */
  lemma {:induction false} OrderIsKept(l: Log, es: seq<Event>)
    requires InOrder(l) && AllInTurn(l, es)
    ensures InOrder(Run(l, es))
    decreases es
  {
    hide InOrder, Step, InTurn;
    if es != [] {
      StepInOrder(l, es[0]);
      OrderIsKept(Step(l, es[0]), es[1..]);
    }
  }

  /** Row writes waiting for the next save. */
  class WriteQueue {
    var pending: map<string, Write>
    ghost var logs: map<string, Log>

    /** Each row's pending write coalesces exactly its waiting changes. */
    ghost predicate Valid()
      reads this
    {
      (forall row | row in pending :: row in logs && pending[row] == Coalesce(logs[row].waiting))
      && forall row | row in logs && logs[row].waiting != [] :: row in pending
    }

    ghost function LogOf(row: string): Log
      reads this
    {
      if row in logs then logs[row] else NEW_ROW
    }

    constructor ()
      ensures Valid() && logs == map[]
    {
      pending, logs := map[], map[];
    }

    /** `queueRowWrite` for a loaded account: the change waits behind its row's others. */
    method Queue(row: string, change: Change)
      requires Valid()
      modifies this
      ensures Valid() && logs == old(logs)[row := Step(old(LogOf(row)), Queues(change))]
    {
      var w := if row in pending then pending[row] else NOTHING;
      ghost var changes := LogOf(row).waiting;
      assert w == Coalesce(changes);
      assert (changes + [change])[..|changes|] == changes;
      assert Coalesce(changes + [change]) == Queued(w, change);
      pending := pending[row := Queued(w, change)];
      logs := logs[row := Step(LogOf(row), Queues(change))];
    }

    /** Takes every row's write for a save; nothing waits after, and each write is in flight. */
    method Dispatch() returns (writes: map<string, Write>)
      requires Valid()
      modifies this
      ensures Valid() && logs.Keys == old(logs).Keys
      ensures forall row | row in logs :: logs[row] == Step(old(logs)[row], Dispatches)
      ensures forall row | row in old(logs) && old(logs)[row].waiting != [] ::
                row in writes && writes[row] == Coalesce(old(logs)[row].waiting)
      ensures forall row | row in writes :: row in old(logs)
    {
      writes := pending;
      pending := map[];
      logs := map row | row in logs :: Step(logs[row], Dispatches);
    }

    /** A write in flight succeeded, or failed for good: the queue is not told. */
    ghost method Settle(row: string, e: Event)
      requires Valid() && row in logs && (e.Commits? || e.Fails?)
      modifies this
      ensures Valid() && logs == old(logs)[row := Step(old(LogOf(row)), e)]
    {
      logs := logs[row := Step(LogOf(row), e)];
    }

    /** `requeueRowWrite`: a write that met contention waits again, ahead of the changes that wait now. */
    method Requeue(row: string, failed: Write, ghost i: nat)
      requires Valid() && row in logs && i < |logs[row].inFlight| && failed == Coalesce(logs[row].inFlight[i])
      modifies this
      ensures Valid() && logs == old(logs)[row := Step(old(LogOf(row)), Contends(i))]
    {
      hide Coalesce, Queued;
      ghost var changes, later := logs[row].inFlight[i], logs[row].waiting;
      RequeueKeepsOrder(changes, later);
      var merged := failed;
      if row in pending {
        merged := Merged(failed, pending[row]);
      } else {
        assert changes + later == changes;
      }
      assert merged == Coalesce(changes + later);
      pending := pending[row := merged];
      logs := logs[row := Step(logs[row], Contends(i))];
    }
  }

  /** The merging of a failed write into the row's newer one. */
  method Merged(failed: Write, newer: Write) returns (w: Write)
    ensures w == Requeued(failed, newer)
  {
    var rates := newer.rates;
    var left := failed.rates.Keys;
    while left != {}
      invariant left <= failed.rates.Keys
      invariant rates.Keys == newer.rates.Keys + (failed.rates.Keys - left)
      invariant forall k | k in rates :: rates[k] == if k in newer.rates then newer.rates[k] else failed.rates[k]
      decreases left
    {
      var k :| k in left;
      if k !in rates {
        rates := rates[k := failed.rates[k]];
      }
      left := left - {k};
    }
    assert rates == failed.rates + newer.rates;
    var lastUsed :=
      if failed.lastUsed.Some? && (newer.lastUsed.None? || failed.lastUsed.value > newer.lastUsed.value)
      then failed.lastUsed else newer.lastUsed;
    w := Write(rates,
               if newer.cooldown.None? then failed.cooldown else newer.cooldown,
               if newer.switchReason.None? then failed.switchReason else newer.switchReason,
               lastUsed);
  }

  // ----- Applying -------------------------------------------------------------------

  function ResetsOf(rates: map<string, Rate>): Resets {
    map k | k in rates && rates[k].Reset? :: Some(rates[k].at)
  }

  function ClearsOf(rates: map<string, Rate>): set<string> {
    set k | k in rates && rates[k].Clear?
  }

  /** `applyPendingRowWrite`, to the metadata read under the row's lock. */
  function Apply(m: Metadata, w: Write): Metadata {
    Metadata(MergeResets(m.resets, ResetsOf(w.rates)) - ClearsOf(w.rates),
             if w.cooldown.Some? then w.cooldown.value else m.cooldown,
             if w.switchReason.Some? then w.switchReason else m.switchReason,
             if w.lastUsed.Some? then Max(m.lastUsed, w.lastUsed.value) else m.lastUsed)
  }

  /** The same write may be applied again, as when its first outcome is unknown. */
  lemma AppliesOnce(m: Metadata, w: Write)
    ensures Apply(Apply(m, w), w) == Apply(m, w)
  {
    assert Apply(Apply(m, w), w).resets == Apply(m, w).resets;
  }

  /** Every change written on its own, in turn. */
  function ApplyEach(m: Metadata, cs: seq<Change>): Metadata {
    if cs == [] then m else Apply(ApplyEach(m, cs[..|cs| - 1]), Queued(NOTHING, cs[|cs| - 1]))
  }

  /** The last rate a burst queues for a key. */
  function LastRate(cs: seq<Change>, key: string): Option<Rate> {
    if cs == [] then None
    else
      var c := cs[|cs| - 1];
      if c.RateLimit? && c.key == key then Some(c.rate) else LastRate(cs[..|cs| - 1], key)
  }

  /** What a run of single writes leaves under a key. */
  function RateEach(prior: Option<Option<real>>, cs: seq<Change>, key: string): Option<Option<real>> {
    if cs == [] then prior
    else
      var c := cs[|cs| - 1];
      var r := RateEach(prior, cs[..|cs| - 1], key);
      if !c.RateLimit? || c.key != key then r
      else if c.rate.Clear? then None
      else Some(Later(r.GetOr(None), Some(c.rate.at)))
  }

  function Held(m: Metadata, key: string): Option<Option<real>> {
    if key in m.resets then Some(m.resets[key]) else None
  }

  /** What one coalesced write leaves under a key. */
  function RateOnce(prior: Option<Option<real>>, last: Option<Rate>): Option<Option<real>> {
    match last
    case None => prior
    case Some(Clear) => None
    case Some(Reset(at)) => Some(Later(prior.GetOr(None), Some(at)))
  }

  lemma OnceRate(m: Metadata, w: Write, key: string)
    ensures Held(Apply(m, w), key) == RateOnce(Held(m, key), if key in w.rates then Some(w.rates[key]) else None)
  {
  }

  lemma {:induction false} EachRate(m: Metadata, cs: seq<Change>, key: string)
    ensures Held(ApplyEach(m, cs), key) == RateEach(Held(m, key), cs, key)
    decreases |cs|
  {
    hide Apply, Held;
    if cs != [] {
      var c := cs[|cs| - 1];
      EachRate(m, cs[..|cs| - 1], key);
      OnceRate(ApplyEach(m, cs[..|cs| - 1]), Queued(NOTHING, c), key);
    }
  }

  lemma {:induction false} CoalescedRate(cs: seq<Change>, key: string)
    ensures LastRate(cs, key) == if key in Coalesce(cs).rates then Some(Coalesce(cs).rates[key]) else None
  {
    if cs != [] {
      CoalescedRate(cs[..|cs| - 1], key);
    }
  }

  /** Where a key's last change is a reset, every change of it is one, and to no later time. */
  predicate Settles(cs: seq<Change>, key: string) {
    var last := LastRate(cs, key);
    last.Some? && last.value.Reset? ==>
      forall i | 0 <= i < |cs| && cs[i].RateLimit? && cs[i].key == key ::
        cs[i].rate.Reset? && cs[i].rate.at <= last.value.at
  }

  lemma {:induction false} NoChange(prior: Option<Option<real>>, cs: seq<Change>, key: string)
    requires LastRate(cs, key).None?
    ensures RateEach(prior, cs, key) == prior
  {
    if cs != [] {
      NoChange(prior, cs[..|cs| - 1], key);
    }
  }

  lemma {:induction false} ClearedLast(prior: Option<Option<real>>, cs: seq<Change>, key: string)
    requires LastRate(cs, key) == Some(Clear)
    ensures RateEach(prior, cs, key) == None
  {
    if !(cs[|cs| - 1].RateLimit? && cs[|cs| - 1].key == key) {
      ClearedLast(prior, cs[..|cs| - 1], key);
    }
  }

  predicate AllResetsUpTo(cs: seq<Change>, key: string, at: real) {
    forall i | 0 <= i < |cs| && cs[i].RateLimit? && cs[i].key == key :: cs[i].rate.Reset? && cs[i].rate.at <= at
  }

  /** Resets up to a time leave what was there, or at most that time. */
  lemma {:induction false} ResetsUpTo(prior: Option<Option<real>>, cs: seq<Change>, key: string, at: real)
    requires AllResetsUpTo(cs, key, at)
    ensures Later(RateEach(prior, cs, key).GetOr(None), Some(at)) == Later(prior.GetOr(None), Some(at))
  {
    if cs != [] {
      ResetsUpTo(prior, cs[..|cs| - 1], key, at);
    }
  }

  lemma {:induction false} SettledRate(prior: Option<Option<real>>, cs: seq<Change>, key: string, at: real)
    requires LastRate(cs, key) == Some(Reset(at)) && AllResetsUpTo(cs, key, at)
    ensures RateEach(prior, cs, key) == Some(Later(prior.GetOr(None), Some(at)))
  {
    var n := |cs| - 1;
    if cs[n].RateLimit? && cs[n].key == key {
      ResetsUpTo(prior, cs[..n], key, at);
    } else {
      SettledRate(prior, cs[..n], key, at);
    }
  }

  predicate ClearsKey(cs: seq<Change>, key: string) {
    RateLimit(key, Clear) in cs
  }

  /** Past a clear nothing depends on what was stored before. */
  lemma {:induction false} ClearForgets(p: Option<Option<real>>, q: Option<Option<real>>, cs: seq<Change>, key: string)
    requires ClearsKey(cs, key)
    ensures RateEach(p, cs, key) == RateEach(q, cs, key)
  {
    var n := |cs| - 1;
    if cs[n] != RateLimit(key, Clear) {
      ClearForgets(p, q, cs[..n], key);
    }
  }

  lemma {:induction false} ResetsStay(prior: Option<Option<real>>, cs: seq<Change>, key: string, i: nat)
    requires !ClearsKey(cs, key) && i < |cs| && cs[i].RateLimit? && cs[i].key == key && cs[i].rate.Reset?
    ensures var r := RateEach(prior, cs, key); r.Some? && r.value.Some? && r.value.value >= cs[i].rate.at
    decreases |cs|
  {
    var n := |cs| - 1;
    assert cs[n] in cs;
    if i < n {
      ResetsStay(prior, cs[..n], key, i);
    }
  }

  predicate RateExact(cs: seq<Change>, key: string, prior: Option<Option<real>>) {
    RateEach(prior, cs, key) == RateOnce(prior, LastRate(cs, key))
  }

  /**
    Per key, one coalesced write does what the single writes would, whatever is stored, exactly where
    the key settles.
   */
  lemma RateExactIff(cs: seq<Change>, key: string)
    ensures (forall prior :: RateExact(cs, key, prior)) <==> Settles(cs, key)
  {
    var last := LastRate(cs, key);
    if Settles(cs, key) {
      forall prior ensures RateExact(cs, key, prior) {
        match last
        case None => NoChange(prior, cs, key);
        case Some(Clear) => ClearedLast(prior, cs, key);
        case Some(Reset(at)) => SettledRate(prior, cs, key, at);
      }
    } else {
      var i :| 0 <= i < |cs| && cs[i].RateLimit? && cs[i].key == key
               && !(cs[i].rate.Reset? && cs[i].rate.at <= last.value.at);
      if ClearsKey(cs, key) {
        ClearForgets(None, Some(Some(last.value.at + 1.0)), cs, key);
        assert !(RateExact(cs, key, None) && RateExact(cs, key, Some(Some(last.value.at + 1.0))));
      } else {
        assert cs[i] in cs;
        ResetsStay(None, cs, key, i);
        assert !RateExact(cs, key, None);
      }
    }
  }

  /** The other fields of a burst coalesce exactly. */
  lemma {:induction false} OtherFieldsExact(m: Metadata, cs: seq<Change>)
    ensures var one := Apply(m, Coalesce(cs));
            var each := ApplyEach(m, cs);
            one.cooldown == each.cooldown && one.switchReason == each.switchReason && one.lastUsed == each.lastUsed
    decreases |cs|
  {
    hide MergeResets, ResetsOf, ClearsOf;
    if cs != [] {
      OtherFieldsExact(m, cs[..|cs| - 1]);
    }
  }

  predicate CoalescesExactly(m: Metadata, cs: seq<Change>) {
    Apply(m, Coalesce(cs)) == ApplyEach(m, cs)
  }

  lemma SameHeld(a: Metadata, b: Metadata)
    requires forall key :: Held(a, key) == Held(b, key)
    ensures a.resets == b.resets
  {
    forall key ensures key in a.resets <==> key in b.resets {
      assert Held(a, key) == Held(b, key);
    }
    forall key | key in a.resets ensures a.resets[key] == b.resets[key] {
      assert Held(a, key) == Held(b, key);
    }
  }

  lemma HeldByBoth(m: Metadata, cs: seq<Change>, key: string)
    ensures Held(Apply(m, Coalesce(cs)), key) == RateOnce(Held(m, key), LastRate(cs, key))
    ensures Held(ApplyEach(m, cs), key) == RateEach(Held(m, key), cs, key)
  {
    OnceRate(m, Coalesce(cs), key);
    CoalescedRate(cs, key);
    EachRate(m, cs, key);
  }

  /**
    A burst may be written as one exactly where no key's reset follows a clear or a later reset of it: a
    single write keeps the later of the stored and the last queued time.
   */
  lemma CoalescingExactIff(cs: seq<Change>)
    ensures (forall m :: CoalescesExactly(m, cs)) <==> forall key :: Settles(cs, key)
  {
    if forall key :: Settles(cs, key) {
      forall m ensures CoalescesExactly(m, cs) {
        SettledCoalesces(m, cs);
      }
    } else {
      var key :| !Settles(cs, key);
      RateExactIff(cs, key);
      var prior :| !RateExact(cs, key, prior);
      var m := Metadata(if prior.Some? then map[key := prior.value] else map[], None, None, 0.0);
      HeldByBoth(m, cs, key);
      assert Held(m, key) == prior;
      assert !CoalescesExactly(m, cs);
    }
  }

  lemma SettledCoalesces(m: Metadata, cs: seq<Change>)
    requires forall key :: Settles(cs, key)
    ensures CoalescesExactly(m, cs)
  {
    hide Apply, ApplyEach, Settles, Held;
    forall key ensures Held(Apply(m, Coalesce(cs)), key) == Held(ApplyEach(m, cs), key) {
      HeldByBoth(m, cs, key);
      RateExactIff(cs, key);
      assert Settles(cs, key) && RateExact(cs, key, Held(m, key));
    }
    SameHeld(Apply(m, Coalesce(cs)), ApplyEach(m, cs));
    OtherFieldsExact(m, cs);
  }

  // ----- Overtaken writes ----------------------------------------------------------

  /** A row's metadata after its committed writes. */
  function Stored(m: Metadata, applied: seq<seq<Change>>): Metadata {
    if applied == [] then m
    else Apply(Stored(m, applied[..|applied| - 1]), Coalesce(applied[|applied| - 1]))
  }

  /** Two writes that agree wherever both touch one field; two resets of a key always do, a reset and a clear never. */
  predicate Agree(a: Write, b: Write) {
    (a.cooldown.Some? && b.cooldown.Some? ==> a.cooldown == b.cooldown)
    && (a.switchReason.Some? && b.switchReason.Some? ==> a.switchReason == b.switchReason)
    && forall key | key in a.rates && key in b.rates :: a.rates[key].Clear? == b.rates[key].Clear?
  }

  predicate Commute(m: Metadata, a: Write, b: Write) {
    Apply(Apply(m, a), b) == Apply(Apply(m, b), a)
  }

  lemma AgreeingCommute(m: Metadata, a: Write, b: Write)
    requires Agree(a, b)
    ensures Commute(m, a, b)
  {
    var ab, ba := Apply(Apply(m, a), b), Apply(Apply(m, b), a);
    forall key ensures Held(ab, key) == Held(ba, key) {
      OnceRate(m, a, key);
      OnceRate(Apply(m, a), b, key);
      OnceRate(m, b, key);
      OnceRate(Apply(m, b), a, key);
    }
    SameHeld(ab, ba);
  }

  lemma DisagreeingDoNot(a: Write, b: Write)
    requires !Agree(a, b)
    ensures !Commute(Metadata(map[], None, None, 0.0), a, b)
  {
    var m := Metadata(map[], None, None, 0.0);
    var ab, ba := Apply(Apply(m, a), b), Apply(Apply(m, b), a);
    if key :| key in a.rates && key in b.rates && a.rates[key].Clear? != b.rates[key].Clear? {
      OnceRate(m, a, key);
      OnceRate(Apply(m, a), b, key);
      OnceRate(m, b, key);
      OnceRate(Apply(m, b), a, key);
      assert Held(ab, key) != Held(ba, key);
    }
  }

  /** The first of two writes in flight meets contention, the second commits, and the first is then written. */
  const OVERTAKING: seq<Event> := [Contends(0), Commits(0), Dispatches, Commits(0)]

  lemma RunsFour(l: Log, es: seq<Event>)
    requires |es| == 4
    ensures Run(l, es) == Step(Step(Step(Step(l, es[0]), es[1]), es[2]), es[3])
  {
    hide Step;
    assert es[1..][0] == es[1] && es[1..][1..] == es[2..] && es[2..][1..] == es[3..] && es[3..][1..] == [];
    var l1 := Step(l, es[0]);
    var l2 := Step(l1, es[1]);
    var l3 := Step(l2, es[2]);
    assert Run(l3, es[3..]) == Run(Step(l3, es[3]), []);
    assert Run(l2, es[2..]) == Run(l3, es[3..]);
    assert Run(l1, es[1..]) == Run(l2, es[2..]);
  }

  lemma OvertakingRun(queued: seq<Change>, cs: seq<Change>, ds: seq<Change>)
    requires cs != []
    ensures Run(Log(queued, [], [cs, ds], [], []), OVERTAKING) == Log(queued, [], [], [ds, cs], [])
  {
    var l := Log(queued, [], [cs, ds], [], []);
    RunsFour(l, OVERTAKING);
    assert cs + [] == cs;
    assert Step(l, Contends(0)) == Log(queued, cs, [ds], [], []);
  }

  lemma StoredTwo(m: Metadata, cs: seq<Change>, ds: seq<Change>)
    ensures Stored(m, [cs, ds]) == Apply(Apply(m, Coalesce(cs)), Coalesce(ds))
  {
    assert [cs, ds][..1] == [cs] && [cs][..0] == [];
    assert Stored(m, [cs]) == Apply(Stored(m, []), Coalesce(cs));
  }

  predicate EndsAlike(m: Metadata, cs: seq<Change>, ds: seq<Change>) {
    Stored(m, Run(Log(cs + ds, [], [cs, ds], [], []), OVERTAKING).applied) == Stored(m, [cs, ds])
  }

  /**
    A write requeued with a later one of its row in flight is overtaken. Whatever the row holds it ends as
    if written in turn exactly where the two agree on every field both touch.
   */
  lemma OvertakenIff(cs: seq<Change>, ds: seq<Change>)
    requires cs != []
    ensures (forall m :: EndsAlike(m, cs, ds)) <==> Agree(Coalesce(cs), Coalesce(ds))
  {
    hide Apply, Coalesce, Agree;
    OvertakingRun(cs + ds, cs, ds);
    forall m ensures EndsAlike(m, cs, ds) <==> Commute(m, Coalesce(cs), Coalesce(ds)) {
      StoredTwo(m, cs, ds);
      StoredTwo(m, ds, cs);
    }
    if Agree(Coalesce(cs), Coalesce(ds)) {
      forall m ensures Commute(m, Coalesce(cs), Coalesce(ds)) {
        AgreeingCommute(m, Coalesce(cs), Coalesce(ds));
      }
    } else {
      DisagreeingDoNot(Coalesce(cs), Coalesce(ds));
    }
  }

  /** A cooldown queued, and then lifted: overtaken by its own lifting it is what the row is left with. */
  lemma CooldownReturns(m: Metadata, c: Cooldown)
    ensures var l := Run(NEW_ROW, [Queues(Cool(Some(c))), Dispatches, Queues(Cool(None)), Dispatches] + OVERTAKING);
            l.waiting == [] && l.inFlight == [] && l.queued == [Cool(Some(c)), Cool(None)]
            && Stored(m, l.applied).cooldown == Some(c)
  {
    var cs, ds := [Cool(Some(c))], [Cool(None)];
    var first := [Queues(Cool(Some(c))), Dispatches, Queues(Cool(None)), Dispatches];
    RunsFour(NEW_ROW, first);
    assert [] + cs == cs && [] + ds == ds && cs + ds == [Cool(Some(c)), Cool(None)];
    assert Run(NEW_ROW, first) == Log(cs + ds, [], [cs, ds], [], []);
    RunJoins(NEW_ROW, first, OVERTAKING);
    OvertakingRun(cs + ds, cs, ds);
    StoredTwo(m, ds, cs);
    assert Coalesce(cs) == Queued(Coalesce([]), Cool(Some(c))) by {
      assert cs[..0] == [];
    }
  }

  lemma {:induction false} RunJoins(l: Log, first: seq<Event>, rest: seq<Event>)
    ensures Run(l, first + rest) == Run(Run(l, first), rest)
    decreases first
  {
    if first == [] {
      assert first + rest == rest;
    } else {
      RunJoins(Step(l, first[0]), first[1..], rest);
      assert (first + rest)[1..] == first[1..] + rest;
    }
  }
}
