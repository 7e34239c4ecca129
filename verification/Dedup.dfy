/**
  Which of several accounts with one email is kept. The pool-file loader
  (packages/core/src/account-storage.ts:200-256) and the migration
  (packages/core/src/account-migration.ts:563-580) each have their own loop; both are proved
  against the one declarative rule `Survives`.
 */
module Dedup {

  /** What the rule looks at; an account without an email has the empty one. */
  datatype Entry = Entry(email: string, lastUsed: real, addedAt: real)

  predicate Newer(a: Entry, b: Entry) {
    a.lastUsed > b.lastUsed || (a.lastUsed == b.lastUsed && a.addedAt > b.addedAt)
  }

  /** An entry stays unless a same-email entry is newer, or is as new and stands earlier. */
  predicate Survives(es: seq<Entry>, i: nat)
    requires i < |es|
  {
    es[i].email == ""
    || forall j | 0 <= j < |es| && es[j].email == es[i].email ::
         if j < i then Newer(es[i], es[j]) else !Newer(es[j], es[i])
  }

  /** The surviving positions below `n`, in order. */
  function Survivors(es: seq<Entry>, n: nat): (r: seq<nat>)
    requires n <= |es|
    ensures forall k | 0 <= k < |r| :: r[k] < n && Survives(es, r[k])
    ensures forall j, k | 0 <= j < k < |r| :: r[j] < r[k]
  {
    if n == 0 then []
    else Survivors(es, n - 1) + (if Survives(es, n - 1) then [n - 1] else [])
  }

  lemma {:induction false} SurvivorsComplete(es: seq<Entry>, n: nat, i: nat)
    requires i < n <= |es|
    ensures i in Survivors(es, n) <==> Survives(es, i)
  {
    if i < n - 1 {
      SurvivorsComplete(es, n - 1, i);
    }
  }

  /** `w` is the best position for `email` among the first `n`. */
  predicate Best(es: seq<Entry>, n: nat, email: string, w: nat)
    requires n <= |es|
  {
    w < n && es[w].email == email
    && forall j | 0 <= j < n && es[j].email == email ::
         if j < w then Newer(es[w], es[j]) else !Newer(es[j], es[w])
  }

  predicate BestSoFar(es: seq<Entry>, n: nat, best: map<string, nat>)
    requires n <= |es|
  {
    (forall e | e in best :: Best(es, n, e, best[e]))
    && forall j | 0 <= j < n :: es[j].email in best || es[j].email == ""
  }

  lemma BestMeansSurvives(es: seq<Entry>, best: map<string, nat>, i: nat)
    requires i < |es| && BestSoFar(es, |es|, best)
    ensures Survives(es, i) <==> es[i].email == "" || (es[i].email in best && best[es[i].email] == i)
  {
    if es[i].email != "" {
      var w := best[es[i].email];
      assert Best(es, |es|, es[i].email, w);
      if w != i {
        assert if w < i then !Newer(es[i], es[w]) else Newer(es[w], es[i]);
      }
    }
  }

  /**
    The loader's rule: remember the newest position of every email, keep those positions and the
    ones without an email, then collect them in input order.
   */
  method DeduplicateByEmail(es: seq<Entry>) returns (kept: seq<nat>)
    ensures kept == Survivors(es, |es|)
  {
    var newest: map<string, nat> := map[];
    var keep: set<nat> := {};
    for i := 0 to |es|
      invariant BestSoFar(es, i, newest) && "" !in newest
      invariant keep == set j | 0 <= j < i && es[j].email == ""
    {
      var e := es[i].email;
      if e == "" {
        keep := keep + {i};
      } else if e !in newest || Newer(es[i], es[newest[e]]) {
        newest := newest[e := i];
      }
    }
    kept := [];
    for i := 0 to |es|
      invariant kept == Survivors(es, i)
    {
      BestMeansSurvives(es, newest, i);
      if i in keep || i in newest.Values {
        assert es[i].email != "" ==> es[i].email in newest && newest[es[i].email] == i;
        kept := kept + [i];
      } else {
        assert es[i].email in newest ==> newest[es[i].email] in newest.Values;
      }
    }
  }

  /** The migration's rule: one pass collects a winner for each email, a filter keeps the winners. */
  method KeepWinners(es: seq<Entry>) returns (kept: seq<nat>)
    ensures kept == Survivors(es, |es|)
  {
    var winners: map<string, nat> := map[];
    for i := 0 to |es|
      invariant BestSoFar(es, i, winners) && "" !in winners
    {
      var e := es[i].email;
      if e != "" && (e !in winners || Newer(es[i], es[winners[e]])) {
        winners := winners[e := i];
      }
    }
    kept := [];
    for i := 0 to |es|
      invariant kept == Survivors(es, i)
    {
      BestMeansSurvives(es, winners, i);
      if es[i].email == "" || winners[es[i].email] == i {
        kept := kept + [i];
      }
    }
  }

  /** Nothing is dropped exactly when no two accounts share an email. */
  lemma NothingDroppedIff(es: seq<Entry>)
    ensures |Survivors(es, |es|)| == |es|
       <==> forall i, j | 0 <= i < j < |es| :: es[i].email == "" || es[i].email != es[j].email
  {
    KeptAllIff(es, |es|);
    if i, j :| 0 <= i < j < |es| && es[i].email != "" && es[i].email == es[j].email {
      assert !(Survives(es, i) && Survives(es, j));
    }
  }

  lemma {:induction false} KeptAllIff(es: seq<Entry>, n: nat)
    requires n <= |es|
    ensures |Survivors(es, n)| <= n
    ensures |Survivors(es, n)| == n <==> forall i | 0 <= i < n :: Survives(es, i)
  {
    if n > 0 {
      KeptAllIff(es, n - 1);
    }
  }

  /** Every email keeps exactly one account, a newest one. */
  lemma OneSurvivorPerEmail(es: seq<Entry>, i: nat)
    requires i < |es| && es[i].email != ""
    ensures exists w: nat ::
              w < |es| && es[w].email == es[i].email && w in Survivors(es, |es|) && !Newer(es[i], es[w])
              && forall v: nat | v < |es| && es[v].email == es[i].email :: v in Survivors(es, |es|) ==> v == w
  {
    var w := LastBest(es, |es|, es[i].email, i);
    forall v: nat | v < |es| && es[v].email == es[i].email
      ensures v in Survivors(es, |es|) <==> v == w
    {
      SurvivorsComplete(es, |es|, v);
      if v != w {
        assert if v < w then !Newer(es[v], es[w]) else Newer(es[w], es[v]) || !Newer(es[v], es[w]);
      }
    }
    assert w in Survivors(es, |es|);
  }

  lemma {:induction false} LastBest(es: seq<Entry>, n: nat, e: string, i: nat) returns (w: nat)
    requires i < n <= |es| && e != "" && es[i].email == e
    ensures Best(es, n, e, w)
    decreases n
  {
    if es[n - 1].email == e {
      if j :| 0 <= j < n - 1 && es[j].email == e {
        w := LastBest(es, n - 1, e, j);
        if Newer(es[n - 1], es[w]) {
          w := n - 1;
        }
      } else {
        w := n - 1;
      }
    } else {
      w := LastBest(es, n - 1, e, i);
    }
  }
}
