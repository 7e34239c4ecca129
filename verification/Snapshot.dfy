/**
  Reading a consistent snapshot of a store without locking it
  (packages/core/src/account-migration.ts:2292-2375).

  The disk is a history: what the config and state files hold at each instant, writers changing
  them at will. `rowsOf` and `settingsOf` decode what the pool store serves, or fail. Reads of the
  pool store see the two files at different instants.
 */
module Snapshots {
  import opened Text

  datatype Disk<C, S> = Disk(config: C, state: Option<S>)

  datatype Outcome<C, S, R, T> =
    | Snapshot(config: C, state: Option<S>, rows: R, settings: T)
    | Unreadable
    | Busy

  const ATTEMPTS := 3

  /** The instants of one attempt's reads, in order. */
  datatype Instants = Instants(config: nat, state: nat, rowsConfig: nat, rowsState: nat, settings: nat,
                               checkedConfig: nat, checkedState: nat)
  {
    predicate InOrder() {
      config <= state && state <= rowsConfig && state <= rowsState && state <= settings
      && rowsConfig <= checkedConfig && rowsState <= checkedConfig && settings <= checkedConfig
      && checkedConfig <= checkedState
    }
  }

  /** No write ever restores a file's earlier bytes: they change between two equal reads only if they never changed. */
  ghost predicate NeverRestores<C(!new), S(!new)>(h: nat -> Disk<C, S>) {
    forall i: nat, j: nat, k: nat | i <= j <= k ::
      (h(i).config == h(k).config ==> h(j).config == h(i).config)
      && (h(i).state == h(k).state ==> h(j).state == h(i).state)
  }

  /**
    What an attempt compares holds for all that it reads in between: a config read at `a` and again at `c`,
    and a state read at `b` and again at `d`, are what the disk holds at every instant from `b` to `c`.
   */
  ghost predicate Between<C(!new), S(!new)>(h: nat -> Disk<C, S>, a: nat, b: nat, i: nat, c: nat, d: nat) {
    a <= b <= i <= c <= d && h(a).config == h(c).config && h(b).state == h(d).state
    ==> h(i) == Disk(h(a).config, h(b).state)
  }

  ghost predicate Steady<C(!new), S(!new)>(h: nat -> Disk<C, S>) {
    forall a: nat, b: nat, i: nat, c: nat, d: nat :: Between(h, a, b, i, c, d)
  }

  lemma NeverRestoringIsSteady<C(!new), S(!new)>(h: nat -> Disk<C, S>)
    requires NeverRestores(h)
    ensures Steady(h)
  {
    forall a: nat, b: nat, i: nat, c: nat, d: nat ensures Between(h, a, b, i, c, d) {
      if a <= b <= i <= c <= d && h(a).config == h(c).config && h(b).state == h(d).state {
        assert h(i).config == h(a).config && h(i).state == h(b).state;
      }
    }
  }

  /** One attempt: `None` asks for another one. */
  function Attempt<C(==), S(==), R, T>(h: nat -> Disk<C, S>, rowsOf: (C, Option<S>) -> Option<R>,
                                       settingsOf: C -> Option<T>, at: Instants): Option<Outcome<C, S, R, T>>
  {
    var config := h(at.config).config;
    var state := h(at.state).state;
    var rows := rowsOf(h(at.rowsConfig).config, h(at.rowsState).state);
    var settings := settingsOf(h(at.settings).config);
    if config != h(at.checkedConfig).config || state != h(at.checkedState).state then None
    else if rows.None? || settings.None? then Some(Unreadable)
    else Some(Snapshot(config, state, rows.value, settings.value))
  }

  /** What a single instant's files decode to. */
  function SnapshotOf<C, S, R, T>(d: Disk<C, S>, rowsOf: (C, Option<S>) -> Option<R>,
                                  settingsOf: C -> Option<T>): Outcome<C, S, R, T>
  {
    var rows := rowsOf(d.config, d.state);
    var settings := settingsOf(d.config);
    if rows.None? || settings.None? then Unreadable else Snapshot(d.config, d.state, rows.value, settings.value)
  }

  /** An attempt that ends is the decoding of the one pair the disk held when its state was read. */
  lemma AttemptIsOneInstant<C(!new), S(!new), R, T>(h: nat -> Disk<C, S>, rowsOf: (C, Option<S>) -> Option<R>,
                                                    settingsOf: C -> Option<T>, at: Instants)
    requires Steady(h) && at.InOrder() && Attempt(h, rowsOf, settingsOf, at).Some?
    ensures Attempt(h, rowsOf, settingsOf, at).value == SnapshotOf(h(at.state), rowsOf, settingsOf)
  {
    assert Between(h, at.config, at.state, at.state, at.checkedConfig, at.checkedState);
    assert Between(h, at.config, at.state, at.rowsConfig, at.checkedConfig, at.checkedState);
    assert Between(h, at.config, at.state, at.settings, at.checkedConfig, at.checkedState);
    assert Between(h, at.config, at.state, at.rowsState, at.checkedConfig, at.checkedState);
  }

  /** Readers that lose nothing of what they are given. */
  function AllOf<C, S>(config: C, state: Option<S>): Option<(C, Option<S>)> {
    Some((config, state))
  }

  function ConfigOf<C>(config: C): Option<C> {
    Some(config)
  }

  /** What an attempt returns is not the decoding of any one pair of files. */
  ghost predicate Mixes<C(!new), S(!new)>(h: nat -> Disk<C, S>, at: Instants) {
    var tried := Attempt(h, AllOf<C, S>, ConfigOf<C>, at);
    at.InOrder() && tried.Some? && forall d: Disk<C, S> :: tried.value != SnapshotOf(d, AllOf<C, S>, ConfigOf<C>)
  }

  /** Some schedule of reads mixes files of different instants exactly on a history that is not steady. */
  lemma MixesIff<C(!new), S(!new)>(h: nat -> Disk<C, S>)
    ensures (exists at :: Mixes(h, at)) <==> !Steady(h)
  {
    if Steady(h) {
      forall at ensures !Mixes(h, at) {
        if at.InOrder() && Attempt(h, AllOf<C, S>, ConfigOf<C>, at).Some? {
          AttemptIsOneInstant(h, AllOf<C, S>, ConfigOf<C>, at);
        }
      }
    } else {
      var a: nat, b: nat, i: nat, c: nat, d: nat :| !Between(h, a, b, i, c, d);
      var at := Instants(a, b, i, i, i, c, d);
      assert Mixes(h, at);
    }
  }

  predicate Changed<C(==), S(==)>(h: nat -> Disk<C, S>, i: nat, j: nat) {
    i <= j && h(i) != h(j)
  }

  /** Busy only when the disk changed during every attempt. */
  method CurrentSuccessor<C(!new, ==), S(!new, ==), R, T>(h: nat -> Disk<C, S>, rowsOf: (C, Option<S>) -> Option<R>,
                                                         settingsOf: C -> Option<T>, at: seq<Instants>)
    returns (r: Outcome<C, S, R, T>)
    requires Steady(h) && |at| == ATTEMPTS && forall i | 0 <= i < |at| :: at[i].InOrder()
    ensures !r.Busy? ==>
              exists i :: 0 <= i < ATTEMPTS && r == SnapshotOf(h(at[i].state), rowsOf, settingsOf)
    ensures r.Busy? ==>
              forall i | 0 <= i < ATTEMPTS ::
                Changed(h, at[i].config, at[i].checkedConfig) || Changed(h, at[i].state, at[i].checkedState)
  {
    var attempt := 0;
    while attempt < ATTEMPTS
      invariant 0 <= attempt <= ATTEMPTS
      invariant forall i | 0 <= i < attempt ::
                  Changed(h, at[i].config, at[i].checkedConfig) || Changed(h, at[i].state, at[i].checkedState)
    {
      var tried := Attempt(h, rowsOf, settingsOf, at[attempt]);
      if tried.Some? {
        AttemptIsOneInstant(h, rowsOf, settingsOf, at[attempt]);
        return tried.value;
      }
      attempt := attempt + 1;
    }
    return Busy;
  }

  /** A state file that takes `other` for a moment and then its earlier bytes again. */
  function Restoring(once: string, other: string): nat -> Disk<string, string> {
    (t: nat) => Disk("config", Some(if t == 2 then other else once))
  }

  const READS := Instants(0, 1, 2, 2, 3, 4, 5)

  function StateRead(config: string, state: Option<string>): Option<Option<string>> {
    Some(state)
  }

  function SettingsRead(config: string): Option<string> {
    Some(config)
  }

  /** Where bytes are restored, the rows can come from a state other than the one the snapshot names. */
  lemma RestoredBytesMix(once: string, other: string)
    requires once != other
    ensures var h := Restoring(once, other);
            READS.InOrder() && !NeverRestores(h)
            && Attempt(h, StateRead, SettingsRead, READS) == Some(Snapshot("config", Some(once), Some(other), "config"))
    ensures forall d: Disk<string, string> ::
              SnapshotOf(d, StateRead, SettingsRead) != Snapshot("config", Some(once), Some(other), "config")
  {
    var h := Restoring(once, other);
    assert h(1).state == h(3).state && h(2).state != h(1).state;
  }
}
