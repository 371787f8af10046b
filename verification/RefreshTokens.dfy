/**
 * The in-memory registry of revoked refresh tokens. It forgets entries once they expire; the results say when
 * that forgetting cannot be observed. Every method runs under the store's lock, so a run of the store is a
 * sequence of events in the order in which the lock was taken.
 */
module RefreshTokens {
  import opened Wrappers

  datatype Event =
    | Revoked(fingerprint: string, expiresAt: int, now: int)
    | Asked(fingerprint: string, now: int)

  function Max(a: int, b: int): int { if a >= b then a else b }

  function Pruned(entries: map<string, int>, now: int): map<string, int> {
    map k | k in entries && entries[k] > now :: entries[k]
  }

  function Step(entries: map<string, int>, e: Event): map<string, int> {
    match e
    case Revoked(fingerprint, expiresAt, now) => Pruned(entries, now)[fingerprint := Max(expiresAt, now)]
    case Asked(_, now) => Pruned(entries, now)
  }

  /** The stored entries after a run of events. */
  function Run(log: seq<Event>): map<string, int> {
    if log == [] then map[] else Step(Run(log[..|log| - 1]), log[|log| - 1])
  }

  function Answer(entries: map<string, int>, fingerprint: string, now: int): bool {
    fingerprint in entries && entries[fingerprint] > now
  }

  class RefreshTokenStore {
    const fingerprint: string -> string
    var revoked: map<string, int>
    ghost var log: seq<Event>

    ghost predicate Valid() reads this { revoked == Run(log) }

    constructor (fingerprint: string -> string)
      ensures Valid() && log == [] && this.fingerprint == fingerprint
    {
      this.fingerprint := fingerprint;
      revoked, log := map[], [];
    }

    method Prune(now: int)
      modifies this`revoked
      ensures revoked == Pruned(old(revoked), now)
    {
      var expired := set k | k in revoked && revoked[k] <= now;
      while expired != {}
        invariant forall k <- expired :: k in old(revoked) && old(revoked)[k] <= now
        invariant forall k <- revoked :: k in old(revoked) && revoked[k] == old(revoked)[k]
        invariant forall k <- old(revoked) :: k in revoked || old(revoked)[k] <= now
        invariant forall k <- revoked :: revoked[k] > now || k in expired
        decreases expired
      {
        var key :| key in expired;
        revoked := revoked - {key};
        expired := expired - {key};
      }
    }

    method Revoke(token: string, expiresAt: int, now: int)
      requires Valid()
      modifies this
      ensures Valid()
      ensures log == old(log) + [Revoked(fingerprint(token), expiresAt, now)]
    {
      Prune(now);
      revoked := revoked[fingerprint(token) := Max(expiresAt, now)];
      log := log + [Revoked(fingerprint(token), expiresAt, now)];
      assert log[..|log| - 1] == old(log);
    }

    /** True exactly when the latest revocation of this fingerprint has not expired, pruning notwithstanding. */
    method IsRevoked(token: string, now: int) returns (answer: bool)
      requires Valid()
      modifies this
      ensures Valid()
      ensures log == old(log) + [Asked(fingerprint(token), now)]
      ensures answer <==> Answer(Run(log), fingerprint(token), now)
      ensures ClockNeverBack(log) ==> (answer <==> InForce(log, fingerprint(token), now))
    {
      Prune(now);
      answer := fingerprint(token) in revoked && revoked[fingerprint(token)] > now;
      log := log + [Asked(fingerprint(token), now)];
      assert log[..|log| - 1] == old(log);
      if ClockNeverBack(log) {
        AnsweredExactly(log, fingerprint(token), now);
      }
    }
  }

  // ---------------------------------------------------------------------------------------------
  // The unpruned history
  // ---------------------------------------------------------------------------------------------

  /** The expiry that the most recent revocation of the fingerprint asked for. */
  function LastExpiry(log: seq<Event>, fingerprint: string): Option<int> {
    if log == [] then None
    else
      var e := log[|log| - 1];
      if e.Revoked? && e.fingerprint == fingerprint then Some(e.expiresAt) else LastExpiry(log[..|log| - 1], fingerprint)
  }

  predicate Unexpired(expiresAt: Option<int>, now: int) {
    expiresAt.Some? && expiresAt.value > now
  }

  ghost predicate ClockNeverBack(log: seq<Event>) {
    forall i, j | 0 <= i < j < |log| :: log[i].now <= log[j].now
  }

  /** With a clock that never runs back, the pruned store answers like the whole history. */
  lemma {:induction false} PruningInvisible(log: seq<Event>, fingerprint: string, now: int)
    requires ClockNeverBack(log)
    requires log != [] ==> log[|log| - 1].now <= now
    ensures Answer(Run(log), fingerprint, now) <==> Unexpired(LastExpiry(log, fingerprint), now)
  {
    if log == [] {
    } else {
      var last := |log| - 1;
      assert last > 0 ==> log[last - 1].now <= log[last].now;
      PruningInvisible(log[..last], fingerprint, now);
    }
  }

  /** After every event each stored entry is live, except possibly the one just written. */
  lemma StoredEntriesLive(log: seq<Event>, fingerprint: string)
    requires log != [] && fingerprint in Run(log)
    ensures var e := log[|log| - 1];
            Run(log)[fingerprint] > e.now || (e.Revoked? && e.fingerprint == fingerprint && Run(log)[fingerprint] == e.now)
  {
  }

  /** Whatever the clock does: the entry written at position i is still stored after the run. */
  ghost predicate WrittenAndKept(log: seq<Event>, fingerprint: string, i: int) {
    && 0 <= i < |log|
    && log[i].Revoked? && log[i].fingerprint == fingerprint
    && (forall j | i < j < |log| ::
          && !(log[j].Revoked? && log[j].fingerprint == fingerprint)
          && log[j].now < Max(log[i].expiresAt, log[i].now))
  }

  /** Without any assumption on the clock: an entry survives exactly while no later event reads a clock at or past it. */
  lemma {:induction false} StoredExactly(log: seq<Event>, fingerprint: string)
    ensures fingerprint in Run(log) <==> exists i :: WrittenAndKept(log, fingerprint, i)
    ensures forall i | WrittenAndKept(log, fingerprint, i) ::
              fingerprint in Run(log) && Run(log)[fingerprint] == Max(log[i].expiresAt, log[i].now)
  {
    if log == [] {
    } else {
      var last := |log| - 1;
      var before := log[..last];
      StoredExactly(before, fingerprint);
      if log[last].Revoked? && log[last].fingerprint == fingerprint {
        assert WrittenAndKept(log, fingerprint, last);
      } else {
        forall i | WrittenAndKept(log, fingerprint, i)
          ensures WrittenAndKept(before, fingerprint, i) && log[last].now < Max(before[i].expiresAt, before[i].now)
        {
          assert forall j | 0 <= j < last :: before[j] == log[j];
        }
        if fingerprint in Run(log) {
          var i :| WrittenAndKept(before, fingerprint, i);
          assert forall j | 0 <= j < last :: before[j] == log[j];
          assert WrittenAndKept(log, fingerprint, i);
        }
      }
    }
  }

  /** Some revocation of the fingerprint is the latest there is, and it lasts longer than until now. */
  ghost predicate InForce(log: seq<Event>, fingerprint: string, now: int) {
    exists i ::
      && 0 <= i < |log|
      && log[i].Revoked? && log[i].fingerprint == fingerprint && log[i].expiresAt > now
      && (forall j | i < j < |log| :: log[j].Revoked? ==> log[j].fingerprint != fingerprint)
  }

  /** With a clock that never runs back the store answers exactly by the latest revocation. */
  lemma AnsweredExactly(log: seq<Event>, fingerprint: string, now: int)
    requires ClockNeverBack(log)
    requires log != [] ==> log[|log| - 1].now <= now
    ensures Answer(Run(log), fingerprint, now) <==> InForce(log, fingerprint, now)
  {
    PruningInvisible(log, fingerprint, now);
    LastExpiryIsLatest(log, fingerprint);
    if LastExpiry(log, fingerprint).Some? {
      var i :| LatestRevocation(log, fingerprint, i);
      assert forall k | LatestRevocation(log, fingerprint, k) :: k == i;
    }
    if i :|
      && 0 <= i < |log|
      && log[i].Revoked? && log[i].fingerprint == fingerprint && log[i].expiresAt > now
      && (forall j | i < j < |log| :: log[j].Revoked? ==> log[j].fingerprint != fingerprint)
    {
      assert LatestRevocation(log, fingerprint, i);
    }
  }

  /** What forgetting leaves: the entries that expire later than now, as they were. */
  lemma PrunedByEntry(entries: map<string, int>, now: int, k: string, at: int)
    ensures k in Pruned(entries, now) && Pruned(entries, now)[k] == at <==> k in entries && entries[k] == at && at > now
  {
  }

  /** A revocation is stored up to the later of the expiry it asks for and the time it is made. */
  lemma RevokedIsStored(entries: map<string, int>, fingerprint: string, expiresAt: int, now: int)
    ensures var after := Step(entries, Revoked(fingerprint, expiresAt, now));
            && fingerprint in after && after[fingerprint] >= expiresAt && after[fingerprint] >= now
            && (after[fingerprint] == expiresAt || after[fingerprint] == now)
            && (forall k | k != fingerprint :: k in after <==> k in entries && entries[k] > now)
            && (forall k | k != fingerprint && k in after :: after[k] == entries[k])
  {
  }

  /** Position i holds the most recent revocation of the fingerprint. */
  ghost predicate LatestRevocation(log: seq<Event>, fingerprint: string, i: int) {
    && 0 <= i < |log|
    && log[i].Revoked? && log[i].fingerprint == fingerprint
    && (forall j | i < j < |log| :: !(log[j].Revoked? && log[j].fingerprint == fingerprint))
  }

  lemma {:induction false} LastExpiryIsLatest(log: seq<Event>, fingerprint: string)
    ensures forall i | LatestRevocation(log, fingerprint, i) :: LastExpiry(log, fingerprint) == Some(log[i].expiresAt)
    ensures LastExpiry(log, fingerprint).None? <==> forall i :: !LatestRevocation(log, fingerprint, i)
  {
    if log == [] {
    } else {
      var last := |log| - 1;
      var before := log[..last];
      LastExpiryIsLatest(before, fingerprint);
      if log[last].Revoked? && log[last].fingerprint == fingerprint {
        assert LatestRevocation(log, fingerprint, last);
      } else {
        forall i ensures LatestRevocation(log, fingerprint, i) <==> LatestRevocation(before, fingerprint, i) {
          assert forall j | 0 <= j < last :: before[j] == log[j];
        }
      }
    }
  }

  /** No call after the revocation at position i read a clock at or past the time up to which it is stored. */
  ghost predicate KeptSince(log: seq<Event>, i: int)
    requires 0 <= i < |log| && log[i].Revoked?
  {
    forall j | i < j < |log| :: log[j].now < Max(log[i].expiresAt, log[i].now)
  }

  /**
   * Whatever the clock does, the store and the history give the same answer exactly when: the revocation is in
   * force and has not been pruned since, or it has expired and is not stored up to a later time than it asked for.
   */
  lemma AnswersAgreeExactly(log: seq<Event>, fingerprint: string, now: int, i: int)
    requires LatestRevocation(log, fingerprint, i)
    ensures (Answer(Run(log), fingerprint, now) <==> Unexpired(LastExpiry(log, fingerprint), now)) <==>
              (if now < log[i].expiresAt then KeptSince(log, i) else !(KeptSince(log, i) && now < log[i].now))
  {
    LastExpiryIsLatest(log, fingerprint);
    StoredExactly(log, fingerprint);
    assert WrittenAndKept(log, fingerprint, i) <==> KeptSince(log, i);
    assert forall k | WrittenAndKept(log, fingerprint, k) :: k == i;
  }

  /** Without a revocation both answer no. */
  lemma NeverRevokedAgrees(log: seq<Event>, fingerprint: string, now: int)
    requires forall e <- log :: !(e.Revoked? && e.fingerprint == fingerprint)
    ensures !Answer(Run(log), fingerprint, now) && !Unexpired(LastExpiry(log, fingerprint), now)
  {
    LastExpiryIsLatest(log, fingerprint);
    StoredExactly(log, fingerprint);
    forall i ensures !LatestRevocation(log, fingerprint, i) && !WrittenAndKept(log, fingerprint, i) {
      if 0 <= i < |log| {
        assert log[i] in log;
      }
    }
  }

  /** A wall clock set back can make the store forget a revocation that is still in force. */
  lemma ClockSetBackForgets()
    ensures exists log: seq<Event>, fingerprint: string, now: int ::
              && log != [] && log[|log| - 1].now > now
              && Unexpired(LastExpiry(log, fingerprint), now) && !Answer(Run(log), fingerprint, now)
  {
    var log := [Revoked("a", 10, 0), Asked("b", 10)];
    assert LatestRevocation(log, "a", 0) && !KeptSince(log, 0) by { assert log[1].now == 10; }
    LastExpiryIsLatest(log, "a");
    AnswersAgreeExactly(log, "a", 5, 0);
    assert Unexpired(LastExpiry(log, "a"), 5) && !Answer(Run(log), "a", 5);
  }

  /** And it can make the store uphold a revocation that had expired before it was made. */
  lemma ClockSetBackUpholds()
    ensures exists log: seq<Event>, fingerprint: string, now: int ::
              && log != [] && log[|log| - 1].now > now
              && !Unexpired(LastExpiry(log, fingerprint), now) && Answer(Run(log), fingerprint, now)
  {
    var log := [Revoked("a", 3, 10)];
    assert LatestRevocation(log, "a", 0) && KeptSince(log, 0);
    LastExpiryIsLatest(log, "a");
    AnswersAgreeExactly(log, "a", 5, 0);
    assert !Unexpired(LastExpiry(log, "a"), 5) && Answer(Run(log), "a", 5);
  }
}
