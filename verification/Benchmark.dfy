/**
 * The benchmark runner: trigger one run per suite and profile, poll until none is pending or the time is up,
 * and turn the outcome into an exit code. Poll replies and clock readings are functions of when they are asked
 * for; the clock advances by at least the poll interval with every sleep, and the deadline comes even without sleep.
 */
module Benchmark {
  import opened Arithmetic

  datatype RunEntry = RunEntry(runId: string, suiteId: string, profile: string)

  datatype Kind = Completed | Failed | Pending

  function KindOf(status: string): Kind {
    if status == "completed" then Completed else if status == "failed" then Failed else Pending
  }

  /** The status reported for the entry at a position of the pending list, in a given round. */
  type Replies = (nat, nat) -> string

  /** The clock when the deadline is set (0) and when it is checked before each round (1, 2, ...). */
  type Clock = nat -> real

  ghost predicate Advances(clock: Clock, interval: nat) {
    && clock(0) <= clock(1)
    && (forall k: nat | k >= 1 :: clock(k) + interval as real <= clock(k + 1))
  }

  // ---------------------------------------------------------------------------------------------
  // What rounds of polling do
  // ---------------------------------------------------------------------------------------------

  /** The positions of a pending list whose entries get a reply of this kind in this round. */
  function Positions(n: nat, round: nat, replies: Replies, kind: Kind): seq<nat> {
    if n == 0 then []
    else Positions(n - 1, round, replies, kind) + (if KindOf(replies(round, n - 1)) == kind then [n - 1] else [])
  }

  function Sift(entries: seq<RunEntry>, round: nat, replies: Replies, kind: Kind): seq<RunEntry> {
    if entries == [] then []
    else
      var last := |entries| - 1;
      Sift(entries[..last], round, replies, kind) + (if KindOf(replies(round, last)) == kind then [entries[last]] else [])
  }

  function PendingAfter(runs: seq<RunEntry>, replies: Replies, rounds: nat): seq<RunEntry> {
    if rounds == 0 then runs else Sift(PendingAfter(runs, replies, rounds - 1), rounds, replies, Pending)
  }

  /** The runs that ended with this kind of reply, round by round. */
  function EndedAfter(runs: seq<RunEntry>, replies: Replies, rounds: nat, kind: Kind): seq<RunEntry> {
    if rounds == 0 then []
    else EndedAfter(runs, replies, rounds - 1, kind) + Sift(PendingAfter(runs, replies, rounds - 1), rounds, replies, kind)
  }

  /** How often an entry occurs in a list. */
  function Occurrences(entries: seq<RunEntry>, e: RunEntry): nat {
    if entries == [] then 0
    else Occurrences(entries[..|entries| - 1], e) + (if entries[|entries| - 1] == e then 1 else 0)
  }

  lemma {:induction false} OccurrencesIsMultiplicity(entries: seq<RunEntry>, e: RunEntry)
    ensures Occurrences(entries, e) == multiset(entries)[e]
  {
    if entries == [] {
    } else {
      OccurrencesIsMultiplicity(entries[..|entries| - 1], e);
      assert entries == entries[..|entries| - 1] + [entries[|entries| - 1]];
    }
  }

  lemma {:induction false} OccurrencesConcat(a: seq<RunEntry>, b: seq<RunEntry>, e: RunEntry)
    ensures Occurrences(a + b, e) == Occurrences(a, e) + Occurrences(b, e)
  {
    if b == [] {
      assert a + b == a;
    } else {
      OccurrencesConcat(a, b[..|b| - 1], e);
      assert (a + b)[..|a + b| - 1] == a + b[..|b| - 1];
    }
  }

  lemma SiftLast(entries: seq<RunEntry>, round: nat, replies: Replies, kind: Kind, e: RunEntry)
    requires entries != []
    ensures var last := |entries| - 1;
            Occurrences(Sift(entries, round, replies, kind), e) == Occurrences(Sift(entries[..last], round, replies, kind), e)
              + (if KindOf(replies(round, last)) == kind && entries[last] == e then 1 else 0)
  {
    var last := |entries| - 1;
    OccurrencesConcat(Sift(entries[..last], round, replies, kind),
                      if KindOf(replies(round, last)) == kind then [entries[last]] else [], e);
  }

  lemma {:induction false} SiftPartitions(entries: seq<RunEntry>, round: nat, replies: Replies, e: RunEntry)
    ensures Occurrences(Sift(entries, round, replies, Completed), e) + Occurrences(Sift(entries, round, replies, Failed), e)
          + Occurrences(Sift(entries, round, replies, Pending), e) == Occurrences(entries, e)
  {
    if entries == [] {
    } else {
      SiftPartitions(entries[..|entries| - 1], round, replies, e);
      SiftLast(entries, round, replies, Completed, e);
      SiftLast(entries, round, replies, Failed, e);
      SiftLast(entries, round, replies, Pending, e);
    }
  }

  lemma EndedStep(runs: seq<RunEntry>, replies: Replies, rounds: nat, kind: Kind, e: RunEntry)
    requires rounds > 0
    ensures Occurrences(EndedAfter(runs, replies, rounds, kind), e)
         == Occurrences(EndedAfter(runs, replies, rounds - 1, kind), e)
          + Occurrences(Sift(PendingAfter(runs, replies, rounds - 1), rounds, replies, kind), e)
  {
    OccurrencesConcat(EndedAfter(runs, replies, rounds - 1, kind),
                      Sift(PendingAfter(runs, replies, rounds - 1), rounds, replies, kind), e);
  }

  /** Where an entry's occurrences are after some rounds: completed, failed, pending. */
  datatype Tally = Tally(completed: nat, failed: nat, pending: nat) {
    function Total(): nat { completed + failed + pending }
  }

  function TallyAfter(runs: seq<RunEntry>, replies: Replies, e: RunEntry, rounds: nat): Tally {
    Tally(Occurrences(EndedAfter(runs, replies, rounds, Completed), e),
          Occurrences(EndedAfter(runs, replies, rounds, Failed), e),
          Occurrences(PendingAfter(runs, replies, rounds), e))
  }

  lemma TallyAtFirst(runs: seq<RunEntry>, replies: Replies, e: RunEntry)
    ensures TallyAfter(runs, replies, e, 0) == Tally(0, 0, Occurrences(runs, e))
  {
  }

  lemma TallyStep(runs: seq<RunEntry>, replies: Replies, e: RunEntry, rounds: nat)
    requires rounds > 0
    ensures TallyAfter(runs, replies, e, rounds).Total() == TallyAfter(runs, replies, e, rounds - 1).Total()
  {
    SiftPartitions(PendingAfter(runs, replies, rounds - 1), rounds, replies, e);
    EndedStep(runs, replies, rounds, Completed, e);
    EndedStep(runs, replies, rounds, Failed, e);
  }

  /** A tally whose total no step changes, whatever it counts. */
  lemma {:induction false} TotalUnchanged(tally: nat -> Tally, rounds: nat)
    requires forall k: nat | 0 < k <= rounds :: tally(k).Total() == tally(k - 1).Total()
    ensures tally(rounds).Total() == tally(0).Total()
  {
    if rounds == 0 {
    } else {
      TotalUnchanged(tally, rounds - 1);
    }
  }

  lemma TallySteps(runs: seq<RunEntry>, replies: Replies, e: RunEntry, rounds: nat, tally: nat -> Tally)
    requires forall k: nat :: tally(k) == TallyAfter(runs, replies, e, k)
    ensures tally(rounds).Total() == tally(0).Total()
  {
    forall k: nat | 0 < k <= rounds ensures tally(k).Total() == tally(k - 1).Total() {
      TallyStep(runs, replies, e, k);
    }
    TotalUnchanged(tally, rounds);
  }

  lemma ConservationOf(runs: seq<RunEntry>, replies: Replies, rounds: nat, e: RunEntry)
    ensures TallyAfter(runs, replies, e, rounds).Total() == Occurrences(runs, e)
  {
    var tally := (k: nat) => TallyAfter(runs, replies, e, k);
    TallySteps(runs, replies, e, rounds, tally);
    TallyAtFirst(runs, replies, e);
    assert tally(rounds) == TallyAfter(runs, replies, e, rounds) && tally(0) == TallyAfter(runs, replies, e, 0);
  }

  /** After every round each triggered run is in exactly one of completed, failed and pending. */
  lemma Conservation(runs: seq<RunEntry>, replies: Replies, rounds: nat)
    ensures multiset(EndedAfter(runs, replies, rounds, Completed)) + multiset(EndedAfter(runs, replies, rounds, Failed))
          + multiset(PendingAfter(runs, replies, rounds)) == multiset(runs)
  {
    var all := multiset(EndedAfter(runs, replies, rounds, Completed)) + multiset(EndedAfter(runs, replies, rounds, Failed))
             + multiset(PendingAfter(runs, replies, rounds));
    forall e: RunEntry ensures all[e] == multiset(runs)[e] {
      ConservationOf(runs, replies, rounds, e);
      OccurrencesIsMultiplicity(runs, e);
      OccurrencesIsMultiplicity(PendingAfter(runs, replies, rounds), e);
      OccurrencesIsMultiplicity(EndedAfter(runs, replies, rounds, Completed), e);
      OccurrencesIsMultiplicity(EndedAfter(runs, replies, rounds, Failed), e);
    }
  }

  ghost predicate Increasing(at: seq<nat>) {
    forall i, j | 0 <= i < j < |at| :: at[i] < at[j]
  }

  /** The entries at these positions of the list. */
  ghost predicate PickedFrom(picked: seq<RunEntry>, at: seq<nat>, entries: seq<RunEntry>) {
    && |picked| == |at|
    && (forall i | 0 <= i < |at| :: at[i] < |entries| && picked[i] == entries[at[i]])
  }

  lemma AppendIncreasing(at: seq<nat>, k: nat)
    requires Increasing(at) && forall j <- at :: j < k
    ensures Increasing(at + [k])
    ensures forall j: nat :: j in at + [k] <==> j in at || j == k
  {
    assert forall i | 0 <= i < |at| :: at[i] in at;
  }

  lemma {:induction false} PositionsExact(n: nat, round: nat, replies: Replies, kind: Kind)
    ensures var at := Positions(n, round, replies, kind);
            && Increasing(at)
            && (forall k: nat :: k in at <==> k < n && KindOf(replies(round, k)) == kind)
  {
    if n == 0 {
    } else {
      PositionsExact(n - 1, round, replies, kind);
      var before := Positions(n - 1, round, replies, kind);
      if KindOf(replies(round, n - 1)) == kind {
        AppendIncreasing(before, n - 1);
      }
    }
  }

  lemma {:induction false} SiftPicks(entries: seq<RunEntry>, round: nat, replies: Replies, kind: Kind)
    ensures PickedFrom(Sift(entries, round, replies, kind), Positions(|entries|, round, replies, kind), entries)
  {
    if entries == [] {
    } else {
      var last := |entries| - 1;
      SiftPicks(entries[..last], round, replies, kind);
      var before := Positions(last, round, replies, kind);
      assert forall i | 0 <= i < |before| :: before[i] < last && entries[..last][before[i]] == entries[before[i]];
    }
  }

  /** The pending runs stand in the order in which they were triggered. */
  lemma {:induction false} PendingKeepsOrder(runs: seq<RunEntry>, replies: Replies, rounds: nat) returns (at: seq<nat>)
    ensures Increasing(at) && PickedFrom(PendingAfter(runs, replies, rounds), at, runs)
  {
    if rounds == 0 {
      at := seq(|runs|, i => i);
    } else {
      var before := PendingKeepsOrder(runs, replies, rounds - 1);
      var pending := PendingAfter(runs, replies, rounds - 1);
      SiftPicks(pending, rounds, replies, Pending);
      PositionsExact(|pending|, rounds, replies, Pending);
      var kept := Positions(|pending|, rounds, replies, Pending);
      at := seq(|kept|, i requires 0 <= i < |kept| => if kept[i] < |before| then before[kept[i]] else 0);
    }
  }

  // ---------------------------------------------------------------------------------------------
  // The loop
  // ---------------------------------------------------------------------------------------------

  /** The first so many rounds all start with something pending and before the deadline. */
  ghost predicate Polled(runs: seq<RunEntry>, replies: Replies, clock: Clock, timeout: int, rounds: nat) {
    forall k: nat | k < rounds :: PendingAfter(runs, replies, k) != [] && clock(k + 1) <= clock(0) + timeout as real
  }

  ghost predicate FinishedAfter(runs: seq<RunEntry>, replies: Replies, clock: Clock, timeout: int, rounds: nat) {
    Polled(runs, replies, clock, timeout, rounds) && PendingAfter(runs, replies, rounds) == []
  }

  ghost predicate TimedOutAfter(runs: seq<RunEntry>, replies: Replies, clock: Clock, timeout: int, rounds: nat) {
    && Polled(runs, replies, clock, timeout, rounds)
    && PendingAfter(runs, replies, rounds) != [] && clock(rounds + 1) > clock(0) + timeout as real
  }

  lemma {:induction false} ClockLowerBound(clock: Clock, interval: nat, k: nat)
    requires Advances(clock, interval)
    ensures clock(k + 1) >= clock(0) + (k * interval) as real
  {
    if k == 0 {
    } else {
      ClockLowerBound(clock, interval, k - 1);
      assert k * interval == (k - 1) * interval + interval;
    }
  }

  /** Rounds that start before the deadline: at most the timeout over the interval, plus one. */
  lemma RoundsBounded(clock: Clock, interval: nat, timeout: int, k: nat)
    requires interval > 0 && Advances(clock, interval)
    requires clock(k + 1) <= clock(0) + timeout as real
    ensures k <= timeout / interval
  {
    ClockLowerBound(clock, interval, k);
    assert k * interval <= timeout;
    DivisionBound(k, interval, timeout);
  }

  lemma PolledOnce(runs: seq<RunEntry>, replies: Replies, clock: Clock, timeout: int, rounds: nat)
    requires Polled(runs, replies, clock, timeout, rounds)
    requires PendingAfter(runs, replies, rounds) != [] && clock(rounds + 1) <= clock(0) + timeout as real
    ensures Polled(runs, replies, clock, timeout, rounds + 1)
  {
    forall k: nat | k < rounds + 1
      ensures PendingAfter(runs, replies, k) != [] && clock(k + 1) <= clock(0) + timeout as real
    {
      assert k < rounds || k == rounds;
    }
  }

  datatype PollOutcome = Finished(failed: seq<RunEntry>) | TimedOut(pending: seq<RunEntry>) | Raised

  /** One pass over the pending list. */
  method PollRound(pending: seq<RunEntry>, round: nat, replies: Replies)
    returns (stillPending: seq<RunEntry>, failed: seq<RunEntry>)
    ensures stillPending == Sift(pending, round, replies, Pending)
    ensures failed == Sift(pending, round, replies, Failed)
  {
    stillPending, failed := [], [];
    for i := 0 to |pending|
      invariant stillPending == Sift(pending[..i], round, replies, Pending)
      invariant failed == Sift(pending[..i], round, replies, Failed)
    {
      assert pending[..i + 1][..i] == pending[..i];
      var status := replies(round, i);
      if status == "completed" {
      } else if status == "failed" {
        failed := failed + [pending[i]];
      } else {
        stillPending := stillPending + [pending[i]];
      }
    }
    assert pending[..|pending|] == pending;
  }

  /** The script sleeps before every round, and sleeping for a negative time raises. */
  predicate SleepRaises(runs: seq<RunEntry>, clock: Clock, timeout: int, interval: int) {
    interval < 0 && runs != [] && clock(1) <= clock(0) + timeout as real
  }

  /** What is assumed of the clock: no sleep is cut short, and without any sleep the deadline still comes. */
  ghost predicate ClockRuns(clock: Clock, timeout: int, interval: int) {
    && (interval >= 0 ==> Advances(clock, interval))
    && (interval == 0 ==> exists k: nat | k > 0 :: clock(k) > clock(0) + timeout as real)
  }

  lemma {:induction false} ClockMonotone(clock: Clock, j: nat, k: nat)
    requires Advances(clock, 0) && 0 < j <= k
    ensures clock(j) <= clock(k)
  {
    if j == k {
    } else {
      ClockMonotone(clock, j, k - 1);
    }
  }

  /** No round starts in time after this many. */
  lemma RoundLimit(clock: Clock, timeout: int, interval: nat) returns (limit: int)
    requires ClockRuns(clock, timeout, interval)
    ensures interval > 0 ==> limit == timeout / interval + 1
    ensures forall k: nat | k > 0 && clock(k) <= clock(0) + timeout as real :: k <= limit
  {
    if interval > 0 {
      limit := timeout / interval + 1;
      forall k: nat | k > 0 && clock(k) <= clock(0) + timeout as real ensures k <= limit {
        RoundsBounded(clock, interval, timeout, k - 1);
      }
    } else {
      var first: nat :| first > 0 && clock(first) > clock(0) + timeout as real;
      limit := first;
      forall k: nat | k > 0 && clock(k) <= clock(0) + timeout as real ensures k <= limit {
        if k > first {
          ClockMonotone(clock, first, k);
        }
      }
    }
  }

  method PollUntilDone(runs: seq<RunEntry>, timeout: int, interval: int, replies: Replies, clock: Clock)
    returns (outcome: PollOutcome, rounds: nat)
    requires ClockRuns(clock, timeout, interval)
    ensures outcome.Finished? ==> FinishedAfter(runs, replies, clock, timeout, rounds)
                                  && outcome.failed == EndedAfter(runs, replies, rounds, Failed)
    ensures outcome.TimedOut? ==> TimedOutAfter(runs, replies, clock, timeout, rounds)
                                  && outcome.pending == PendingAfter(runs, replies, rounds)
    ensures outcome.Raised? <==> SleepRaises(runs, clock, timeout, interval)
    ensures interval < 0 ==> rounds == 0
    ensures interval > 0 ==> rounds == 0 || rounds <= timeout / interval + 1
  {
    var deadline := clock(0) + timeout as real;
    var pending, failed: seq<RunEntry> := runs, [];
    ghost var limit: int := 0;
    if interval >= 0 {
      limit := RoundLimit(clock, timeout, interval);
    }
    rounds := 0;
    while pending != []
      invariant pending == PendingAfter(runs, replies, rounds)
      invariant failed == EndedAfter(runs, replies, rounds, Failed)
      invariant Polled(runs, replies, clock, timeout, rounds)
      invariant interval < 0 ==> rounds == 0
      invariant rounds == 0 || rounds <= limit
      decreases limit - rounds
    {
      if clock(rounds + 1) > deadline {
        return TimedOut(pending), rounds;
      }
      if interval < 0 {
        return Raised, rounds;
      }
      PolledOnce(runs, replies, clock, timeout, rounds);
      var still, newlyFailed := PollRound(pending, rounds + 1, replies);
      rounds := rounds + 1;
      failed := failed + newlyFailed;
      pending := still;
    }
    return Finished(failed), rounds;
  }

  // ---------------------------------------------------------------------------------------------
  // Triggering and the exit code
  // ---------------------------------------------------------------------------------------------

  /** One run per suite and profile, suite by suite; the id is what the service answers to that trigger. */
  function Triggered(suites: seq<string>, profiles: seq<string>, runIds: nat -> string): seq<RunEntry> {
    if suites == [] then []
    else
      var last := |suites| - 1;
      var before := Triggered(suites[..last], profiles, runIds);
      before + seq(|profiles|, j requires 0 <= j < |profiles| => RunEntry(runIds(|before| + j), suites[last], profiles[j]))
  }

  method TriggerAll(suites: seq<string>, profiles: seq<string>, runIds: nat -> string) returns (runs: seq<RunEntry>)
    ensures runs == Triggered(suites, profiles, runIds)
  {
    runs := [];
    for i := 0 to |suites|
      invariant runs == Triggered(suites[..i], profiles, runIds)
    {
      assert suites[..i + 1][..i] == suites[..i];
      ghost var before := runs;
      for j := 0 to |profiles|
        invariant |runs| == |before| + j && runs[..|before|] == before
        invariant forall k | 0 <= k < j :: runs[|before| + k] == RunEntry(runIds(|before| + k), suites[i], profiles[k])
      {
        runs := runs + [RunEntry(runIds(|runs|), suites[i], profiles[j])];
      }
      assert runs == Triggered(suites[..i + 1], profiles, runIds);
    }
    assert suites[..|suites|] == suites;
  }

  lemma {:induction false} TriggeredMembers(suites: seq<string>, profiles: seq<string>, runIds: nat -> string)
    ensures |Triggered(suites, profiles, runIds)| == |suites| * |profiles|
    ensures forall s <- suites, p <- profiles :: exists r <- Triggered(suites, profiles, runIds) :: r.suiteId == s && r.profile == p
  {
    if suites == [] {
    } else {
      var last := |suites| - 1;
      TriggeredMembers(suites[..last], profiles, runIds);
      var before, all := Triggered(suites[..last], profiles, runIds), Triggered(suites, profiles, runIds);
      assert (last + 1) * |profiles| == last * |profiles| + |profiles|;
      forall s, p | s in suites && p in profiles ensures exists r <- all :: r.suiteId == s && r.profile == p {
        if s == suites[last] {
          var j :| 0 <= j < |profiles| && profiles[j] == p;
          assert all[|before| + j] == RunEntry(runIds(|before| + j), s, p);
          assert all[|before| + j] in all;
        } else {
          assert s in suites[..last];
          var r :| r in before && r.suiteId == s && r.profile == p;
          assert r in all;
        }
      }
    }
  }

  /** 2 for a timeout, 1 for a failed run, a required gate that is not ready or an exception, otherwise 0. */
  method ExitCode(dryRun: bool, requireReady: bool, suites: seq<string>, profiles: seq<string>, timeout: int, interval: int,
                  runIds: nat -> string, replies: Replies, clock: Clock, ready: seq<bool>)
    returns (code: nat, rounds: nat)
    requires ClockRuns(clock, timeout, interval)
    ensures dryRun ==> code == 0 && rounds == 0
    ensures interval > 0 ==> rounds == 0 || rounds <= timeout / interval + 1
    ensures var runs := Triggered(suites, profiles, runIds);
            !dryRun ==>
              && code in {0, 1, 2}
              && (code == 2 <==> TimedOutAfter(runs, replies, clock, timeout, rounds))
              && (code != 2 && !SleepRaises(runs, clock, timeout, interval) <==> FinishedAfter(runs, replies, clock, timeout, rounds))
              && (SleepRaises(runs, clock, timeout, interval) ==> code == 1)
              && (code == 0 ==> multiset(EndedAfter(runs, replies, rounds, Completed)) == multiset(runs))
              && (code == 0 <==>
                    && FinishedAfter(runs, replies, clock, timeout, rounds)
                    && EndedAfter(runs, replies, rounds, Failed) == []
                    && (requireReady ==> false !in ready))
  {
    if dryRun {
      return 0, 0;
    }
    var runs := TriggerAll(suites, profiles, runIds);
    var outcome;
    outcome, rounds := PollUntilDone(runs, timeout, interval, replies, clock);
    if outcome.TimedOut? {
      return 2, rounds;
    }
    if outcome.Raised? {
      return 1, rounds;
    }
    Conservation(runs, replies, rounds);
    var anyNotReady := exists r <- ready :: !r;
    if outcome.failed != [] {
      return 1, rounds;
    }
    if requireReady && anyNotReady {
      return 1, rounds;
    }
    return 0, rounds;
  }
}
