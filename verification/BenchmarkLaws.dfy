/** The benchmark runner by position and by the words of the service's replies. */
module BenchmarkLaws {
  import opened Benchmark

  /** The entry for the i-th suite and the j-th profile stands at i * |profiles| + j, and no other position exists. */
  lemma {:induction false} TriggeredByPosition(suites: seq<string>, profiles: seq<string>, runIds: nat -> string, i: nat, j: nat)
    requires i < |suites| && j < |profiles|
    ensures var runs, k := Triggered(suites, profiles, runIds), i * |profiles| + j;
            && |runs| == |suites| * |profiles|
            && k < |runs| && runs[k] == RunEntry(runIds(k), suites[i], profiles[j])
  {
    var last := |suites| - 1;
    TriggeredMembers(suites, profiles, runIds);
    TriggeredMembers(suites[..last], profiles, runIds);
    if i < last {
      TriggeredByPosition(suites[..last], profiles, runIds, i, j);
    }
  }

  /**
   * One pass: the runs whose reply is "completed", those whose reply is "failed", and those with any other reply,
   * each in the order in which they were pending.
   */
  lemma RoundByStatus(pending: seq<RunEntry>, round: nat, replies: Replies, kind: Kind) returns (at: seq<nat>)
    ensures var picked := Sift(pending, round, replies, kind);
            && |picked| == |at|
            && (forall i | 0 <= i < |at| :: at[i] < |pending| && picked[i] == pending[at[i]])
            && (forall i, j | 0 <= i < j < |at| :: at[i] < at[j])
    ensures forall k: nat :: k in at <==>
              && k < |pending|
              && match kind
                 case Completed => replies(round, k) == "completed"
                 case Failed => replies(round, k) == "failed"
                 case Pending => replies(round, k) != "completed" && replies(round, k) != "failed"
  {
    at := Positions(|pending|, round, replies, kind);
    SiftPicks(pending, round, replies, kind);
    PositionsExact(|pending|, round, replies, kind);
    forall k: nat ensures KindMeans(replies(round, k), kind) <==> KindOf(replies(round, k)) == kind {
    }
    assert forall k: nat :: k in at <==> k < |pending| && KindMeans(replies(round, k), kind);
  }

  predicate KindMeans(status: string, kind: Kind) {
    match kind
    case Completed => status == "completed"
    case Failed => status == "failed"
    case Pending => status != "completed" && status != "failed"
  }

  // ---------------------------------------------------------------------------------------------
  // One run, from beginning to end
  // ---------------------------------------------------------------------------------------------

  /** Rounds count from one; the run has had no final reply up to this round. */
  ghost predicate Undecided(replies: Replies, rounds: nat) {
    forall k: nat | 1 <= k <= rounds :: replies(k, 0) != "completed" && replies(k, 0) != "failed"
  }

  /** The final reply came by this round, and it was this word. */
  ghost predicate DecidedBy(replies: Replies, rounds: nat, word: string) {
    exists k: nat :: k < rounds && Undecided(replies, k) && replies(k + 1, 0) == word
  }

  lemma {:induction false} OneRun(run: RunEntry, replies: Replies, rounds: nat)
    ensures PendingAfter([run], replies, rounds) == if Undecided(replies, rounds) then [run] else []
    ensures EndedAfter([run], replies, rounds, Completed) == if DecidedBy(replies, rounds, "completed") then [run] else []
    ensures EndedAfter([run], replies, rounds, Failed) == if DecidedBy(replies, rounds, "failed") then [run] else []
  {
    if rounds == 0 {
    } else {
      OneRun(run, replies, rounds - 1);
      UndecidedStep(replies, rounds);
      DecidedStep(replies, rounds, "completed");
      DecidedStep(replies, rounds, "failed");
      SiftOne(run, rounds, replies, Completed);
      SiftOne(run, rounds, replies, Failed);
      SiftOne(run, rounds, replies, Pending);
    }
  }

  lemma SiftOne(run: RunEntry, round: nat, replies: Replies, kind: Kind)
    ensures Sift([run], round, replies, kind) == if KindMeans(replies(round, 0), kind) then [run] else []
    ensures Sift([], round, replies, kind) == []
  {
    assert [run][..0] == [];
  }

  lemma UndecidedStep(replies: Replies, rounds: nat)
    requires rounds > 0
    ensures Undecided(replies, rounds) <==> Undecided(replies, rounds - 1) && KindMeans(replies(rounds, 0), Pending)
  {
  }

  lemma DecidedStep(replies: Replies, rounds: nat, word: string)
    requires rounds > 0 && (word == "completed" || word == "failed")
    ensures DecidedBy(replies, rounds, word) <==>
              DecidedBy(replies, rounds - 1, word) || (Undecided(replies, rounds - 1) && replies(rounds, 0) == word)
    ensures DecidedBy(replies, rounds, word) ==> !Undecided(replies, rounds)
  {
    if k: nat :| k < rounds && Undecided(replies, k) && replies(k + 1, 0) == word {
      assert k == rounds - 1 || k < rounds - 1;
    }
  }

  /** Every round so far was entered in time. */
  ghost predicate InTime(clock: Clock, timeout: int, rounds: nat) {
    forall k: nat | 1 <= k <= rounds :: clock(k) <= clock(0) + timeout as real
  }

  lemma OneRunPolled(run: RunEntry, replies: Replies, clock: Clock, timeout: int, rounds: nat)
    ensures Polled([run], replies, clock, timeout, rounds) <==>
              InTime(clock, timeout, rounds) && (rounds > 0 ==> Undecided(replies, rounds - 1))
  {
    forall k: nat | k < rounds ensures PendingAfter([run], replies, k) != [] <==> Undecided(replies, k) {
      OneRun(run, replies, k);
    }
    if Polled([run], replies, clock, timeout, rounds) {
      forall k: nat | 1 <= k <= rounds ensures clock(k) <= clock(0) + timeout as real {
        assert PendingAfter([run], replies, k - 1) != [];
      }
      if rounds > 0 {
        assert PendingAfter([run], replies, rounds - 1) != [];
      }
    }
  }

  /** Polling ends by itself or by the deadline; a round is entered only while the clock shows no more than that. */
  lemma OneRunEnds(run: RunEntry, replies: Replies, clock: Clock, timeout: int, rounds: nat)
    ensures TimedOutAfter([run], replies, clock, timeout, rounds) <==>
              InTime(clock, timeout, rounds) && Undecided(replies, rounds) && clock(rounds + 1) > clock(0) + timeout as real
    ensures FinishedAfter([run], replies, clock, timeout, rounds) <==>
              && InTime(clock, timeout, rounds) && rounds > 0 && Undecided(replies, rounds - 1)
              && (replies(rounds, 0) == "completed" || replies(rounds, 0) == "failed")
  {
    OneRun(run, replies, rounds);
    OneRunPolled(run, replies, clock, timeout, rounds);
    if rounds > 0 {
      UndecidedStep(replies, rounds);
    }
  }
}
