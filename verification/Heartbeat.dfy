/** The heartbeat goroutine: when a follower gives its leader up. */
module Heartbeat {

  const MAX_MISSED_PINGS: nat := 3

  /** What one round observes. Other handlers change the leader between rounds, so the sequence of
      rounds is arbitrary. */
  datatype Round = SelfLeader | PingOk | Missed

  /** Length of the run of missed rounds at the end. */
  function TrailingMisses(rounds: seq<Round>): nat {
    if rounds == [] || rounds[|rounds| - 1] != Missed then 0
    else TrailingMisses(rounds[..|rounds| - 1]) + 1
  }

  function Misses(rounds: seq<Round>): nat {
    if rounds == [] then 0
    else Misses(rounds[..|rounds| - 1]) + (if rounds[|rounds| - 1] == Missed then 1 else 0)
  }

  /** Reference: the last round ends a run of missed rounds whose length is a multiple of three. */
  predicate FiresNow(rounds: seq<Round>) {
    TrailingMisses(rounds) > 0 && TrailingMisses(rounds) % MAX_MISSED_PINGS == 0
  }

  function FiringRounds(rounds: seq<Round>): seq<nat> {
    if rounds == [] then []
    else
      var n := |rounds| - 1;
      FiringRounds(rounds[..n]) + (if FiresNow(rounds) then [n] else [])
  }

  /** runHeartbeat over any number of rounds. fired lists the rounds that call initiateViewChange. */
  method RunHeartbeat(rounds: seq<Round>) returns (missCount: nat, fired: seq<nat>)
    ensures missCount == TrailingMisses(rounds) % MAX_MISSED_PINGS
    ensures fired == FiringRounds(rounds)
  {
    missCount := 0;
    fired := [];
    for n := 0 to |rounds|
      invariant missCount == TrailingMisses(rounds[..n]) % MAX_MISSED_PINGS
      invariant fired == FiringRounds(rounds[..n])
    {
      assert rounds[..n + 1][..n] == rounds[..n];
      if rounds[n] == SelfLeader {
        missCount := 0;
        continue;
      }
      if rounds[n] == PingOk {
        missCount := 0;
      } else {
        missCount := missCount + 1;
      }
      if missCount >= MAX_MISSED_PINGS {
        missCount := 0;
        fired := fired + [n];
      }
    }
    assert rounds[..|rounds|] == rounds;
  }

  /** Exactly the rounds that fire are listed. */
  lemma {:induction false} FiringRoundsComplete(rounds: seq<Round>, i: nat)
    ensures i in FiringRounds(rounds) <==> i < |rounds| && FiresNow(rounds[..i + 1])
  {
    if rounds != [] {
      var n := |rounds| - 1;
      FiringRoundsComplete(rounds[..n], i);
      if i < n {
        assert rounds[..n][..i + 1] == rounds[..i + 1];
      } else if i == n {
        assert rounds[..i + 1] == rounds;
      }
    }
  }

  lemma {:induction false} RunIsAllMissed(rounds: seq<Round>, k: nat)
    requires k < TrailingMisses(rounds)
    ensures k < |rounds| && rounds[|rounds| - 1 - k] == Missed
    ensures TrailingMisses(rounds[..|rounds| - k]) == TrailingMisses(rounds) - k
  {
    var n := |rounds| - 1;
    if k > 0 {
      RunIsAllMissed(rounds[..n], k - 1);
      assert rounds[..n][..n - (k - 1)] == rounds[..|rounds| - k];
    } else {
      assert rounds[..|rounds|] == rounds;
    }
  }

  lemma FiringEndsThreeMisses(upTo: seq<Round>)
    requires FiresNow(upTo)
    ensures var n := |upTo|; n >= 3 && upTo[n - 1] == upTo[n - 2] == upTo[n - 3] == Missed
  {
    RunIsAllMissed(upTo, 0);
    RunIsAllMissed(upTo, 1);
    RunIsAllMissed(upTo, 2);
  }

  lemma NoFiringWithinThree(upTo: seq<Round>, k: nat)
    requires FiresNow(upTo) && 0 < k < |upTo| && FiresNow(upTo[..|upTo| - k])
    ensures k >= 3
  {
    if k < TrailingMisses(upTo) {
      RunIsAllMissed(upTo, k);
    }
  }

  lemma BlockEndsAt(rounds: seq<Round>, i: nat)
    requires i < |rounds| && FiresNow(rounds[..i + 1])
    ensures 2 <= i && rounds[i] == rounds[i - 1] == rounds[i - 2] == Missed
  {
    FiringEndsThreeMisses(rounds[..i + 1]);
  }

  lemma BlocksAreApart(rounds: seq<Round>, i: nat, j: nat)
    requires i < j < |rounds| && FiresNow(rounds[..i + 1]) && FiresNow(rounds[..j + 1])
    ensures i + 3 <= j
  {
    assert rounds[..j + 1][..i + 1] == rounds[..i + 1];
    NoFiringWithinThree(rounds[..j + 1], j - i);
  }

  /** Every initiation the loop makes rests on its own three consecutive missed rounds, with no success
      and no round as leader between them: the blocks of two initiations never overlap. */
  lemma InitiationsOwnThreeMisses(rounds: seq<Round>, i: nat, j: nat)
    requires i in FiringRounds(rounds) && j in FiringRounds(rounds)
    ensures 2 <= i < |rounds| && rounds[i] == rounds[i - 1] == rounds[i - 2] == Missed
    ensures i < j ==> i + 3 <= j
  {
    FiringRoundsComplete(rounds, i);
    FiringRoundsComplete(rounds, j);
    BlockEndsAt(rounds, i);
    if i < j {
      BlocksAreApart(rounds, i, j);
    }
  }

  lemma MissExtendsRun(rounds: seq<Round>, i: nat)
    requires i + 1 < |rounds| && rounds[i + 1] == Missed
    ensures TrailingMisses(rounds[..i + 2]) == TrailingMisses(rounds[..i + 1]) + 1
  {
    assert rounds[..i + 2][..i + 1] == rounds[..i + 1];
  }

  /** Three missed rounds in a row start a view change: one of them initiates. */
  lemma ThreeMissesInitiate(rounds: seq<Round>, i: nat) returns (j: nat)
    requires i + 2 < |rounds| && rounds[i] == rounds[i + 1] == rounds[i + 2] == Missed
    ensures i <= j <= i + 2 && j in FiringRounds(rounds)
  {
    MissExtendsRun(rounds, i);
    MissExtendsRun(rounds, i + 1);
    j := i + (3 - TrailingMisses(rounds[..i + 1]) % 3) % 3;
    FiringRoundsComplete(rounds, j);
  }

  function Interruptions(rounds: seq<Round>): nat {
    if rounds == [] then 0
    else Interruptions(rounds[..|rounds| - 1]) + (if rounds[|rounds| - 1] == Missed then 0 else 1)
  }

  /** Misses are conserved: three for each initiation, at most two waiting, and at most two forgotten at
      each success or round as leader. Without those, every third miss initiates. */
  lemma {:induction false} MissesPayForInitiations(rounds: seq<Round>)
    ensures 3 * |FiringRounds(rounds)| + TrailingMisses(rounds) % 3 <= Misses(rounds)
    ensures Misses(rounds) <= 3 * |FiringRounds(rounds)| + TrailingMisses(rounds) % 3 + 2 * Interruptions(rounds)
    ensures Interruptions(rounds) == 0 ==> |FiringRounds(rounds)| == Misses(rounds) / 3
  {
    if rounds != [] {
      MissesPayForInitiations(rounds[..|rounds| - 1]);
    }
  }
}
