/** For which builds of Wireless Paxos a learned value is always a chosen one.
 */
module PaxosBuilds {
  import opened PaxosSafety
  import opened PaxosQuorum
  import PaxosRetry

  /** Whatever node `i` has learned by network `k`, a majority has accepted. */
  ghost predicate LearnsChosen(u: Setup, run: seq<Network>, k: nat, i: nat)
  {
    k < |run| && i < |run[k]| && run[k][i].learner.chosen ==> ChosenIn(run, k, |u.roles|, run[k][i].learner.value)
  }

  /** In every round of every network with so many slots, learned values are chosen. */
  ghost predicate QuorumReadIsSafe(slots: nat)
  {
    forall u: Setup, run: seq<Network>, choices: seq<seq<Choice>>, k: nat, i: nat ::
      u.slots == slots && IsRound(u, run, choices) ==> LearnsChosen(u, run, k, i)
  }

  /** Exactly the builds of up to 256 slots, where losers wait for the rest of the round,
      and those whose number of slots leaves nothing of the wait, where they never try
      again, read their quorums safely. */
  lemma QuorumReadIff(slots: nat)
    requires 0 < slots < 65536
    ensures QuorumReadIsSafe(slots) <==> NeverAgain(slots)
  {
    if NeverAgain(slots) {
      forall u: Setup, run: seq<Network>, choices: seq<seq<Choice>>, k: nat, i: nat | u.slots == slots && IsRound(u, run, choices)
        ensures LearnsChosen(u, run, k, i)
      {
        if k < |run| && i < |run[k]| && run[k][i].learner.chosen {
          WholeRound(u, run, choices, k);
          LearnedIsChosen(u, run, choices, k, i);
        }
      }
    } else {
      var run, choices, k := PaxosRetry.LearnedWithoutQuorum(slots, 0, 0, 0);
      assert !LearnsChosen(PaxosRetry.Losers(slots, 0, 0, 0), run, k, 3);
    }
  }
}
