/** Votes weighted by balance, one for each address; used by governance and lending. */
module Voting {
  import opened Protocol
  import opened Balances

  datatype Vote = Vote(yes: bool, weight: int)

  function Weights(votes: map<Address, Vote>, yes: bool): Accounts {
    map a | a in votes && votes[a].yes == yes :: votes[a].weight
  }

  /** The running totals are the sums of the recorded votes. */
  ghost predicate Sums(votes: map<Address, Vote>, yesWeight: int, noWeight: int) {
    yesWeight == Total(Weights(votes, true)) && noWeight == Total(Weights(votes, false))
  }

  lemma WeightsWith(votes: map<Address, Vote>, voter: Address, v: Vote, yes: bool)
    requires voter !in votes
    ensures Weights(votes[voter := v], yes) ==
              if v.yes == yes then Weights(votes, yes)[voter := v.weight] else Weights(votes, yes)
  {}

  lemma NoVotesSum()
    ensures Sums(map[], 0, 0)
  {}

  /** Adding a first vote of an address to one running total keeps both totals right. */
  lemma VoteKeepsSums(votes: map<Address, Vote>, yesWeight: int, noWeight: int, voter: Address, v: Vote)
    requires Sums(votes, yesWeight, noWeight) && voter !in votes
    ensures Sums(votes[voter := v], if v.yes then yesWeight + v.weight else yesWeight,
                 if v.yes then noWeight else noWeight + v.weight)
  {
    WeightsWith(votes, voter, v, true);
    WeightsWith(votes, voter, v, false);
    TotalUpdate(Weights(votes, v.yes), voter, v.weight);
  }
}
