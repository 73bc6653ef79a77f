/** `summarize_party_votes`: one pass over the ballots filling the tally
    dictionary in place, then one pass over its keys appending a row each. */
module Summarize {
  import opened Ballots
  import opened PartyTally

  /** The `if`/`elif` chain that adds one ballot's decision to its party's
      counters. */
  method CountDecision(counts: Counts, decision: Option<string>) returns (updated: Counts)
    ensures updated == Bump(counts, Classify(decision))
  {
    if decision == Some(YesVote) {
      updated := counts.(yes := counts.yes + 1);
    } else if decision == Some(NoVote) {
      updated := counts.(no := counts.no + 1);
    } else if decision == Some(AbstainVote) {
      updated := counts.(abstain := counts.abstain + 1);
    } else {
      updated := counts.(notVoting := counts.notVoting + 1);
    }
  }

  /** The whole function: the dictionary pass, then the row pass. */
  method SummarizePartyVotes(voteJson: VoteDetail) returns (voteData: seq<Row>)
    ensures voteData == Summary(voteJson)
  {
    var partyOrder, partyCounts := CountBallots(BallotsOf(voteJson));
    TallyKeys(BallotsOf(voteJson));
    voteData := EmitRows(voteJson, partyOrder, partyCounts);
  }

  /** The first loop: the dictionary filled ballot by ballot, a new party
      appended to the key order with zeroed counters. */
  method CountBallots(votes: seq<Ballot>) returns (partyOrder: seq<Party>, partyCounts: map<Party, Counts>)
    ensures TallyState(partyOrder, partyCounts) == Tally(votes)
  {
    partyOrder, partyCounts := [], map[];
    for n := 0 to |votes|
      invariant TallyState(partyOrder, partyCounts) == Tally(votes[..n])
    {
      TallyPrefix(votes, n);
      var v := votes[n];
      var party := PartyOf(v.club);
      var decision := v.vote;
      if party !in partyCounts {
        partyCounts := partyCounts[party := Zero];
        partyOrder := partyOrder + [party];
      }
      var updated := CountDecision(partyCounts[party], decision);
      partyCounts := partyCounts[party := updated];
    }
    assert votes[..|votes|] == votes;
  }

  /** The second loop: one row per key, in key order, carrying the vote's
      metadata. */
  method EmitRows(voteJson: VoteDetail, partyOrder: seq<Party>, partyCounts: map<Party, Counts>)
    returns (voteData: seq<Row>)
    requires forall p :: p in partyOrder ==> p in partyCounts
    ensures voteData == RowsFor(voteJson, partyOrder, partyCounts)
  {
    voteData := [];
    for i := 0 to |partyOrder|
      invariant voteData == RowsFor(voteJson, partyOrder[..i], partyCounts)
    {
      var party := partyOrder[i];
      voteData := voteData + [MakeRow(voteJson, party, partyCounts[party])];
      assert partyOrder[..i + 1][..i] == partyOrder[..i];
    }
    assert partyOrder[..|partyOrder|] == partyOrder;
  }
}
