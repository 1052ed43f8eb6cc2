/** Votes on proposals: tallies kept up to date by the casting of votes and by the balance moves
    of the wallets that voted. */
module Votes {
  import opened Sums

  type Wallet = string
  type Instrument = string
  type ProposalId = string

  datatype Vote = Support(support: bool) | ForOption(option: nat)

  /** A vote as sent: the proposal decides which of the two fields counts. */
  datatype GovernanceVote = GovernanceVote(support: bool, supportOption: nat)

  /** A proposal with a single voting instrument, and its tallies per instrument. */
  datatype Proposal = Proposal(votingId: Instrument, optionsSet: bool, yes: map<Instrument, nat>, no: map<Instrument, nat>,
                               options: map<nat, map<Instrument, nat>>)

  datatype Poll = Poll(balances: map<(Wallet, Instrument), nat>, voteWallets: map<Wallet, map<ProposalId, Vote>>,
                       proposals: map<ProposalId, Proposal>)

  // ---- tallies ------------------------------------------------------------------------------

  function Side(p: Proposal, v: Vote): map<Instrument, nat> {
    match v
    case Support(support) => if support then p.yes else p.no
    case ForOption(option) => if option in p.options then p.options[option] else map[]
  }

  function WithSide(p: Proposal, v: Vote, m: map<Instrument, nat>): Proposal {
    match v
    case Support(support) => if support then p.(yes := m) else p.(no := m)
    case ForOption(option) => p.(options := p.options[option := m])
  }

  lemma OnlyThatSide(p: Proposal, v: Vote, m: map<Instrument, nat>)
    ensures Side(WithSide(p, v, m), v) == m && forall u :: u != v ==> Side(WithSide(p, v, m), u) == Side(p, u)
    ensures WithSide(p, v, m).votingId == p.votingId && WithSide(p, v, m).optionsSet == p.optionsSet
    ensures v.Support? ==> WithSide(p, v, m).options == p.options
  {}

  function Tally(p: Proposal, v: Vote): nat {
    if p.votingId in Side(p, v) then Side(p, v)[p.votingId] else 0
  }

  function Balance(s: Poll, w: Wallet, c: Instrument): nat { if (w, c) in s.balances then s.balances[(w, c)] else 0 }

  predicate Voted(s: Poll, w: Wallet, id: ProposalId) { w in s.voteWallets && id in s.voteWallets[w] }

  /** What a wallet's vote counts for one side of a proposal. */
  function Weight(s: Poll, id: ProposalId, v: Vote, w: Wallet): nat
    requires id in s.proposals
  {
    if Voted(s, w, id) && s.voteWallets[w][id] == v then Balance(s, w, s.proposals[id].votingId) else 0
  }

  ghost function Weights(s: Poll, id: ProposalId, v: Vote): Wallet -> int
    requires id in s.proposals
  {
    w => Weight(s, id, v, w)
  }

  /** The recount. */
  ghost function Recount(s: Poll, id: ProposalId, v: Vote): int
    requires id in s.proposals
  {
    SumSet(s.voteWallets.Keys, Weights(s, id, v))
  }

  ghost predicate Regular(p: Proposal) {
    && (forall v :: Side(p, v).Keys <= {p.votingId})
    && (!p.optionsSet ==> p.options == map[])
  }

  /** Votes are of the proposal's kind, and their side has an entry for the instrument. */
  ghost predicate Recorded(s: Poll) {
    forall w, id :: Voted(s, w, id) && id in s.proposals ==>
      var p, v := s.proposals[id], s.voteWallets[w][id];
      v.ForOption? == p.optionsSet && p.votingId in Side(p, v)
  }

  /** The law: every tally is what a recount of the votes by the current balances gives. */
  ghost predicate Tallied(s: Poll) {
    && (forall id :: id in s.proposals ==> Regular(s.proposals[id]))
    && Recorded(s)
    && (forall id, v :: id in s.proposals ==> Tally(s.proposals[id], v) == Recount(s, id, v))
  }

  /** When only one wallet's votes or balances change, recounts change by its weight. */
  lemma OneWalletMoves(s: Poll, s': Poll, w: Wallet, id: ProposalId, v: Vote)
    requires id in s.proposals && id in s'.proposals
    requires s.voteWallets.Keys <= s'.voteWallets.Keys <= s.voteWallets.Keys + {w}
    requires forall u :: u != w ==> Weight(s', id, v, u) == Weight(s, id, v, u)
    ensures Recount(s', id, v) == Recount(s, id, v) + Weight(s', id, v, w) - Weight(s, id, v, w)
  {
    var before, after := Weights(s, id, v), Weights(s', id, v);
    SumSetExtend(s.voteWallets.Keys, s'.voteWallets.Keys, before);
    if w in s'.voteWallets {
      SumSetUpdate(s'.voteWallets.Keys, before, after, w);
    } else {
      SumSetSame(s'.voteWallets.Keys, before, after);
    }
  }

  /** A tally covers each of its voters' balances: nothing ever underflows. */
  lemma TallyCovers(s: Poll, w: Wallet, id: ProposalId)
    requires Tallied(s) && Voted(s, w, id) && id in s.proposals
    ensures Tally(s.proposals[id], s.voteWallets[w][id]) >= Balance(s, w, s.proposals[id].votingId)
  {
    var v := s.voteWallets[w][id];
    SumSetRemove(s.voteWallets.Keys, Weights(s, id, v), w);
    SumSetSubset({}, s.voteWallets.Keys - {w}, Weights(s, id, v));
  }

  // ---- one proposal -------------------------------------------------------------------------

  /** One side's tally moved; the other sides are as before. */
  ghost predicate Moved(p: Proposal, p': Proposal, v: Vote, delta: int) {
    && p'.votingId == p.votingId && p'.optionsSet == p.optionsSet
    && Tally(p', v) == Tally(p, v) + delta
    && (forall u :: u != v ==> Side(p', u) == Side(p, u))
    && Side(p, v).Keys <= Side(p', v).Keys <= Side(p, v).Keys + {p.votingId}
    && (p.options == map[] && v.Support? ==> p'.options == map[])
  }

  /** Count a new vote: add to the entry or make one. */
  method AddVotes(clientVotes: nat, proposal: Proposal, vote: Vote) returns (p: Proposal)
    ensures Moved(proposal, p, vote, clientVotes) && p.votingId in Side(p, vote)
    ensures p.votingId == proposal.votingId && p.optionsSet == proposal.optionsSet
  {
    hide Side, WithSide;
    var votingId := proposal.votingId;
    var side: map<Instrument, nat> := Side(proposal, vote);
    if votingId in side {
      side := side[votingId := side[votingId] + clientVotes];
    } else {
      side := side[votingId := clientVotes];
    }
    OnlyThatSide(proposal, vote, side);
    p := WithSide(proposal, vote, side);
  }

  /** remove_votes: for a change of a yes-or-no vote `support` is the new vote. */
  method RemoveVotes(clientVotes: nat, proposal: Proposal, support: bool, oldSupportOption: nat, ghost was: Vote)
      returns (p: Proposal)
    requires Regular(proposal) && proposal.votingId in Side(proposal, was) && Tally(proposal, was) >= clientVotes
    requires was == if proposal.optionsSet then ForOption(oldSupportOption) else Support(!support)
    ensures Moved(proposal, p, was, 0 - clientVotes) && p.votingId in Side(p, was)
    ensures p.votingId == proposal.votingId && p.optionsSet == proposal.optionsSet
  {
    var votingId := proposal.votingId;
    p := proposal;
    if |proposal.options| == 0 {
      if !support {
        if votingId in p.yes {
          p := p.(yes := p.yes[votingId := p.yes[votingId] - clientVotes]);
        }
      } else {
        if votingId in p.no {
          p := p.(no := p.no[votingId := p.no[votingId] - clientVotes]);
        }
      }
    } else {
      var inner: map<Instrument, nat> := if oldSupportOption in p.options then p.options[oldSupportOption] else map[];
      if votingId in inner {
        inner := inner[votingId := inner[votingId] - clientVotes];
      }
      p := p.(options := p.options[oldSupportOption := inner]);
    }
  }

  /** Loop body of adjust_proposal_votes: proposals without an entry for the instrument are left. */
  method AdjustOne(proposal: Proposal, vote: Vote, addAmount: nat, removeAmount: nat, contractId: Instrument)
      returns (p: Proposal)
    requires Regular(proposal) && proposal.votingId in Side(proposal, vote)
    requires contractId == proposal.votingId ==> Tally(proposal, vote) + addAmount >= removeAmount
    ensures Moved(proposal, p, vote, if contractId == proposal.votingId then addAmount - removeAmount else 0)
    ensures p.votingId in Side(p, vote)
  {
    assert Side(proposal, vote).Keys <= {proposal.votingId};
    hide Side, WithSide;
    var side: map<Instrument, nat> := Side(proposal, vote);
    if contractId !in side {
      return proposal;
    }
    side := side[contractId := side[contractId] + addAmount - removeAmount];
    OnlyThatSide(proposal, vote, side);
    p := WithSide(proposal, vote, side);
  }

  // ---- all proposals ------------------------------------------------------------------------

  /** The proposals are the same but for their tallies. */
  ghost predicate SameProposals(before: map<ProposalId, Proposal>, after: map<ProposalId, Proposal>) {
    && after.Keys == before.Keys
    && forall id :: id in before ==> after[id].votingId == before[id].votingId && after[id].optionsSet == before[id].optionsSet
  }

  lemma SameAfterMoves(s: Poll, proposals: map<ProposalId, Proposal>, w: Wallet, c: Instrument, delta: int)
    requires proposals.Keys == s.proposals.Keys
    requires forall id :: id in proposals ==> Followed(s, proposals[id], w, id, c, delta)
    ensures SameProposals(s.proposals, proposals)
  {
    hide Side, Tally;
    forall id | id in s.proposals
      ensures proposals[id].votingId == s.proposals[id].votingId && proposals[id].optionsSet == s.proposals[id].optionsSet
    {
      assert Followed(s, proposals[id], w, id, c, delta);
    }
  }

  /** What adjusting makes of one proposal. */
  ghost predicate Followed(s: Poll, p: Proposal, w: Wallet, id: ProposalId, c: Instrument, delta: int)
    requires id in s.proposals
  {
    if Voted(s, w, id) then
      Moved(s.proposals[id], p, s.voteWallets[w][id], if c == s.proposals[id].votingId then delta else 0)
    else p == s.proposals[id]
  }

  lemma Adjustable(s: Poll, w: Wallet, id: ProposalId)
    requires Tallied(s) && Voted(s, w, id) && id in s.proposals
    ensures var p, v := s.proposals[id], s.voteWallets[w][id];
            Regular(p) && p.votingId in Side(p, v) && Tally(p, v) >= Balance(s, w, p.votingId)
  {
    TallyCovers(s, w, id);
  }

  class Governance {
    var balances: map<(Wallet, Instrument), nat>
    var voteWallets: map<Wallet, map<ProposalId, Vote>>
    var proposals: map<ProposalId, Proposal>

    ghost function State(): Poll
      reads this
    {
      Poll(balances, voteWallets, proposals)
    }

    constructor (balances: map<(Wallet, Instrument), nat>, proposals: map<ProposalId, Proposal>)
      requires forall id, v :: id in proposals ==> Side(proposals[id], v) == map[]
      requires forall id :: id in proposals && !proposals[id].optionsSet ==> proposals[id].options == map[]
      ensures this.balances == balances && this.proposals == proposals && voteWallets == map[]
      ensures Tallied(State())
    {
      this.balances, this.proposals, voteWallets := balances, proposals, map[];
    }

    /** adjust_proposal_votes: every proposal the wallet voted on, in any order. */
    method AdjustProposalVotes(wallet: Wallet, addAmount: nat, removeAmount: nat, contractId: Instrument)
      requires Tallied(State()) && Balance(State(), wallet, contractId) + addAmount >= removeAmount
      modifies this`proposals
      ensures proposals.Keys == old(proposals.Keys)
      ensures forall id :: id in proposals ==>
        Followed(old(State()), proposals[id], wallet, id, contractId, addAmount - removeAmount)
    {
      hide Tallied, Moved, Side;
      if wallet in voteWallets {
        var rest := voteWallets[wallet].Keys;
        while rest != {}
          invariant rest <= voteWallets[wallet].Keys && proposals.Keys == old(proposals.Keys)
          invariant forall id :: id in proposals && id in rest ==> proposals[id] == old(proposals)[id]
          invariant forall id :: id in proposals && id !in rest ==>
            Followed(old(State()), proposals[id], wallet, id, contractId, addAmount - removeAmount)
          decreases rest
        {
          var id :| id in rest;
          if id in proposals {
            Adjustable(old(State()), wallet, id);
            var p := AdjustOne(proposals[id], voteWallets[wallet][id], addAmount, removeAmount, contractId);
            proposals := proposals[id := p];
          }
          rest := rest - {id};
        }
      }
    }

    /** add_balance */
    method AddBalance(wallet: Wallet, contractId: Instrument, amount: nat)
      requires Tallied(State())
      modifies this`balances, this`proposals
      ensures Tallied(State()) && SameProposals(old(proposals), proposals)
      ensures balances == old(balances)[(wallet, contractId) := old(Balance(State(), wallet, contractId)) + amount]
    {
      hide Tallied, Followed;
      ghost var s := State();
      var balance := if (wallet, contractId) in balances then balances[(wallet, contractId)] else 0;
      AdjustProposalVotes(wallet, amount, 0, contractId);
      SameAfterMoves(s, proposals, wallet, contractId, amount);
      balances := balances[(wallet, contractId) := balance + amount];
      BalanceMoves(s, State(), wallet, contractId, amount);
    }

    /** remove_balance */
    method RemoveBalance(wallet: Wallet, contractId: Instrument, amount: nat) returns (ok: bool)
      requires Tallied(State())
      modifies this`balances, this`proposals
      ensures Tallied(State()) && SameProposals(old(proposals), proposals)
      ensures ok == old((wallet, contractId) in balances && Balance(State(), wallet, contractId) >= amount)
      ensures ok ==> balances == old(balances)[(wallet, contractId) := old(Balance(State(), wallet, contractId)) - amount]
      ensures !ok ==> State() == old(State())
    {
      hide Tallied, Followed;
      ghost var s := State();
      if (wallet, contractId) !in balances {
        return false;
      }
      if balances[(wallet, contractId)] < amount {
        return false;
      }
      var balance := balances[(wallet, contractId)];
      AdjustProposalVotes(wallet, 0, amount, contractId);
      SameAfterMoves(s, proposals, wallet, contractId, 0 - amount);
      balances := balances[(wallet, contractId) := balance - amount];
      BalanceMoves(s, State(), wallet, contractId, 0 - amount);
      return true;
    }

    /** something: cast a vote or change one. A wallet without a balance record leaves no vote, and
        repeating a vote changes nothing. */
    method Something(wallet: Wallet, id: ProposalId, clientVote: GovernanceVote)
      requires Tallied(State()) && id in proposals
      modifies this`voteWallets, this`proposals
      ensures Tallied(State()) && SameProposals(old(proposals), proposals)
      ensures proposals == old(proposals)[id := proposals[id]]
      ensures var v := Sent(old(proposals)[id], clientVote);
              voteWallets == if (wallet, old(proposals)[id].votingId) !in balances then old(voteWallets)
                             else WithVote(old(voteWallets), wallet, id, v)
    {
      hide Tallied, Moved, Side;
      ghost var s := State();
      var proposal := proposals[id];
      var voteWallet := if wallet in voteWallets then voteWallets[wallet] else map[];
      var changeVote := false;
      var oldSupportOption := 0;
      if id in voteWallet {
        Adjustable(s, wallet, id);
        OfItsKind(s, wallet, id);
        if proposal.optionsSet {
          oldSupportOption := voteWallet[id].option;
          if clientVote.supportOption == oldSupportOption {
            Unchanged(s, wallet, id);
            return;
          }
          changeVote := true;
        } else if clientVote.support == voteWallet[id].support {
          Unchanged(s, wallet, id);
          return;
        } else {
          changeVote := true;
        }
      }
      if (wallet, proposal.votingId) in balances {
        var clientVotes := balances[(wallet, proposal.votingId)];
        IsRegular(s, id);
        if changeVote {
          proposal := RemoveVotes(clientVotes, proposal, clientVote.support, oldSupportOption, voteWallet[id]);
        }
        var vote := if !proposal.optionsSet then Support(clientVote.support) else ForOption(clientVote.supportOption);
        ghost var removed := proposal;
        proposal := AddVotes(clientVotes, proposal, vote);
        voteWallet := voteWallet[id := vote];
        voteWallets := voteWallets[wallet := voteWallet];
        proposals := proposals[id := proposal];
        VoteMoves(s, State(), wallet, id, vote, removed);
      }
    }
  }

  /** The vote a message stands for on a proposal. */
  function Sent(p: Proposal, g: GovernanceVote): Vote {
    if p.optionsSet then ForOption(g.supportOption) else Support(g.support)
  }

  function WithVote(voteWallets: map<Wallet, map<ProposalId, Vote>>, w: Wallet, id: ProposalId, v: Vote):
      map<Wallet, map<ProposalId, Vote>>
  {
    voteWallets[w := (if w in voteWallets then voteWallets[w] else map[])[id := v]]
  }

  lemma Unchanged(s: Poll, w: Wallet, id: ProposalId)
    requires Voted(s, w, id)
    ensures WithVote(s.voteWallets, w, id, s.voteWallets[w][id]) == s.voteWallets
  {
    assert s.voteWallets[w][id := s.voteWallets[w][id]] == s.voteWallets[w];
  }

  lemma OfItsKind(s: Poll, w: Wallet, id: ProposalId)
    requires Tallied(s) && Voted(s, w, id) && id in s.proposals
    ensures s.voteWallets[w][id].ForOption? == s.proposals[id].optionsSet
  {}

  lemma IsRegular(s: Poll, id: ProposalId)
    requires Tallied(s) && id in s.proposals
    ensures Regular(s.proposals[id])
  {}

  /** A balance and the tallies of the wallet's votes moved together. */
  lemma BalanceMoves(s: Poll, s': Poll, w: Wallet, c: Instrument, delta: int)
    requires Tallied(s) && s'.voteWallets == s.voteWallets && s'.proposals.Keys == s.proposals.Keys
    requires Balance(s, w, c) + delta >= 0 && s'.balances == s.balances[(w, c) := Balance(s, w, c) + delta]
    requires forall id :: id in s.proposals ==> Followed(s, s'.proposals[id], w, id, c, delta)
    ensures Tallied(s')
  {
    hide Moved, Side;
    forall id | id in s'.proposals
      ensures Regular(s'.proposals[id])
      ensures forall v :: Tally(s'.proposals[id], v) == Recount(s', id, v)
      ensures forall u :: Voted(s', u, id) ==> ProposalRecords(s'.proposals[id], s'.voteWallets[u][id])
    {
      BalanceMovesOne(s, s', w, c, delta, id);
    }
    assert Recorded(s') by {
      forall u, id | Voted(s', u, id) && id in s'.proposals
        ensures ProposalRecords(s'.proposals[id], s'.voteWallets[u][id])
      {}
    }
  }

  ghost predicate ProposalRecords(p: Proposal, v: Vote) { v.ForOption? == p.optionsSet && p.votingId in Side(p, v) }

  lemma BalanceMovesOne(s: Poll, s': Poll, w: Wallet, c: Instrument, delta: int, id: ProposalId)
    requires Tallied(s) && s'.voteWallets == s.voteWallets && id in s.proposals && id in s'.proposals
    requires Balance(s, w, c) + delta >= 0 && s'.balances == s.balances[(w, c) := Balance(s, w, c) + delta]
    requires Followed(s, s'.proposals[id], w, id, c, delta)
    ensures Regular(s'.proposals[id])
    ensures forall v :: Tally(s'.proposals[id], v) == Recount(s', id, v)
    ensures forall u :: Voted(s', u, id) ==> ProposalRecords(s'.proposals[id], s'.voteWallets[u][id])
  {
    hide Side, Moved, Tallied;
    var p, p' := s.proposals[id], s'.proposals[id];
    IsRegular(s, id);
    var moved: int := if c == p.votingId then delta else 0;
    if Voted(s, w, id) {
      OfItsKind(s, w, id);
      MovedRegular(p, p', s.voteWallets[w][id], moved);
    }
    forall v ensures Tally(p', v) == Recount(s', id, v) {
      if Voted(s, w, id) { MovedTally(p, p', s.voteWallets[w][id], moved, v); }
      OneWalletMoves(s, s', w, id, v);
      TallyIsRecount(s, id, v);
    }
    forall u | Voted(s', u, id)
      ensures ProposalRecords(p', s'.voteWallets[u][id])
    {
      HasRecords(s, u, id);
      if Voted(s, w, id) { MovedKeys(p, p', s.voteWallets[w][id], moved, s.voteWallets[u][id]); }
    }
  }

  /** A vote was cast: its side gained the wallet's balance, and the side of an earlier vote lost it. */
  lemma VoteMoves(s: Poll, s': Poll, w: Wallet, id: ProposalId, vote: Vote, removed: Proposal)
    requires Tallied(s) && id in s.proposals && s'.balances == s.balances
    requires s'.proposals.Keys == s.proposals.Keys && s'.proposals == s.proposals[id := s'.proposals[id]]
    requires s'.voteWallets == WithVote(s.voteWallets, w, id, vote)
    requires vote.ForOption? == s.proposals[id].optionsSet
    requires Voted(s, w, id) ==> s.voteWallets[w][id] != vote
    requires if Voted(s, w, id)
             then Moved(s.proposals[id], removed, s.voteWallets[w][id], 0 - Balance(s, w, s.proposals[id].votingId))
             else removed == s.proposals[id]
    requires Moved(removed, s'.proposals[id], vote, Balance(s, w, s.proposals[id].votingId))
    requires s'.proposals[id].votingId in Side(s'.proposals[id], vote)
    ensures Tallied(s')
  {
    hide Moved, Side;
    forall i | i in s'.proposals
      ensures Regular(s'.proposals[i])
      ensures forall v :: Tally(s'.proposals[i], v) == Recount(s', i, v)
      ensures forall u :: Voted(s', u, i) ==> ProposalRecords(s'.proposals[i], s'.voteWallets[u][i])
    {
      if i == id {
        VoteMovesOne(s, s', w, id, vote, removed);
      } else {
        VoteElsewhere(s, s', w, id, vote, i);
      }
    }
    assert Recorded(s') by {
      forall u, i | Voted(s', u, i) && i in s'.proposals
        ensures ProposalRecords(s'.proposals[i], s'.voteWallets[u][i])
      {}
    }
  }

  lemma VoteElsewhere(s: Poll, s': Poll, w: Wallet, id: ProposalId, vote: Vote, i: ProposalId)
    requires Tallied(s) && i in s.proposals && i in s'.proposals && s'.proposals[i] == s.proposals[i] && i != id
    requires s'.balances == s.balances && s'.voteWallets == WithVote(s.voteWallets, w, id, vote)
    ensures Regular(s'.proposals[i])
    ensures forall v :: Tally(s'.proposals[i], v) == Recount(s', i, v)
    ensures forall u :: Voted(s', u, i) ==> ProposalRecords(s'.proposals[i], s'.voteWallets[u][i])
  {
    forall v ensures Tally(s'.proposals[i], v) == Recount(s', i, v) {
      OneWalletMoves(s, s', w, i, v);
    }
    forall u | Voted(s', u, i)
      ensures ProposalRecords(s'.proposals[i], s'.voteWallets[u][i])
    {
      assert Voted(s, u, i);
    }
  }

  lemma VoteMovesOne(s: Poll, s': Poll, w: Wallet, id: ProposalId, vote: Vote, removed: Proposal)
    requires Tallied(s) && id in s.proposals && id in s'.proposals && s'.balances == s.balances
    requires s'.voteWallets == WithVote(s.voteWallets, w, id, vote)
    requires vote.ForOption? == s.proposals[id].optionsSet
    requires Voted(s, w, id) ==> s.voteWallets[w][id] != vote
    requires if Voted(s, w, id)
             then Moved(s.proposals[id], removed, s.voteWallets[w][id], 0 - Balance(s, w, s.proposals[id].votingId))
             else removed == s.proposals[id]
    requires Moved(removed, s'.proposals[id], vote, Balance(s, w, s.proposals[id].votingId))
    requires s'.proposals[id].votingId in Side(s'.proposals[id], vote)
    ensures Regular(s'.proposals[id])
    ensures forall v :: Tally(s'.proposals[id], v) == Recount(s', id, v)
    ensures forall u :: Voted(s', u, id) ==> ProposalRecords(s'.proposals[id], s'.voteWallets[u][id])
  {
    hide Side, Moved, Tallied;
    var p, p' := s.proposals[id], s'.proposals[id];
    IsRegular(s, id);
    var balance: int := Balance(s, w, p.votingId);
    if Voted(s, w, id) {
      OfItsKind(s, w, id);
      MovedRegular(p, removed, s.voteWallets[w][id], 0 - balance);
    }
    MovedRegular(removed, p', vote, balance);
    forall v ensures Tally(p', v) == Recount(s', id, v) {
      OneWalletMoves(s, s', w, id, v);
      if Voted(s, w, id) { MovedTally(p, removed, s.voteWallets[w][id], 0 - balance, v); }
      MovedTally(removed, p', vote, balance, v);
      TallyIsRecount(s, id, v);
    }
    forall u | Voted(s', u, id)
      ensures ProposalRecords(p', s'.voteWallets[u][id])
    {
      if u != w {
        HasRecords(s, u, id);
        if Voted(s, w, id) { MovedKeys(p, removed, s.voteWallets[w][id], 0 - balance, s.voteWallets[u][id]); }
        MovedKeys(removed, p', vote, balance, s.voteWallets[u][id]);
      }
    }
  }

  lemma TallyIsRecount(s: Poll, id: ProposalId, v: Vote)
    requires Tallied(s) && id in s.proposals
    ensures Tally(s.proposals[id], v) == Recount(s, id, v)
  {}

  lemma HasRecords(s: Poll, w: Wallet, id: ProposalId)
    requires Tallied(s) && Voted(s, w, id) && id in s.proposals
    ensures ProposalRecords(s.proposals[id], s.voteWallets[w][id])
  {}

  lemma MovedRegular(p: Proposal, p': Proposal, v: Vote, delta: int)
    requires Regular(p) && Moved(p, p', v, delta) && v.ForOption? == p.optionsSet
    ensures Regular(p') && p'.votingId == p.votingId && p'.optionsSet == p.optionsSet
  {
    hide Side;
  }

  lemma MovedTally(p: Proposal, p': Proposal, v: Vote, delta: int, u: Vote)
    requires Moved(p, p', v, delta)
    ensures Tally(p', u) == Tally(p, u) + if u == v then delta else 0
  {
    hide Side;
  }

  lemma MovedKeys(p: Proposal, p': Proposal, v: Vote, delta: int, u: Vote)
    requires Moved(p, p', v, delta) && ProposalRecords(p, u)
    ensures ProposalRecords(p', u)
  {
    hide Side;
  }

  // ---- runs ---------------------------------------------------------------------------------

  datatype Event =
    | Cast(wallet: Wallet, id: ProposalId, vote: GovernanceVote)
    | Credit(wallet: Wallet, instrument: Instrument, amount: nat)
    | Debit(wallet: Wallet, instrument: Instrument, amount: nat)

  // ---- what a run leaves, in terms of the messages sent --------------------------------------

  datatype Option<T> = None | Some(value: T)

  /** A record, once there, stays: the wallet had one, or was credited. */
  ghost predicate HasBalance(balances: map<(Wallet, Instrument), nat>, events: seq<Event>, w: Wallet, c: Instrument) {
    (w, c) in balances || exists e :: e in events && e.Credit? && e.wallet == w && e.instrument == c
  }

  /** The wallet's last message for the proposal that found a balance record. */
  ghost function LastMessage(balances: map<(Wallet, Instrument), nat>, events: seq<Event>, w: Wallet, id: ProposalId, c: Instrument)
      : Option<GovernanceVote>
  {
    if events == [] then None
    else
      var front, e := events[..|events| - 1], events[|events| - 1];
      if e.Cast? && e.wallet == w && e.id == id && HasBalance(balances, front, w, c) then Some(e.vote)
      else LastMessage(balances, front, w, id, c)
  }

  /** Who sent a message, or had voted before. */
  function Voters(start: Poll, events: seq<Event>): set<Wallet> {
    start.voteWallets.Keys + set e | e in events && e.Cast? :: e.wallet
  }

  /** What the wallet supports in the end: by its last message, else by what was recorded before. */
  ghost predicate ForYes(start: Poll, events: seq<Event>, w: Wallet, id: ProposalId, c: Instrument) {
    match LastMessage(start.balances, events, w, id, c)
    case Some(m) => m.support
    case None => Voted(start, w, id) && start.voteWallets[w][id] == Support(true)
  }

  ghost predicate ForNo(start: Poll, events: seq<Event>, w: Wallet, id: ProposalId, c: Instrument) {
    match LastMessage(start.balances, events, w, id, c)
    case Some(m) => !m.support
    case None => Voted(start, w, id) && start.voteWallets[w][id] == Support(false)
  }

  ghost predicate ForChoice(start: Poll, events: seq<Event>, w: Wallet, id: ProposalId, c: Instrument, n: nat) {
    match LastMessage(start.balances, events, w, id, c)
    case Some(m) => m.supportOption == n
    case None => Voted(start, w, id) && start.voteWallets[w][id] == ForOption(n)
  }

  /** The sum of the balances of the wallets that are in favour. */
  ghost function Together(balances: map<(Wallet, Instrument), nat>, wallets: set<Wallet>, c: Instrument, favours: Wallet -> bool): int {
    SumSet(wallets, w => if favours(w) && (w, c) in balances then balances[(w, c)] else 0)
  }

  function Entry(m: map<Instrument, nat>, c: Instrument): nat { if c in m then m[c] else 0 }

  /** The tallies of a proposal are the balances, as they are now, of those who support each side. */
  ghost predicate Counted(start: Poll, events: seq<Event>, balances: map<(Wallet, Instrument), nat>, p: Proposal, id: ProposalId) {
    var c, voters := p.votingId, Voters(start, events);
    if p.optionsSet then
      forall n: nat :: (if n in p.options then Entry(p.options[n], c) else 0)
        == Together(balances, voters, c, w => ForChoice(start, events, w, id, c, n))
    else
      && Entry(p.yes, c) == Together(balances, voters, c, w => ForYes(start, events, w, id, c))
      && Entry(p.no, c) == Together(balances, voters, c, w => ForNo(start, events, w, id, c))
  }

  /** The recorded vote of a wallet is what its last message said. */
  ghost predicate Says(start: Poll, events: seq<Event>, s: Poll, w: Wallet, id: ProposalId)
    requires id in s.proposals
  {
    var p := s.proposals[id];
    match LastMessage(start.balances, events, w, id, p.votingId)
    case Some(m) => Voted(s, w, id) && s.voteWallets[w][id] == if p.optionsSet then ForOption(m.supportOption) else Support(m.support)
    case None => Voted(s, w, id) == Voted(start, w, id) && (Voted(s, w, id) ==> s.voteWallets[w][id] == start.voteWallets[w][id])
  }

  /** What a run keeps. */
  ghost predicate Follows(start: Poll, events: seq<Event>, s: Poll) {
    && (forall w, c :: (w, c) in s.balances <==> HasBalance(start.balances, events, w, c))
    && s.voteWallets.Keys <= Voters(start, events)
    && (forall w, id :: id in s.proposals ==> Says(start, events, s, w, id))
  }

  lemma StartFollows(s: Poll)
    ensures Follows(s, [], s)
  {}

  lemma VotersMore(start: Poll, events: seq<Event>, e: Event)
    ensures Voters(start, events + [e]) == Voters(start, events) + if e.Cast? then {e.wallet} else {}
  {
    assert forall d :: d in events + [e] <==> d in events || d == e;
  }

  lemma HasBalanceMore(balances: map<(Wallet, Instrument), nat>, events: seq<Event>, e: Event, w: Wallet, c: Instrument)
    ensures HasBalance(balances, events + [e], w, c)
        <==> HasBalance(balances, events, w, c) || (e.Credit? && e.wallet == w && e.instrument == c)
  {
    assert forall d :: d in events + [e] <==> d in events || d == e;
  }

  lemma LastMore(balances: map<(Wallet, Instrument), nat>, events: seq<Event>, e: Event, w: Wallet, id: ProposalId, c: Instrument)
    ensures LastMessage(balances, events + [e], w, id, c)
         == if e.Cast? && e.wallet == w && e.id == id && HasBalance(balances, events, w, c) then Some(e.vote)
            else LastMessage(balances, events, w, id, c)
  {
    hide HasBalance;
    assert (events + [e])[..|events|] == events;
  }

  /** A vote is followed by what it says. */
  lemma CastFollows(start: Poll, events: seq<Event>, s: Poll, s': Poll, e: Event)
    requires Follows(start, events, s) && e.Cast? && SameProposals(s.proposals, s'.proposals) && s'.balances == s.balances
    requires if e.id !in s.proposals || (e.wallet, s.proposals[e.id].votingId) !in s.balances then s'.voteWallets == s.voteWallets
             else s'.voteWallets == WithVote(s.voteWallets, e.wallet, e.id,
                    if s.proposals[e.id].optionsSet then ForOption(e.vote.supportOption) else Support(e.vote.support))
    ensures Follows(start, events + [e], s')
  {
    hide HasBalance, LastMessage, Voters;
    VotersMore(start, events, e);
    forall w, c ensures HasBalance(start.balances, events + [e], w, c) <==> HasBalance(start.balances, events, w, c) {
      HasBalanceMore(start.balances, events, e, w, c);
    }
    forall w, id | id in s'.proposals ensures Says(start, events + [e], s', w, id) {
      assert Says(start, events, s, w, id);
      LastMore(start.balances, events, e, w, id, s'.proposals[id].votingId);
    }
  }

  lemma MoveFollows(start: Poll, events: seq<Event>, s: Poll, s': Poll, e: Event)
    requires Follows(start, events, s) && !e.Cast? && SameProposals(s.proposals, s'.proposals) && s'.voteWallets == s.voteWallets
    requires s'.balances.Keys == s.balances.Keys + if e.Credit? then {(e.wallet, e.instrument)} else {}
    ensures Follows(start, events + [e], s')
  {
    hide HasBalance, LastMessage, Voters;
    VotersMore(start, events, e);
    forall w, c ensures (w, c) in s'.balances <==> HasBalance(start.balances, events + [e], w, c) {
      HasBalanceMore(start.balances, events, e, w, c);
    }
    forall w, id | id in s'.proposals ensures Says(start, events + [e], s', w, id) {
      assert Says(start, events, s, w, id);
      LastMore(start.balances, events, e, w, id, s'.proposals[id].votingId);
    }
  }

  /** Tallies that follow the recorded votes count what the last messages said. */
  lemma FollowedIsCounted(start: Poll, events: seq<Event>, s: Poll, id: ProposalId)
    requires Tallied(s) && Follows(start, events, s) && id in s.proposals
    ensures Counted(start, events, s.balances, s.proposals[id], id)
  {
    hide LastMessage, Voters, Together, HasBalance, Tallied;
    var p, c := s.proposals[id], s.proposals[id].votingId;
    OfKind(s, id);
    if p.optionsSet {
      forall n: nat
        ensures (if n in p.options then Entry(p.options[n], c) else 0)
             == Together(s.balances, Voters(start, events), c, w => ForChoice(start, events, w, id, c, n))
      {
        var favours := w => ForChoice(start, events, w, id, c, n);
        forall w ensures Voted(s, w, id) && s.voteWallets[w][id] == ForOption(n) ==> favours(w)
                 ensures favours(w) ==> (Voted(s, w, id) && s.voteWallets[w][id] == ForOption(n)) {
          assert Says(start, events, s, w, id);
        }
        TallyTogether(start, events, s, id, ForOption(n), favours);
      }
    } else {
      var yes, no := w => ForYes(start, events, w, id, c), w => ForNo(start, events, w, id, c);
      forall w ensures yes(w) <==> (Voted(s, w, id) && s.voteWallets[w][id] == Support(true))
               ensures no(w) <==> (Voted(s, w, id) && s.voteWallets[w][id] == Support(false)) {
        assert Says(start, events, s, w, id);
      }
      TallyTogether(start, events, s, id, Support(true), yes);
      TallyTogether(start, events, s, id, Support(false), no);
    }
  }

  lemma OfKind(s: Poll, id: ProposalId)
    requires Tallied(s) && id in s.proposals
    ensures forall w :: Voted(s, w, id) ==> s.voteWallets[w][id].ForOption? == s.proposals[id].optionsSet
  {}

  lemma TallyTogether(start: Poll, events: seq<Event>, s: Poll, id: ProposalId, v: Vote, favours: Wallet -> bool)
    requires Tallied(s) && id in s.proposals && s.voteWallets.Keys <= Voters(start, events)
    requires forall w :: favours(w) <==> (Voted(s, w, id) && s.voteWallets[w][id] == v)
    ensures Tally(s.proposals[id], v) == Together(s.balances, Voters(start, events), s.proposals[id].votingId, favours)
  {
    hide Voters, Tally, Regular, Recorded;
    var c, voters := s.proposals[id].votingId, Voters(start, events);
    var f := w => if favours(w) && (w, c) in s.balances then s.balances[(w, c)] else 0;
    TallyIsRecount(s, id, v);
    SumSetSame(s.voteWallets.Keys, Weights(s, id, v), f);
    SumSetExtend(s.voteWallets.Keys, voters, f);
  }

  /** After any votes and balance moves, in any order, every tally is the recount; and yes, no and the
      options count what the last messages of the wallets said. */
  method Run(governance: Governance, events: seq<Event>)
    requires Tallied(governance.State())
    modifies governance
    ensures Tallied(governance.State()) && SameProposals(old(governance.proposals), governance.proposals)
    ensures forall id :: id in governance.proposals ==>
      Counted(old(governance.State()), events, governance.balances, governance.proposals[id], id)
  {
    hide Tallied, Follows, Counted;
    ghost var start := governance.State();
    StartFollows(start);
    assert events[..0] == [];
    for i := 0 to |events|
      invariant Tallied(governance.State()) && SameProposals(old(governance.proposals), governance.proposals)
      invariant Follows(start, events[..i], governance.State())
    {
      ghost var s := governance.State();
      assert events[..i + 1] == events[..i] + [events[i]];
      match events[i] {
        case Cast(wallet, id, vote) =>
          if id in governance.proposals {
            governance.Something(wallet, id, vote);
          }
          CastFollows(start, events[..i], s, governance.State(), events[i]);
        case Credit(wallet, instrument, amount) =>
          governance.AddBalance(wallet, instrument, amount);
          MoveFollows(start, events[..i], s, governance.State(), events[i]);
        case Debit(wallet, instrument, amount) =>
          var _ := governance.RemoveBalance(wallet, instrument, amount);
          MoveFollows(start, events[..i], s, governance.State(), events[i]);
      }
    }
    assert events[..|events|] == events;
    forall id | id in governance.proposals
      ensures Counted(start, events, governance.balances, governance.proposals[id], id)
    {
      FollowedIsCounted(start, events, governance.State(), id);
    }
  }
}
