/** The voting wallet object and its notification handlers. */
module VotingWallet {
  import opened WalletTypes
  import opened VotingSpec

  datatype VoteTx = VoteTx(ticket: Hash, voteRetValue: int) | Blank

  lemma {:induction false} UnsentEarlier(out: Outcomes, k: nat, n: nat)
    requires k < n && AllSent(out, k) && !out(k).Sent?
    ensures SentCount(out, n) == k
  {
    if k < n - 1 {
      UnsentEarlier(out, k, n - 1);
    }
  }

  lemma {:induction false} AllSentCount(out: Outcomes, n: nat)
    requires AllSent(out, n)
    ensures SentCount(out, n) == n
  {
  }

  lemma {:induction false} MinePrefix(tickets: map<Hash, int>, winners: seq<Hash>, i: nat)
    requires i <= |winners|
    ensures Mine(tickets, winners[..i]) <= Mine(tickets, winners)
  {
    if i < |winners| {
      var init := winners[..|winners| - 1];
      MinePrefix(tickets, init, i);
      assert init[..i] == winners[..i];
    } else {
      assert winners[..i] == winners;
    }
  }

  lemma MineStep(tickets: map<Hash, int>, winners: seq<Hash>, i: nat)
    requires i < |winners|
    ensures Mine(tickets, winners[..i + 1]) ==
            if winners[i] in tickets then Mine(tickets, winners[..i]) + [winners[i]] else Mine(tickets, winners[..i])
    ensures Mine(tickets, winners[..i + 1]) <= Mine(tickets, winners)
  {
    assert winners[..i + 1][..i] == winners[..i];
    assert Mine(tickets, winners[..i]) + [] == Mine(tickets, winners[..i]);
    MinePrefix(tickets, winners, i + 1);
  }

  lemma CastSoFar(w: Voting, winners: seq<Hash>, mine: seq<Hash>)
    requires mine <= Mine(w.tickets, winners) && |mine| <= w.limitNbVotes
    ensures mine <= Cast(w, winners)
    ensures |mine| == w.limitNbVotes || mine == Mine(w.tickets, winners) ==> mine == Cast(w, winners)
  {
  }

  lemma MineNone(tickets: map<Hash, int>)
    ensures Mine(tickets, []) == []
  {
  }

  class VotingWallet {
    const params: Params
    var utxos: seq<UtxoInfo>
    var tickets: map<Hash, int>
    var maturingVotes: map<int, seq<UtxoInfo>>
    var limitNbVotes: nat

    function State(): Voting
      reads this
    {
      Voting(utxos, tickets, maturingVotes, limitNbVotes)
    }

    constructor (params: Params)
      ensures this.params == params && State() == Voting([], map[], map[], params.ticketsPerBlock)
    {
      this.params := params;
      utxos, tickets, maturingVotes := [], map[], map[];
      limitNbVotes := params.ticketsPerBlock;
    }

    /** Records the outputs of the funding transaction, if it was sent. */
    method Start(value: int, txid: Option<Hash>) returns (ok: bool)
      modifies this`utxos
      ensures ok <==> txid.Some?
      ensures State() == old(State()).(utxos := if ok then Funding(txid.value, RequiredTicketCount(params),
            value) else old(utxos))
      ensures ok ==> forall i :: 0 <= i < |utxos| ==> utxos[i] == UtxoInfo(OutPoint(txid.value, i, 0), value)
    {
      if txid == None {
        return false;
      }
      var nbOutputs := RequiredTicketCount(params);
      var funded: seq<UtxoInfo> := [];
      for i := 0 to nbOutputs
        invariant |funded| == i
        invariant forall k :: 0 <= k < i ==> funded[k] == UtxoInfo(OutPoint(txid.value, k, REGULAR_TREE), value)
      {
        funded := funded + [UtxoInfo(OutPoint(txid.value, i, REGULAR_TREE), value)];
      }
      utxos := funded;
      ok := true;
    }

    method LimitNbVotes(newLimit: int) returns (ok: bool)
      modifies this`limitNbVotes
      ensures (State(), ok) == VotingSpec.LimitNbVotes(old(State()), newLimit)
      ensures ok <==> 0 <= newLimit <= old(limitNbVotes)
      ensures limitNbVotes == if ok then newLimit else old(limitNbVotes)
    {
      if newLimit < 0 {
        return false;
      }
      if newLimit > limitNbVotes {
        return false;
      }
      limitNbVotes := newLimit;
      ok := true;
    }

    /** Buys tickets with the last outputs of the pool, then releases the votes maturing here. */
    method HandleBlockConnected(height: int, sBits: int, out: Outcomes)
      modifies this`utxos, this`tickets, this`maturingVotes
      ensures State() == OnBlock(params, old(State()), height, sBits, out)
    {
      if height < TicketPurchaseStartHeight(params) {
        return;
      }
      var nbTickets := params.ticketsPerBlock;
      if |utxos| < nbTickets {
        return;
      }
      var ticketPrice := TicketPrice(sBits);
      utxos := utxos[..|utxos| - nbTickets];
      for i := 0 to nbTickets
        invariant AllSigned(out, i)
      {
        if out(i) == Unsigned {
          return;
        }
      }
      var sent := RecordTickets(ticketPrice, out);
      if !sent {
        return;
      }
      if height in maturingVotes {
        utxos := utxos + maturingVotes[height];
        maturingVotes := maturingVotes - {height};
      }
    }

    /** Records the tickets sent, up to the first the node refuses. */
    method RecordTickets(ticketPrice: int, out: Outcomes) returns (sent: bool)
      modifies this`tickets
      ensures sent <==> SentCount(out, params.ticketsPerBlock) == params.ticketsPerBlock
      ensures tickets == AddTickets(old(tickets), out, SentCount(out, params.ticketsPerBlock), ticketPrice)
    {
      for i := 0 to params.ticketsPerBlock
        invariant AllSent(out, i)
        invariant tickets == AddTickets(old(tickets), out, i, ticketPrice)
      {
        var result := out(i);
        if !result.Sent? {
          UnsentEarlier(out, i, params.ticketsPerBlock);
          return false;
        }
        tickets := tickets[result.hash := ticketPrice];
      }
      AllSentCount(out, params.ticketsPerBlock);
      sent := true;
    }

    /** Votes with the winning tickets of its own and files what the votes return under the height they
        mature at. `crashed` stands for the index out of range when no votes may be issued. */
    method HandleWinningTickets(height: int, winners: seq<Hash>, stakebase: int, out: Outcomes) returns (crashed: bool)
      modifies this`maturingVotes
      ensures crashed <==> Crashes(old(State()), winners)
      ensures State() == OnWinners(params, old(State()), height, winners, stakebase, out)
    {
      hide Mine, Cast;
      var nbVotes, votes, signed;
      nbVotes, votes, signed, crashed := PrepareVotes(winners, stakebase, out);
      if crashed || !signed {
        return;
      }
      var newUtxos: seq<UtxoInfo> := [];
      for i := 0 to nbVotes
        invariant AllSent(out, i) && |newUtxos| == i
        invariant forall k :: 0 <= k < i ==>
                    newUtxos[k] == UtxoInfo(OutPoint(out(k).hash, VOTE_RETURN_INDEX, STAKE_TREE), votes[k].voteRetValue)
      {
        var result := out(i);
        if !result.Sent? {
          return;
        }
        newUtxos := newUtxos + [UtxoInfo(OutPoint(result.hash, VOTE_RETURN_INDEX, STAKE_TREE), votes[i].voteRetValue)];
      }
      assert newUtxos == VoteOutputs(tickets, Cast(State(), winners), stakebase, out);
      maturingVotes := maturingVotes[height + params.coinbaseMaturity := newUtxos];
    }

    /** Builds and signs the votes, at most as many as the limit allows. */
    method PrepareVotes(winners: seq<Hash>, stakebase: int, out: Outcomes)
      returns (nbVotes: nat, votes: array<VoteTx>, signed: bool, crashed: bool)
      ensures fresh(votes)
      ensures crashed <==> Crashes(State(), winners)
      ensures !crashed ==>
                var cast := Cast(State(), winners);
                && (signed <==> AllSigned(out, |cast|))
                && (signed ==> nbVotes == |cast| <= votes.Length && forall k :: 0 <= k < nbVotes ==>
                      votes[k] == VoteTx(cast[k], tickets[cast[k]] + stakebase))
    {
      hide Mine, Cast;
      votes := new VoteTx[limitNbVotes];
      nbVotes, signed, crashed := 0, true, false;
      ghost var mine := [];
      assert winners[..0] == [];
      MineNone(tickets);
      for i := 0 to |winners|
        invariant mine == Mine(tickets, winners[..i]) && nbVotes == |mine| && (nbVotes == 0 || nbVotes < limitNbVotes)
        invariant AllSigned(out, nbVotes)
        invariant forall k :: 0 <= k < nbVotes ==> votes[k] == VoteFor(mine[k], stakebase)
      {
        MineStep(tickets, winners, i);
        var wt := winners[i];
        if wt !in tickets {
          continue;
        }
        mine := mine + [wt];
        if nbVotes >= votes.Length {
          crashed := true;
          return;
        }
        CastSoFar(State(), winners, mine);
        votes[nbVotes] := VoteTx(wt, tickets[wt] + stakebase);
        nbVotes := nbVotes + 1;
        if out(nbVotes - 1) == Unsigned {
          signed := false;
          return;
        }
        if nbVotes >= limitNbVotes {
          return;
        }
      }
      assert winners[..|winners|] == winners;
      CastSoFar(State(), winners, mine);
    }

    function VoteFor(ticket: Hash, stakebase: int): VoteTx
      reads this`tickets
    {
      if ticket in tickets then VoteTx(ticket, tickets[ticket] + stakebase) else Blank
    }
  }
}
