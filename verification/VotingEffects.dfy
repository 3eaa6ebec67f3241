/** What each notification does to the voting wallet, in terms of its pool, its tickets and the votes about
    to mature. */
module VotingEffects {
  import opened WalletTypes
  import opened VotingSpec
  import opened VotingFunds

  // ----- a connected block -----

  /** Below the purchase start height, or with too few outputs, nothing happens. Otherwise the last outputs
      of the pool are gone whatever fails, and votes maturing here join it if all tickets were sent. */
  lemma BlockEffect(p: Params, w: Voting, height: int, sBits: int, out: Outcomes)
    ensures var w2, n := OnBlock(p, w, height, sBits, out), p.ticketsPerBlock;
            if height < p.stakeValidationHeight - p.ticketMaturity - 2 || |w.utxos| < n then w2 == w
            else
              var rest := w.utxos[..|w.utxos| - n];
              && w2.limitNbVotes == w.limitNbVotes
              && if forall i :: 0 <= i < n ==> out(i).Sent? then
                   && w2.utxos == rest + (if height in w.maturingVotes then w.maturingVotes[height] else [])
                   && w2.maturingVotes == w.maturingVotes - {height}
                 else w2.utxos == rest && w2.maturingVotes == w.maturingVotes
  {
    SentCountAll(out, p.ticketsPerBlock);
  }

  /** Ticket `i` of a batch of `n` was sent: none of them failed to be signed, and the node refused none
      up to it. */
  ghost predicate Bought(out: Outcomes, n: nat, i: nat) {
    i < n && (forall j :: 0 <= j < n ==> !out(j).Unsigned?) && forall j :: 0 <= j <= i ==> out(j).Sent?
  }

  /** A purchase records exactly the tickets sent before the first refusal, none if one is not signed, each
      at the block's stake difficulty and a sixth more, rounded toward zero. */
  lemma TicketsRecorded(p: Params, w: Voting, height: int, sBits: int, out: Outcomes, h: Hash)
    requires height >= p.stakeValidationHeight - p.ticketMaturity - 2 && |w.utxos| >= p.ticketsPerBlock
    ensures Get(OnBlock(p, w, height, sBits, out).tickets, h) ==
            if exists i :: Bought(out, p.ticketsPerBlock, i) && out(i).hash == h
            then Some(sBits + (if sBits >= 0 then sBits / 6 else -(-sBits / 6)))
            else Get(w.tickets, h)
  {
    var n := p.ticketsPerBlock;
    var k := SentCount(out, n);
    AddTicketsAre(w.tickets, out, k, TicketPrice(sBits));
    if AllSigned(out, n) {
      forall i: nat ensures Bought(out, n, i) <==> i < k {
      }
    }
  }

  /** What a block takes from the pool is what it adds to the outputs spent. */
  lemma PurchaseSpendsLast(p: Params, r: Run, e: Event)
    requires e.BlockConnected?
    ensures var n, size := p.ticketsPerBlock, |r.w.utxos|;
            Do(p, r, e).spent ==
            if e.height >= p.stakeValidationHeight - p.ticketMaturity - 2 && size >= n
            then r.spent + r.w.utxos[size - n..] else r.spent
  {
  }

  // ----- when it buys -----

  /** Until a block reaches the purchase start height nothing is spent or bought, whatever the
      notifications, the limits and the failures. */
  lemma {:induction false} NothingBoughtBeforeStart(p: Params, start: Voting, evs: seq<Event>, n: nat)
    requires n <= |evs|
    requires forall i :: 0 <= i < n && evs[i].BlockConnected? ==>
                           evs[i].height < p.stakeValidationHeight - p.ticketMaturity - 2
    ensures var r := At(p, start, evs, n); r.spent == [] && r.w.utxos == start.utxos && r.w.tickets == start.tickets
  {
    hide Do;
    if n > 0 {
      NothingBoughtBeforeStart(p, start, evs, n - 1);
      BeforeStartStep(p, At(p, start, evs, n - 1), evs[n - 1]);
    }
  }

  lemma BeforeStartStep(p: Params, r: Run, e: Event)
    requires e.BlockConnected? ==> e.height < p.stakeValidationHeight - p.ticketMaturity - 2
    ensures var r2 := Do(p, r, e); r2.spent == r.spent && r2.w.utxos == r.w.utxos && r2.w.tickets == r.w.tickets
  {
    hide Cast, Mine, Votes;
    assert r.spent + [] == r.spent;
  }

  /** Event `i` is a block at that height or above, and finds outputs enough. */
  ghost predicate FindsEnough(p: Params, start: Voting, evs: seq<Event>, i: nat)
    requires i < |evs|
  {
    && evs[i].BlockConnected? && evs[i].height >= p.stakeValidationHeight - p.ticketMaturity - 2
    && |At(p, start, evs, i).w.utxos| >= p.ticketsPerBlock
  }

  /** Outputs were spent exactly if there was such a block. */
  lemma {:induction false} SpendsIff(p: Params, start: Voting, evs: seq<Event>, n: nat)
    requires n <= |evs| && p.ticketsPerBlock > 0
    ensures At(p, start, evs, n).spent != [] <==> exists i :: 0 <= i < n && FindsEnough(p, start, evs, i)
  {
    hide Do;
    if n > 0 {
      SpendsIff(p, start, evs, n - 1);
      SpendsMore(p, At(p, start, evs, n - 1), evs[n - 1]);
      assert FindsEnough(p, start, evs, n - 1) <==> Do(p, At(p, start, evs, n - 1), evs[n - 1]).spent !=
                                                    At(p, start, evs, n - 1).spent;
    }
  }

  lemma SpendsMore(p: Params, r: Run, e: Event)
    requires p.ticketsPerBlock > 0
    ensures |Do(p, r, e).spent| >= |r.spent|
    ensures Do(p, r, e).spent != r.spent <==>
            && e.BlockConnected? && e.height >= p.stakeValidationHeight - p.ticketMaturity - 2
            && |r.w.utxos| >= p.ticketsPerBlock
  {
    hide After;
    var more := Spends(p, r.w, e);
    assert |Do(p, r, e).spent| == |r.spent| + |more|;
    assert more == [] ==> r.spent + more == r.spent;
  }

  // ----- winning tickets -----

  predicate OwnAt(w: Voting, winners: seq<Hash>, i: nat) {
    i < |winners| && winners[i] in w.tickets
  }

  /** The positions are those of the first winning tickets of the wallet, as many as the limit lets it
      vote with. */
  ghost predicate FirstOwn(w: Voting, winners: seq<Hash>, at: seq<nat>) {
    && |at| <= w.limitNbVotes
    && (forall k :: 0 <= k < |at| ==> OwnAt(w, winners, at[k]))
    && (forall j, k :: 0 <= j < k < |at| ==> at[j] < at[k])
    && (forall i: nat :: OwnAt(w, winners, i) && i !in at ==>
                           |at| == w.limitNbVotes && forall k :: 0 <= k < |at| ==> at[k] < i)
  }

  /** The positions of all winning tickets of the wallet, in order. */
  ghost predicate AllOwn(w: Voting, winners: seq<Hash>, at: seq<nat>) {
    && (forall k :: 0 <= k < |at| ==> OwnAt(w, winners, at[k]))
    && (forall j, k :: 0 <= j < k < |at| ==> at[j] < at[k])
    && (forall i: nat :: OwnAt(w, winners, i) ==> i in at)
  }

  lemma OneMore(w: Voting, winners: seq<Hash>, at: seq<nat>)
    requires winners != [] && AllOwn(w, winners[..|winners| - 1], at)
    ensures var n := |winners| - 1;
            AllOwn(w, winners, if winners[n] in w.tickets then at + [n] else at)
  {
    var n := |winners| - 1;
    forall i: nat ensures OwnAt(w, winners, i) <==> OwnAt(w, winners[..n], i) || (i == n && winners[n] in w.tickets) {
    }
  }

  lemma {:induction false} MineAt(w: Voting, winners: seq<Hash>) returns (at: seq<nat>)
    ensures AllOwn(w, winners, at) && |at| == |Mine(w.tickets, winners)|
    ensures forall k :: 0 <= k < |at| ==> at[k] < |winners| && Mine(w.tickets, winners)[k] == winners[at[k]]
  {
    hide AllOwn, OwnAt;
    if winners == [] {
      at := [];
      NoneOwn(w);
    } else {
      var n := |winners| - 1;
      var init := MineAt(w, winners[..n]);
      OneMore(w, winners, init);
      at := if winners[n] in w.tickets then init + [n] else init;
    }
  }

  lemma NoneOwn(w: Voting)
    ensures AllOwn(w, [], [])
  {
  }

  lemma FirstOfAll(w: Voting, winners: seq<Hash>, all: seq<nat>)
    requires AllOwn(w, winners, all)
    ensures FirstOwn(w, winners, if |all| <= w.limitNbVotes then all else all[..w.limitNbVotes])
  {
    hide OwnAt;
    var limit := w.limitNbVotes;
    if |all| > limit {
      forall j | 0 <= j < limit ensures all[j] in all[..limit] {
        assert all[..limit][j] == all[j];
      }
      forall i: nat | OwnAt(w, winners, i) && i !in all[..limit]
        ensures forall k :: 0 <= k < limit ==> all[k] < i
      {
        var j :| 0 <= j < |all| && all[j] == i;
      }
    }
  }

  lemma CastInOrder(w: Voting, winners: seq<Hash>) returns (at: seq<nat>)
    ensures FirstOwn(w, winners, at) && |at| == |Cast(w, winners)|
    ensures forall k :: 0 <= k < |at| ==> at[k] < |winners| && Cast(w, winners)[k] == winners[at[k]]
  {
    hide AllOwn, FirstOwn, Mine;
    var all := MineAt(w, winners);
    FirstOfAll(w, winners, all);
    at := if |all| <= w.limitNbVotes then all else all[..w.limitNbVotes];
  }

  /** The wallet votes with its first winning tickets up to the limit and files output 2 of each vote, in the
      stake tree, at the ticket's price and the reward, under the height it matures at. It files nothing if
      one of these votes cannot be sent, or if it may not vote at all although a winner is its own. */
  lemma WinnersEffect(p: Params, w: Voting, height: int, winners: seq<Hash>, stakebase: int, out: Outcomes)
    returns (at: seq<nat>)
    ensures FirstOwn(w, winners, at)
    ensures var w2, key := OnWinners(p, w, height, winners, stakebase, out), height + p.coinbaseMaturity;
            if (w.limitNbVotes == 0 && exists h :: h in winners && h in w.tickets)
               || exists k :: 0 <= k < |at| && !out(k).Sent?
            then w2 == w
            else
              && key in w2.maturingVotes && |w2.maturingVotes[key]| == |at|
              && (forall k :: 0 <= k < |at| ==>
                    w2.maturingVotes[key][k] ==
                    UtxoInfo(OutPoint(out(k).hash, 2, 1), w.tickets[winners[at[k]]] + stakebase))
              && w2 == w.(maturingVotes := w.maturingVotes[key := w2.maturingVotes[key]])
  {
    hide FirstOwn;
    at := CastInOrder(w, winners);
    OwnWinners(w, winners, at);
    CrashesIff(w, winners);
  }

  lemma OwnWinners(w: Voting, winners: seq<Hash>, at: seq<nat>)
    requires FirstOwn(w, winners, at)
    ensures forall k :: 0 <= k < |at| ==> OwnAt(w, winners, at[k])
  {
  }

  lemma CrashesIff(w: Voting, winners: seq<Hash>)
    ensures Crashes(w, winners) <==> w.limitNbVotes == 0 && exists h :: h in winners && h in w.tickets
  {
    var mine := Mine(w.tickets, winners);
    if mine != [] {
      assert mine[0] in mine;
    }
  }
}
