/** The voting wallet as a value: its ticket purchases and votes as functions of that value. */
module VotingSpec {
  import opened WalletTypes

  const UINT16_LIMIT := 0x1_0000
  const STAKE_TREE := 1
  const VOTE_RETURN_INDEX := 2

  type uint16 = x: int | 0 <= x < UINT16_LIMIT

  datatype Params = Params(
    stakeValidationHeight: int,
    ticketMaturity: uint16,
    coinbaseMaturity: uint16,
    ticketsPerBlock: uint16)

  datatype UtxoInfo = UtxoInfo(outpoint: OutPoint, amount: int)

  /** `tickets` holds the price of every ticket ever bought; nothing is removed from it. */
  datatype Voting = Voting(
    utxos: seq<UtxoInfo>,
    tickets: map<Hash, int>,
    maturingVotes: map<int, seq<UtxoInfo>>,
    limitNbVotes: nat)

  /** What becomes of one transaction: it cannot be signed (or is no valid vote), the node refuses it,
      or it is sent under the given hash. */
  datatype Outcome = Unsigned | Refused | Sent(hash: Hash)

  type Outcomes = nat -> Outcome

  // ----- formulas -----

  function TicketPurchaseStartHeight(p: Params): int {
    p.stakeValidationHeight - p.ticketMaturity - 2
  }

  /** The source computes this in unsigned 16-bit arithmetic. */
  function RequiredTicketCount(p: Params): nat {
    var blocks: uint16 := (p.coinbaseMaturity + p.ticketMaturity + 2) % UINT16_LIMIT;
    (blocks * p.ticketsPerBlock) % UINT16_LIMIT
  }

  /** Integer division that truncates toward zero. */
  function Quotient(a: int, b: int): int
    requires b > 0
  {
    if a >= 0 then a / b else -(-a / b)
  }

  function TicketPrice(sBits: int): int {
    sBits + Quotient(sBits, 6)
  }

  // ----- buying tickets -----

  predicate AllSigned(out: Outcomes, n: nat) {
    forall i :: 0 <= i < n ==> out(i) != Unsigned
  }

  predicate AllSent(out: Outcomes, n: nat) {
    forall i :: 0 <= i < n ==> out(i).Sent?
  }

  /** How many transactions were sent before the first that was not. */
  function SentCount(out: Outcomes, n: nat): (k: nat)
    ensures k <= n && AllSent(out, k) && (k < n ==> !out(k).Sent?)
  {
    if n == 0 then 0
    else
      var k := SentCount(out, n - 1);
      if k == n - 1 && out(k).Sent? then n else k
  }

  function AddTickets(tickets: map<Hash, int>, out: Outcomes, n: nat, price: int): map<Hash, int>
    requires AllSent(out, n)
  {
    if n == 0 then tickets else AddTickets(tickets, out, n - 1, price)[out(n - 1).hash := price]
  }

  predicate Buys(p: Params, w: Voting, height: int) {
    height >= TicketPurchaseStartHeight(p) && |w.utxos| >= p.ticketsPerBlock
  }

  /** The outputs a purchase spends, the last ones of the pool. */
  function Batch(p: Params, w: Voting): seq<UtxoInfo>
    requires |w.utxos| >= p.ticketsPerBlock
  {
    w.utxos[|w.utxos| - p.ticketsPerBlock..]
  }

  function Rest(p: Params, w: Voting): seq<UtxoInfo>
    requires |w.utxos| >= p.ticketsPerBlock
  {
    w.utxos[..|w.utxos| - p.ticketsPerBlock]
  }

  /** The votes maturing at this height become available. */
  function Release(w: Voting, height: int): Voting {
    if height !in w.maturingVotes then w
    else w.(utxos := w.utxos + w.maturingVotes[height], maturingVotes := w.maturingVotes - {height})
  }

  /** A failure part-way leaves the outputs of the purchase spent and releases no votes. */
  function OnBlock(p: Params, w: Voting, height: int, sBits: int, out: Outcomes): Voting {
    if !Buys(p, w, height) then w
    else
      var w1 := w.(utxos := Rest(p, w));
      if !AllSigned(out, p.ticketsPerBlock) then w1
      else
        var n := SentCount(out, p.ticketsPerBlock);
        var w2 := w1.(tickets := AddTickets(w1.tickets, out, n, TicketPrice(sBits)));
        if n < p.ticketsPerBlock then w2 else Release(w2, height)
  }

  // ----- voting -----

  function Mine(tickets: map<Hash, int>, winners: seq<Hash>): (mine: seq<Hash>)
    ensures forall h :: h in mine <==> h in winners && h in tickets
    ensures |mine| <= |winners|
  {
    if winners == [] then []
    else
      var last := winners[|winners| - 1];
      Mine(tickets, winners[..|winners| - 1]) + (if last in tickets then [last] else [])
  }

  /** The winning tickets voted with: the wallet's own, up to the limit. */
  function Cast(w: Voting, winners: seq<Hash>): (cast: seq<Hash>)
    ensures |cast| <= w.limitNbVotes && forall h :: h in cast ==> h in w.tickets && h in winners
  {
    var mine := Mine(w.tickets, winners);
    if |mine| <= w.limitNbVotes then mine else mine[..w.limitNbVotes]
  }

  function VoteOutputs(tickets: map<Hash, int>, cast: seq<Hash>, stakebase: int, out: Outcomes): (r: seq<UtxoInfo>)
    requires AllSent(out, |cast|) && forall h :: h in cast ==> h in tickets
    ensures |r| == |cast|
  {
    seq(|cast|, k requires 0 <= k < |cast| =>
      UtxoInfo(OutPoint(out(k).hash, VOTE_RETURN_INDEX, STAKE_TREE), tickets[cast[k]] + stakebase))
  }

  /** With no votes left to issue, the first winning ticket of its own makes the source index an empty
      slice. */
  predicate Crashes(w: Voting, winners: seq<Hash>) {
    w.limitNbVotes == 0 && Mine(w.tickets, winners) != []
  }

  function OnWinners(p: Params, w: Voting, height: int, winners: seq<Hash>, stakebase: int, out: Outcomes): Voting {
    var cast := Cast(w, winners);
    if Crashes(w, winners) || !AllSent(out, |cast|) then w
    else
      var votes := VoteOutputs(w.tickets, cast, stakebase, out);
      w.(maturingVotes := w.maturingVotes[height + p.coinbaseMaturity := votes])
  }

  // ----- starting and limiting -----

  function LimitNbVotes(w: Voting, newLimit: int): (Voting, bool) {
    if newLimit < 0 || newLimit > w.limitNbVotes then (w, false) else (w.(limitNbVotes := newLimit), true)
  }

  /** The outputs of the funding transaction the wallet will buy tickets with. */
  function Funding(txid: Hash, n: nat, value: int): (r: seq<UtxoInfo>)
    ensures |r| == n
  {
    seq(n, i requires 0 <= i < n => UtxoInfo(OutPoint(txid, i, REGULAR_TREE), value))
  }

  /** The wallet just started, funded with `n` outputs. */
  function Started(p: Params, txid: Hash, n: nat, value: int): Voting {
    Voting(Funding(txid, n, value), map[], map[], p.ticketsPerBlock)
  }

  // ----- the formulas, and the handlers together -----

  /** The count the wallet starts with is the one the design needs unless it does not fit 16 bits. */
  lemma RequiredTicketCountExact(p: Params)
    ensures var needed := (p.coinbaseMaturity + p.ticketMaturity + 2) * p.ticketsPerBlock;
            RequiredTicketCount(p) <= needed && (RequiredTicketCount(p) == needed <==> needed < 0x1_0000)
  {
    var blocks := p.coinbaseMaturity + p.ticketMaturity + 2;
    if p.ticketsPerBlock == 0 {
      assert blocks * p.ticketsPerBlock == 0;
    } else if blocks * p.ticketsPerBlock < UINT16_LIMIT {
      AtLeast(blocks, p.ticketsPerBlock);
    }
  }

  lemma AtLeast(a: nat, b: nat)
    requires b > 0
    ensures a <= a * b
  {
  }

  lemma {:induction false} AddTicketsAre(tickets: map<Hash, int>, out: Outcomes, n: nat, price: int)
    requires AllSent(out, n)
    ensures var t := AddTickets(tickets, out, n, price);
            && (forall h :: h in t <==> h in tickets || exists i :: 0 <= i < n && out(i).hash == h)
            && (forall h :: h in t && (forall i :: 0 <= i < n ==> out(i).hash != h) ==> t[h] == tickets[h])
            && (forall i :: 0 <= i < n ==> t[out(i).hash] == price)
  {
    if n > 0 {
      AddTicketsAre(tickets, out, n - 1, price);
    }
  }

  lemma {:induction false} MineSame(t: map<Hash, int>, t2: map<Hash, int>, winners: seq<Hash>)
    requires forall h :: h in winners ==> (h in t <==> h in t2)
    ensures Mine(t, winners) == Mine(t2, winners)
  {
    if winners != [] {
      MineSame(t, t2, winners[..|winners| - 1]);
    }
  }

  /** The winning tickets are not among those being bought. */
  predicate Unrelated(p: Params, winners: seq<Hash>, out: Outcomes) {
    forall h, i :: h in winners && 0 <= i < p.ticketsPerBlock && out(i).Sent? ==> out(i).hash != h
  }

  lemma BlockKeepsTickets(p: Params, w: Voting, height: int, sBits: int, out: Outcomes, winners: seq<Hash>)
    requires Unrelated(p, winners, out)
    ensures var w' := OnBlock(p, w, height, sBits, out);
            && w'.limitNbVotes == w.limitNbVotes
            && (forall h :: h in winners ==> Get(w'.tickets, h) == Get(w.tickets, h))
  {
    if Buys(p, w, height) && AllSigned(out, p.ticketsPerBlock) {
      var n := SentCount(out, p.ticketsPerBlock);
      AddTicketsAre(w.tickets, out, n, TicketPrice(sBits));
    }
  }

  lemma CastSame(w: Voting, w2: Voting, winners: seq<Hash>)
    requires w.limitNbVotes == w2.limitNbVotes
    requires forall h :: h in winners ==> Get(w.tickets, h) == Get(w2.tickets, h)
    ensures Cast(w, winners) == Cast(w2, winners) && (Crashes(w, winners) <==> Crashes(w2, winners))
    ensures forall h :: h in Cast(w, winners) ==> h in w.tickets && h in w2.tickets && w.tickets[h] == w2.tickets[h]
  {
    forall h | h in winners ensures h in w.tickets <==> h in w2.tickets {
      assert Get(w.tickets, h) == Get(w2.tickets, h);
    }
    MineSame(w.tickets, w2.tickets, winners);
    forall h | h in Cast(w, winners) ensures h in w.tickets && h in w2.tickets && w.tickets[h] == w2.tickets[h] {
      assert Get(w.tickets, h) == Get(w2.tickets, h);
    }
  }

  /** Voting with tickets returns what they cost: if all the winners were bought in one purchase, output 2
      of each vote, in the stake tree, returns the price of that purchase and the reward. */
  lemma VotesReturnPrice(p: Params, w: Voting, height: int, sBits: int, bought: Outcomes,
                         later: int, winners: seq<Hash>, stakebase: int, voted: Outcomes)
    requires Buys(p, w, height) && AllSent(bought, p.ticketsPerBlock) && |winners| <= w.limitNbVotes
    requires forall h :: h in winners ==> exists i :: 0 <= i < p.ticketsPerBlock && bought(i).hash == h
    requires AllSent(voted, |winners|)
    ensures var w1 := OnBlock(p, w, height, sBits, bought);
            var votes := Get(OnWinners(p, w1, later, winners, stakebase, voted).maturingVotes,
                  later + p.coinbaseMaturity);
            && votes.Some? && |votes.value| == |winners|
            && forall k :: 0 <= k < |winners| ==>
                 votes.value[k] == UtxoInfo(OutPoint(voted(k).hash, 2, 1),
                   sBits + (if sBits >= 0 then sBits / 6 else -(-sBits / 6)) + stakebase)
  {
    hide OnBlock, AddTickets, SentCount, Mine;
    BoughtAtPrice(p, w, height, sBits, bought);
    var w1 := OnBlock(p, w, height, sBits, bought);
    forall h | h in winners ensures Get(w1.tickets, h) == Some(TicketPrice(sBits)) {
      var i :| 0 <= i < p.ticketsPerBlock && bought(i).hash == h;
    }
    MineEvery(w1.tickets, winners);
    assert Cast(w1, winners) == winners;
    assert !Crashes(w1, winners);
    var votes := VoteOutputs(w1.tickets, winners, stakebase, voted);
    var w2 := OnWinners(p, w1, later, winners, stakebase, voted);
    assert Get(w2.maturingVotes, later + p.coinbaseMaturity) == Some(votes);
    assert forall k :: 0 <= k < |winners| ==> winners[k] in winners;
  }

  lemma BoughtAtPrice(p: Params, w: Voting, height: int, sBits: int, bought: Outcomes)
    requires Buys(p, w, height) && AllSent(bought, p.ticketsPerBlock)
    ensures var w1 := OnBlock(p, w, height, sBits, bought);
            && w1.limitNbVotes == w.limitNbVotes
            && forall i :: 0 <= i < p.ticketsPerBlock ==> Get(w1.tickets, bought(i).hash) == Some(TicketPrice(sBits))
  {
    hide TicketPrice;
    var n := p.ticketsPerBlock;
    assert SentCount(bought, n) == n;
    AddTicketsAre(w.tickets, bought, n, TicketPrice(sBits));
  }

  lemma {:induction false} MineEvery(tickets: map<Hash, int>, winners: seq<Hash>)
    requires forall h :: h in winners ==> h in tickets
    ensures Mine(tickets, winners) == winners
  {
    if winners != [] {
      var init, last := winners[..|winners| - 1], winners[|winners| - 1];
      MineEvery(tickets, init);
      assert init + [last] == winners;
      assert last in winners;
    }
  }

  lemma ReleaseOther(w: Voting, height: int, k: int, votes: seq<UtxoInfo>)
    requires k != height
    ensures Release(w.(maturingVotes := w.maturingVotes[k := votes]), height) ==
            Release(w, height).(maturingVotes := Release(w, height).maturingVotes[k := votes])
  {
    assert w.maturingVotes[k := votes] - {height} == (w.maturingVotes - {height})[k := votes];
  }

  lemma HandlersCommute(p: Params, w: Voting, height: int, sBits: int, bought: Outcomes,
                        winners: seq<Hash>, stakebase: int, voted: Outcomes)
    requires p.coinbaseMaturity >= 1 && Unrelated(p, winners, bought)
    ensures OnBlock(p, OnWinners(p, w, height, winners, stakebase, voted), height, sBits, bought) ==
            OnWinners(p, OnBlock(p, w, height, sBits, bought), height, winners, stakebase, voted)
  {
    hide OnBlock, Mine, Cast, Crashes;
    BlockKeepsTickets(p, w, height, sBits, bought, winners);
    var w1 := OnBlock(p, w, height, sBits, bought);
    CastSame(w, w1, winners);
    var cast := Cast(w, winners);
    if !Crashes(w, winners) && AllSent(voted, |cast|) {
      var votes := VoteOutputs(w.tickets, cast, stakebase, voted);
      assert votes == VoteOutputs(w1.tickets, cast, stakebase, voted);
      BlockWithMore(p, w, height, sBits, bought, height + p.coinbaseMaturity, votes);
    }
  }

  lemma BlockWithMore(p: Params, w: Voting, height: int, sBits: int, out: Outcomes, k: int, votes: seq<UtxoInfo>)
    requires k != height
    ensures var w' := OnBlock(p, w, height, sBits, out);
            OnBlock(p, w.(maturingVotes := w.maturingVotes[k := votes]), height, sBits, out) ==
            w'.(maturingVotes := w'.maturingVotes[k := votes])
  {
    if Buys(p, w, height) && AllSigned(out, p.ticketsPerBlock) {
      var n := SentCount(out, p.ticketsPerBlock);
      var w2 := w.(utxos := Rest(p, w), tickets := AddTickets(w.tickets, out, n, TicketPrice(sBits)));
      ReleaseOther(w2, height, k, votes);
    }
  }

  /** Something is filed: the source neither stops at an index out of range nor at a vote it cannot send. */
  predicate Files(w: Voting, winners: seq<Hash>, voted: Outcomes) {
    !Crashes(w, winners) && AllSent(voted, |Cast(w, winners)|)
  }

  /** The purchase goes through to the end, where votes are released. */
  predicate Completes(p: Params, w: Voting, height: int, bought: Outcomes) {
    Buys(p, w, height) && AllSent(bought, p.ticketsPerBlock)
  }

  lemma {:induction false} SentCountAll(out: Outcomes, n: nat)
    ensures SentCount(out, n) == n <==> AllSent(out, n)
  {
    if n > 0 {
      SentCountAll(out, n - 1);
    }
  }

  /** With a coinbase maturity of zero the votes of a block are released with it if handled first; if
      handled after it they are filed under its height, which no later block releases. */
  lemma ZeroMaturityStrandsVotes(p: Params, w: Voting, height: int, sBits: int, bought: Outcomes,
                                 winners: seq<Hash>, stakebase: int, voted: Outcomes, later: int)
    requires p.coinbaseMaturity == 0 && Unrelated(p, winners, bought)
    requires Completes(p, w, height, bought) && Files(w, winners, voted) && later > height
    ensures var votes := VoteOutputs(w.tickets, Cast(w, winners), stakebase, voted);
            var votesFirst := OnBlock(p, OnWinners(p, w, height, winners, stakebase, voted), height, sBits, bought);
            var blockFirst := OnWinners(p, OnBlock(p, w, height, sBits, bought), height, winners, stakebase, voted);
            && votesFirst.utxos == Rest(p, w) + votes && height !in votesFirst.maturingVotes
            && Get(blockFirst.maturingVotes, height) == Some(votes)
            && Get(OnBlock(p, blockFirst, later, sBits, bought).maturingVotes, height) == Some(votes)
  {
    hide Mine, AddTickets, TicketPrice;
    BlockKeepsTickets(p, w, height, sBits, bought, winners);
    var w1 := OnBlock(p, w, height, sBits, bought);
    CastSame(w, w1, winners);
    var cast := Cast(w, winners);
    assert VoteOutputs(w.tickets, cast, stakebase, voted) == VoteOutputs(w1.tickets, cast, stakebase, voted);
    SentCountAll(bought, p.ticketsPerBlock);
  }

  /** Where nothing is filed, or the block releases nothing, the maturity does not matter. */
  lemma HandlersIndependent(p: Params, w: Voting, height: int, sBits: int, bought: Outcomes,
                            winners: seq<Hash>, stakebase: int, voted: Outcomes)
    requires Unrelated(p, winners, bought)
    requires !Files(w, winners, voted) || !Completes(p, w, height, bought)
    ensures OnBlock(p, OnWinners(p, w, height, winners, stakebase, voted), height, sBits, bought) ==
            OnWinners(p, OnBlock(p, w, height, sBits, bought), height, winners, stakebase, voted)
  {
    hide Mine, AddTickets, TicketPrice;
    BlockKeepsTickets(p, w, height, sBits, bought, winners);
    var w1 := OnBlock(p, w, height, sBits, bought);
    CastSame(w, w1, winners);
    var cast := Cast(w, winners);
    SentCountAll(bought, p.ticketsPerBlock);
    if Files(w, winners, voted) {
      assert VoteOutputs(w.tickets, cast, stakebase, voted) == VoteOutputs(w1.tickets, cast, stakebase, voted);
    }
  }

  /** When no winner was bought on the block, its two handlers give the same wallet in either order,
      failures included, exactly if its votes mature on a later block, or none are filed, or the block
      buys no tickets, or not all of them. */
  lemma HandlersCommuteIff(p: Params, w: Voting, height: int, sBits: int, bought: Outcomes,
                           winners: seq<Hash>, stakebase: int, voted: Outcomes)
    requires Unrelated(p, winners, bought)
    ensures OnBlock(p, OnWinners(p, w, height, winners, stakebase, voted), height, sBits, bought) ==
            OnWinners(p, OnBlock(p, w, height, sBits, bought), height, winners, stakebase, voted) <==>
            p.coinbaseMaturity >= 1 || !Files(w, winners, voted) || !Completes(p, w, height, bought)
  {
    hide OnBlock, OnWinners, Files, Completes, Unrelated;
    if p.coinbaseMaturity >= 1 {
      HandlersCommute(p, w, height, sBits, bought, winners, stakebase, voted);
    } else if Files(w, winners, voted) && Completes(p, w, height, bought) {
      ZeroMaturityStrandsVotes(p, w, height, sBits, bought, winners, stakebase, voted, height + 1);
    } else {
      HandlersIndependent(p, w, height, sBits, bought, winners, stakebase, voted);
    }
  }
}
