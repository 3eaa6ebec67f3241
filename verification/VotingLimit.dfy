/** What lowering the vote limit does to the closed loop. */
module VotingLimit {
  import opened WalletTypes
  import opened VotingSpec
  import opened VotingFunds
  import opened VotingPool

  function Lower(p: Params, s: Sys, limit: nat): Sys {
    s.(run := Do(p, s.run, Limit(limit)))
  }

  /** The loop going on from a given state before round `i0`. */
  function ExecFrom(p: Params, s: Sys, i0: nat, rounds: seq<Round>, n: nat): Sys
    requires n <= |rounds|
  {
    if n == 0 then s else Advance(p, ExecFrom(p, s, i0, rounds, n - 1), i0 + n - 1, rounds[n - 1])
  }

  predicate PossibleFrom(p: Params, s: Sys, i0: nat, rounds: seq<Round>, k: nat)
    requires k < |rounds|
  {
    Possible(p, ExecFrom(p, s, i0, rounds, k), i0 + k, rounds[k])
  }

  predicate CanBuyFrom(p: Params, s: Sys, i0: nat, rounds: seq<Round>, k: nat)
    requires k <= |rounds|
  {
    CanBuy(p, ExecFrom(p, s, i0, rounds, k))
  }

  /** The round from which the releases are of votes cast under the lower limit. */
  function FirstShort(p: Params, i0: nat): nat {
    if Lead(p) < i0 + p.coinbaseMaturity then i0 + p.coinbaseMaturity else Lead(p)
  }

  function ShortReleases(p: Params, i0: nat, i: nat): nat {
    if i <= FirstShort(p, i0) then 0 else i - FirstShort(p, i0)
  }

  /** What the releases of votes cast under the lower limit have been short by, before round `i`. */
  function Missing(p: Params, i0: nat, limit: nat, i: nat): int {
    (p.ticketsPerBlock - limit) * ShortReleases(p, i0, i)
  }

  /** How many votes were cast in the round whose votes mature at this height. */
  function CastFor(p: Params, i0: nat, limit: nat, height: int): int {
    if height - Height(p, 0) - p.coinbaseMaturity < i0 then p.ticketsPerBlock else limit
  }

  ghost predicate FiledOk(p: Params, i0: nat, limit: nat, m: map<int, seq<UtxoInfo>>, i: nat) {
    && (forall k :: k in m <==> MaturesAt(p, i, k))
    && (forall k :: k in m ==> |m[k]| == CastFor(p, i0, limit, k))
  }

  ghost predicate Limited(p: Params, n: nat, i0: nat, limit: nat, s: Sys, i: nat) {
    && i0 <= i
    && BatchesOk(p, s, i)
    && FiledOk(p, i0, limit, s.run.w.maturingVotes, i)
    && |s.run.w.utxos| + Used(p, i) + Missing(p, i0, limit, i) == n
    && s.run.w.limitNbVotes == limit
  }

  lemma LowerLimited(p: Params, n: nat, s: Sys, i0: nat, limit: nat)
    requires Good(p, n, s, i0) && limit <= p.ticketsPerBlock
    ensures Limited(p, n, i0, limit, Lower(p, s, limit), i0)
  {
    hide Inv, Conserved, Used;
    var s2 := Lower(p, s, limit);
    forall j | 0 <= j < i0 ensures BatchOk(p, s2, j) {
      assert BatchOk(p, s, j);
    }
    forall k | k in s2.run.w.maturingVotes ensures CastFor(p, i0, limit, k) == p.ticketsPerBlock {
      assert MaturesAt(p, i0, k);
    }
    assert (p.ticketsPerBlock - limit) * 0 == 0;
  }

  lemma FileAndReleaseLimited(p: Params, i0: nat, limit: nat, i: nat, m: map<int, seq<UtxoInfo>>,
                              m1: map<int, seq<UtxoInfo>>, votes: seq<UtxoInfo>)
    requires i0 <= i && FiledOk(p, i0, limit, m, i) && |votes| == limit
    requires m1 == if HasWinners(p, i) then m[Height(p, i) + p.coinbaseMaturity := votes] else m
    ensures FiledOk(p, i0, limit, m1 - {Height(p, i)}, i + 1)
    ensures Height(p, i) in m1 <==> i >= Lead(p)
    ensures Height(p, i) in m1 ==> |m1[Height(p, i)]| == CastFor(p, i0, limit, Height(p, i))
  {
    assert Height(p, i) in m <==> MaturesAt(p, i, Height(p, i));
    var m2 := m1 - {Height(p, i)};
    forall k ensures k in m2 <==> MaturesAt(p, i + 1, k) {
      assert k in m <==> MaturesAt(p, i, k);
    }
  }

  lemma MissingStep(p: Params, i0: nat, limit: nat, i: nat)
    requires i0 <= i
    ensures Missing(p, i0, limit, i + 1) ==
            Missing(p, i0, limit, i) + (if i >= FirstShort(p, i0) then p.ticketsPerBlock - limit else 0)
    ensures Used(p, i + 1) - Used(p, i) + Missing(p, i0, limit, i + 1) - Missing(p, i0, limit, i) ==
            p.ticketsPerBlock - (if i >= Lead(p) then CastFor(p, i0, limit, Height(p, i)) else 0)
  {
    UsedStep(p, i);
    var d, k := p.ticketsPerBlock - limit, ShortReleases(p, i0, i);
    assert d * (k + 1) == d * k + d;
  }

  lemma RoundKeepsLimited(p: Params, n: nat, i0: nat, limit: nat, s: Sys, i: nat, r: Round)
    requires Limited(p, n, i0, limit, s, i) && Possible(p, s, i, r) && CanBuy(p, s)
    requires 0 < limit <= p.ticketsPerBlock
    ensures Limited(p, n, i0, limit, Advance(p, s, i, r), i + 1)
  {
    hide Used, Missing;
    OrderIrrelevant(p, s, i, r);
    var run1 := DoVotes(p, s.run, i, r);
    var votes: seq<UtxoInfo> := seq(limit, _ => UtxoInfo(OutPoint(0, 0, 0), 0));
    if HasWinners(p, i) {
      votes := VotesEffect(p, s, i, r);
    }
    BlockEffect(p, run1.w, i, r);
    FileAndReleaseLimited(p, i0, limit, i, s.run.w.maturingVotes, run1.w.maturingVotes, votes);
    MissingStep(p, i0, limit, i);
    BatchesAdvance(p, s, i, r, Advance(p, s, i, r));
  }

  lemma {:induction false} RunLimited(p: Params, n: nat, i0: nat, limit: nat, s: Sys, rounds: seq<Round>, k: nat)
    requires Limited(p, n, i0, limit, s, i0) && 0 < limit <= p.ticketsPerBlock && k <= |rounds|
    requires forall j :: 0 <= j < k ==> PossibleFrom(p, s, i0, rounds, j) && CanBuyFrom(p, s, i0, rounds, j)
    ensures Limited(p, n, i0, limit, ExecFrom(p, s, i0, rounds, k), i0 + k)
  {
    hide Limited, Possible, Advance, CanBuy;
    if k > 0 {
      RunLimited(p, n, i0, limit, s, rounds, k - 1);
      assert PossibleFrom(p, s, i0, rounds, k - 1) && CanBuyFrom(p, s, i0, rounds, k - 1);
      RoundKeepsLimited(p, n, i0, limit, ExecFrom(p, s, i0, rounds, k - 1), i0 + k - 1, rounds[k - 1]);
    }
  }

  // ----- when buying stops -----

  lemma StarvedRound(p: Params, s: Sys, i: nat, r: Round)
    requires !CanBuy(p, s)
    ensures !CanBuy(p, Advance(p, s, i, r))
  {
    StarvedStep(p, s.run, BlockEvent(p, i, r));
    StarvedStep(p, s.run, VoteEvent(p, i, r));
    StarvedStep(p, DoBlock(p, s.run, i, r), VoteEvent(p, i, r));
    StarvedStep(p, DoVotes(p, s.run, i, r), BlockEvent(p, i, r));
  }

  /** With exactly the outputs needed, the pool covers every purchase until the first short release, and
      then holds only what the lower limit returned. */
  lemma LimitedPool(p: Params, n: nat, i0: nat, limit: nat, s: Sys, i: nat)
    requires Limited(p, n, i0, limit, s, i) && n == Needed(p) && limit < p.ticketsPerBlock
    ensures i <= FirstShort(p, i0) ==> CanBuy(p, s)
    ensures i == FirstShort(p, i0) + 1 ==> |s.run.w.utxos| == limit
  {
    hide Used, Needed, BatchesOk, FiledOk;
    UsedBelowNeeded(p, i);
    UsedBelowNeeded(p, Lead(p));
    UsedAfterLead(p, i);
    var d := p.ticketsPerBlock - limit;
    assert d * 0 == 0 && d * 1 == d;
  }

  lemma UsedAfterLead(p: Params, i: nat)
    ensures i >= Lead(p) ==> Used(p, i) == Used(p, Lead(p))
  {
  }

  /** From a wallet in the closed loop with exactly the outputs needed, whose limit is lowered before round
      `i0`: every purchase up to the first short release can be made, and none after it. */
  lemma {:induction false} BuysUntilShort(p: Params, n: nat, i0: nat, limit: nat, s: Sys, rounds: seq<Round>, k: nat)
    requires Limited(p, n, i0, limit, s, i0) && n == Needed(p) && 0 < limit < p.ticketsPerBlock && k <= |rounds|
    requires forall j :: 0 <= j < |rounds| && i0 + j <= FirstShort(p, i0) ==> PossibleFrom(p, s, i0, rounds, j)
    ensures CanBuyFrom(p, s, i0, rounds, k) <==> i0 + k <= FirstShort(p, i0)
    decreases k
  {
    hide Limited, Possible, Advance, FirstShort, CanBuy, Needed;
    if i0 + k <= FirstShort(p, i0) + 1 {
      forall j: nat | j < k ensures PossibleFrom(p, s, i0, rounds, j) && CanBuyFrom(p, s, i0, rounds, j) {
        BuysUntilShort(p, n, i0, limit, s, rounds, j);
      }
      RunLimited(p, n, i0, limit, s, rounds, k);
      LimitedPool(p, n, i0, limit, ExecFrom(p, s, i0, rounds, k), i0 + k);
      FewCannotBuy(p, ExecFrom(p, s, i0, rounds, k), limit);
    } else if k > 0 {
      BuysUntilShort(p, n, i0, limit, s, rounds, k - 1);
      StarvedRound(p, ExecFrom(p, s, i0, rounds, k - 1), i0 + k - 1, rounds[k - 1]);
    } else {
      ShortLater(p, i0);
    }
  }

  lemma FewCannotBuy(p: Params, s: Sys, limit: nat)
    requires limit < p.ticketsPerBlock
    ensures |s.run.w.utxos| == limit ==> !CanBuy(p, s)
  {
  }

  lemma ShortLater(p: Params, i0: nat)
    ensures FirstShort(p, i0) >= i0
    ensures i0 >= p.ticketMaturity + 1 ==> FirstShort(p, i0) == i0 + p.coinbaseMaturity
  {
  }

  /** Lowering the vote limit once votes are being cast ends the loop: with the outputs needed and no more,
      tickets are bought on the next coinbase maturity plus one blocks and on none from then on. */
  lemma LoweringStopsBuying(p: Params, txid: Hash, n: nat, value: int, before: seq<Round>, limit: nat,
                            after: seq<Round>, k: nat)
    requires n == Needed(p) && Legal(p, Started(p, txid, n, value), before) && HasWinners(p, |before|)
    requires 0 < limit < p.ticketsPerBlock && k <= |after|
    requires var s := Lower(p, Exec(p, Started(p, txid, n, value), before, |before|), limit);
             forall j :: 0 <= j < |after| && j <= p.coinbaseMaturity ==> PossibleFrom(p, s, |before|, after, j)
    ensures var s := Lower(p, Exec(p, Started(p, txid, n, value), before, |before|), limit);
            CanBuyFrom(p, s, |before|, after, k) <==> k <= p.coinbaseMaturity
  {
    hide Limited, Good, Legal, Possible, Advance, CanBuyFrom, Needed;
    var i0, start := |before|, Started(p, txid, n, value);
    EnoughForEver(p, txid, n, value, before, i0);
    RunGood(p, txid, n, value, before, i0);
    var s := Lower(p, Exec(p, start, before, i0), limit);
    LowerLimited(p, n, Exec(p, start, before, i0), i0, limit);
    ShortLater(p, i0);
    BuysUntilShort(p, n, i0, limit, s, after, k);
  }
}
