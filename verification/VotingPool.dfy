/** The voting wallet in a closed loop with the chain: outputs become tickets, tickets win and vote, and
    what the votes return buys tickets again. */
module VotingPool {
  import opened WalletTypes
  import opened VotingSpec
  import opened VotingFunds

  /** What happens around one block from the purchase start on: the tickets bought on it, the winners its
      notification names, the votes sent for them, and which of its two notifications is handled first. */
  datatype Round = Round(
    sBits: int, bought: seq<Hash>, winners: seq<Hash>, voted: seq<Hash>, stakebase: int, blockFirst: bool)

  /** The wallet, the tickets bought in each round and the tickets that have won. */
  datatype Sys = Sys(run: Run, batches: seq<seq<Hash>>, drawn: set<Hash>)

  function SentAs(hashes: seq<Hash>): Outcomes {
    (k: nat) => if k < |hashes| then Sent(hashes[k]) else Refused
  }

  function Height(p: Params, i: nat): int {
    TicketPurchaseStartHeight(p) + i
  }

  /** Blocks from one before the stake validation height on have winners. */
  predicate HasWinners(p: Params, i: nat) {
    Height(p, i) >= p.stakeValidationHeight - 1
  }

  function BlockEvent(p: Params, i: nat, r: Round): Event {
    BlockConnected(Height(p, i), r.sBits, SentAs(r.bought))
  }

  function VoteEvent(p: Params, i: nat, r: Round): Event {
    WinningTickets(Height(p, i), r.winners, r.stakebase, SentAs(r.voted))
  }

  function DoBlock(p: Params, run: Run, i: nat, r: Round): Run {
    Do(p, run, BlockEvent(p, i, r))
  }

  function DoVotes(p: Params, run: Run, i: nat, r: Round): Run {
    if HasWinners(p, i) then Do(p, run, VoteEvent(p, i, r)) else run
  }

  function Handle(p: Params, run: Run, i: nat, r: Round): Run {
    if r.blockFirst then DoVotes(p, DoBlock(p, run, i, r), i, r) else DoBlock(p, DoVotes(p, run, i, r), i, r)
  }

  function Advance(p: Params, s: Sys, i: nat, r: Round): Sys {
    Sys(Handle(p, s.run, i, r),
        s.batches + [if |s.run.w.utxos| >= p.ticketsPerBlock then r.bought else []],
        s.drawn + (if HasWinners(p, i) then Elements(r.winners) else {}))
  }

  function Exec(p: Params, start: Voting, rounds: seq<Round>, n: nat): Sys
    requires n <= |rounds|
  {
    if n == 0 then Sys(Init(start), [], {}) else Advance(p, Exec(p, start, rounds, n - 1), n - 1, rounds[n - 1])
  }

  // ----- what the chain does -----

  predicate Unique<T(==)>(s: seq<T>) {
    forall i, j :: 0 <= i < j < |s| ==> s[i] != s[j]
  }

  /** A ticket bought on a block is mined in the next, matures, and is live until it wins. */
  predicate Live(p: Params, s: Sys, i: nat, h: Hash) {
    && h !in s.drawn
    && (exists j :: 0 <= j < |s.batches| && j + p.ticketMaturity + 1 <= i && h in s.batches[j])
  }

  /** Transactions are new, every one is sent, and each block that has winners draws its number of
      different live tickets. With no coinbase maturity the votes must be handled first. */
  predicate Possible(p: Params, s: Sys, i: nat, r: Round) {
    && |r.bought| == p.ticketsPerBlock && Unique(r.bought)
    && (forall h :: h in r.bought ==> h !in s.run.w.tickets)
    && |r.voted| == p.ticketsPerBlock && Unique(r.voted)
    && (forall h :: h in r.voted ==> h !in s.run.created)
    && (HasWinners(p, i) ==>
          && |r.winners| == p.ticketsPerBlock && Unique(r.winners)
          && (forall h :: h in r.winners ==> Live(p, s, i, h)))
    && (p.coinbaseMaturity >= 1 || !r.blockFirst)
  }

  predicate PossibleAt(p: Params, start: Voting, rounds: seq<Round>, i: nat)
    requires i < |rounds|
  {
    Possible(p, Exec(p, start, rounds, i), i, rounds[i])
  }

  predicate Legal(p: Params, start: Voting, rounds: seq<Round>) {
    forall i :: 0 <= i < |rounds| ==> PossibleAt(p, start, rounds, i)
  }

  // ----- the invariant -----

  /** The rounds after which the first votes are released. */
  function Lead(p: Params): nat {
    p.coinbaseMaturity + p.ticketMaturity + 1
  }

  /** How far below its start the pool is before round `i`. */
  function Used(p: Params, i: nat): nat {
    p.ticketsPerBlock * (if i < Lead(p) then i else Lead(p))
  }

  /** The tickets bought in the first `n` rounds. */
  function BoughtBy(batches: seq<seq<Hash>>, n: nat): set<Hash>
    requires n <= |batches|
  {
    if n == 0 then {} else BoughtBy(batches, n - 1) + Elements(batches[n - 1])
  }

  /** How many rounds of tickets have matured, and so won, before round `i`. */
  function Matured(p: Params, i: nat): (m: nat)
    ensures m <= i
  {
    if i <= p.ticketMaturity + 1 then 0 else i - p.ticketMaturity - 1
  }

  predicate BatchOk(p: Params, s: Sys, j: nat)
    requires j < |s.batches|
  {
    |s.batches[j]| == p.ticketsPerBlock && Unique(s.batches[j]) && Elements(s.batches[j]) !! BoughtBy(s.batches, j)
  }

  /** Every round bought its tickets, and those of the matured rounds are the ones that have won. */
  predicate BatchesOk(p: Params, s: Sys, i: nat) {
    && |s.batches| == i
    && (forall j :: 0 <= j < i ==> BatchOk(p, s, j))
    && s.run.w.tickets.Keys == BoughtBy(s.batches, i)
    && s.drawn == BoughtBy(s.batches, Matured(p, i))
  }

  /** Votes of round `j` mature at this height. */
  predicate MaturesAt(p: Params, i: nat, height: int) {
    var j := height - Height(p, 0) - p.coinbaseMaturity;
    p.ticketMaturity + 1 <= j < i <= j + p.coinbaseMaturity
  }

  ghost predicate VotesOk(p: Params, m: map<int, seq<UtxoInfo>>, i: nat) {
    && (forall k :: k in m <==> MaturesAt(p, i, k))
    && (forall k :: k in m ==> |m[k]| == p.ticketsPerBlock)
  }

  ghost function Held(m: map<int, seq<UtxoInfo>>): nat {
    if exists k :: k in m then var k :| k in m; |m[k]| + Held(m - {k}) else 0
  }

  /** Tickets bought that have not won. */
  function Outstanding(s: Sys): set<Hash> {
    s.run.w.tickets.Keys - s.drawn
  }

  /** Every output the wallet was funded with is in the pool, in a ticket yet to win, or in a vote yet to
      mature. */
  ghost predicate Conserved(s: Sys, n: nat) {
    |s.run.w.utxos| + |Outstanding(s)| + Held(s.run.w.maturingVotes) == n
  }

  ghost predicate Good(p: Params, n: nat, s: Sys, i: nat) {
    && BatchesOk(p, s, i)
    && VotesOk(p, s.run.w.maturingVotes, i)
    && Conserved(s, n)
    && |s.run.w.utxos| + Used(p, i) == n
    && s.run.w.limitNbVotes == p.ticketsPerBlock
    && Inv(s.run)
  }

  // ----- counting -----

  lemma {:induction false} HeldRemove(m: map<int, seq<UtxoInfo>>, k: int)
    requires k in m
    ensures Held(m) == |m[k]| + Held(m - {k})
  {
    var f :| f in m && Held(m) == |m[f]| + Held(m - {f});
    if f != k {
      HeldRemove(m - {f}, k);
      HeldRemove(m - {k}, f);
      assert m - {f} - {k} == m - {k} - {f};
    }
  }

  lemma HeldInsert(m: map<int, seq<UtxoInfo>>, k: int, v: seq<UtxoInfo>)
    requires k !in m
    ensures Held(m[k := v]) == Held(m) + |v|
  {
    HeldRemove(m[k := v], k);
    assert m[k := v] - {k} == m;
  }

  lemma {:induction false} UniqueSize<T>(s: seq<T>)
    requires Unique(s)
    ensures |Elements(s)| == |s|
  {
    if s == [] {
      assert Elements(s) == {};
    } else {
      var init := s[..|s| - 1];
      UniqueSize(init);
      assert s == init + [s[|s| - 1]];
      assert Elements(s) == Elements(init) + {s[|s| - 1]};
    }
  }

  lemma SubsetOfSameSize<T>(a: set<T>, b: set<T>)
    requires a <= b && |a| == |b|
    ensures a == b
  {
    if a != b {
      var x :| x in b && x !in a;
      SizeOfSubset(a, b - {x});
    }
  }

  lemma {:induction false} SizeOfSubset<T>(a: set<T>, b: set<T>)
    requires a <= b
    ensures |a| <= |b|
  {
    if a != {} {
      var x :| x in a;
      SizeOfSubset(a - {x}, b - {x});
    }
  }

  lemma UsedStep(p: Params, i: nat)
    ensures Used(p, i + 1) == Used(p, i) + (if i < Lead(p) then p.ticketsPerBlock else 0)
  {
  }

  // ----- one round, votes first -----

  lemma {:induction false} BoughtByGrows(batches: seq<seq<Hash>>, j: nat, n: nat)
    requires j < n <= |batches|
    ensures Elements(batches[j]) <= BoughtBy(batches, n) && BoughtBy(batches, j) <= BoughtBy(batches, n)
  {
    if j < n - 1 {
      BoughtByGrows(batches, j, n - 1);
    }
  }

  lemma {:induction false} BoughtByAppend(batches: seq<seq<Hash>>, more: seq<Hash>, n: nat)
    requires n <= |batches|
    ensures BoughtBy(batches + [more], n) == BoughtBy(batches, n)
  {
    if n > 0 {
      BoughtByAppend(batches, more, n - 1);
    }
  }

  /** The live tickets a block draws from are exactly those of one round. */
  lemma WinnersAre(p: Params, s: Sys, i: nat, r: Round)
    requires BatchesOk(p, s, i) && Possible(p, s, i, r) && HasWinners(p, i)
    ensures i >= p.ticketMaturity + 1
    ensures Elements(r.winners) == Elements(s.batches[i - p.ticketMaturity - 1])
    ensures Elements(r.winners) !! s.drawn && Elements(r.winners) <= s.run.w.tickets.Keys
  {
    var m := i - p.ticketMaturity - 1;
    assert BatchOk(p, s, m);
    forall h | h in r.winners ensures h in Elements(s.batches[m]) {
      assert Live(p, s, i, h);
      var j :| 0 <= j < |s.batches| && j + p.ticketMaturity + 1 <= i && h in s.batches[j];
      if j < m {
        BoughtByGrows(s.batches, j, m);
        assert false;
      }
    }
    UniqueSize(r.winners);
    UniqueSize(s.batches[m]);
    SubsetOfSameSize(Elements(r.winners), Elements(s.batches[m]));
    BoughtByGrows(s.batches, m, i);
  }

  /** The vote limit is at most its start, and no vote at all is allowed only where none is needed. */
  predicate LimitOk(p: Params, w: Voting) {
    w.limitNbVotes <= p.ticketsPerBlock && (w.limitNbVotes == 0 ==> p.ticketsPerBlock == 0)
  }

  /** The votes of round `i` are filed under one new height, and nothing else changes. */
  lemma VotesEffect(p: Params, s: Sys, i: nat, r: Round) returns (votes: seq<UtxoInfo>)
    requires BatchesOk(p, s, i) && Possible(p, s, i, r) && HasWinners(p, i) && LimitOk(p, s.run.w)
    ensures |votes| == s.run.w.limitNbVotes
    ensures DoVotes(p, s.run, i, r).w ==
            s.run.w.(maturingVotes := s.run.w.maturingVotes[Height(p, i) + p.coinbaseMaturity := votes])
    ensures FreshVotes(s.run, VoteEvent(p, i, r))
  {
    hide Mine;
    var w := s.run.w;
    WinnersAre(p, s, i, r);
    forall h | h in r.winners ensures h in w.tickets {
      assert h in Elements(r.winners);
    }
    MineEvery(w.tickets, r.winners);
    var cast := Cast(w, r.winners);
    assert |cast| == w.limitNbVotes;
    votes := VoteOutputs(w.tickets, cast, r.stakebase, SentAs(r.voted));
  }

  lemma BlockEffect(p: Params, w: Voting, i: nat, r: Round)
    requires |r.bought| == p.ticketsPerBlock && |w.utxos| >= p.ticketsPerBlock
    ensures var w2 := OnBlock(p, w, Height(p, i), r.sBits, SentAs(r.bought));
            && w2.limitNbVotes == w.limitNbVotes
            && w2.maturingVotes == w.maturingVotes - {Height(p, i)}
            && |w2.utxos| == |w.utxos| - p.ticketsPerBlock +
                 (if Height(p, i) in w.maturingVotes then |w.maturingVotes[Height(p, i)]| else 0)
            && w2.tickets.Keys == w.tickets.Keys + Elements(r.bought)
  {
    var out, n := SentAs(r.bought), p.ticketsPerBlock;
    assert SentCount(out, n) == n;
    AddTicketsAre(w.tickets, out, n, TicketPrice(r.sBits));
    var t := AddTickets(w.tickets, out, n, TicketPrice(r.sBits));
    forall h | h in r.bought ensures h in t {
      var k :| 0 <= k < |r.bought| && r.bought[k] == h;
      assert out(k).hash == h;
    }
    assert w.maturingVotes - {Height(p, i)} ==
           if Height(p, i) in w.maturingVotes then w.maturingVotes - {Height(p, i)} else w.maturingVotes;
  }

  lemma BoughtOthers(p: Params, s: Sys, i: nat, r: Round)
    requires BatchesOk(p, s, i) && Possible(p, s, i, r) && HasWinners(p, i)
    ensures Unrelated(p, r.winners, SentAs(r.bought))
  {
    WinnersAre(p, s, i, r);
    forall h, k | h in r.winners && 0 <= k < p.ticketsPerBlock ensures r.bought[k] != h {
      assert h in Elements(r.winners) && r.bought[k] in r.bought;
    }
  }

  /** The order in which a block's two notifications are handled makes no difference to the wallet. */
  lemma OrderIrrelevant(p: Params, s: Sys, i: nat, r: Round)
    requires BatchesOk(p, s, i) && Possible(p, s, i, r) && LimitOk(p, s.run.w)
    ensures Handle(p, s.run, i, r) == DoBlock(p, DoVotes(p, s.run, i, r), i, r)
  {
    if r.blockFirst && HasWinners(p, i) {
      var e, w := VoteEvent(p, i, r), s.run.w;
      BoughtOthers(p, s, i, r);
      HandlersCommute(p, w, Height(p, i), r.sBits, SentAs(r.bought), r.winners, r.stakebase, SentAs(r.voted));
      BlockKeepsTickets(p, w, Height(p, i), r.sBits, SentAs(r.bought), r.winners);
      var w1 := DoBlock(p, s.run, i, r).w;
      CastSame(w, w1, r.winners);
      assert Votes(w1, e) == Votes(w, e);
      var votes := VotesEffect(p, s, i, r);
      assert Spends(p, DoVotes(p, s.run, i, r).w, BlockEvent(p, i, r)) == Spends(p, w, BlockEvent(p, i, r));
    }
  }

  // ----- the round as a whole -----

  /** Filing the votes of round `i` and releasing those that mature on it. */
  lemma FileAndRelease(p: Params, i: nat, m: map<int, seq<UtxoInfo>>, m1: map<int, seq<UtxoInfo>>, votes: seq<UtxoInfo>)
    requires VotesOk(p, m, i) && |votes| == p.ticketsPerBlock
    requires m1 == if HasWinners(p, i) then m[Height(p, i) + p.coinbaseMaturity := votes] else m
    ensures VotesOk(p, m1 - {Height(p, i)}, i + 1)
    ensures Height(p, i) in m1 <==> i >= Lead(p)
    ensures Height(p, i) in m1 ==> |m1[Height(p, i)]| == p.ticketsPerBlock
    ensures Held(m1 - {Height(p, i)}) + (if i >= Lead(p) then p.ticketsPerBlock else 0) ==
            Held(m) + (if HasWinners(p, i) then p.ticketsPerBlock else 0)
  {
    if HasWinners(p, i) {
      assert !MaturesAt(p, i, Height(p, i) + p.coinbaseMaturity);
      HeldInsert(m, Height(p, i) + p.coinbaseMaturity, votes);
    }
    assert Height(p, i) in m1 <==> i >= Lead(p) by {
      assert Height(p, i) in m <==> MaturesAt(p, i, Height(p, i));
    }
    if Height(p, i) in m1 {
      HeldRemove(m1, Height(p, i));
    } else {
      assert m1 - {Height(p, i)} == m1;
    }
    var m2 := m1 - {Height(p, i)};
    forall k ensures k in m2 <==> MaturesAt(p, i + 1, k) {
      assert k in m <==> MaturesAt(p, i, k);
    }
  }

  lemma VotesFiled(p: Params, n: nat, s: Sys, i: nat, r: Round, run1: Run) returns (votes: seq<UtxoInfo>)
    requires Good(p, n, s, i) && Possible(p, s, i, r) && run1 == DoVotes(p, s.run, i, r)
    ensures |votes| == p.ticketsPerBlock
    ensures run1.w == s.run.w.(maturingVotes :=
              if HasWinners(p, i) then s.run.w.maturingVotes[Height(p, i) + p.coinbaseMaturity := votes]
                    else s.run.w.maturingVotes)
    ensures Inv(run1)
  {
    if HasWinners(p, i) {
      votes := VotesEffect(p, s, i, r);
      StepKeepsInv(p, s.run, VoteEvent(p, i, r));
    } else {
      votes := seq(p.ticketsPerBlock, _ => UtxoInfo(OutPoint(0, 0, 0), 0));
    }
  }

  lemma OutstandingSize(tickets: set<Hash>, drawn: set<Hash>, bought: set<Hash>, winners: set<Hash>)
    requires bought !! tickets && drawn <= tickets && winners <= tickets - drawn
    ensures |(tickets + bought) - (drawn + winners)| == |tickets - drawn| + |bought| - |winners|
  {
    var left := tickets - drawn - winners;
    assert (tickets + bought) - (drawn + winners) == left + bought;
    assert tickets - drawn == left + winners;
  }

  /** Tickets move from live to won one round at a time. */
  lemma BatchesAdvance(p: Params, s: Sys, i: nat, r: Round, s2: Sys)
    requires BatchesOk(p, s, i) && Possible(p, s, i, r)
    requires s2.batches == s.batches + [r.bought]
    requires s2.drawn == s.drawn + (if HasWinners(p, i) then Elements(r.winners) else {})
    requires s2.run.w.tickets.Keys == s.run.w.tickets.Keys + Elements(r.bought)
    ensures BatchesOk(p, s2, i + 1)
  {
    forall j | 0 <= j <= i ensures BatchOk(p, s2, j) {
      BoughtByAppend(s.batches, r.bought, j);
      assert j < i ==> BatchOk(p, s, j) && s2.batches[j] == s.batches[j];
    }
    BoughtByAppend(s.batches, r.bought, i);
    BoughtByAppend(s.batches, r.bought, Matured(p, i));
    if HasWinners(p, i) {
      WinnersAre(p, s, i, r);
      BoughtByAppend(s.batches, r.bought, Matured(p, i + 1));
    }
  }

  lemma OutstandingAdvance(p: Params, s: Sys, i: nat, r: Round, s2: Sys)
    requires BatchesOk(p, s, i) && Possible(p, s, i, r)
    requires s2.drawn == s.drawn + (if HasWinners(p, i) then Elements(r.winners) else {})
    requires s2.run.w.tickets.Keys == s.run.w.tickets.Keys + Elements(r.bought)
    ensures |Outstanding(s2)| ==
            |Outstanding(s)| + p.ticketsPerBlock - (if HasWinners(p, i) then p.ticketsPerBlock else 0)
  {
    UniqueSize(r.bought);
    if Matured(p, i) < i {
      BoughtByGrows(s.batches, Matured(p, i), i);
    }
    var winners := if HasWinners(p, i) then Elements(r.winners) else {};
    if HasWinners(p, i) {
      WinnersAre(p, s, i, r);
      UniqueSize(r.winners);
    }
    OutstandingSize(s.run.w.tickets.Keys, s.drawn, Elements(r.bought), winners);
  }

  lemma RoundKeepsGood(p: Params, n: nat, s: Sys, i: nat, r: Round)
    requires Good(p, n, s, i) && Possible(p, s, i, r) && Used(p, i) + p.ticketsPerBlock <= n
    ensures Good(p, n, Advance(p, s, i, r), i + 1)
  {
    OrderIrrelevant(p, s, i, r);
    var run1 := DoVotes(p, s.run, i, r);
    var votes := VotesFiled(p, n, s, i, r, run1);
    var run2 := DoBlock(p, run1, i, r);
    BlockEffect(p, run1.w, i, r);
    StepKeepsInv(p, run1, BlockEvent(p, i, r));
    FileAndRelease(p, i, s.run.w.maturingVotes, run1.w.maturingVotes, votes);
    UsedStep(p, i);
    BatchesAdvance(p, s, i, r, Advance(p, s, i, r));
    OutstandingAdvance(p, s, i, r, Advance(p, s, i, r));
  }

  // ----- whole runs -----

  /** A number of tickets for every block from the purchase start until votes are first released. */
  function Needed(p: Params): int {
    (p.coinbaseMaturity + p.ticketMaturity + 2) * p.ticketsPerBlock
  }

  predicate CanBuy(p: Params, s: Sys) {
    |s.run.w.utxos| >= p.ticketsPerBlock
  }

  predicate BuysAt(p: Params, start: Voting, rounds: seq<Round>, i: nat)
    requires i <= |rounds|
  {
    CanBuy(p, Exec(p, start, rounds, i))
  }

  lemma StartGood(p: Params, txid: Hash, n: nat, value: int)
    ensures Good(p, n, Sys(Init(Started(p, txid, n, value)), [], {}), 0)
  {
    var w := Started(p, txid, n, value);
    InitInv(w);
    assert w.tickets.Keys - {} == {};
  }

  /** As long as every purchase so far could be made, the invariant holds. */
  lemma {:induction false} RunGood(p: Params, txid: Hash, n: nat, value: int, rounds: seq<Round>, i: nat)
    requires Legal(p, Started(p, txid, n, value), rounds) && i <= |rounds|
    requires forall j :: 0 <= j < i ==> BuysAt(p, Started(p, txid, n, value), rounds, j)
    ensures Good(p, n, Exec(p, Started(p, txid, n, value), rounds, i), i)
  {
    hide Good, Possible, Advance, Used;
    var start := Started(p, txid, n, value);
    if i == 0 {
      StartGood(p, txid, n, value);
    } else {
      RunGood(p, txid, n, value, rounds, i - 1);
      assert PossibleAt(p, start, rounds, i - 1) && BuysAt(p, start, rounds, i - 1);
      GoodPool(p, n, Exec(p, start, rounds, i - 1), i - 1);
      RoundKeepsGood(p, n, Exec(p, start, rounds, i - 1), i - 1, rounds[i - 1]);
    }
  }

  lemma GoodPool(p: Params, n: nat, s: Sys, i: nat)
    requires Good(p, n, s, i)
    ensures |s.run.w.utxos| + Used(p, i) == n && (CanBuy(p, s) <==> Used(p, i) + p.ticketsPerBlock <= n)
  {
  }

  lemma UsedBelowNeeded(p: Params, i: nat)
    ensures Used(p, i) + p.ticketsPerBlock <= Needed(p)
    ensures i == Lead(p) ==> Used(p, i) + p.ticketsPerBlock == Needed(p)
  {
    var m := if i < Lead(p) then i else Lead(p);
    assert p.ticketsPerBlock * m + p.ticketsPerBlock == p.ticketsPerBlock * (m + 1);
    assert p.ticketsPerBlock * (m + 1) <= p.ticketsPerBlock * (Lead(p) + 1);
  }

  /** Enough outputs at the start are enough for ever: the pool before each purchase is exactly known,
      outputs are conserved, and none is in two places or spent twice. */
  lemma {:induction false} EnoughForEver(p: Params, txid: Hash, n: nat, value: int, rounds: seq<Round>, i: nat)
    requires Legal(p, Started(p, txid, n, value), rounds) && i <= |rounds| && n >= Needed(p)
    ensures var s := Exec(p, Started(p, txid, n, value), rounds, i);
            && |s.run.w.utxos| == n - Used(p, i)
            && CanBuy(p, s)
            && Conserved(s, n)
            && Apart(s.run.w, s.run.spent) && DistinctOutpoints(s.run.spent)
    ensures forall j :: 0 <= j < i ==> BuysAt(p, Started(p, txid, n, value), rounds, j)
  {
    hide Possible, Advance, Used, Needed, BatchesOk, VotesOk, CanBuy;
    var start := Started(p, txid, n, value);
    if i > 0 {
      EnoughForEver(p, txid, n, value, rounds, i - 1);
      assert BuysAt(p, start, rounds, i - 1);
    }
    RunGood(p, txid, n, value, rounds, i);
    var s := Exec(p, start, rounds, i);
    GoodPool(p, n, s, i);
    UsedBelowNeeded(p, i);
    SpentOnce(s.run);
  }

  /** With exactly the outputs needed, the purchase on the block one before the first released votes, at
      the stake validation height less one plus the coinbase maturity, takes the last of the pool. */
  lemma PoolRunsDry(p: Params, txid: Hash, n: nat, value: int, rounds: seq<Round>)
    requires n == Needed(p) && Legal(p, Started(p, txid, n, value), rounds) && Lead(p) <= |rounds|
    ensures Height(p, Lead(p)) == p.stakeValidationHeight - 1 + p.coinbaseMaturity
    ensures var w := Exec(p, Started(p, txid, n, value), rounds, Lead(p)).run.w;
            |w.utxos| == p.ticketsPerBlock && Rest(p, w) == []
  {
    EnoughForEver(p, txid, n, value, rounds, Lead(p));
    UsedBelowNeeded(p, Lead(p));
  }

  // ----- how many outputs are needed -----

  ghost predicate NeverStarves(p: Params, start: Voting) {
    forall rounds, i | Legal(p, start, rounds) && 0 <= i <= |rounds| :: BuysAt(p, start, rounds, i)
  }

  lemma {:induction false} Above(s: set<Hash>) returns (b: Hash)
    ensures forall h :: h in s ==> h < b
  {
    b := 0;
    if s != {} {
      var h :| h in s;
      b := Above(s - {h});
      b := if h < b then b else h + 1;
      assert s == (s - {h}) + {h};
    }
  }

  /** The chain can always go on: some round is possible. */
  lemma SomeRound(p: Params, n: nat, s: Sys, i: nat) returns (r: Round)
    requires Good(p, n, s, i)
    ensures Possible(p, s, i, r)
  {
    var b := Above(s.run.w.tickets.Keys);
    var c := Above(s.run.created);
    var bought := seq(p.ticketsPerBlock, k requires 0 <= k < p.ticketsPerBlock => b + k);
    var voted := seq(p.ticketsPerBlock, k requires 0 <= k < p.ticketsPerBlock => c + k);
    var winners := [];
    if HasWinners(p, i) {
      var m := i - p.ticketMaturity - 1;
      winners := s.batches[m];
      assert BatchOk(p, s, m);
      forall h | h in winners ensures Live(p, s, i, h) {
        assert h in Elements(s.batches[m]);
      }
    }
    r := Round(0, bought, winners, voted, 0, false);
  }

  lemma {:induction false} ExecPrefix(p: Params, start: Voting, rounds: seq<Round>, more: seq<Round>, i: nat)
    requires i <= |rounds| && rounds <= more
    ensures Exec(p, start, rounds, i) == Exec(p, start, more, i)
  {
    if i > 0 {
      ExecPrefix(p, start, rounds, more, i - 1);
    }
  }

  lemma LegalPush(p: Params, start: Voting, rounds: seq<Round>, r: Round)
    requires Legal(p, start, rounds) && Possible(p, Exec(p, start, rounds, |rounds|), |rounds|, r)
    ensures Legal(p, start, rounds + [r])
  {
    hide Possible;
    var more := rounds + [r];
    forall i | 0 <= i < |more| ensures PossibleAt(p, start, more, i) {
      ExecPrefix(p, start, rounds, more, i);
      assert i < |rounds| ==> PossibleAt(p, start, rounds, i);
    }
  }

  /** A run of any length whose purchases the outputs suffice for. */
  lemma {:induction false} SomeRun(p: Params, txid: Hash, n: nat, value: int, len: nat) returns (rounds: seq<Round>)
    requires forall i :: 0 <= i < len ==> Used(p, i) + p.ticketsPerBlock <= n
    ensures |rounds| == len && Legal(p, Started(p, txid, n, value), rounds)
    ensures Good(p, n, Exec(p, Started(p, txid, n, value), rounds, len), len)
  {
    hide Good, Possible, Advance, Used;
    var start := Started(p, txid, n, value);
    if len == 0 {
      rounds := [];
      StartGood(p, txid, n, value);
    } else {
      var init := SomeRun(p, txid, n, value, len - 1);
      var s := Exec(p, start, init, len - 1);
      var r := SomeRound(p, n, s, len - 1);
      LegalPush(p, start, init, r);
      rounds := init + [r];
      ExecPrefix(p, start, init, rounds, len - 1);
      RoundKeepsGood(p, n, s, len - 1, r);
    }
  }

  /** The round the pool first falls short in, when the outputs are too few. */
  lemma ShortAt(p: Params, n: nat) returns (k: nat)
    requires n < Needed(p)
    ensures k <= Lead(p) && Used(p, k) + p.ticketsPerBlock > n
    ensures forall i :: 0 <= i < k ==> Used(p, i) + p.ticketsPerBlock <= n
  {
    k := 0;
    UsedBelowNeeded(p, Lead(p));
    while Used(p, k) + p.ticketsPerBlock <= n
      invariant k <= Lead(p)
      invariant forall i :: 0 <= i < k ==> Used(p, i) + p.ticketsPerBlock <= n
      decreases Lead(p) - k
    {
      k := k + 1;
    }
  }

  /** Every purchase of every run can be made if and only if the wallet starts with the needed number of
      outputs; with one fewer some run starves. */
  lemma NeverStarvesIff(p: Params, txid: Hash, n: nat, value: int)
    ensures NeverStarves(p, Started(p, txid, n, value)) <==> n >= Needed(p)
  {
    hide Good, Legal, Used, Needed, BuysAt, Exec;
    var start := Started(p, txid, n, value);
    if n >= Needed(p) {
      forall rounds, i | Legal(p, start, rounds) && 0 <= i <= |rounds| ensures BuysAt(p, start, rounds, i) {
        BuysEnough(p, txid, n, value, rounds, i);
      }
    } else {
      var k := ShortAt(p, n);
      var rounds := SomeRun(p, txid, n, value, k);
      CannotBuy(p, n, start, rounds, k);
      assert !BuysAt(p, start, rounds, k);
    }
  }

  lemma BuysEnough(p: Params, txid: Hash, n: nat, value: int, rounds: seq<Round>, i: nat)
    requires Legal(p, Started(p, txid, n, value), rounds) && i <= |rounds| && n >= Needed(p)
    ensures BuysAt(p, Started(p, txid, n, value), rounds, i)
  {
    EnoughForEver(p, txid, n, value, rounds, i);
  }

  lemma CannotBuy(p: Params, n: nat, start: Voting, rounds: seq<Round>, k: nat)
    requires k == |rounds| && Good(p, n, Exec(p, start, rounds, k), k) && Used(p, k) + p.ticketsPerBlock > n
    ensures !BuysAt(p, start, rounds, k)
  {
    GoodPool(p, n, Exec(p, start, rounds, k), k);
  }

  /** The wallet's own formula is enough exactly if the number it computes fits its 16 bits. */
  lemma OwnFormulaSuffices(p: Params, txid: Hash, value: int)
    ensures NeverStarves(p, Started(p, txid, RequiredTicketCount(p), value)) <==> Needed(p) < UINT16_LIMIT
  {
    RequiredTicketCountExact(p);
    NeverStarvesIff(p, txid, RequiredTicketCount(p), value);
  }
}
