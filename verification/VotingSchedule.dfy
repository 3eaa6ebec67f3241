/** The miner that generates blocks and the one goroutine that handles notifications, interleaved. */
module VotingSchedule {
  import opened WalletTypes
  import opened VotingSpec
  import opened VotingFunds
  import opened VotingPool

  datatype Kind = BlockKind | VoteKind

  /** The goroutine waits, or is at a notification of the given round with so many transactions sent. */
  datatype Handler = Idle | Busy(kind: Kind, round: nat, sent: nat)

  /** The blocks generated, the two notification channels with what is on its way to them, the handler,
      what the mempool holds for the next block, the wallet, and the handlers finished in order. */
  datatype Sched = Sched(
    generated: nat,
    blocks: seq<nat>, winners: seq<nat>,
    handler: Handler,
    ticketsInMempool: nat, votesInMempool: nat,
    run: Run,
    done: seq<(Kind, nat)>)

  datatype Step = Generate | TakeBlock | TakeWinners | SendOne | Finish

  /** A run of the closed loop with as many outputs as needed and votes that mature on later blocks. */
  datatype Plan = Plan(p: Params, txid: Hash, outputs: nat, value: int, rounds: seq<Round>) {
    function Start(): Voting {
      Started(p, txid, outputs, value)
    }

    predicate Ok() {
      && Legal(p, Start(), rounds) && outputs >= Needed(p)
      && p.coinbaseMaturity >= 1 && p.ticketsPerBlock >= 1
    }

    function At(i: nat): Sys
      requires i <= |rounds|
    {
      Exec(p, Start(), rounds, i)
    }
  }

  function Begin(plan: Plan): Sched {
    Sched(0, [], [], Idle, 0, 0, Init(plan.Start()), [])
  }

  function EventFor(plan: Plan, kind: Kind, i: nat): Event
    requires i < |plan.rounds|
  {
    if kind == BlockKind then BlockEvent(plan.p, i, plan.rounds[i]) else VoteEvent(plan.p, i, plan.rounds[i])
  }

  /** How many transactions the handler sends for this notification. */
  function ToSend(plan: Plan, w: Voting, kind: Kind, i: nat): nat
    requires i < |plan.rounds|
  {
    if kind == BlockKind then (if Buys(plan.p, w, Height(plan.p, i)) then plan.p.ticketsPerBlock else 0)
    else |Cast(w, plan.rounds[i].winners)|
  }

  /** What the miner waits for after generating a block, at the full vote limit. */
  predicate GotAllReqs(plan: Plan, s: Sched) {
    s.generated > 0 ==>
      var nbVotes := plan.p.ticketsPerBlock;
      s.ticketsInMempool >= nbVotes && (HasWinners(plan.p, s.generated - 1) ==> s.votesInMempool >= nbVotes)
  }

  predicate Can(plan: Plan, s: Sched, step: Step) {
    match step
    case Generate => s.generated < |plan.rounds| && GotAllReqs(plan, s)
    case TakeBlock => s.handler.Idle? && s.blocks != []
    case TakeWinners => s.handler.Idle? && s.winners != []
    case SendOne =>
      && s.handler.Busy? && s.handler.round < |plan.rounds|
      && s.handler.sent < ToSend(plan, s.run.w, s.handler.kind, s.handler.round)
    case Finish =>
      && s.handler.Busy? && s.handler.round < |plan.rounds|
      && s.handler.sent == ToSend(plan, s.run.w, s.handler.kind, s.handler.round)
  }

  /** A generated block takes in everything the mempool held. */
  function Do(plan: Plan, s: Sched, step: Step): Sched
    requires Can(plan, s, step)
  {
    match step
    case Generate =>
      var i := s.generated;
      s.(generated := i + 1, blocks := s.blocks + [i],
         winners := s.winners + (if HasWinners(plan.p, i) then [i] else []),
         ticketsInMempool := 0, votesInMempool := 0)
    case TakeBlock => s.(blocks := s.blocks[1..], handler := Busy(BlockKind, s.blocks[0], 0))
    case TakeWinners => s.(winners := s.winners[1..], handler := Busy(VoteKind, s.winners[0], 0))
    case SendOne =>
      var h := s.handler.(sent := s.handler.sent + 1);
      if h.kind == BlockKind then s.(handler := h, ticketsInMempool := s.ticketsInMempool + 1)
      else s.(handler := h, votesInMempool := s.votesInMempool + 1)
    case Finish =>
      s.(handler := Idle, run := VotingFunds.Do(plan.p, s.run, EventFor(plan, s.handler.kind, s.handler.round)),
         done := s.done + [(s.handler.kind, s.handler.round)])
  }

  predicate StepAt(plan: Plan, states: seq<Sched>, steps: seq<Step>, i: nat)
    requires i < |steps| && i + 1 < |states|
  {
    Can(plan, states[i], steps[i]) && states[i + 1] == Do(plan, states[i], steps[i])
  }

  /** The states one interleaving passes through. */
  predicate Schedule(plan: Plan, states: seq<Sched>, steps: seq<Step>) {
    && |states| == |steps| + 1
    && states[0] == Begin(plan)
    && (forall i :: 0 <= i < |steps| ==> StepAt(plan, states, steps, i))
  }

  // ----- the invariant -----

  /** The wallet before round `i`, with its votes and its block handled or not. */
  function Partly(plan: Plan, i: nat, block: bool, votes: bool): Run
    requires i < |plan.rounds|
  {
    var run := plan.At(i).run;
    var run1 := if votes then DoVotes(plan.p, run, i, plan.rounds[i]) else run;
    if block then DoBlock(plan.p, run1, i, plan.rounds[i]) else run1
  }

  /** The handler is still finishing a round although the next block has been generated. */
  predicate Late(s: Sched) {
    s.handler.Busy? && s.handler.round + 1 < s.generated
  }

  predicate Working(s: Sched, kind: Kind, i: nat) {
    s.handler.Busy? && s.handler.kind == kind && s.handler.round == i
  }

  function Count(plan: Plan, waiting: bool, working: bool, sent: nat): nat {
    if waiting then 0 else if working then sent else plan.p.ticketsPerBlock
  }

  /** The log holds all notifications of the rounds before `c`, of round `c` those done, and no others. */
  predicate LogHolds(plan: Plan, done: seq<(Kind, nat)>, c: nat, blockDone: bool, votesDone: bool) {
    && (forall e :: e in done ==> e.1 <= c)
    && (forall i: nat :: i < c ==> RoundIn(plan, done, i))
    && ((BlockKind, c) in done <==> blockDone)
    && ((VoteKind, c) in done <==> votesDone && HasWinners(plan.p, c))
  }

  /** Round `c` has been generated last and the one before it is all done. */
  predicate InRound(plan: Plan, s: Sched, c: nat) {
    && c < |plan.rounds|
    && (s.handler.Busy? ==> s.handler.round == c && s.handler.sent <= plan.p.ticketsPerBlock)
    && (s.blocks == [] || (s.blocks == [c] && !Working(s, BlockKind, c)))
    && (s.winners == [] || (s.winners == [c] && !Working(s, VoteKind, c)))
    && (!HasWinners(plan.p, c) ==> s.winners == [] && !Working(s, VoteKind, c))
    && var sent := if s.handler.Busy? then s.handler.sent else 0;
       var blockDone := s.blocks == [] && !Working(s, BlockKind, c);
       var votesDone := s.winners == [] && !Working(s, VoteKind, c);
       && s.ticketsInMempool == Count(plan, s.blocks != [], Working(s, BlockKind, c), sent)
       && (HasWinners(plan.p, c) ==> s.votesInMempool == Count(plan, s.winners != [], Working(s, VoteKind, c), sent))
       && s.run == Partly(plan, c, blockDone, votesDone)
       && LogHolds(plan, s.done, c, blockDone, votesDone)
  }

  /** Round `c` has been generated while the handler was finishing one notification of the one before. */
  predicate InTail(plan: Plan, s: Sched, c: nat) {
    && 0 < c < |plan.rounds|
    && s.handler.Busy? && s.handler.round == c - 1 && s.handler.sent == plan.p.ticketsPerBlock
    && (s.handler.kind == VoteKind ==> HasWinners(plan.p, c - 1))
    && s.blocks == [c] && s.winners == (if HasWinners(plan.p, c) then [c] else [])
    && s.ticketsInMempool == 0 && s.votesInMempool == 0
    && s.run == Partly(plan, c - 1, s.handler.kind == VoteKind, s.handler.kind == BlockKind)
    && LogHolds(plan, s.done, c - 1, s.handler.kind == VoteKind, s.handler.kind == BlockKind)
  }

  /** Every notification of a round has been handled. */
  predicate RoundIn(plan: Plan, done: seq<(Kind, nat)>, i: nat) {
    (BlockKind, i) in done && (HasWinners(plan.p, i) ==> (VoteKind, i) in done)
  }

  /** When entry `x` was handled, all of the round before it had been. */
  predicate EntryInOrder(plan: Plan, done: seq<(Kind, nat)>, x: nat)
    requires x < |done|
  {
    done[x].1 > 0 ==> RoundIn(plan, done[..x], done[x].1 - 1)
  }

  /** No notification is handled twice, and each only after the round before it. */
  predicate LogOk(plan: Plan, done: seq<(Kind, nat)>) {
    && Unique(done)
    && (forall x :: 0 <= x < |done| ==> EntryInOrder(plan, done, x))
  }

  predicate SchedOk(plan: Plan, s: Sched) {
    && LogOk(plan, s.done)
    && (if s.generated == 0 then s == Begin(plan)
        else if Late(s) then InTail(plan, s, s.generated - 1)
        else InRound(plan, s, s.generated - 1))
  }

  // ----- a round is the same however it is handled -----

  lemma GoodAt(plan: Plan, i: nat)
    requires plan.Ok() && i <= |plan.rounds|
    ensures Good(plan.p, plan.outputs, plan.At(i), i) && CanBuy(plan.p, plan.At(i))
    ensures i < |plan.rounds| ==> Possible(plan.p, plan.At(i), i, plan.rounds[i])
  {
    EnoughForEver(plan.p, plan.txid, plan.outputs, plan.value, plan.rounds, i);
    RunGood(plan.p, plan.txid, plan.outputs, plan.value, plan.rounds, i);
    assert i < |plan.rounds| ==> PossibleAt(plan.p, plan.Start(), plan.rounds, i);
  }

  /** With both notifications handled, in either order, the wallet is as the closed loop has it. */
  lemma RoundCompletes(plan: Plan, i: nat)
    requires plan.Ok() && i < |plan.rounds|
    ensures Partly(plan, i, true, true) == plan.At(i + 1).run
    ensures DoVotes(plan.p, Partly(plan, i, true, false), i, plan.rounds[i]) == plan.At(i + 1).run
  {
    hide DoBlock, DoVotes, BatchesOk, VotesOk, Conserved, Used, CanBuy;
    GoodAt(plan, i);
    var s, r := plan.At(i), plan.rounds[i];
    OrderIrrelevant(plan.p, s, i, r);
    OrderIrrelevant(plan.p, s, i, r.(blockFirst := true));
    SameHandling(plan.p, s.run, i, r);
  }

  lemma SameHandling(p: Params, run: Run, i: nat, r: Round)
    ensures DoVotes(p, run, i, r.(blockFirst := true)) == DoVotes(p, run, i, r)
    ensures forall run1: Run :: DoBlock(p, run1, i, r.(blockFirst := true)) == DoBlock(p, run1, i, r)
    ensures forall run1: Run :: DoVotes(p, run1, i, r.(blockFirst := true)) == DoVotes(p, run1, i, r)
  {
  }

  /** Each handler sends its full number, whichever of the two runs first. */
  lemma HandlersSendAll(plan: Plan, i: nat, block: bool, votes: bool)
    requires plan.Ok() && i < |plan.rounds|
    ensures !block ==> ToSend(plan, Partly(plan, i, block, votes).w, BlockKind, i) == plan.p.ticketsPerBlock
    ensures !votes && HasWinners(plan.p, i) ==>
              ToSend(plan, Partly(plan, i, block, votes).w, VoteKind, i) == plan.p.ticketsPerBlock
  {
    hide Mine, AddTickets, SentCount, Legal;
    GoodAt(plan, i);
    var s, r := plan.At(i), plan.rounds[i];
    if HasWinners(plan.p, i) {
      WinnersAre(plan.p, s, i, r);
      forall h | h in r.winners ensures h in s.run.w.tickets {
        assert h in Elements(r.winners);
      }
      MineEvery(s.run.w.tickets, r.winners);
      var filed := VotesEffect(plan.p, s, i, r);
      BoughtOthers(plan.p, s, i, r);
      BlockKeepsTickets(plan.p, s.run.w, Height(plan.p, i), r.sBits, SentAs(r.bought), r.winners);
      CastSame(s.run.w, DoBlock(plan.p, s.run, i, r).w, r.winners);
    }
  }

  // ----- steps -----

  lemma WithoutWinners(plan: Plan, i: nat, block: bool)
    requires i < |plan.rounds| && !HasWinners(plan.p, i)
    ensures Partly(plan, i, block, true) == Partly(plan, i, block, false)
  {
  }

  lemma BeginLog(plan: Plan)
    ensures LogHolds(plan, [], 0, false, !HasWinners(plan.p, 0))
  {
  }

  /** One more notification handled, of the round under way. */
  lemma LogPush(plan: Plan, done: seq<(Kind, nat)>, kind: Kind, c: nat, block: bool, votes: bool)
    requires LogOk(plan, done) && LogHolds(plan, done, c, block, votes)
    requires if kind == BlockKind then !block else !votes && HasWinners(plan.p, c)
    ensures LogOk(plan, done + [(kind, c)])
    ensures LogHolds(plan, done + [(kind, c)], c, block || kind == BlockKind, votes || kind == VoteKind)
  {
    var more := done + [(kind, c)];
    forall x | 0 <= x < |more| ensures EntryInOrder(plan, more, x) {
      assert x < |done| ==> EntryInOrder(plan, done, x) && more[..x] == done[..x];
      assert x == |done| ==> more[..x] == done;
    }
    forall i: nat | i < c ensures RoundIn(plan, more, i) {
      assert RoundIn(plan, done, i);
    }
  }

  /** A round all of whose notifications are handled makes way for the next. */
  lemma LogNextRound(plan: Plan, done: seq<(Kind, nat)>, c: nat)
    ensures forall votes: bool :: LogHolds(plan, done, c, true, votes) && (votes || !HasWinners(plan.p, c)) ==>
              LogHolds(plan, done, c + 1, false, false) &&
              (!HasWinners(plan.p, c + 1) ==> LogHolds(plan, done, c + 1, false, true))
  {
  }

  /** A handler at work has its full number to send. */
  lemma AtWork(plan: Plan, s: Sched)
    requires plan.Ok() && SchedOk(plan, s) && s.handler.Busy?
    ensures s.handler.round < |plan.rounds|
    ensures ToSend(plan, s.run.w, s.handler.kind, s.handler.round) == plan.p.ticketsPerBlock
  {
    hide Partly, ToSend, LogOk, LogHolds;
    if Late(s) {
      HandlersSendAll(plan, s.handler.round, s.handler.kind == VoteKind, s.handler.kind == BlockKind);
    } else {
      var c := s.generated - 1;
      HandlersSendAll(plan, c, s.blocks == [] && s.handler.kind != BlockKind,
                      s.winners == [] && s.handler.kind != VoteKind);
    }
  }

  lemma GenerateOk(plan: Plan, s: Sched)
    requires plan.Ok() && SchedOk(plan, s) && Can(plan, s, Generate)
    ensures SchedOk(plan, Do(plan, s, Generate))
  {
    hide Partly, Legal, LogOk, LogHolds, RoundIn;
    var i := s.generated;
    StartOfRound(plan, i);
    if i == 0 {
      BeginLog(plan);
    } else {
      RoundCompletes(plan, i - 1);
      LogNextRound(plan, s.done, i - 1);
    }
  }

  lemma StartOfRound(plan: Plan, i: nat)
    requires i < |plan.rounds|
    ensures Partly(plan, i, false, false) == plan.At(i).run
    ensures !HasWinners(plan.p, i) ==> Partly(plan, i, false, true) == plan.At(i).run
  {
  }

  lemma TakeBlockOk(plan: Plan, s: Sched)
    requires plan.Ok() && SchedOk(plan, s) && Can(plan, s, TakeBlock)
    ensures SchedOk(plan, Do(plan, s, TakeBlock))
  {
    hide DoBlock, DoVotes, Legal, Partly, LogOk, LogHolds;
  }

  lemma TakeWinnersOk(plan: Plan, s: Sched)
    requires plan.Ok() && SchedOk(plan, s) && Can(plan, s, TakeWinners)
    ensures SchedOk(plan, Do(plan, s, TakeWinners))
  {
    hide DoBlock, DoVotes, Legal, Partly, LogOk, LogHolds;
  }

  lemma SendOneOk(plan: Plan, s: Sched)
    requires plan.Ok() && SchedOk(plan, s) && Can(plan, s, SendOne)
    ensures SchedOk(plan, Do(plan, s, SendOne))
  {
    hide Partly, ToSend, LogOk, LogHolds;
    AtWork(plan, s);
    assert !Late(s);
  }

  lemma FinishOk(plan: Plan, s: Sched)
    requires plan.Ok() && SchedOk(plan, s) && Can(plan, s, Finish)
    ensures SchedOk(plan, Do(plan, s, Finish))
  {
    hide Legal, ToSend, DoBlock, DoVotes, VotingFunds.Do, LogOk, LogHolds, RoundIn;
    AtWork(plan, s);
    var h := s.handler;
    if Late(s) {
      LogPush(plan, s.done, h.kind, h.round, h.kind == VoteKind, h.kind == BlockKind);
    } else {
      LogPush(plan, s.done, h.kind, h.round, s.blocks == [] && h.kind != BlockKind,
              s.winners == [] && h.kind != VoteKind);
    }
    LogNextRound(plan, s.done + [(h.kind, h.round)], h.round);
    RoundCompletes(plan, h.round);
    FinishRun(plan, h.kind, h.round);
    if Late(s) && !HasWinners(plan.p, s.generated - 1) {
      WithoutWinners(plan, s.generated - 1, false);
    }
  }

  /** Handling one notification after the other may be done or not. */
  lemma FinishRun(plan: Plan, kind: Kind, i: nat)
    requires plan.Ok() && i < |plan.rounds| && (kind == VoteKind ==> HasWinners(plan.p, i))
    ensures forall votes: bool :: kind == BlockKind ==>
              VotingFunds.Do(plan.p, Partly(plan, i, false, votes), EventFor(plan, kind, i))
                    == Partly(plan, i, true, votes)
    ensures forall block: bool :: kind == VoteKind ==>
              VotingFunds.Do(plan.p, Partly(plan, i, block, false), EventFor(plan, kind, i))
                    == Partly(plan, i, block, true)
  {
    hide VotingFunds.Do, Legal;
    RoundCompletes(plan, i);
  }

  // ----- whole schedules -----

  lemma StepOk(plan: Plan, s: Sched, step: Step)
    requires plan.Ok() && SchedOk(plan, s) && Can(plan, s, step)
    ensures SchedOk(plan, Do(plan, s, step))
  {
    match step
    case Generate => GenerateOk(plan, s);
    case TakeBlock => TakeBlockOk(plan, s);
    case TakeWinners => TakeWinnersOk(plan, s);
    case SendOne => SendOneOk(plan, s);
    case Finish => FinishOk(plan, s);
  }

  lemma {:induction false} ScheduleOk(plan: Plan, states: seq<Sched>, steps: seq<Step>, n: nat)
    requires plan.Ok() && Schedule(plan, states, steps) && n <= |steps|
    ensures SchedOk(plan, states[n])
  {
    hide Legal, SchedOk, Can, Do;
    if n == 0 {
      BeginOk(plan);
    } else {
      ScheduleOk(plan, states, steps, n - 1);
      assert StepAt(plan, states, steps, n - 1);
      StepOk(plan, states[n - 1], steps[n - 1]);
    }
  }

  lemma BeginOk(plan: Plan)
    ensures SchedOk(plan, Begin(plan))
  {
  }

  /** In every interleaving no notification is handled twice; when one of a block is handled, both of the
      block before it have been; and neither channel ever holds more than one. */
  lemma PairsInOrder(plan: Plan, states: seq<Sched>, steps: seq<Step>, n: nat)
    requires plan.Ok() && Schedule(plan, states, steps) && n <= |steps|
    ensures var s := states[n];
            && (forall x, y :: 0 <= x < y < |s.done| ==> s.done[x] != s.done[y])
            && (forall x :: 0 <= x < |s.done| && s.done[x].1 > 0 ==>
                  var c := s.done[x].1 - 1;
                  (BlockKind, c) in s.done[..x] && (HasWinners(plan.p, c) ==> (VoteKind, c) in s.done[..x]))
            && |s.blocks| <= 1 && |s.winners| <= 1
  {
    hide Partly, Legal, LogHolds;
    ScheduleOk(plan, states, steps, n);
    var s := states[n];
    forall x | 0 <= x < |s.done| && s.done[x].1 > 0
      ensures RoundIn(plan, s.done[..x], s.done[x].1 - 1)
    {
      assert EntryInOrder(plan, s.done, x);
    }
  }

  predicate Settled(s: Sched) {
    s.handler.Idle? && s.blocks == [] && s.winners == []
  }

  lemma SettledRun(plan: Plan, s: Sched)
    requires plan.Ok() && SchedOk(plan, s) && Settled(s)
    ensures s.generated <= |plan.rounds| && s.run == plan.At(s.generated).run
    ensures forall i: nat :: i < s.generated ==> RoundIn(plan, s.done, i)
    ensures s.generated < |plan.rounds| ==> Can(plan, s, Generate)
  {
    hide DoBlock, DoVotes, Legal, LogOk;
    if s.generated > 0 {
      RoundCompletes(plan, s.generated - 1);
    }
  }

  /** Whenever the handler is idle and the channels are empty, all notifications so far have been handled
      and the wallet is the one that handling the rounds one after the other gives. */
  lemma SettledIsSequential(plan: Plan, states: seq<Sched>, steps: seq<Step>, n: nat)
    requires plan.Ok() && Schedule(plan, states, steps) && n <= |steps| && Settled(states[n])
    ensures states[n].generated <= |plan.rounds| && states[n].run == plan.At(states[n].generated).run
    ensures forall i: nat :: i < states[n].generated ==> RoundIn(plan, states[n].done, i)
  {
    hide Legal;
    ScheduleOk(plan, states, steps, n);
    SettledRun(plan, states[n]);
  }

  /** The miner never waits in vain: unless every block has been generated and handled, some step can be
      taken. */
  lemma NeverStuck(plan: Plan, states: seq<Sched>, steps: seq<Step>, n: nat)
    requires plan.Ok() && Schedule(plan, states, steps) && n <= |steps|
    ensures (exists step :: Can(plan, states[n], step)) || (states[n].generated == |plan.rounds| && Settled(states[n]))
  {
    hide Legal, InRound, InTail, LogOk, LogHolds;
    ScheduleOk(plan, states, steps, n);
    var s := states[n];
    if s.handler.Busy? {
      AtWork(plan, s);
      SentWithin(plan, s);
      assert Can(plan, s, SendOne) || Can(plan, s, Finish);
    } else if s.blocks != [] {
      assert Can(plan, s, TakeBlock);
    } else if s.winners != [] {
      assert Can(plan, s, TakeWinners);
    } else {
      SettledRun(plan, s);
      assert s.generated < |plan.rounds| ==> Can(plan, s, Generate);
    }
  }

  lemma SentWithin(plan: Plan, s: Sched)
    requires SchedOk(plan, s) && s.handler.Busy?
    ensures s.handler.sent <= plan.p.ticketsPerBlock
  {
    hide Partly;
  }

  // ----- every schedule ends -----

  /** Handler steps left before the miner must act. */
  function Work(plan: Plan, s: Sched): int {
    (|s.blocks| + |s.winners|) * (plan.p.ticketsPerBlock + 2)
    + (if s.handler.Busy? then plan.p.ticketsPerBlock - s.handler.sent + 1 else 0)
  }

  /** The most steps one round can take: the block, and for each of its two notifications taking it,
      sending every transaction and finishing. */
  function StepsPerRound(plan: Plan): nat {
    2 * plan.p.ticketsPerBlock + 5
  }

  function StepsLeft(plan: Plan, s: Sched): int {
    (|plan.rounds| - s.generated) * StepsPerRound(plan) + Work(plan, s)
  }

  lemma Scaled(n: int, unit: nat)
    ensures n >= 0 ==> n * unit >= 0
    ensures (n - 1) * unit == n * unit - unit && (n + 1) * unit == n * unit + unit
    ensures (n + 2) * unit == n * unit + 2 * unit
  {
  }

  lemma StepDescends(plan: Plan, s: Sched, step: Step)
    requires plan.Ok() && SchedOk(plan, s) && Can(plan, s, step)
    ensures StepsLeft(plan, Do(plan, s, step)) < StepsLeft(plan, s)
  {
    hide Legal, SchedOk, ToSend;
    if s.handler.Busy? {
      SentWithin(plan, s);
    }
    Scaled(|s.blocks| + |s.winners|, plan.p.ticketsPerBlock + 2);
    Scaled(|plan.rounds| - s.generated, StepsPerRound(plan));
  }

  lemma StepsLeftIsNat(plan: Plan, s: Sched)
    requires plan.Ok() && SchedOk(plan, s)
    ensures StepsLeft(plan, s) >= 0
  {
    hide Legal, Partly, LogOk, LogHolds;
    if s.handler.Busy? {
      SentWithin(plan, s);
    }
    assert s.generated <= |plan.rounds|;
    Scaled(|s.blocks| + |s.winners|, plan.p.ticketsPerBlock + 2);
    Scaled(|plan.rounds| - s.generated, StepsPerRound(plan));
  }

  lemma {:induction false} StepsCount(plan: Plan, states: seq<Sched>, steps: seq<Step>, n: nat)
    requires plan.Ok() && Schedule(plan, states, steps) && n <= |steps|
    ensures n + StepsLeft(plan, states[n]) <= |plan.rounds| * StepsPerRound(plan)
  {
    hide Legal, SchedOk, Can, Do, StepsPerRound;
    if n > 0 {
      StepsCount(plan, states, steps, n - 1);
      ScheduleOk(plan, states, steps, n - 1);
      assert StepAt(plan, states, steps, n - 1);
      StepDescends(plan, states[n - 1], steps[n - 1]);
    }
  }

  /** Every schedule ends: none takes more steps than a fixed number for each of its rounds. */
  lemma SchedulesEnd(plan: Plan, states: seq<Sched>, steps: seq<Step>)
    requires plan.Ok() && Schedule(plan, states, steps)
    ensures |steps| <= |plan.rounds| * (2 * plan.p.ticketsPerBlock + 5)
  {
    hide Legal, SchedOk, StepsLeft;
    StepsCount(plan, states, steps, |steps|);
    ScheduleOk(plan, states, steps, |steps|);
    StepsLeftIsNat(plan, states[|steps|]);
  }
}
