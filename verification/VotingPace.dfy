/** How long the miner and the handler keep pace when the vote limit has been lowered: the miner then waits
    for as many tickets as votes are allowed, fewer than are bought. */
module VotingPace {
  import opened WalletTypes
  import opened VotingSchedule

  /** Tickets bought on every block and votes cast for every block. */
  datatype Pace = Pace(tickets: nat, limit: nat) {
    predicate Ok() {
      1 <= limit <= tickets
    }
  }

  /** The blocks generated, the notifications not yet taken, the handler, what the mempool holds for the
      next block, and the notifications handled in order. Every block has both its notifications. */
  datatype State = State(
    generated: nat,
    blocks: seq<nat>, winners: seq<nat>,
    handler: Handler,
    ticketsInMempool: nat, votesInMempool: nat,
    done: seq<(Kind, nat)>)

  const BEGIN := State(0, [], [], Idle, 0, 0, [])

  function ToSend(p: Pace, kind: Kind): nat {
    if kind == BlockKind then p.tickets else p.limit
  }

  /** The miner's wait, by the vote limit for tickets and votes alike. */
  predicate GotAllReqs(p: Pace, s: State) {
    s.generated > 0 ==> s.ticketsInMempool >= p.limit && s.votesInMempool >= p.limit
  }

  predicate Can(p: Pace, s: State, step: Step) {
    match step
    case Generate => GotAllReqs(p, s)
    case TakeBlock => s.handler.Idle? && s.blocks != []
    case TakeWinners => s.handler.Idle? && s.winners != []
    case SendOne => s.handler.Busy? && s.handler.sent < ToSend(p, s.handler.kind)
    case Finish => s.handler.Busy? && s.handler.sent == ToSend(p, s.handler.kind)
  }

  function Do(p: Pace, s: State, step: Step): State
    requires Can(p, s, step)
  {
    match step
    case Generate =>
      s.(generated := s.generated + 1, blocks := s.blocks + [s.generated], winners := s.winners + [s.generated],
         ticketsInMempool := 0, votesInMempool := 0)
    case TakeBlock => s.(blocks := s.blocks[1..], handler := Busy(BlockKind, s.blocks[0], 0))
    case TakeWinners => s.(winners := s.winners[1..], handler := Busy(VoteKind, s.winners[0], 0))
    case SendOne =>
      var h := s.handler.(sent := s.handler.sent + 1);
      if h.kind == BlockKind then s.(handler := h, ticketsInMempool := s.ticketsInMempool + 1)
      else s.(handler := h, votesInMempool := s.votesInMempool + 1)
    case Finish => s.(handler := Idle, done := s.done + [(s.handler.kind, s.handler.round)])
  }

  predicate StepAt(p: Pace, states: seq<State>, steps: seq<Step>, i: nat)
    requires i < |steps| && i + 1 < |states|
  {
    Can(p, states[i], steps[i]) && states[i + 1] == Do(p, states[i], steps[i])
  }

  predicate Schedule(p: Pace, states: seq<State>, steps: seq<Step>) {
    && |states| == |steps| + 1
    && states[0] == BEGIN
    && (forall i :: 0 <= i < |steps| ==> StepAt(p, states, steps, i))
  }

  /** Late tickets, up to `tickets - limit` more each round, are enough for the wait of round `c`. */
  predicate LateSuffice(p: Pace, c: nat) {
    c * (p.tickets - p.limit) >= p.limit
  }

  /** A notification of round `i` is handled after both of the round before. */
  predicate InOrder(done: seq<(Kind, nat)>) {
    forall x :: 0 <= x < |done| && done[x].1 > 0 ==>
      (BlockKind, done[x].1 - 1) in done[..x] && (VoteKind, done[x].1 - 1) in done[..x]
  }

  // ----- in pace -----

  predicate RoundIn(done: seq<(Kind, nat)>, i: nat) {
    (BlockKind, i) in done && (VoteKind, i) in done
  }

  predicate LogHolds(done: seq<(Kind, nat)>, c: nat, block: bool, votes: bool) {
    && InOrder(done)
    && (c > 0 ==> RoundIn(done, c - 1))
    && (block ==> (BlockKind, c) in done)
    && (votes ==> (VoteKind, c) in done)
  }

  predicate Working(s: State, kind: Kind, i: nat) {
    s.handler.Busy? && s.handler.kind == kind && s.handler.round == i
  }

  function Count(full: nat, waiting: bool, working: bool, sent: nat): nat {
    if waiting then 0 else if working then sent else full
  }

  function Sent(s: State): nat {
    if s.handler.Busy? then s.handler.sent else 0
  }

  /** The handler is at round `c`, the last generated; what the mempool holds fits the tickets sent in all
      less those in the `c` blocks since. */
  predicate InRound(p: Pace, s: State, c: nat) {
    && (s.handler.Busy? ==> s.handler.round == c && s.handler.sent <= ToSend(p, s.handler.kind))
    && (s.blocks == [] || (s.blocks == [c] && !Working(s, BlockKind, c)))
    && (s.winners == [] || (s.winners == [c] && !Working(s, VoteKind, c)))
    && s.ticketsInMempool + c * p.limit <=
         c * p.tickets + Count(p.tickets, s.blocks != [], Working(s, BlockKind, c), Sent(s))
    && s.votesInMempool == Count(p.limit, s.winners != [], Working(s, VoteKind, c), Sent(s))
    && LogHolds(s.done, c, s.blocks == [] && !Working(s, BlockKind, c), s.winners == [] && !Working(s, VoteKind, c))
  }

  /** Round `c` has been generated while the handler is at the last notification of the round before. */
  predicate InTail(p: Pace, s: State, c: nat) {
    && c > 0 && s.handler.Busy? && s.handler.round == c - 1 && s.handler.sent <= ToSend(p, s.handler.kind)
    && s.blocks == [c] && s.winners == [c] && s.votesInMempool == 0
    && (s.handler.kind == VoteKind ==> s.handler.sent == p.limit)
    && s.ticketsInMempool + c * p.limit <=
         (if s.handler.kind == BlockKind then (c - 1) * p.tickets + s.handler.sent else c * p.tickets)
    && LogHolds(s.done, c - 1, s.handler.kind == VoteKind, s.handler.kind == BlockKind)
  }

  predicate PaceOk(p: Pace, s: State) {
    if s.generated == 0 then s == BEGIN
    else InRound(p, s, s.generated - 1) || InTail(p, s, s.generated - 1)
  }

  lemma {:induction false} LateGrow(p: Pace, c: nat, d: nat)
    requires p.Ok() && c <= d && LateSuffice(p, c)
    ensures LateSuffice(p, d)
  {
    assert d * (p.tickets - p.limit) == c * (p.tickets - p.limit) + (d - c) * (p.tickets - p.limit);
  }

  lemma Times(p: Pace, c: nat)
    ensures (c + 1) * p.limit == c * p.limit + p.limit && (c + 1) * p.tickets == c * p.tickets + p.tickets
    ensures c * p.tickets >= (c + 1) * p.limit <==> LateSuffice(p, c)
  {
    assert c * (p.tickets - p.limit) == c * p.tickets - c * p.limit;
  }

  lemma LogPush(done: seq<(Kind, nat)>, kind: Kind, c: nat, block: bool, votes: bool)
    requires LogHolds(done, c, block, votes)
    ensures LogHolds(done + [(kind, c)], c, block || kind == BlockKind, votes || kind == VoteKind)
  {
    var more := done + [(kind, c)];
    forall x | 0 <= x < |more| && more[x].1 > 0 ensures RoundIn(more[..x], more[x].1 - 1) {
      assert more[..x] == if x < |done| then done[..x] else done;
    }
  }

  lemma LogNext(done: seq<(Kind, nat)>, c: nat)
    requires LogHolds(done, c, true, true)
    ensures LogHolds(done, c + 1, false, false)
  {
  }

  /** A block is generated in pace: the handler has begun both notifications of the one before. */
  lemma GenerateOk(p: Pace, s: State)
    requires p.Ok() && PaceOk(p, s) && Can(p, s, Generate)
    requires s.generated > 0 ==> !LateSuffice(p, s.generated - 1)
    ensures PaceOk(p, Do(p, s, Generate))
  {
    hide LogHolds;
    var c := s.generated - 1;
    if c == -1 {
      NothingDone();
    } else {
      Times(p, c);
      if s.handler.Idle? && s.blocks == [] {
        LogNext(s.done, c);
      }
    }
  }

  lemma NothingDone()
    ensures LogHolds([], 0, false, false)
  {
  }

  lemma OtherOk(p: Pace, s: State, step: Step)
    requires p.Ok() && PaceOk(p, s) && Can(p, s, step) && !step.Generate?
    ensures PaceOk(p, Do(p, s, step))
  {
    hide LogHolds;
    var c := s.generated - 1;
    if s.generated > 0 && step.Finish? {
      if InRound(p, s, c) {
        LogPush(s.done, s.handler.kind, c, s.blocks == [] && s.handler.kind != BlockKind,
                s.winners == [] && s.handler.kind != VoteKind);
      } else {
        Times(p, c - 1);
        LogPush(s.done, s.handler.kind, c - 1, s.handler.kind == VoteKind, s.handler.kind == BlockKind);
        LogNext(s.done + [(s.handler.kind, c - 1)], c - 1);
      }
    }
  }

  lemma {:induction false} ScheduleOk(p: Pace, states: seq<State>, steps: seq<Step>, n: nat)
    requires p.Ok() && Schedule(p, states, steps) && n <= |steps|
    requires states[n].generated >= 2 ==> !LateSuffice(p, states[n].generated - 2)
    ensures PaceOk(p, states[n])
  {
    hide PaceOk, Can, LateSuffice, GotAllReqs;
    if n == 0 {
      BeginOk(p);
    } else {
      assert StepAt(p, states, steps, n - 1);
      var s, step := states[n - 1], steps[n - 1];
      if s.generated >= 2 && LateSuffice(p, s.generated - 2) && states[n].generated == s.generated + 1 {
        LateGrow(p, s.generated - 2, s.generated - 1);
      }
      ScheduleOk(p, states, steps, n - 1);
      if step.Generate? {
        GenerateOk(p, s);
      } else {
        OtherOk(p, s, step);
      }
    }
  }

  lemma BeginOk(p: Pace)
    ensures PaceOk(p, BEGIN)
  {
  }

  lemma OkInOrder(p: Pace, s: State)
    requires PaceOk(p, s)
    ensures InOrder(s.done)
  {
  }

  // ----- out of pace -----

  ghost predicate Reachable(p: Pace, s: State) {
    exists states, steps :: Schedule(p, states, steps) && states[|steps|] == s
  }

  lemma ReachBegin(p: Pace)
    ensures Reachable(p, BEGIN)
  {
    assert Schedule(p, [BEGIN], []);
  }

  lemma Reach(p: Pace, s: State, step: Step) returns (s2: State)
    requires Reachable(p, s) && Can(p, s, step)
    ensures Reachable(p, s2) && s2 == Do(p, s, step)
  {
    hide Can, Do;
    s2 := Do(p, s, step);
    var states, steps :| Schedule(p, states, steps) && states[|steps|] == s;
    var states2, steps2 := states + [s2], steps + [step];
    forall i | 0 <= i < |steps2| ensures StepAt(p, states2, steps2, i) {
      assert i < |steps| ==> StepAt(p, states, steps, i);
    }
    assert Schedule(p, states2, steps2) && states2[|steps2|] == s2;
  }

  function SendingMore(s: State, k: nat): State
    requires s.handler.Busy?
  {
    var h := s.handler.(sent := s.handler.sent + k);
    if h.kind == BlockKind then s.(handler := h, ticketsInMempool := s.ticketsInMempool + k)
    else s.(handler := h, votesInMempool := s.votesInMempool + k)
  }

  lemma {:induction false} ReachSending(p: Pace, s: State, k: nat) returns (s2: State)
    requires Reachable(p, s) && s.handler.Busy? && s.handler.sent + k <= ToSend(p, s.handler.kind)
    ensures Reachable(p, s2) && s2 == SendingMore(s, k)
  {
    hide Reachable;
    if k == 0 {
      s2 := s;
    } else {
      s2 := ReachSending(p, s, k - 1);
      s2 := Reach(p, s2, SendOne);
    }
  }

  /** The handler goes through one winners' notification. */
  lemma ReachVotes(p: Pace, s: State, c: nat, later: seq<nat>) returns (s2: State)
    requires Reachable(p, s) && s.handler.Idle? && s.winners == [c] + later
    ensures Reachable(p, s2)
    ensures s2 == s.(winners := later, votesInMempool := s.votesInMempool + p.limit, done := s.done + [(VoteKind, c)])
  {
    hide Reachable;
    s2 := Reach(p, s, TakeWinners);
    s2 := ReachSending(p, s2, p.limit);
    s2 := Reach(p, s2, Finish);
  }

  /** Round `c` has just been generated, as early as can be: in the rounds before, the mempool was let to
      hold the vote limit's worth of tickets and no more, and block `c - 1` is still being bought on. */
  predicate Behind(p: Pace, s: State, c: nat) {
    && c > 0 && s.generated == c + 1 && s.blocks == [c] && s.winners == [c]
    && s.ticketsInMempool == 0 && s.votesInMempool == 0
    && s.handler.Busy? && s.handler.kind == BlockKind && s.handler.round == c - 1
    && s.handler.sent + (c - 1) * p.tickets == c * p.limit
    && s.handler.sent <= p.tickets
    && (forall e :: e in s.done ==> e.1 < c)
  }

  lemma FirstBehind(p: Pace) returns (s: State)
    requires p.Ok()
    ensures Reachable(p, s) && Behind(p, s, 1)
  {
    hide Reachable;
    ReachBegin(p);
    s := Reach(p, BEGIN, Generate);
    s := ReachVotes(p, s, 0, []);
    s := Reach(p, s, TakeBlock);
    s := ReachSending(p, s, p.limit);
    s := Reach(p, s, Generate);
  }

  /** The handler catches up with block `c - 1` and votes for block `c`. */
  lemma CatchUp(p: Pace, s: State, c: nat) returns (s2: State)
    requires p.Ok() && Reachable(p, s) && Behind(p, s, c)
    ensures Reachable(p, s2) && s2.generated == c + 1 && s2.handler.Idle? && s2.blocks == [c] && s2.winners == []
    ensures s2.ticketsInMempool == c * (p.tickets - p.limit) && s2.votesInMempool == p.limit
    ensures forall e :: e in s2.done ==> e.1 < c || e == (VoteKind, c)
  {
    hide Reachable;
    Times(p, c - 1);
    assert c * (p.tickets - p.limit) == c * p.tickets - c * p.limit;
    s2 := ReachSending(p, s, p.tickets - s.handler.sent);
    s2 := Reach(p, s2, Finish);
    s2 := ReachVotes(p, s2, c, []);
  }

  lemma NextBehind(p: Pace, s: State, c: nat) returns (s2: State)
    requires p.Ok() && Reachable(p, s) && Behind(p, s, c) && !LateSuffice(p, c)
    ensures Reachable(p, s2) && Behind(p, s2, c + 1)
  {
    hide Reachable;
    Times(p, c);
    assert c * (p.tickets - p.limit) == c * p.tickets - c * p.limit;
    s2 := CatchUp(p, s, c);
    s2 := Reach(p, s2, TakeBlock);
    s2 := ReachSending(p, s2, p.limit - c * (p.tickets - p.limit));
    s2 := Reach(p, s2, Generate);
  }

  lemma {:induction false} SomeBehind(p: Pace, c: nat) returns (s: State)
    requires p.Ok() && c > 0 && forall d :: 0 <= d < c ==> !LateSuffice(p, d)
    ensures Reachable(p, s) && Behind(p, s, c)
  {
    hide Reachable, Behind, LateSuffice;
    if c == 1 {
      s := FirstBehind(p);
    } else {
      s := SomeBehind(p, c - 1);
      s := NextBehind(p, s, c - 1);
    }
  }

  /** Once the late tickets meet the wait, the next block comes with block `c` not yet handled, and its
      winners are handled before it. */
  lemma OutOfOrder(p: Pace, s: State, c: nat) returns (s2: State)
    requires p.Ok() && Reachable(p, s) && Behind(p, s, c) && LateSuffice(p, c)
    ensures Reachable(p, s2) && s2.generated == c + 2 && !InOrder(s2.done)
  {
    hide Reachable, Behind;
    var s1 := CatchUp(p, s, c);
    s2 := Reach(p, s1, Generate);
    s2 := ReachVotes(p, s2, c + 1, []);
    assert (BlockKind, c) !in s1.done;
    assert s2.done == s1.done + [(VoteKind, c + 1)];
    assert s2.done[..|s1.done|] == s1.done && s2.done[|s1.done|] == (VoteKind, c + 1);
  }

  /** In every schedule that has generated at most `g` blocks the log is in order. */
  ghost predicate OrderKeptFor(p: Pace, g: nat) {
    forall s | Reachable(p, s) && s.generated <= g :: InOrder(s.done)
  }

  lemma FirstLate(p: Pace, d: nat) returns (c: nat)
    requires p.Ok() && LateSuffice(p, d)
    ensures 0 < c <= d && LateSuffice(p, c) && forall e :: 0 <= e < c ==> !LateSuffice(p, e)
  {
    c := 0;
    while !LateSuffice(p, c)
      invariant c <= d && forall e :: 0 <= e < c ==> !LateSuffice(p, e)
      decreases d - c
    {
      c := c + 1;
    }
  }

  /** With a lowered vote limit the notifications are handled in order, whatever the interleaving, for as
      long as at most `g` blocks have been generated, if and only if the tickets that can be late by then,
      those above the limit on each of `g - 2` blocks, are fewer than the limit. */
  lemma OrderKeptIff(p: Pace, g: nat)
    requires p.Ok()
    ensures OrderKeptFor(p, g) <==> (g >= 2 ==> (g - 2) * (p.tickets - p.limit) < p.limit)
  {
    hide PaceOk, InOrder;
    if g >= 2 && LateSuffice(p, g - 2) {
      var c := FirstLate(p, g - 2);
      var s := SomeBehind(p, c);
      s := OutOfOrder(p, s, c);
      assert !InOrder(s.done);
    } else {
      forall s | Reachable(p, s) && s.generated <= g ensures InOrder(s.done) {
        var states, steps :| Schedule(p, states, steps) && states[|steps|] == s;
        if s.generated >= 2 && LateSuffice(p, s.generated - 2) {
          LateGrow(p, s.generated - 2, g - 2);
        }
        ScheduleOk(p, states, steps, |steps|);
        OkInOrder(p, s);
      }
    }
  }
}
