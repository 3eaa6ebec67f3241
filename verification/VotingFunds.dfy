/** Where the voting wallet's outputs go, over any sequence of notifications and outcomes: no output is
    ever spent on two tickets. */
module VotingFunds {
  import opened WalletTypes
  import opened VotingSpec

  datatype Event =
    | BlockConnected(height: int, sBits: int, out: Outcomes)
    | WinningTickets(height: int, winners: seq<Hash>, stakebase: int, out: Outcomes)
    | Limit(newLimit: int)

  /** The wallet, every output it has spent on tickets in order, and the transactions that created the
      outputs it has held. */
  datatype Run = Run(w: Voting, spent: seq<UtxoInfo>, created: set<Hash>)

  function Init(w: Voting): Run {
    Run(w, [], set u | u in w.utxos :: u.outpoint.hash)
  }

  function Spends(p: Params, w: Voting, e: Event): seq<UtxoInfo> {
    if e.BlockConnected? && Buys(p, w, e.height) then Batch(p, w) else []
  }

  function VoteCount(w: Voting, e: Event): nat {
    if e.WinningTickets? then |Cast(w, e.winners)| else 0
  }

  function Votes(w: Voting, e: Event): set<Hash> {
    if e.WinningTickets? then set k | 0 <= k < VoteCount(w, e) && e.out(k).Sent? :: e.out(k).hash else {}
  }

  function After(p: Params, w: Voting, e: Event): Voting {
    match e
    case BlockConnected(height, sBits, out) => OnBlock(p, w, height, sBits, out)
    case WinningTickets(height, winners, stakebase, out) => OnWinners(p, w, height, winners, stakebase, out)
    case Limit(newLimit) => LimitNbVotes(w, newLimit).0
  }

  function Do(p: Params, r: Run, e: Event): Run {
    Run(After(p, r.w, e), r.spent + Spends(p, r.w, e), r.created + Votes(r.w, e))
  }

  /** Each vote sent is a new transaction. */
  predicate FreshVotes(r: Run, e: Event) {
    e.WinningTickets? ==>
      var n := VoteCount(r.w, e);
      && (forall i :: 0 <= i < n && e.out(i).Sent? ==> e.out(i).hash !in r.created)
      && (forall i, j :: 0 <= i < j < n && e.out(i).Sent? && e.out(j).Sent? ==> e.out(i).hash != e.out(j).hash)
  }

  function At(p: Params, start: Voting, evs: seq<Event>, n: nat): Run
    requires n <= |evs|
  {
    if n == 0 then Init(start) else Do(p, At(p, start, evs, n - 1), evs[n - 1])
  }

  predicate FreshAt(p: Params, start: Voting, evs: seq<Event>, i: nat)
    requires i < |evs|
  {
    FreshVotes(At(p, start, evs, i), evs[i])
  }

  // ----- outputs apart from each other -----

  function Ops(s: seq<UtxoInfo>): set<OutPoint> {
    set u | u in s :: u.outpoint
  }

  predicate DistinctOutpoints(s: seq<UtxoInfo>) {
    forall i, j :: 0 <= i < j < |s| ==> s[i].outpoint != s[j].outpoint
  }

  lemma OpsAppend(a: seq<UtxoInfo>, b: seq<UtxoInfo>)
    ensures Ops(a + b) == Ops(a) + Ops(b)
  {
    forall op | op in Ops(a) ensures op in Ops(a + b) {
      var u :| u in a && u.outpoint == op;
      assert u in a + b;
    }
    forall op | op in Ops(b) ensures op in Ops(a + b) {
      var u :| u in b && u.outpoint == op;
      assert u in a + b;
    }
  }

  lemma DistinctAppend(a: seq<UtxoInfo>, b: seq<UtxoInfo>)
    ensures DistinctOutpoints(a + b) <==> DistinctOutpoints(a) && DistinctOutpoints(b) && Ops(a) !! Ops(b)
  {
    var s := a + b;
    if DistinctOutpoints(s) {
      forall i, j | 0 <= i < j < |a| ensures a[i].outpoint != a[j].outpoint {
        assert s[i] == a[i] && s[j] == a[j];
      }
      forall i, j | 0 <= i < j < |b| ensures b[i].outpoint != b[j].outpoint {
        assert s[|a| + i] == b[i] && s[|a| + j] == b[j];
      }
      forall i, j | 0 <= i < |a| && 0 <= j < |b| ensures a[i].outpoint != b[j].outpoint {
        assert s[i] == a[i] && s[|a| + j] == b[j];
      }
    }
    if DistinctOutpoints(a) && DistinctOutpoints(b) && Ops(a) !! Ops(b) {
      forall i, j | 0 <= i < j < |s| ensures s[i].outpoint != s[j].outpoint {
        if i < |a| <= j {
          assert a[i].outpoint in Ops(a) && b[j - |a|].outpoint in Ops(b);
        }
      }
    }
  }

  /** Nothing in the pool or about to mature has been spent, and nothing is held twice. */
  predicate Apart(w: Voting, spent: seq<UtxoInfo>) {
    && DistinctOutpoints(w.utxos + spent)
    && (forall h :: h in w.maturingVotes ==>
          DistinctOutpoints(w.maturingVotes[h]) && Ops(w.maturingVotes[h]) !! Ops(w.utxos + spent))
    && (forall h, k :: h in w.maturingVotes && k in w.maturingVotes && h != k ==>
          Ops(w.maturingVotes[h]) !! Ops(w.maturingVotes[k]))
  }

  predicate Known(ops: set<OutPoint>, created: set<Hash>) {
    forall op :: op in ops ==> op.hash in created
  }

  predicate Inv(r: Run) {
    && Apart(r.w, r.spent)
    && Known(Ops(r.w.utxos + r.spent), r.created)
    && (forall h :: h in r.w.maturingVotes ==> Known(Ops(r.w.maturingVotes[h]), r.created))
  }

  lemma BuyKeepsApart(p: Params, w: Voting, spent: seq<UtxoInfo>, tickets: map<Hash, int>)
    requires Apart(w, spent) && |w.utxos| >= p.ticketsPerBlock
    ensures Apart(w.(utxos := Rest(p, w), tickets := tickets), spent + Batch(p, w))
    ensures Ops(Rest(p, w) + (spent + Batch(p, w))) == Ops(w.utxos + spent)
  {
    var rest, batch := Rest(p, w), Batch(p, w);
    assert w.utxos == rest + batch;
    OpsAppend(rest, batch);
    OpsAppend(w.utxos, spent);
    OpsAppend(spent, batch);
    OpsAppend(rest, spent + batch);
    DistinctAppend(rest, batch);
    DistinctAppend(w.utxos, spent);
    DistinctAppend(spent, batch);
    DistinctAppend(rest, spent + batch);
  }

  lemma ReleaseKeepsApart(w: Voting, spent: seq<UtxoInfo>, height: int)
    requires Apart(w, spent)
    ensures Apart(Release(w, height), spent)
    ensures height in w.maturingVotes ==>
              Ops(Release(w, height).utxos + spent) == Ops(w.utxos + spent) + Ops(w.maturingVotes[height])
  {
    if height in w.maturingVotes {
      var votes := w.maturingVotes[height];
      OpsAppend(w.utxos, spent);
      OpsAppend(w.utxos, votes);
      OpsAppend(w.utxos + votes, spent);
      DistinctAppend(w.utxos, spent);
      DistinctAppend(w.utxos, votes);
      DistinctAppend(w.utxos + votes, spent);
    }
  }

  lemma BlockKeepsInv(p: Params, r: Run, e: Event)
    requires Inv(r) && e.BlockConnected?
    ensures Inv(Do(p, r, e))
  {
    if Buys(p, r.w, e.height) {
      var w1 := r.w.(utxos := Rest(p, r.w));
      var spent := r.spent + Batch(p, r.w);
      var n := SentCount(e.out, p.ticketsPerBlock);
      var w2 := w1.(tickets := AddTickets(w1.tickets, e.out, n, TicketPrice(e.sBits)));
      BuyKeepsApart(p, r.w, r.spent, w1.tickets);
      BuyKeepsApart(p, r.w, r.spent, w2.tickets);
      ReleaseKeepsApart(w2, spent, e.height);
    } else {
      assert r.spent + [] == r.spent;
    }
  }

  lemma VotesKeepInv(p: Params, r: Run, e: Event)
    requires Inv(r) && e.WinningTickets? && FreshVotes(r, e)
    ensures Inv(Do(p, r, e))
  {
    hide Mine, Cast, Crashes;
    assert r.spent + [] == r.spent;
    var cast := Cast(r.w, e.winners);
    if !Crashes(r.w, e.winners) && AllSent(e.out, |cast|) {
      var votes := VoteOutputs(r.w.tickets, cast, e.stakebase, e.out);
      forall op | op in Ops(votes) ensures op.hash in Votes(r.w, e) && op.hash !in r.created {
        var k :| 0 <= k < |votes| && votes[k].outpoint == op;
        assert e.out(k).Sent? && op.hash == e.out(k).hash;
      }
      assert DistinctOutpoints(votes);
    }
  }

  lemma StepKeepsInv(p: Params, r: Run, e: Event)
    requires Inv(r) && FreshVotes(r, e)
    ensures Inv(Do(p, r, e))
  {
    match e
    case BlockConnected(_, _, _) => BlockKeepsInv(p, r, e);
    case WinningTickets(_, _, _, _) => VotesKeepInv(p, r, e);
    case Limit(_) => assert r.spent + [] == r.spent;
  }

  lemma InitInv(w: Voting)
    requires DistinctOutpoints(w.utxos) && w.maturingVotes == map[]
    ensures Inv(Init(w))
  {
    assert w.utxos + [] == w.utxos;
  }

  lemma SpentOnce(r: Run)
    requires Inv(r)
    ensures DistinctOutpoints(r.spent)
  {
    DistinctAppend(r.w.utxos, r.spent);
  }

  /** Whatever the notifications, their order and what fails, no output is ever spent on two tickets, and
      the pool, the votes about to mature and the outputs spent have none in common. */
  lemma {:induction false} OutputsFundOnce(p: Params, txid: Hash, count: nat, value: int, evs: seq<Event>, n: nat)
    requires n <= |evs|
    requires forall i :: 0 <= i < n ==> FreshAt(p, Started(p, txid, count, value), evs, i)
    ensures Inv(At(p, Started(p, txid, count, value), evs, n))
    ensures DistinctOutpoints(At(p, Started(p, txid, count, value), evs, n).spent)
  {
    hide Inv, Do, FreshVotes, Init;
    var start := Started(p, txid, count, value);
    if n == 0 {
      InitInv(start);
    } else {
      OutputsFundOnce(p, txid, count, value, evs, n - 1);
      assert FreshAt(p, start, evs, n - 1);
      StepKeepsInv(p, At(p, start, evs, n - 1), evs[n - 1]);
    }
    SpentOnce(At(p, start, evs, n));
  }

  // ----- starvation -----

  lemma StarvedStep(p: Params, r: Run, e: Event)
    requires |r.w.utxos| < p.ticketsPerBlock
    ensures Do(p, r, e).w.utxos == r.w.utxos && Do(p, r, e).spent == r.spent
    ensures Do(p, r, e).w.tickets == r.w.tickets
  {
    assert r.spent + [] == r.spent;
  }

  /** A wallet that once cannot buy never buys again: votes are released only after a purchase, so the
      pool, the outputs spent and the tickets stay as they are whatever follows. */
  lemma {:induction false} StarvedForEver(p: Params, start: Voting, evs: seq<Event>, i: nat, n: nat)
    requires i <= n <= |evs| && |At(p, start, evs, i).w.utxos| < p.ticketsPerBlock
    ensures At(p, start, evs, n).w.utxos == At(p, start, evs, i).w.utxos
    ensures At(p, start, evs, n).spent == At(p, start, evs, i).spent
    ensures At(p, start, evs, n).w.tickets == At(p, start, evs, i).w.tickets
  {
    hide Do;
    if i < n {
      StarvedForEver(p, start, evs, i, n - 1);
      StarvedStep(p, At(p, start, evs, n - 1), evs[n - 1]);
    }
  }
}
