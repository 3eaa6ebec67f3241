/** What the wallet holds after any run, blocks with chained spends unwound included. */
module Leftovers {
  import opened WalletTypes
  import opened Ledger
  import opened WalletSpec
  import opened WalletRuns
  import opened LockSafety

  ghost predicate SpentBy(b: Block, n: nat, op: OutPoint)
    requires n <= |b.txs|
  {
    exists q: nat :: q < n && Spends(b, q, op)
  }

  ghost predicate Touches(b: Block, n: nat, op: OutPoint)
    requires n <= |b.txs|
  {
    CreatedBy(b, n, op) || SpentBy(b, n, op)
  }

  /** The step that connected the block that is the tip after `n` actions. */
  function TipStep(acts: seq<Action>, n: nat): (c: nat)
    requires n <= |acts|
    ensures c <= n && (n > 0 ==> c < n)
  {
    if n == 0 then 0
    else if acts[n - 1].Ingest? then n - 1
    else if acts[n - 1].UnwindTip? then TipStep(acts, TipStep(acts, n - 1))
    else TipStep(acts, n - 1)
  }

  /** The coin left behind at an outpoint. Unwinding a block that creates the outpoint leaves the coin
      exactly if the block also spends it; unwinding one that only spent the leftover brings it back; and
      connecting a block that creates or spends the outpoint takes it away. */
  ghost function Leftover(env: Env, acts: seq<Action>, n: nat, op: OutPoint): Option<Coin>
    requires env.derive(0).Some? && n <= |acts|
  {
    if n == 0 then None
    else if acts[n - 1].Ingest? then
      var b := BlockAt(env, Exec(env, acts, n - 1).wallet, acts[n - 1].height, acts[n - 1].txs, acts[n - 1].picks);
      if Touches(b, |b.txs|, op) then None else Leftover(env, acts, n - 1, op)
    else if acts[n - 1].UnwindTip? && Exec(env, acts, n - 1).chain != [] then
      var b, before := Tip(Exec(env, acts, n - 1).chain), Leftover(env, acts, TipStep(acts, n - 1), op);
      if CreatedBy(b, |b.txs|, op) then Get(Apply(map[], b).undo.destroyed, op)
      else if SpentBy(b, |b.txs|, op) && before.Some? then before
      else Leftover(env, acts, n - 1, op)
    else Leftover(env, acts, n - 1, op)
  }

  /** A coin is left exactly for a chained spend, and it is the coin the block made. */
  lemma LeftByChainedSpend(b: Block, op: OutPoint)
    requires CreatedBy(b, |b.txs|, op)
    ensures Get(Apply(map[], b).undo.destroyed, op).Some? <==> ChainedBy(b, |b.txs|, op)
  {
    BlockEffect(map[], b, |b.txs|, op);
  }

  // ----- one block and one outpoint -----

  lemma TouchedStep(b: Block, n: nat, op: OutPoint)
    requires 0 < n <= |b.txs|
    ensures Touches(b, n, op) <==> Touches(b, n - 1, op) || Creates(b, n - 1, op) || Spends(b, n - 1, op)
    ensures CreatedBy(b, n, op) <==> CreatedBy(b, n - 1, op) || Creates(b, n - 1, op)
  {
  }

  /** Where a block touches an outpoint it decides alone what is there afterwards, and elsewhere nothing. */
  lemma {:induction false} TouchDecides(m: map<OutPoint, Coin>, m2: map<OutPoint, Coin>, b: Block, n: nat, op: OutPoint)
    requires n <= |b.txs|
    ensures var r, r2 := EvalTxs(Book(m, NO_UNDO), b, n), EvalTxs(Book(m2, NO_UNDO), b, n);
            if Touches(b, n, op) then Get(r.utxos, op) == Get(r2.utxos, op)
            else Get(r.utxos, op) == Get(m, op) && op !in r.undo.destroyed
  {
    if n > 0 {
      TouchDecides(m, m2, b, n - 1, op);
      TouchedStep(b, n, op);
      TxEffect(EvalTxs(Book(m, NO_UNDO), b, n - 1), b, n - 1, op);
      TxEffect(EvalTxs(Book(m2, NO_UNDO), b, n - 1), b, n - 1, op);
    }
  }

  /** What a block only spends it holds for the unwind as it found it. */
  lemma SpentHeld(m: map<OutPoint, Coin>, b: Block, op: OutPoint)
    requires !CreatedBy(b, |b.txs|, op) && SpentBy(b, |b.txs|, op)
    ensures var r := Apply(m, b);
            op !in r.utxos && op !in r.undo.created && Get(r.undo.destroyed, op) == Get(m, op)
  {
    BlockEffect(m, b, |b.txs|, op);
    BlockEffect(map[], b, |b.txs|, op);
    TouchDecides(m, map[], b, |b.txs|, op);
  }

  /** In a valid block an outpoint is not spent before it is created. */
  lemma NotSpentEarlier(r: Run, b: Block, q: nat, op: OutPoint)
    requires FreshTxs(r.chain, b.txs) && SpendsKnown(r, b.txs) && q < |b.txs| && op in r.wallet.utxos
    requires CreatedBy(b, |b.txs|, op) && !CreatedBy(b, q + 1, op)
    ensures !Spends(b, q, op)
  {
    var p: nat :| p < |b.txs| && Creates(b, p, op);
    assert b.txs[p].hash == op.hash;
    if Spends(b, q, op) {
      assert false;
    }
  }

  /** What a valid block leaves at an outpoint it creates does not depend on the wallet. */
  lemma {:induction false} CreatedHeld(r: Run, b: Block, n: nat, op: OutPoint, m: map<OutPoint, Coin>)
    requires FreshTxs(r.chain, b.txs) && SpendsKnown(r, b.txs) && n <= |b.txs|
    requires CreatedBy(b, |b.txs|, op) && m.Keys == r.wallet.utxos.Keys
    ensures var bk, bk0 := EvalTxs(Book(m, NO_UNDO), b, n), EvalTxs(Book(map[], NO_UNDO), b, n);
            if CreatedBy(b, n, op) then
              Get(bk.utxos, op) == Get(bk0.utxos, op) && Get(bk.undo.destroyed, op) == Get(bk0.undo.destroyed, op)
            else
              && Get(bk.utxos, op) == Get(m, op) && op !in bk0.utxos
              && op !in bk.undo.destroyed && op !in bk0.undo.destroyed
  {
    if n > 0 {
      CreatedHeld(r, b, n - 1, op, m);
      TouchedStep(b, n, op);
      TxEffect(EvalTxs(Book(m, NO_UNDO), b, n - 1), b, n - 1, op);
      TxEffect(EvalTxs(Book(map[], NO_UNDO), b, n - 1), b, n - 1, op);
      if op in m && !CreatedBy(b, n, op) {
        NotSpentEarlier(r, b, n - 1, op);
      }
    }
  }

  // ----- the journal remembers how each block was connected -----

  ghost function UnlockedJournal(j: map<int, Undo>): map<int, Undo> {
    map h | h in j :: UnlockedUndo(j[h])
  }

  /** The chain and the journal are those the last connected tip left. */
  ghost predicate Remembers(env: Env, acts: seq<Action>, n: nat)
    requires env.derive(0).Some? && n <= |acts|
  {
    var r, c := Exec(env, acts, n), TipStep(acts, n);
    r.chain != [] ==>
      && c < |acts| && acts[c].Ingest?
      && Exec(env, acts, c + 1).chain == r.chain
      && UnlockedJournal(Exec(env, acts, c + 1).wallet.journal) == UnlockedJournal(r.wallet.journal)
  }

  lemma SameRemembers(env: Env, acts: seq<Action>, n: nat)
    requires env.derive(0).Some? && 0 < n <= |acts| && Remembers(env, acts, n - 1)
    requires !acts[n - 1].Ingest? && !acts[n - 1].UnwindTip?
    ensures Remembers(env, acts, n)
  {
    hide Create, UnlockedJournal;
    var r, a := Exec(env, acts, n - 1), acts[n - 1];
    if a.Spend? {
      SpendKeepsRest(env, r.wallet, a.outputs, a.feeRate, a.order, a.rpcOk);
    }
  }

  lemma JournalRestored(now: map<int, Undo>, before: map<int, Undo>, h: int, undo: Undo)
    requires UnlockedJournal(now) == UnlockedJournal(before[h := undo]) && h !in before
    ensures UnlockedJournal(now - {h}) == UnlockedJournal(before)
  {
    hide UnlockedUndo;
    forall k ensures Get(UnlockedJournal(now - {h}), k) == Get(UnlockedJournal(before), k) {
      assert Get(UnlockedJournal(now), k) == Get(UnlockedJournal(before[h := undo]), k);
    }
    SameMap(UnlockedJournal(now - {h}), UnlockedJournal(before));
  }

  lemma UnwindRemembers(env: Env, acts: seq<Action>, n: nat)
    requires env.derive(0).Some? && Legal(env, acts) && 0 < n <= |acts| && acts[n - 1].UnwindTip?
    requires Remembers(env, acts, n - 1) && Remembers(env, acts, TipStep(acts, n - 1))
    ensures Remembers(env, acts, n)
  {
    hide Legal, Enabled, Apply, Unwind, UnlockedJournal;
    var r, c := Exec(env, acts, n - 1), TipStep(acts, n - 1);
    if r.chain != [] {
      var before, after := Exec(env, acts, c), Exec(env, acts, c + 1);
      RunTracks(env, acts, n - 1);
      RunTracks(env, acts, c);
      HeightsBelow(r.chain);
      var h := Tip(r.chain).height;
      assert Below(after.chain) == before.chain;
      assert Tip(r.chain) in r.chain;
      JournalRestored(r.wallet.journal, before.wallet.journal, h, after.wallet.journal[h]);
    }
  }

  lemma {:induction false} AllRemember(env: Env, acts: seq<Action>, n: nat)
    requires env.derive(0).Some? && Legal(env, acts) && n <= |acts|
    ensures Remembers(env, acts, n)
    decreases n
  {
    hide Legal, Next;
    if n > 0 {
      AllRemember(env, acts, n - 1);
      if acts[n - 1].UnwindTip? {
        AllRemember(env, acts, TipStep(acts, n - 1));
        hide Remembers;
        UnwindRemembers(env, acts, n);
      } else if !acts[n - 1].Ingest? {
        SameRemembers(env, acts, n);
      }
    }
  }

  // ----- what the wallet holds -----

  ghost predicate Holds(env: Env, acts: seq<Action>, n: nat, op: OutPoint)
    requires env.derive(0).Some? && n <= |acts|
  {
    var r, left := Exec(env, acts, n), Leftover(env, acts, n, op);
    && Get(Unlocked(r.wallet.utxos), op) == (if left.Some? then left else Get(Replay(r.chain), op))
    && (left.Some? ==> !CreatorInChain(r.chain, op))
  }

  lemma CreatorBelow(chain: seq<Block>, op: OutPoint)
    requires chain != []
    ensures CreatorInChain(chain, op) <==>
            CreatorInChain(Below(chain), op) || CreatedBy(Tip(chain), |Tip(chain).txs|, op)
  {
    if CreatorInChain(Below(chain), op) {
      var i :| 0 <= i < |Below(chain)| && CreatedBy(Below(chain)[i], |Below(chain)[i].txs|, op);
      assert chain[i] == Below(chain)[i];
    }
    if CreatedBy(Tip(chain), |Tip(chain).txs|, op) {
      assert chain[|chain| - 1] == Tip(chain);
    }
    if CreatorInChain(chain, op) {
      var i :| 0 <= i < |chain| && CreatedBy(chain[i], |chain[i].txs|, op);
      assert i < |Below(chain)| ==> Below(chain)[i] == chain[i];
    }
  }

  lemma IngestHolds(env: Env, acts: seq<Action>, n: nat, op: OutPoint)
    requires env.derive(0).Some? && 0 < n <= |acts| && acts[n - 1].Ingest? && Holds(env, acts, n - 1, op)
    ensures Holds(env, acts, n, op)
  {
    hide Apply, CreatorInChain, Unlocked;
    var r, a := Exec(env, acts, n - 1), acts[n - 1];
    var b := BlockAt(env, r.wallet, a.height, a.txs, a.picks);
    var chain := Exec(env, acts, n).chain;
    assert chain == r.chain + [b] && Below(chain) == r.chain && Tip(chain) == b;
    CreatorBelow(chain, op);
    ApplyUnlocked(r.wallet.utxos, b);
    ApplyTouch(Unlocked(r.wallet.utxos), Replay(r.chain), b, op);
    ApplyTouch(Replay(r.chain), Replay(r.chain), b, op);
  }

  lemma ApplyTouch(m: map<OutPoint, Coin>, m2: map<OutPoint, Coin>, b: Block, op: OutPoint)
    ensures if Touches(b, |b.txs|, op) then Get(Apply(m, b).utxos, op) == Get(Apply(m2, b).utxos, op)
            else
              && Get(Apply(m, b).utxos, op) == Get(m, op)
              && op !in Apply(m, b).undo.destroyed && op !in Apply(m, b).undo.created
  {
    TouchDecides(m, m2, b, |b.txs|, op);
    BlockEffect(m, b, |b.txs|, op);
  }

  /** Unwinding the block that maps `w` to its undo entry, on a wallet that now holds `v`. */
  ghost predicate Restores(w: map<OutPoint, Coin>, b: Block, v: map<OutPoint, Coin>, v2: map<OutPoint, Coin>) {
    v2 == Unwind(v, Apply(w, b).undo)
  }

  lemma UnwindGet(w: map<OutPoint, Coin>, b: Block, v: map<OutPoint, Coin>, v2: map<OutPoint, Coin>, op: OutPoint)
    requires Restores(w, b, v, v2)
    ensures var undo := Apply(w, b).undo;
            Get(v2, op) == if op in undo.destroyed then Get(undo.destroyed, op)
                           else if op in undo.created then None else Get(v, op)
    ensures op in Apply(w, b).undo.created <==> CreatedBy(b, |b.txs|, op)
  {
    BlockEffect(w, b, |b.txs|, op);
  }

  /** The tip about to be unwound, and the undo entry it has. */
  lemma TipRemembered(env: Env, acts: seq<Action>, n: nat)
    requires env.derive(0).Some? && Legal(env, acts) && n <= |acts| && Exec(env, acts, n).chain != []
    ensures var r, c := Exec(env, acts, n), TipStep(acts, n);
            && c < n && acts[c].Ingest? && Below(r.chain) == Exec(env, acts, c).chain
            && Tip(r.chain) == BlockAt(env, Exec(env, acts, c).wallet, acts[c].height, acts[c].txs, acts[c].picks)
            && Tip(r.chain).height in r.wallet.journal
            && UnlockedUndo(r.wallet.journal[Tip(r.chain).height]) ==
                 UnlockedUndo(Apply(Exec(env, acts, c).wallet.utxos, Tip(r.chain)).undo)
  {
    hide Legal, Enabled, Apply, Unwind, UnlockedUndo, Heights;
    AllRemember(env, acts, n);
    TipHasEntry(env, acts, n);
    var r, c := Exec(env, acts, n), TipStep(acts, n);
    var before, after := Exec(env, acts, c), Exec(env, acts, c + 1);
    var h := Tip(r.chain).height;
    assert after.chain == before.chain + [Tip(r.chain)];
    assert Below(r.chain) == before.chain;
    assert UnlockedJournal(r.wallet.journal)[h] == UnlockedUndo(r.wallet.journal[h]);
    assert UnlockedJournal(after.wallet.journal)[h] == UnlockedUndo(after.wallet.journal[h]);
  }

  lemma TipHasEntry(env: Env, acts: seq<Action>, n: nat)
    requires env.derive(0).Some? && Legal(env, acts) && n <= |acts| && Exec(env, acts, n).chain != []
    ensures var r := Exec(env, acts, n); Tip(r.chain).height in r.wallet.journal
  {
    hide Legal, Exec;
    RunTracks(env, acts, n);
    var chain := Exec(env, acts, n).chain;
    assert chain[|chain| - 1] in chain;
  }

  /** The unwind of a legal run in these terms. */
  lemma UnwindRestores(env: Env, acts: seq<Action>, n: nat)
    requires env.derive(0).Some? && Legal(env, acts) && 0 < n <= |acts| && acts[n - 1].UnwindTip?
    requires Exec(env, acts, n - 1).chain != []
    ensures var r, c := Exec(env, acts, n - 1), TipStep(acts, n - 1);
            var before := Exec(env, acts, c);
            && c < n - 1 && acts[c].Ingest? && Below(r.chain) == before.chain
            && Tip(r.chain) == BlockAt(env, before.wallet, acts[c].height, acts[c].txs, acts[c].picks)
            && Restores(Unlocked(before.wallet.utxos), Tip(r.chain), Unlocked(r.wallet.utxos),
                        Unlocked(Exec(env, acts, n).wallet.utxos))
  {
    hide Legal, Enabled, Apply, Unwind, UnlockedUndo, Unlocked, UnlockedJournal;
    TipRemembered(env, acts, n - 1);
    var r, c := Exec(env, acts, n - 1), TipStep(acts, n - 1);
    ApplyUnlocked(Exec(env, acts, c).wallet.utxos, Tip(r.chain));
    UnwindUnlocked(r.wallet.utxos, r.wallet.journal[Tip(r.chain).height]);
  }

  // ----- the whole run -----

  lemma FreshCreator(chain: seq<Block>, b: Block, op: OutPoint)
    requires FreshTxs(chain, b.txs) && CreatedBy(b, |b.txs|, op)
    ensures !CreatorInChain(chain, op) && op !in Replay(chain)
  {
    if CreatorInChain(chain, op) {
      CreatorHasTx(chain, op);
    }
    FreshOutputs(chain, b);
  }

  lemma UnwindHoldsCreated(env: Env, acts: seq<Action>, n: nat, op: OutPoint)
    requires env.derive(0).Some? && Valid(env, acts) && 0 < n <= |acts| && acts[n - 1].UnwindTip?
    requires var chain := Exec(env, acts, n - 1).chain; chain != [] && CreatedBy(Tip(chain), |Tip(chain).txs|, op)
    ensures Holds(env, acts, n, op)
  {
    hide Apply, Unwind, Unlocked, Next, CreatorInChain, CreatedBy;
    UnwindRestores(env, acts, n);
    var r, c := Exec(env, acts, n - 1), TipStep(acts, n - 1);
    var before, b := Exec(env, acts, c), Tip(r.chain);
    assert LegalAt(env, acts, c) && ValidAt(env, acts, c) && LegalAt(env, acts, n - 1);
    FreshCreator(before.chain, b, op);
    UnlockedKeys(before.wallet.utxos);
    CreatedHeldAll(before, b, op, Unlocked(before.wallet.utxos));
    var after := Exec(env, acts, n);
    UnwindGet(Unlocked(before.wallet.utxos), b, Unlocked(r.wallet.utxos), Unlocked(after.wallet.utxos), op);
    UnwoundChain(env, acts, n);
  }

  lemma UnwoundChain(env: Env, acts: seq<Action>, n: nat)
    requires env.derive(0).Some? && 0 < n <= |acts| && acts[n - 1].UnwindTip? && Exec(env, acts, n - 1).chain != []
    ensures Exec(env, acts, n).chain == Below(Exec(env, acts, n - 1).chain)
  {
  }

  lemma UnlockedKeys(m: map<OutPoint, Coin>)
    ensures Unlocked(m).Keys == m.Keys
  {
  }

  lemma CreatedHeldAll(r: Run, b: Block, op: OutPoint, m: map<OutPoint, Coin>)
    requires FreshTxs(r.chain, b.txs) && SpendsKnown(r, b.txs)
    requires CreatedBy(b, |b.txs|, op) && m.Keys == r.wallet.utxos.Keys
    ensures Get(Apply(m, b).undo.destroyed, op) == Get(Apply(map[], b).undo.destroyed, op)
  {
    CreatedHeld(r, b, |b.txs|, op, m);
  }

  /** What is known of the tip when it is unwound. */
  ghost predicate UnwindFacts(before: Run, b: Block, r: Run, after: Run) {
    && r.chain != [] && Tip(r.chain) == b && Below(r.chain) == before.chain && after.chain == before.chain
    && Restores(Unlocked(before.wallet.utxos), b, Unlocked(r.wallet.utxos), Unlocked(after.wallet.utxos))
  }

  ghost predicate HoldsWith(r: Run, left: Option<Coin>, op: OutPoint) {
    && Get(Unlocked(r.wallet.utxos), op) == (if left.Some? then left else Get(Replay(r.chain), op))
    && (left.Some? ==> !CreatorInChain(r.chain, op))
  }

  lemma UnwindSpent(before: Run, b: Block, r: Run, after: Run, op: OutPoint, left0: Option<Coin>, left1: Option<Coin>)
    requires UnwindFacts(before, b, r, after) && HoldsWith(before, left0, op) && HoldsWith(r, left1, op)
    requires !CreatedBy(b, |b.txs|, op) && SpentBy(b, |b.txs|, op)
    ensures HoldsWith(after, if left0.Some? then left0 else left1, op)
  {
    hide Apply, Unwind, Unlocked, CreatorInChain, CreatedBy, SpentBy, Restores;
    var w := Unlocked(before.wallet.utxos);
    UnwindGet(w, b, Unlocked(r.wallet.utxos), Unlocked(after.wallet.utxos), op);
    SpentHeld(w, b, op);
    SpentHeld(Replay(before.chain), b, op);
    CreatorBelow(r.chain, op);
    if op in Replay(before.chain) {
      ReplayedHaveCreators(before.chain, op);
    }
  }

  lemma UnwindUntouched(before: Run, b: Block, r: Run, after: Run, op: OutPoint, left1: Option<Coin>)
    requires UnwindFacts(before, b, r, after) && HoldsWith(r, left1, op) && !Touches(b, |b.txs|, op)
    ensures HoldsWith(after, left1, op)
  {
    hide Apply, Unwind, Unlocked, CreatorInChain, CreatedBy, SpentBy, Restores;
    var w := Unlocked(before.wallet.utxos);
    UnwindGet(w, b, Unlocked(r.wallet.utxos), Unlocked(after.wallet.utxos), op);
    ApplyTouch(w, w, b, op);
    ApplyTouch(Replay(before.chain), w, b, op);
    CreatorBelow(r.chain, op);
  }

  lemma UnwindHolds(env: Env, acts: seq<Action>, n: nat, op: OutPoint)
    requires env.derive(0).Some? && Valid(env, acts) && 0 < n <= |acts| && acts[n - 1].UnwindTip?
    requires Holds(env, acts, n - 1, op) && Holds(env, acts, TipStep(acts, n - 1), op)
    ensures Holds(env, acts, n, op)
  {
    hide Apply, Unwind, Unlocked, Next, CreatorInChain, CreatedBy, SpentBy, Restores;
    var r := Exec(env, acts, n - 1);
    assert LegalAt(env, acts, n - 1);
    EnabledUnwind(env, r);
    var b := Tip(r.chain);
    if CreatedBy(b, |b.txs|, op) {
      UnwindHoldsCreated(env, acts, n, op);
    } else {
      UnwindRestores(env, acts, n);
      UnwoundChain(env, acts, n);
      var c, after := TipStep(acts, n - 1), Exec(env, acts, n);
      var left0, left1 := Leftover(env, acts, c, op), Leftover(env, acts, n - 1, op);
      if SpentBy(b, |b.txs|, op) {
        UnwindSpent(Exec(env, acts, c), b, r, after, op, left0, left1);
      } else {
        UnwindUntouched(Exec(env, acts, c), b, r, after, op, left1);
      }
    }
  }

  lemma OtherHolds(env: Env, acts: seq<Action>, n: nat, op: OutPoint)
    requires env.derive(0).Some? && 0 < n <= |acts| && !acts[n - 1].Ingest? && !acts[n - 1].UnwindTip?
    requires Holds(env, acts, n - 1, op)
    ensures Holds(env, acts, n, op)
  {
    hide Create, Replay, CreatorInChain;
    var r, a := Exec(env, acts, n - 1), acts[n - 1];
    if a.Spend? {
      SpendKeepsRest(env, r.wallet, a.outputs, a.feeRate, a.order, a.rpcOk);
    } else if a.Release? {
      assert Unlocked(Exec(env, acts, n).wallet.utxos) == Unlocked(r.wallet.utxos);
    }
  }

  /** After any legal run over valid blocks the wallet's coins, locks aside, are exactly those of a replay of
      the active chain and those left behind; and where one is left behind no connected block has created
      the outpoint. */
  lemma {:induction false} WalletIsReplayAndLeftovers(env: Env, acts: seq<Action>, n: nat, op: OutPoint)
    requires env.derive(0).Some? && Valid(env, acts) && n <= |acts|
    ensures var r, left := Exec(env, acts, n), Leftover(env, acts, n, op);
            && Get(Unlocked(r.wallet.utxos), op) == (if left.Some? then left else Get(Replay(r.chain), op))
            && (left.Some? ==> !CreatorInChain(r.chain, op) && op !in Replay(r.chain))
    decreases n
  {
    hide Valid, Legal, Next, Leftover;
    HoldsAlways(env, acts, n, op);
    var r := Exec(env, acts, n);
    if op in Replay(r.chain) {
      ReplayedHaveCreators(r.chain, op);
    }
  }

  lemma {:induction false} HoldsAlways(env: Env, acts: seq<Action>, n: nat, op: OutPoint)
    requires env.derive(0).Some? && Valid(env, acts) && n <= |acts|
    ensures Holds(env, acts, n, op)
    decreases n
  {
    hide Valid, Legal, Holds;
    if n == 0 {
      StartHolds(env, acts, op);
    } else {
      HoldsAlways(env, acts, n - 1, op);
      if acts[n - 1].Ingest? {
        IngestHolds(env, acts, n, op);
      } else if acts[n - 1].UnwindTip? {
        HoldsAlways(env, acts, TipStep(acts, n - 1), op);
        UnwindHolds(env, acts, n, op);
      } else {
        OtherHolds(env, acts, n, op);
      }
    }
  }

  lemma StartHolds(env: Env, acts: seq<Action>, op: OutPoint)
    requires env.derive(0).Some?
    ensures Holds(env, acts, 0, op)
  {
  }
}
