/** Two transactions created by the wallet do not spend the same coin behind its back. */
module LockSafety {
  import opened WalletTypes
  import opened Ledger
  import opened WalletSpec
  import opened CoinSelection
  import opened WalletRuns

  // ----- valid chains -----

  ghost predicate KnownAt(chain: seq<Block>, txs: seq<Tx>, q: nat, op: OutPoint)
    requires q <= |txs|
  {
    InChain(chain, op.hash) || exists p :: 0 <= p < q && txs[p].hash == op.hash
  }

  /** A block spends a coin of the wallet only once the transaction it comes from is in the chain. */
  ghost predicate SpendsKnown(r: Run, txs: seq<Tx>) {
    forall q, op | 0 <= q < |txs| && op in txs[q].inputs && op in r.wallet.utxos :: KnownAt(r.chain, txs, q + 1, op)
  }

  ghost predicate ValidAt(env: Env, acts: seq<Action>, i: nat)
    requires env.derive(0).Some? && i < |acts|
  {
    acts[i].Ingest? ==> SpendsKnown(Exec(env, acts, i), acts[i].txs)
  }

  ghost predicate Valid(env: Env, acts: seq<Action>)
    requires env.derive(0).Some?
  {
    Legal(env, acts) && forall i :: 0 <= i < |acts| ==> ValidAt(env, acts, i)
  }

  // ----- where a spent coin is -----

  ghost function Entry(r: Run, i: nat): Undo
    requires i < |r.chain|
  {
    if r.chain[i].height in r.wallet.journal then r.wallet.journal[r.chain[i].height] else NO_UNDO
  }

  ghost predicate Held(r: Run, i: int, op: OutPoint) {
    0 <= i < |r.chain| && op in Entry(r, i).destroyed
  }

  /** A coin held by the undo entry of a connected block comes from that block or an earlier one, and
      is in no other place. */
  ghost predicate SpentOnce(r: Run, op: OutPoint) {
    && (forall i :: Held(r, i, op) ==> InChain(r.chain[..i + 1], op.hash) && op !in r.wallet.utxos)
    && (forall i, j :: Held(r, i, op) && Held(r, j, op) ==> i == j)
  }

  /** Wherever the coin is, its lock is set. */
  ghost predicate LockedAt(r: Run, op: OutPoint) {
    && (op in r.wallet.utxos ==> r.wallet.utxos[op].isLocked)
    && (forall i :: Held(r, i, op) ==> Entry(r, i).destroyed[op].isLocked)
  }

  lemma {:induction false} SpentInBlock(r: Run, b: Block, n: nat, op: OutPoint)
    requires n <= |b.txs| && FreshTxs(r.chain, b.txs) && SpendsKnown(r, b.txs)
    ensures var bk := EvalTxs(Book(r.wallet.utxos, NO_UNDO), b, n);
            op in bk.undo.destroyed ==> op !in bk.utxos && KnownAt(r.chain, b.txs, n, op)
  {
    if n > 0 {
      SpentInBlock(r, b, n - 1, op);
      var bk := EvalTxs(Book(r.wallet.utxos, NO_UNDO), b, n - 1);
      TxEffect(bk, b, n - 1, op);
      BlockEffect(r.wallet.utxos, b, n - 1, op);
      if KnownAt(r.chain, b.txs, n - 1, op) {
        assert KnownAt(r.chain, b.txs, n, op);
        assert !Creates(b, n - 1, op);
      } else if Spends(b, n - 1, op) && LiveAt(bk, b, n - 1, op).Some? {
        if Creates(b, n - 1, op) {
          assert b.txs[n - 1].hash == op.hash;
        } else {
          assert op in bk.utxos && op in r.wallet.utxos;
        }
        assert KnownAt(r.chain, b.txs, n, op);
      }
    }
  }

  // ----- pushing and popping blocks -----

  lemma EntriesAfterIngest(r: Run, b: Block, r2: Run)
    requires Tracked(r) && (r.chain == [] || b.height == Tip(r.chain).height + 1)
    requires r2 == Run(Connect(r.wallet, b), r.chain + [b])
    ensures Consecutive(r2.chain) && |r2.chain| == |r.chain| + 1
    ensures forall i :: 0 <= i < |r.chain| ==> Entry(r2, i) == Entry(r, i)
    ensures Entry(r2, |r.chain|) == Apply(r.wallet.utxos, b).undo
  {
    HeightsDistinct(r2.chain);
    forall i | 0 <= i < |r.chain| ensures Entry(r2, i) == Entry(r, i) {
      assert r2.chain[i] == r.chain[i];
      assert r2.chain[i].height != r2.chain[|r.chain|].height;
    }
  }

  lemma EntriesAfterUnwind(r: Run, r2: Run)
    requires Tracked(r) && r.chain != []
    requires r2 == Run(Disconnect(r.wallet, Tip(r.chain).height), Below(r.chain))
    ensures |r2.chain| == |r.chain| - 1
    ensures forall i :: 0 <= i < |r2.chain| ==> Entry(r2, i) == Entry(r, i) && r2.chain[..i + 1] == r.chain[..i + 1]
    ensures r2.wallet.utxos == Unwind(r.wallet.utxos, Entry(r, |r.chain| - 1))
  {
    var h := Tip(r.chain).height;
    HeightsDistinct(r.chain);
    assert r.chain[|r.chain| - 1] in r.chain;
    forall i | 0 <= i < |r2.chain|
      ensures Entry(r2, i) == Entry(r, i) && r2.chain[..i + 1] == r.chain[..i + 1]
    {
      assert r.chain[i].height != h;
    }
  }

  lemma InChainPrefix(chain: seq<Block>, i: nat, hash: Hash)
    requires i <= |chain| && InChain(chain[..i], hash)
    ensures InChain(chain, hash)
  {
    var k, p :| 0 <= k < i && 0 <= p < |chain[..i][k].txs| && chain[..i][k].txs[p].hash == hash;
    assert chain[k].txs[p].hash == hash;
  }

  lemma NotCreatedIfInChain(chain: seq<Block>, b: Block, op: OutPoint)
    requires FreshTxs(chain, b.txs) && InChain(chain, op.hash)
    ensures !CreatedBy(b, |b.txs|, op)
  {
  }

  /** Coins already held by an undo entry are out of reach of a new block. */
  lemma IngestLeavesEntries(r: Run, b: Block, i: nat, op: OutPoint)
    requires FreshTxs(r.chain, b.txs) && SpentOnce(r, op) && Held(r, i, op)
    ensures var bk := Apply(r.wallet.utxos, b); op !in bk.undo.destroyed && op !in bk.utxos
  {
    InChainPrefix(r.chain, i + 1, op.hash);
    NotCreatedIfInChain(r.chain, b, op);
    BlockEffect(r.wallet.utxos, b, |b.txs|, op);
  }

  /** Coins the new block spends come from the chain or the block itself. */
  lemma IngestedEntry(r: Run, b: Block, op: OutPoint)
    requires FreshTxs(r.chain, b.txs) && SpendsKnown(r, b.txs)
    requires op in Apply(r.wallet.utxos, b).undo.destroyed
    ensures op !in Apply(r.wallet.utxos, b).utxos && InChain(r.chain + [b], op.hash)
  {
    SpentInBlock(r, b, |b.txs|, op);
    var more := r.chain + [b];
    if InChain(r.chain, op.hash) {
      assert more[..|r.chain|] == r.chain;
      InChainPrefix(more, |r.chain|, op.hash);
    } else {
      var p :| 0 <= p < |b.txs| && b.txs[p].hash == op.hash;
      assert more[|r.chain|].txs[p].hash == op.hash;
    }
  }

  lemma IngestSpentOnce(r: Run, b: Block, r2: Run, op: OutPoint)
    requires Tracked(r) && (r.chain == [] || b.height == Tip(r.chain).height + 1)
    requires r2 == Run(Connect(r.wallet, b), r.chain + [b])
    requires FreshTxs(r.chain, b.txs) && SpendsKnown(r, b.txs) && SpentOnce(r, op)
    ensures SpentOnce(r2, op)
  {
    EntriesAfterIngest(r, b, r2);
    var last := |r.chain|;
    forall i | Held(r2, i, op)
      ensures InChain(r2.chain[..i + 1], op.hash) && op !in r2.wallet.utxos
      ensures i < last ==> Held(r, i, op) && !Held(r2, last, op)
    {
      if i < last {
        assert Held(r, i, op);
        assert r2.chain[..i + 1] == r.chain[..i + 1];
        IngestLeavesEntries(r, b, i, op);
      } else {
        IngestedEntry(r, b, op);
        assert r2.chain[..i + 1] == r2.chain;
      }
    }
  }

  lemma UnwindSpentOnce(r: Run, r2: Run, op: OutPoint)
    requires Tracked(r) && r.chain != [] && SpentOnce(r, op)
    requires r2 == Run(Disconnect(r.wallet, Tip(r.chain).height), Below(r.chain))
    ensures SpentOnce(r2, op)
  {
    EntriesAfterUnwind(r, r2);
    forall i | Held(r2, i, op)
      ensures Held(r, i, op) && InChain(r2.chain[..i + 1], op.hash) && op !in r2.wallet.utxos
    {
      assert Held(r, i, op);
      assert !Held(r, |r.chain| - 1, op);
    }
  }

  lemma SameEntries(r: Run, r2: Run)
    requires r2.chain == r.chain && r2.wallet.journal == r.wallet.journal
    ensures forall i :: 0 <= i < |r.chain| ==> Entry(r2, i) == Entry(r, i)
    ensures forall i, op :: Held(r2, i, op) <==> Held(r, i, op)
  {
  }

  lemma StepSpentOnce(env: Env, r: Run, a: Action, op: OutPoint)
    requires Tracked(r) && SpentOnce(r, op) && Enabled(env, r, a)
    requires a.Ingest? ==> SpendsKnown(r, a.txs)
    ensures Tracked(Next(env, r, a)) && SpentOnce(Next(env, r, a), op)
  {
    var r2 := Next(env, r, a);
    StepTracks(env, r, a);
    match a
    case Ingest(height, txs, picks) => IngestSpentOnce(r, BlockAt(env, r.wallet, height, txs, picks), r2, op);
    case UnwindTip => UnwindSpentOnce(r, r2, op);
    case IssueAddress(_) => SameEntries(r, r2);
    case Spend(outputs, feeRate, order, rpcOk) =>
      SpendKeepsRest(env, r.wallet, outputs, feeRate, order, rpcOk);
      SameEntries(r, r2);
    case Release(_) => SameEntries(r, r2);
  }

  lemma {:induction false} RunsTracked(env: Env, acts: seq<Action>, n: nat, op: OutPoint)
    requires env.derive(0).Some? && Valid(env, acts) && n <= |acts|
    ensures Tracked(Exec(env, acts, n)) && SpentOnce(Exec(env, acts, n), op)
  {
    if n == 0 {
      var r := Init(env);
      assert Tracked(r) && SpentOnce(r, op);
    } else {
      RunsTracked(env, acts, n - 1, op);
      assert LegalAt(env, acts, n - 1) && ValidAt(env, acts, n - 1);
      StepSpentOnce(env, Exec(env, acts, n - 1), acts[n - 1], op);
    }
  }

  // ----- what can clear a lock -----

  ghost predicate Names(a: Action, op: OutPoint) {
    a.Release? && op in Prevs(a.inputs)
  }

  /** The action unlocks the coin: it names it while it is unspent. Naming a coin that is in an undo
      entry does nothing. */
  ghost predicate Frees(r: Run, a: Action, op: OutPoint) {
    Names(a, op) && op in r.wallet.utxos
  }

  ghost predicate Recreates(env: Env, r: Run, a: Action, op: OutPoint) {
    a.Ingest? && CreatedBy(BlockAt(env, r.wallet, a.height, a.txs, a.picks), |a.txs|, op)
  }

  /** An outpoint a block creates ends up unlocked: live, or in the block's undo entry. */
  lemma {:induction false} CreatedEndsUnlocked(m: map<OutPoint, Coin>, b: Block, n: nat, op: OutPoint)
    requires n <= |b.txs| && CreatedBy(b, n, op)
    ensures var bk := EvalTxs(Book(m, NO_UNDO), b, n);
            if op in bk.utxos then !bk.utxos[op].isLocked
            else op in bk.undo.destroyed && !bk.undo.destroyed[op].isLocked
  {
    if n > 0 {
      TxEffect(EvalTxs(Book(m, NO_UNDO), b, n - 1), b, n - 1, op);
      if CreatedBy(b, n - 1, op) {
        CreatedEndsUnlocked(m, b, n - 1, op);
      }
    }
  }

  lemma IngestAndLock(r: Run, b: Block, r2: Run, op: OutPoint)
    requires Tracked(r) && SpentOnce(r, op) && (r.chain == [] || b.height == Tip(r.chain).height + 1)
    requires FreshTxs(r.chain, b.txs) && SpendsKnown(r, b.txs)
    requires r2 == Run(Connect(r.wallet, b), r.chain + [b])
    requires LockedAt(r, op)
    ensures LockedAt(r2, op) <==> !CreatedBy(b, |b.txs|, op)
  {
    EntriesAfterIngest(r, b, r2);
    BlockEffect(r.wallet.utxos, b, |b.txs|, op);
    var last := |r.chain|;
    if CreatedBy(b, |b.txs|, op) {
      CreatedEndsUnlocked(r.wallet.utxos, b, |b.txs|, op);
      assert Held(r2, last, op) <==> op in Entry(r2, last).destroyed;
    } else {
      forall i | Held(r2, i, op) ensures Entry(r2, i).destroyed[op].isLocked {
        assert i < last ==> Held(r, i, op);
      }
    }
  }

  lemma UnwindAndLock(r: Run, r2: Run, op: OutPoint)
    requires Tracked(r) && r.chain != [] && LockedAt(r, op)
    requires r2 == Run(Disconnect(r.wallet, Tip(r.chain).height), Below(r.chain))
    ensures LockedAt(r2, op)
  {
    EntriesAfterUnwind(r, r2);
    assert Held(r, |r.chain| - 1, op) <==> op in Entry(r, |r.chain| - 1).destroyed;
    forall i | Held(r2, i, op) ensures Entry(r2, i).destroyed[op].isLocked {
      assert Held(r, i, op);
    }
  }

  /** A lock is lost exactly by a step that unlocks the coin where it is unspent or connects a block
      creating it. In particular it survives being spent into an undo entry and coming back. */
  lemma StepKeepsLockIff(env: Env, r: Run, a: Action, op: OutPoint)
    requires Tracked(r) && SpentOnce(r, op) && Enabled(env, r, a)
    requires a.Ingest? ==> SpendsKnown(r, a.txs)
    requires LockedAt(r, op)
    ensures LockedAt(Next(env, r, a), op) <==> !Frees(r, a, op) && !Recreates(env, r, a, op)
  {
    hide SpentOnce, FreshTxs, SpendsKnown, Connect, Disconnect, Apply, PicksOk;
    var r2 := Next(env, r, a);
    match a
    case Ingest(height, txs, picks) => IngestAndLock(r, BlockAt(env, r.wallet, height, txs, picks), r2, op);
    case UnwindTip => UnwindAndLock(r, r2, op);
    case IssueAddress(_) => SameEntries(r, r2);
    case Spend(outputs, feeRate, order, rpcOk) => SpendOnlyLocks(env, r, a, op);
    case Release(_) => SameEntries(r, r2);
  }

  lemma SpendOnlyLocks(env: Env, r: Run, a: Action, op: OutPoint)
    requires a.Spend? && LockedAt(r, op)
    ensures LockedAt(Next(env, r, a), op)
  {
    var (w2, tx) := Create(env, r.wallet, a.outputs, a.feeRate, a.order, a.rpcOk);
    SpendKeepsRest(env, r.wallet, a.outputs, a.feeRate, a.order, a.rpcOk);
    SameEntries(r, Next(env, r, a));
    if tx.Some? {
      CreateLocks(env, r.wallet, a.outputs, a.feeRate, a.order, a.rpcOk, w2, tx.value);
    } else {
      FailedCreateKeepsCoins(env, r.wallet, a.outputs, a.feeRate, a.order, a.rpcOk);
    }
  }

  ghost predicate FreesAt(env: Env, acts: seq<Action>, k: nat, op: OutPoint)
    requires env.derive(0).Some? && k < |acts|
  {
    Frees(Exec(env, acts, k), acts[k], op)
  }

  ghost predicate ClearsAt(env: Env, acts: seq<Action>, k: nat, op: OutPoint)
    requires env.derive(0).Some? && k < |acts|
  {
    FreesAt(env, acts, k, op) || Recreates(env, Exec(env, acts, k), acts[k], op)
  }

  /** Step `i` creates a transaction that spends `op`. */
  ghost predicate SpendsAt(env: Env, acts: seq<Action>, i: nat, op: OutPoint)
    requires env.derive(0).Some? && i < |acts|
  {
    && acts[i].Spend?
    && var (w, a) := (Exec(env, acts, i).wallet, acts[i]);
       var tx := Create(env, w, a.outputs, a.feeRate, a.order, a.rpcOk).1;
       tx.Some? && op in Prevs(tx.value.inputs)
  }

  lemma SpendLocks(env: Env, acts: seq<Action>, i: nat, op: OutPoint)
    requires env.derive(0).Some? && Valid(env, acts) && i < |acts| && SpendsAt(env, acts, i, op)
    ensures Spendable(Exec(env, acts, i).wallet, op)
    ensures LockedAt(Exec(env, acts, i + 1), op)
  {
    var r, a := Exec(env, acts, i), acts[i];
    var (w2, tx) := Create(env, r.wallet, a.outputs, a.feeRate, a.order, a.rpcOk);
    CreateLocks(env, r.wallet, a.outputs, a.feeRate, a.order, a.rpcOk, w2, tx.value);
    SpendKeepsRest(env, r.wallet, a.outputs, a.feeRate, a.order, a.rpcOk);
    RunsTracked(env, acts, i, op);
    assert op in SpendableSet(r.wallet);
    SameEntries(r, Exec(env, acts, i + 1));
  }

  lemma {:induction false} LockHolds(env: Env, acts: seq<Action>, i: nat, n: nat, op: OutPoint)
    requires env.derive(0).Some? && Valid(env, acts) && i < n <= |acts| && SpendsAt(env, acts, i, op)
    requires forall k :: i < k < n ==> !ClearsAt(env, acts, k, op)
    ensures LockedAt(Exec(env, acts, n), op)
  {
    hide Valid, SpendsAt, ClearsAt, LockedAt, Exec;
    if n == i + 1 {
      SpendLocks(env, acts, i, op);
    } else {
      LockHolds(env, acts, i, n - 1, op);
      LockedStep(env, acts, n - 1, op);
    }
  }

  /** Two created transactions share an input only if in between the coin was unlocked while unspent or a
      block creating it was connected. */
  lemma SharedInputNeedsClearing(env: Env, acts: seq<Action>, i: nat, j: nat, op: OutPoint)
    requires env.derive(0).Some? && Valid(env, acts) && i < j < |acts|
    requires SpendsAt(env, acts, i, op) && SpendsAt(env, acts, j, op)
    ensures exists k :: i < k < j && ClearsAt(env, acts, k, op)
  {
    if forall k :: i < k < j ==> !ClearsAt(env, acts, k, op) {
      LockHolds(env, acts, i, j, op);
      SpendLocks(env, acts, j, op);
      assert false;
    }
  }

  ghost predicate LockedBefore(env: Env, acts: seq<Action>, k: nat, op: OutPoint)
    requires env.derive(0).Some? && k <= |acts|
  {
    LockedAt(Exec(env, acts, k), op)
  }

  /** From a creation that spends it on, the coin stays locked for as long as, and no longer than, no
      step clears it. */
  lemma StaysLockedIff(env: Env, acts: seq<Action>, i: nat, n: nat, op: OutPoint)
    requires env.derive(0).Some? && Valid(env, acts) && i < n <= |acts| && SpendsAt(env, acts, i, op)
    ensures (forall k :: i < k <= n ==> LockedBefore(env, acts, k, op)) <==>
            (forall k :: i < k < n ==> !ClearsAt(env, acts, k, op))
  {
    hide Valid, Legal, SpendsAt, ClearsAt, LockedAt;
    if forall k :: i < k < n ==> !ClearsAt(env, acts, k, op) {
      forall k | i < k <= n ensures LockedBefore(env, acts, k, op) {
        LockHolds(env, acts, i, k, op);
      }
    } else {
      var k :| i < k < n && ClearsAt(env, acts, k, op);
      if LockedBefore(env, acts, k, op) {
        LockedStep(env, acts, k, op);
        assert !LockedBefore(env, acts, k + 1, op);
      }
    }
  }

  lemma LockedStep(env: Env, acts: seq<Action>, k: nat, op: OutPoint)
    requires env.derive(0).Some? && Valid(env, acts) && k < |acts| && LockedAt(Exec(env, acts, k), op)
    ensures LockedAt(Exec(env, acts, k + 1), op) <==> !ClearsAt(env, acts, k, op)
  {
    hide LockedAt, Recreates, Frees, SpentOnce, Enabled, Next;
    RunsTracked(env, acts, k, op);
    assert LegalAt(env, acts, k) && ValidAt(env, acts, k);
    StepKeepsLockIff(env, Exec(env, acts, k), acts[k], op);
  }

  // ----- in terms of unwound blocks -----

  ghost predicate UnwindsCreator(env: Env, acts: seq<Action>, k: nat, op: OutPoint)
    requires env.derive(0).Some? && k < |acts|
  {
    var chain := Exec(env, acts, k).chain;
    acts[k].UnwindTip? && chain != [] && CreatedBy(Tip(chain), |Tip(chain).txs|, op)
  }

  lemma CreatorStays(env: Env, r: Run, a: Action, op: OutPoint)
    requires CreatorInChain(r.chain, op)
    requires !(a.UnwindTip? && r.chain != [] && CreatedBy(Tip(r.chain), |Tip(r.chain).txs|, op))
    ensures CreatorInChain(Next(env, r, a).chain, op)
  {
    var i :| 0 <= i < |r.chain| && CreatedBy(r.chain[i], |r.chain[i].txs|, op);
    var r2 := Next(env, r, a);
    if a.UnwindTip? {
      assert i < |r2.chain| && r2.chain[i] == r.chain[i];
    } else {
      assert r2.chain[i] == r.chain[i];
    }
  }

  lemma {:induction false} CreatorPersists(env: Env, acts: seq<Action>, i: nat, n: nat, op: OutPoint)
    requires env.derive(0).Some? && i <= n <= |acts|
    requires CreatorInChain(Exec(env, acts, i).chain, op)
    requires forall k :: i <= k < n ==> !UnwindsCreator(env, acts, k, op)
    ensures CreatorInChain(Exec(env, acts, n).chain, op)
  {
    if i < n {
      CreatorPersists(env, acts, i, n - 1, op);
      assert !UnwindsCreator(env, acts, n - 1, op);
      CreatorStays(env, Exec(env, acts, n - 1), acts[n - 1], op);
    }
  }

  lemma NoRecreation(env: Env, r: Run, a: Action, op: OutPoint)
    requires Enabled(env, r, a) && CreatorInChain(r.chain, op)
    ensures !Recreates(env, r, a, op)
  {
    CreatorHasTx(r.chain, op);
  }

  /** If the block that created the coin was connected when the first transaction was created, the two
      share it only if in between the coin was unlocked while unspent or that block was unwound. */
  lemma SharedInputNeedsUnwind(env: Env, acts: seq<Action>, i: nat, j: nat, op: OutPoint)
    requires env.derive(0).Some? && Valid(env, acts) && i < j < |acts|
    requires SpendsAt(env, acts, i, op) && SpendsAt(env, acts, j, op)
    requires CreatorInChain(Exec(env, acts, i).chain, op)
    ensures exists k :: i < k < j && (FreesAt(env, acts, k, op) || UnwindsCreator(env, acts, k, op))
  {
    SharedInputNeedsClearing(env, acts, i, j, op);
    var k :| i < k < j && ClearsAt(env, acts, k, op);
    if !FreesAt(env, acts, k, op) {
      if forall l :: i <= l < k ==> !UnwindsCreator(env, acts, l, op) {
        CreatorPersists(env, acts, i, k, op);
        assert LegalAt(env, acts, k);
        NoRecreation(env, Exec(env, acts, k), acts[k], op);
        assert false;
      } else {
        var l :| i <= l < k && UnwindsCreator(env, acts, l, op);
        assert l != i;
      }
    }
  }

  lemma SyncedKnows(env: Env, r: Run, txs: seq<Tx>)
    requires Synced(r)
    ensures SpendsKnown(r, txs)
    ensures forall op :: op in r.wallet.utxos ==> CreatorInChain(r.chain, op)
  {
    forall op | op in r.wallet.utxos ensures CreatorInChain(r.chain, op) && InChain(r.chain, op.hash) {
      assert op in Unlocked(r.wallet.utxos);
      ReplayedHaveCreators(r.chain, op);
      CreatorHasTx(r.chain, op);
    }
  }

  /** On runs that unwind no block with a chained spend nothing else is needed. */
  lemma SharedInputOnCleanRuns(env: Env, acts: seq<Action>, i: nat, j: nat, op: OutPoint)
    requires env.derive(0).Some? && Legal(env, acts) && CleanUnwinds(env, acts, |acts|) && i < j < |acts|
    requires SpendsAt(env, acts, i, op) && SpendsAt(env, acts, j, op)
    ensures exists k :: i < k < j && (FreesAt(env, acts, k, op) || UnwindsCreator(env, acts, k, op))
  {
    hide SpendsAt, FreesAt, UnwindsCreator, Synced, SpendsKnown;
    forall k | 0 <= k < |acts| ensures ValidAt(env, acts, k) {
      if acts[k].Ingest? {
        ReorgRefinement(env, acts, k);
        SyncedKnows(env, Exec(env, acts, k), acts[k].txs);
      }
    }
    ReorgRefinement(env, acts, i);
    SyncedKnows(env, Exec(env, acts, i), []);
    SpendLocks(env, acts, i, op);
    SharedInputNeedsUnwind(env, acts, i, j, op);
  }
}
