/** Whole runs of the wallet beside a chain that grows and shrinks at its tip. */
module WalletRuns {
  import opened WalletTypes
  import opened Ledger
  import opened WalletSpec
  import opened CoinSelection

  /** The wallet and, beside it, the blocks now connected, oldest first. */
  datatype Run = Run(wallet: Wallet, chain: seq<Block>)

  datatype Action =
    | Ingest(height: int, txs: seq<Tx>, picks: map<(nat, nat), nat>)
    | UnwindTip
    | IssueAddress(rpcOk: bool)
    | Spend(outputs: seq<TxOut>, feeRate: int, order: seq<OutPoint>, rpcOk: bool)
    | Release(inputs: seq<TxIn>)

  ghost predicate InChain(chain: seq<Block>, hash: Hash) {
    exists i, p :: 0 <= i < |chain| && 0 <= p < |chain[i].txs| && chain[i].txs[p].hash == hash
  }

  ghost predicate FreshTxs(chain: seq<Block>, txs: seq<Tx>) {
    && (forall p :: 0 <= p < |txs| ==> !InChain(chain, txs[p].hash))
    && (forall p, q :: 0 <= p < q < |txs| ==> txs[p].hash != txs[q].hash)
  }

  function Tip(chain: seq<Block>): Block
    requires chain != []
  {
    chain[|chain| - 1]
  }

  function Below(chain: seq<Block>): seq<Block>
    requires chain != []
  {
    chain[..|chain| - 1]
  }

  /** What the node lets happen: blocks come on top of the tip with transactions not already in the
      chain, only the tip is disconnected, and a scan of the coins visits each once. */
  ghost predicate Enabled(env: Env, r: Run, a: Action) {
    match a
    case Ingest(height, txs, picks) =>
      && (r.chain == [] || height == Tip(r.chain).height + 1)
      && FreshTxs(r.chain, txs)
      && PicksOk(BlockAt(env, r.wallet, height, txs, picks))
    case UnwindTip => r.chain != []
    case Spend(_, _, order, _) => IsOrder(order, r.wallet.utxos)
    case _ => true
  }

  ghost function Next(env: Env, r: Run, a: Action): Run {
    match a
    case Ingest(height, txs, picks) =>
      var b := BlockAt(env, r.wallet, height, txs, picks);
      Run(Connect(r.wallet, b), r.chain + [b])
    case UnwindTip =>
      if r.chain == [] then r else Run(Disconnect(r.wallet, Tip(r.chain).height), Below(r.chain))
    case IssueAddress(rpcOk) => r.(wallet := NewAddress(env, r.wallet, rpcOk).0)
    case Spend(outputs, feeRate, order, rpcOk) => r.(wallet := Create(env, r.wallet, outputs, feeRate, order, rpcOk).0)
    case Release(inputs) => r.(wallet := Unlock(r.wallet, inputs))
  }

  /** The wallet as created: the coinbase address at index 0 is its only one. */
  ghost function Init(env: Env): Run
    requires env.derive(0).Some?
  {
    Run(Wallet(0, 1, map[0 := env.derive(0).value], map[], map[]), [])
  }

  ghost function Exec(env: Env, acts: seq<Action>, n: nat): Run
    requires env.derive(0).Some? && n <= |acts|
  {
    if n == 0 then Init(env) else Next(env, Exec(env, acts, n - 1), acts[n - 1])
  }

  ghost predicate LegalAt(env: Env, acts: seq<Action>, i: nat)
    requires env.derive(0).Some? && i < |acts|
  {
    Enabled(env, Exec(env, acts, i), acts[i])
  }

  ghost predicate Legal(env: Env, acts: seq<Action>)
    requires env.derive(0).Some?
  {
    forall i :: 0 <= i < |acts| ==> LegalAt(env, acts, i)
  }

  ghost predicate CleanAt(env: Env, acts: seq<Action>, i: nat)
    requires env.derive(0).Some? && i < |acts|
  {
    var chain := Exec(env, acts, i).chain;
    acts[i].UnwindTip? && chain != [] ==> NoChained(Tip(chain))
  }

  /** The first `n` actions unwind no block that spends an output it creates; they may connect some. */
  ghost predicate CleanUnwinds(env: Env, acts: seq<Action>, n: nat)
    requires env.derive(0).Some? && n <= |acts|
  {
    forall i :: 0 <= i < n ==> CleanAt(env, acts, i)
  }

  lemma {:induction false} ExecPrefix(env: Env, acts: seq<Action>, a: Action, n: nat)
    requires env.derive(0).Some? && n <= |acts|
    ensures Exec(env, acts + [a], n) == Exec(env, acts, n)
  {
    hide Next;
    if n > 0 {
      ExecPrefix(env, acts, a, n - 1);
    }
  }

  /** A legal run extended by an enabled action is a legal run. */
  lemma LegalPush(env: Env, acts: seq<Action>, a: Action)
    requires env.derive(0).Some? && Legal(env, acts)
    requires Enabled(env, Exec(env, acts, |acts|), a)
    ensures Legal(env, acts + [a])
    ensures Exec(env, acts + [a], |acts| + 1) == Next(env, Exec(env, acts, |acts|), a)
  {
    ExecPrefix(env, acts, a, |acts|);
    forall i | 0 <= i < |acts| + 1 ensures LegalAt(env, acts + [a], i) {
      ExecPrefix(env, acts, a, i);
      if i < |acts| {
        assert LegalAt(env, acts, i);
      }
    }
  }

  // ----- reorg refinement -----

  ghost predicate Consecutive(chain: seq<Block>) {
    forall i :: 0 < i < |chain| ==> chain[i].height == chain[i - 1].height + 1
  }

  ghost function Heights(chain: seq<Block>): set<int> {
    set b | b in chain :: b.height
  }

  /** Block `i` of the chain has the undo entry that replaying it would produce. */
  ghost predicate EntryOk(journal: map<int, Undo>, chain: seq<Block>, i: nat)
    requires i < |chain|
  {
    && chain[i].height in journal
    && UnlockedUndo(journal[chain[i].height]) == Apply(Replay(chain[..i]), chain[i]).undo
  }

  ghost predicate BlockOk(chain: seq<Block>, i: nat)
    requires i < |chain|
  {
    FreshTxs(chain[..i], chain[i].txs)
  }

  /** Consecutive blocks with fresh transactions. */
  ghost predicate GoodChain(chain: seq<Block>) {
    Consecutive(chain) && forall i :: 0 <= i < |chain| ==> BlockOk(chain, i)
  }

  ghost predicate JournalOk(journal: map<int, Undo>, chain: seq<Block>) {
    journal.Keys == Heights(chain) && forall i :: 0 <= i < |chain| ==> EntryOk(journal, chain, i)
  }

  /** The wallet's coins, locks aside, are those of a replay of its chain from nothing. */
  ghost predicate Agrees(r: Run) {
    Unlocked(r.wallet.utxos) == Replay(r.chain)
  }

  /** The wallet is in step with its chain: its coins are those of a replay from nothing, and each
      connected block, and no other height, has its undo entry. */
  ghost predicate Synced(r: Run) {
    && GoodChain(r.chain)
    && JournalOk(r.wallet.journal, r.chain)
    && Agrees(r)
  }

  lemma {:induction false} HeightsAre(chain: seq<Block>, i: nat)
    requires Consecutive(chain) && i < |chain|
    ensures chain[i].height == chain[0].height + i
  {
    if i > 0 {
      HeightsAre(chain, i - 1);
    }
  }

  lemma HeightsDistinct(chain: seq<Block>)
    requires Consecutive(chain)
    ensures forall i, j :: 0 <= i < j < |chain| ==> chain[i].height != chain[j].height
  {
    forall i, j | 0 <= i < j < |chain| ensures chain[i].height != chain[j].height {
      HeightsAre(chain, i);
      HeightsAre(chain, j);
    }
  }

  lemma HeightsBelow(chain: seq<Block>)
    requires Consecutive(chain) && chain != []
    ensures Heights(Below(chain)) == Heights(chain) - {Tip(chain).height}
  {
    var init := Below(chain);
    HeightsDistinct(chain);
    forall h ensures h in Heights(init) <==> h in Heights(chain) && h != Tip(chain).height {
      if h in Heights(chain) && h != Tip(chain).height {
        var x :| x in chain && x.height == h;
        assert x in init;
      }
      if h in Heights(init) {
        var i :| 0 <= i < |init| && init[i].height == h;
        assert chain[i] in chain;
      }
    }
  }

  /** The connected blocks are consecutive, and the journal has an entry for each of them only. */
  ghost predicate Tracked(r: Run) {
    Consecutive(r.chain) && r.wallet.journal.Keys == Heights(r.chain)
  }

  lemma StepTracks(env: Env, r: Run, a: Action)
    requires Tracked(r) && Enabled(env, r, a)
    ensures Tracked(Next(env, r, a))
  {
    hide Apply, Unwind, PicksOk, FreshTxs, Create;
    match a
    case Ingest(height, txs, picks) =>
      var b := BlockAt(env, r.wallet, height, txs, picks);
      assert Heights(r.chain + [b]) == Heights(r.chain) + {b.height};
    case UnwindTip =>
      HeightsBelow(r.chain);
      assert Tip(r.chain) in r.chain;
    case Spend(outputs, feeRate, order, rpcOk) => SpendKeepsRest(env, r.wallet, outputs, feeRate, order, rpcOk);
    case _ =>
  }

  lemma {:induction false} RunTracks(env: Env, acts: seq<Action>, n: nat)
    requires env.derive(0).Some? && Legal(env, acts) && n <= |acts|
    ensures Tracked(Exec(env, acts, n))
  {
    if n > 0 {
      RunTracks(env, acts, n - 1);
      assert LegalAt(env, acts, n - 1);
      StepTracks(env, Exec(env, acts, n - 1), acts[n - 1]);
    }
  }

  ghost predicate CreatorInChain(chain: seq<Block>, op: OutPoint) {
    exists i :: 0 <= i < |chain| && CreatedBy(chain[i], |chain[i].txs|, op)
  }

  lemma {:induction false} ReplayedHaveCreators(chain: seq<Block>, op: OutPoint)
    requires op in Replay(chain)
    ensures CreatorInChain(chain, op)
  {
    if chain != [] {
      BlockEffect(Replay(Below(chain)), Tip(chain), |Tip(chain).txs|, op);
      if CreatedBy(Tip(chain), |Tip(chain).txs|, op) {
        assert chain[|chain| - 1] == Tip(chain);
      } else {
        ReplayedHaveCreators(Below(chain), op);
        var i :| 0 <= i < |Below(chain)| && CreatedBy(Below(chain)[i], |Below(chain)[i].txs|, op);
        assert chain[i] == Below(chain)[i];
      }
    }
  }

  lemma CreatorHasTx(chain: seq<Block>, op: OutPoint)
    requires CreatorInChain(chain, op)
    ensures InChain(chain, op.hash)
  {
    var i :| 0 <= i < |chain| && CreatedBy(chain[i], |chain[i].txs|, op);
    var p: nat :| p < |chain[i].txs| && Creates(chain[i], p, op);
    assert chain[i].txs[p].hash == op.hash;
  }

  /** Blocks fresh for the chain create none of the outputs replaying the chain yields. */
  lemma FreshOutputs(chain: seq<Block>, b: Block)
    requires FreshTxs(chain, b.txs)
    ensures forall op :: op in Replay(chain) ==> !CreatedBy(b, |b.txs|, op)
  {
    forall op | op in Replay(chain) ensures !CreatedBy(b, |b.txs|, op) {
      ReplayedHaveCreators(chain, op);
      CreatorHasTx(chain, op);
    }
  }

  lemma GoodPush(chain: seq<Block>, b: Block)
    requires GoodChain(chain) && FreshTxs(chain, b.txs)
    requires chain == [] || b.height == Tip(chain).height + 1
    ensures GoodChain(chain + [b])
  {
    var more := chain + [b];
    forall i | 0 <= i < |more| ensures BlockOk(more, i) {
      if i < |chain| {
        assert BlockOk(chain, i);
        assert more[i] == chain[i] && more[..i] == chain[..i];
      } else {
        assert more[..i] == chain;
      }
    }
  }

  lemma GoodPop(chain: seq<Block>)
    requires GoodChain(chain) && chain != []
    ensures GoodChain(Below(chain)) && FreshTxs(Below(chain), Tip(chain).txs)
  {
    var init := Below(chain);
    assert BlockOk(chain, |chain| - 1);
    forall i | 0 <= i < |init| ensures BlockOk(init, i) {
      assert BlockOk(chain, i);
      assert init[i] == chain[i] && init[..i] == chain[..i];
    }
  }

  lemma JournalPush(journal: map<int, Undo>, chain: seq<Block>, b: Block, undo: Undo)
    requires Consecutive(chain + [b]) && JournalOk(journal, chain)
    requires UnlockedUndo(undo) == Apply(Replay(chain), b).undo
    ensures JournalOk(journal[b.height := undo], chain + [b])
  {
    var more, j2 := chain + [b], journal[b.height := undo];
    HeightsDistinct(more);
    assert Heights(more) == Heights(chain) + {b.height};
    forall i | 0 <= i < |more| ensures EntryOk(j2, more, i) {
      if i < |chain| {
        assert EntryOk(journal, chain, i);
        assert more[i] == chain[i] && more[..i] == chain[..i];
        assert more[i].height != more[|chain|].height;
      } else {
        assert more[..i] == chain;
      }
    }
  }

  lemma JournalPop(journal: map<int, Undo>, chain: seq<Block>)
    requires Consecutive(chain) && JournalOk(journal, chain) && chain != []
    ensures Tip(chain).height in journal
    ensures UnlockedUndo(journal[Tip(chain).height]) == Apply(Replay(Below(chain)), Tip(chain)).undo
    ensures JournalOk(journal - {Tip(chain).height}, Below(chain))
  {
    var init, j2 := Below(chain), journal - {Tip(chain).height};
    assert EntryOk(journal, chain, |chain| - 1);
    HeightsDistinct(chain);
    forall i | 0 <= i < |init| ensures EntryOk(j2, init, i) {
      assert EntryOk(journal, chain, i);
      assert init[i] == chain[i] && init[..i] == chain[..i];
      assert chain[i].height != chain[|chain| - 1].height;
    }
    HeightsBelow(chain);
    assert j2.Keys == Heights(init);
  }

  lemma IngestSyncs(env: Env, r: Run, a: Action)
    requires Synced(r) && a.Ingest? && Enabled(env, r, a)
    ensures Synced(Next(env, r, a))
  {
    var b := BlockAt(env, r.wallet, a.height, a.txs, a.picks);
    ApplyUnlocked(r.wallet.utxos, b);
    GoodPush(r.chain, b);
    JournalPush(r.wallet.journal, r.chain, b, Apply(r.wallet.utxos, b).undo);
    assert Below(r.chain + [b]) == r.chain;
  }

  /** Unwinding the tip of a wallet in step finds its undo entry, and leaves the wallet in step, or even
      in agreement, exactly if the tip has no chained spend. */
  lemma UnwindSyncsIff(env: Env, r: Run)
    requires Synced(r) && r.chain != []
    ensures Tip(r.chain).height in r.wallet.journal
    ensures Synced(Next(env, r, UnwindTip)) <==> NoChained(Tip(r.chain))
    ensures Agrees(Next(env, r, UnwindTip)) <==> NoChained(Tip(r.chain))
  {
    var b, init := Tip(r.chain), Below(r.chain);
    GoodPop(r.chain);
    JournalPop(r.wallet.journal, r.chain);
    FreshOutputs(init, b);
    InversionIff(Replay(init), b);
    UnwindUnlocked(r.wallet.utxos, r.wallet.journal[b.height]);
  }

  lemma SpendKeepsRest(env: Env, w: Wallet, outputs: seq<TxOut>, feeRate: int, order: seq<OutPoint>, rpcOk: bool)
    ensures var w2 := Create(env, w, outputs, feeRate, order, rpcOk).0;
            Unlocked(w2.utxos) == Unlocked(w.utxos) && w2.journal == w.journal
  {
  }

  lemma StepSyncs(env: Env, r: Run, a: Action)
    requires Synced(r) && Enabled(env, r, a)
    requires a.UnwindTip? ==> NoChained(Tip(r.chain))
    ensures Synced(Next(env, r, a))
  {
    match a
    case Ingest(_, _, _) => IngestSyncs(env, r, a);
    case UnwindTip => UnwindSyncsIff(env, r);
    case IssueAddress(_) =>
    case Spend(outputs, feeRate, order, rpcOk) => SpendKeepsRest(env, r.wallet, outputs, feeRate, order, rpcOk);
    case Release(inputs) =>
      assert Unlocked(Next(env, r, a).wallet.utxos) == Unlocked(r.wallet.utxos);
  }

  lemma InitSynced(env: Env)
    requires env.derive(0).Some?
    ensures Synced(Init(env))
  {
  }

  /** After any legal run that has unwound no block with a chained spend the wallet is in step with the
      active chain. */
  lemma {:induction false} ReorgRefinement(env: Env, acts: seq<Action>, n: nat)
    requires env.derive(0).Some? && Legal(env, acts) && n <= |acts|
    requires CleanUnwinds(env, acts, n)
    ensures Synced(Exec(env, acts, n))
  {
    hide Synced, Enabled, Next, NoChained;
    if n == 0 {
      InitSynced(env);
    } else {
      ReorgRefinement(env, acts, n - 1);
      assert LegalAt(env, acts, n - 1) && CleanAt(env, acts, n - 1);
      EnabledUnwind(env, Exec(env, acts, n - 1));
      StepSyncs(env, Exec(env, acts, n - 1), acts[n - 1]);
    }
  }

  lemma EnabledUnwind(env: Env, r: Run)
    ensures Enabled(env, r, UnwindTip) <==> r.chain != []
  {
  }

  ghost predicate AgreesAt(env: Env, acts: seq<Action>, n: nat)
    requires env.derive(0).Some? && n <= |acts|
  {
    Agrees(Exec(env, acts, n))
  }

  lemma {:induction false} AgreementIsClean(env: Env, acts: seq<Action>, n: nat)
    requires env.derive(0).Some? && Legal(env, acts) && n <= |acts|
    requires forall i :: 0 <= i <= n ==> AgreesAt(env, acts, i)
    ensures CleanUnwinds(env, acts, n)
  {
    hide Synced, Legal, Agrees, NoChained;
    if n > 0 {
      AgreementIsClean(env, acts, n - 1);
      ReorgRefinement(env, acts, n - 1);
      var r := Exec(env, acts, n - 1);
      assert AgreesAt(env, acts, n);
      if acts[n - 1].UnwindTip? && r.chain != [] {
        UnwindSyncsIff(env, r);
      }
    }
  }

  /** A legal run keeps the wallet in agreement with the active chain throughout if and only if it never
      unwinds a block with a chained spend. */
  lemma ReorgRefinementIff(env: Env, acts: seq<Action>)
    requires env.derive(0).Some? && Legal(env, acts)
    ensures (forall n :: 0 <= n <= |acts| ==> AgreesAt(env, acts, n)) <==> CleanUnwinds(env, acts, |acts|)
  {
    if CleanUnwinds(env, acts, |acts|) {
      forall n | 0 <= n <= |acts| ensures AgreesAt(env, acts, n) {
        ReorgRefinement(env, acts, n);
      }
    }
    if forall n :: 0 <= n <= |acts| ==> AgreesAt(env, acts, n) {
      AgreementIsClean(env, acts, |acts|);
    }
  }

  /** In terms of the transactions of the active chain: a coin is in the wallet exactly if some
      transaction created it for the wallet, last, and none spends it from there on; and every
      disconnect finds the undo entry of its block. */
  lemma WalletOwnsUnspent(env: Env, acts: seq<Action>, n: nat, op: OutPoint, coin: Coin)
    requires env.derive(0).Some? && Legal(env, acts) && n <= |acts| && CleanUnwinds(env, acts, n)
    ensures var r := Exec(env, acts, n);
            && (op in r.wallet.utxos && r.wallet.utxos[op].(isLocked := false) == coin <==>
                  Owned(Flatten(r.chain), op, coin))
            && (r.chain != [] ==> Tip(r.chain).height in r.wallet.journal)
  {
    ReorgRefinement(env, acts, n);
    var r := Exec(env, acts, n);
    ReplayIsOwned(r.chain, op, coin);
    assert Unlocked(r.wallet.utxos) == Replay(r.chain);
  }

  // ----- maturity -----

  ghost predicate Matures(env: Env, b: Block) {
    b.maturesAt == b.height + env.coinbaseMaturity
  }

  lemma {:induction false} MaturityRecorded(env: Env, acts: seq<Action>, n: nat)
    requires env.derive(0).Some? && n <= |acts|
    ensures forall b :: b in Exec(env, acts, n).chain ==> Matures(env, b)
  {
    if n > 0 {
      MaturityRecorded(env, acts, n - 1);
    }
  }

  lemma {:induction false} EventBlock(chain: seq<Block>, k: nat)
    requires k < |Flatten(chain)|
    ensures Flatten(chain)[k].block in chain
  {
    if chain != [] && k < |Flatten(Below(chain))| {
      EventBlock(Below(chain), k);
    }
  }

  /** Transaction `p` of the block made the coin, with that value, and if it is the coinbase the wallet
      has seen the block's height exceeded by the maturity. */
  ghost predicate MadeRipe(env: Env, b: Block, p: nat, x: TxIn, height: int) {
    && p < |b.txs| && Creates(b, p, x.prev)
    && x.valueIn == b.txs[p].outputs[x.prev.index].value
    && (b.txs[p].isCoinbase ==> height >= b.height + env.coinbaseMaturity)
  }

  /** Every input of a created transaction is an output of the active chain, spent at its value, and no
      coinbase output is spent before it matures, by the height of the last block connected (which
      unwinding does not lower). */
  lemma SpentCoinsAreRipe(env: Env, acts: seq<Action>, i: nat, w2: Wallet, tx: SpendTx, x: TxIn)
    requires env.derive(0).Some? && Legal(env, acts) && i < |acts| && acts[i].Spend? && CleanUnwinds(env, acts, i)
    requires Create(env, Exec(env, acts, i).wallet, acts[i].outputs, acts[i].feeRate, acts[i].order,
          acts[i].rpcOk) == (w2, Some(tx))
    requires x in tx.inputs
    ensures var r := Exec(env, acts, i);
            exists b, p: nat :: b in r.chain && MadeRipe(env, b, p, x, r.wallet.height)
  {
    hide Legal, CleanUnwinds, Create, Exec, Flatten;
    var r := Exec(env, acts, i);
    SpendIsOrdered(env, acts, i);
    CreateConserves(env, r.wallet, acts[i].outputs, acts[i].feeRate, acts[i].order, acts[i].rpcOk, w2, tx);
    var coin := r.wallet.utxos[x.prev].(isLocked := false);
    WalletOwnsUnspent(env, acts, i, x.prev, coin);
    var k: nat :| OwnedFrom(Flatten(r.chain), x.prev, coin, k);
    EventBlock(r.chain, k);
    MaturityRecorded(env, acts, i);
    var e := Flatten(r.chain)[k];
    assert Matures(env, e.block);
    assert MadeRipe(env, e.block, e.index, x, r.wallet.height);
  }

  lemma SpendIsOrdered(env: Env, acts: seq<Action>, i: nat)
    requires env.derive(0).Some? && Legal(env, acts) && i < |acts| && acts[i].Spend?
    ensures IsOrder(acts[i].order, Exec(env, acts, i).wallet.utxos)
  {
    assert LegalAt(env, acts, i);
  }

  // ----- the wallet's height and the tip's -----

  /** How many blocks have been unwound since one was last connected. */
  function UnwoundSince(acts: seq<Action>, n: nat): nat
    requires n <= |acts|
  {
    if n == 0 || acts[n - 1].Ingest? then 0
    else UnwoundSince(acts, n - 1) + (if acts[n - 1].UnwindTip? then 1 else 0)
  }

  lemma SpendKeepsHeight(env: Env, w: Wallet, outputs: seq<TxOut>, feeRate: int, order: seq<OutPoint>, rpcOk: bool)
    ensures Create(env, w, outputs, feeRate, order, rpcOk).0.height == w.height
  {
    hide Chosen, SignFirst, SetLocks, NewAddress;
  }

  lemma BelowIsOneLess(chain: seq<Block>)
    requires Consecutive(chain) && |chain| > 1
    ensures Tip(Below(chain)).height == Tip(chain).height - 1
  {
    assert chain[|chain| - 1].height == chain[|chain| - 2].height + 1;
  }

  /** The wallet's height is that of the tip plus the blocks unwound since one was last connected; so it is
      never below the tip's, and the same exactly if the last change to the chain was a connect. */
  lemma {:induction false} HeightAhead(env: Env, acts: seq<Action>, n: nat)
    requires env.derive(0).Some? && Legal(env, acts) && n <= |acts|
    ensures var r := Exec(env, acts, n);
            r.chain != [] ==> r.wallet.height == Tip(r.chain).height + UnwoundSince(acts, n)
  {
    hide Legal, Enabled, Create, Apply, Unwind, Unlock, PicksOk;
    if n > 0 {
      HeightAhead(env, acts, n - 1);
      RunTracks(env, acts, n - 1);
      var r, a := Exec(env, acts, n - 1), acts[n - 1];
      if a.UnwindTip? && |r.chain| > 1 {
        BelowIsOneLess(r.chain);
      } else if a.Spend? {
        SpendKeepsHeight(env, r.wallet, a.outputs, a.feeRate, a.order, a.rpcOk);
      } else if a.Release? {
        UnlockKeepsHeight(r.wallet, a.inputs);
      }
    }
  }

  lemma UnlockKeepsHeight(w: Wallet, inputs: seq<TxIn>)
    ensures Unlock(w, inputs).height == w.height
  {
  }

  /** At the tip a coinbase output spent may lack as many blocks of its maturity as have been unwound since
      one was last connected, and no more; with none unwound it is mature there. */
  lemma SpentCoinsAreRipeAtTip(env: Env, acts: seq<Action>, i: nat, w2: Wallet, tx: SpendTx, x: TxIn)
    returns (b: Block, p: nat)
    requires env.derive(0).Some? && Legal(env, acts) && i < |acts| && acts[i].Spend? && CleanUnwinds(env, acts, i)
    requires var (w, a) := (Exec(env, acts, i).wallet, acts[i]);
             Create(env, w, a.outputs, a.feeRate, a.order, a.rpcOk) == (w2, Some(tx))
    requires x in tx.inputs
    ensures var chain := Exec(env, acts, i).chain;
            b in chain && MadeRipe(env, b, p, x, Tip(chain).height + UnwoundSince(acts, i))
  {
    hide Legal, CleanUnwinds, Create, Exec, MadeRipe;
    SpentCoinsAreRipe(env, acts, i, w2, tx, x);
    HeightAhead(env, acts, i);
    var r := Exec(env, acts, i);
    b, p :| b in r.chain && MadeRipe(env, b, p, x, r.wallet.height);
  }
}
