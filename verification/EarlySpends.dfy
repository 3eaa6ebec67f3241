/** A run in which a coinbase output is spent before it is mature at the tip of the active chain. */
module EarlySpends {
  import opened WalletTypes
  import opened Ledger
  import opened WalletSpec
  import opened WalletRuns
  import opened LockSafety
  import opened ChainedSpends

  const COINBASE: Tx := Tx(1, true, [TxOut(5, SCRIPT)], [])
  const RIPE_AT_TWO: Coin := Coin(5, SCRIPT, 2, 0, false)

  function Early(): seq<Action> {
    [Ingest(1, [COINBASE], PICKS), Ingest(2, [], map[]), UnwindTip, Spend([], 0, [COIN], true)]
  }

  ghost function Then(n: nat): Run
    requires n <= 4
  {
    Exec(Simple(), Early(), n)
  }

  /** What the coinbase block does to one outpoint. */
  lemma CoinbaseFate(w: Wallet, op: OutPoint)
    requires 0 in w.addrs && w.addrs[0] == SCRIPT && w.utxos == map[]
    ensures var b := BlockAt(Simple(), w, 1, [COINBASE], PICKS); var r := Apply(w.utxos, b);
            && PicksOk(b)
            && Get(r.utxos, op) == (if op == COIN then Some(RIPE_AT_TWO) else None)
            && !Spends(b, 0, op) && (Creates(b, 0, op) <==> op == COIN)
  {
    var b := BlockAt(Simple(), w, 1, [COINBASE], PICKS);
    ScriptMatches(b.addrs);
    var b0 := Book(w.utxos, NO_UNDO);
    assert EvalTxs(b0, b, 0) == b0;
    TxEffect(b0, b, 0, op);
  }

  lemma ConnectCoinbase(r: Run)
    requires r == Init(Simple())
    ensures Enabled(Simple(), r, Early()[0])
    ensures var r1 := Next(Simple(), r, Early()[0]);
            && |r1.chain| == 1 && Tip(r1.chain).height == 1 && Tip(r1.chain).txs == [COINBASE]
            && Creates(Tip(r1.chain), 0, COIN) && NoChained(Tip(r1.chain))
            && r1.wallet.utxos == map[COIN := RIPE_AT_TWO] && r1.wallet.journal.Keys == {1}
            && r1.wallet.addrs == r.wallet.addrs
  {
    CoinbaseFate(r.wallet, COIN);
    var b := BlockAt(Simple(), r.wallet, 1, [COINBASE], PICKS);
    var r1 := Next(Simple(), r, Early()[0]);
    assert r1 == Run(Connect(r.wallet, b), [b]);
    forall op ensures Get(r1.wallet.utxos, op) == Get(map[COIN := RIPE_AT_TWO], op) && !ChainedBy(b, 1, op) {
      CoinbaseFate(r.wallet, op);
    }
    SameMap(r1.wallet.utxos, map[COIN := RIPE_AT_TWO]);
  }

  /** An empty block connected and unwound again leaves the coins alone and the height behind. */
  lemma EmptyBlockComesAndGoes(r: Run)
    requires |r.chain| == 1 && Tip(r.chain).height == 1 && r.wallet.journal.Keys == {1}
    ensures Enabled(Simple(), r, Early()[1])
    ensures var r1 := Next(Simple(), r, Early()[1]);
            && r1.chain != [] && NoChained(Tip(r1.chain))
            && var r2 := Next(Simple(), r1, UnwindTip);
               r2.chain == r.chain && r2.wallet.utxos == r.wallet.utxos && r2.wallet.height == 2
  {
    var b := BlockAt(Simple(), r.wallet, 2, [], map[]);
    var r1 := Next(Simple(), r, Early()[1]);
    assert r1 == Run(Connect(r.wallet, b), r.chain + [b]);
    assert Apply(r.wallet.utxos, b) == Book(r.wallet.utxos, NO_UNDO);
    assert Below(r1.chain) == r.chain;
    assert r.wallet.utxos - {} == r.wallet.utxos;
    assert r.wallet.utxos + map[] == r.wallet.utxos;
  }

  /** In this legal run, which unwinds no chained spend, the wallet spends a coinbase output of block 1 with
      block 1 the tip, although it matures at height 2. */
  lemma CoinbaseSpentEarly()
    ensures Simple().derive(0).Some? && Legal(Simple(), Early()) && CleanUnwinds(Simple(), Early(), |Early()|)
    ensures SpendsAt(Simple(), Early(), 3, COIN) && UnwoundSince(Early(), 3) == 1
    ensures var chain := Exec(Simple(), Early(), 3).chain;
            && |chain| == 1 && chain[0].txs == [COINBASE] && Creates(chain[0], 0, COIN)
            && Tip(chain).height < chain[0].height + Simple().coinbaseMaturity
  {
    hide Create, Apply, Unwind, NoChained, PicksOk, SpendsKnown;
    assert Then(1) == Next(Simple(), Then(0), Early()[0]);
    assert Then(2) == Next(Simple(), Then(1), Early()[1]);
    assert Then(3) == Next(Simple(), Then(2), Early()[2]);
    ConnectCoinbase(Then(0));
    EmptyBlockComesAndGoes(Then(1));
    SpendSucceeds(Then(3).wallet, RIPE_AT_TWO);
    assert Elements([COIN]) == {COIN};
    forall i | 0 <= i < 4 ensures LegalAt(Simple(), Early(), i) && CleanAt(Simple(), Early(), i) {
      assert i == 0 || i == 1 || i == 2 || i == 3;
      assert Then(i) == Exec(Simple(), Early(), i);
    }
  }
}
