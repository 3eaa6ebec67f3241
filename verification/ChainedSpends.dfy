/** A block that spends an output it creates leaves a coin behind when it is unwound; this run shows
    what that does to locks. */
module ChainedSpends {
  import opened WalletTypes
  import opened Ledger
  import opened WalletSpec
  import opened WalletRuns
  import opened LockSafety

  const SCRIPT: Bytes := [7]
  const COIN: OutPoint := OutPoint(1, 0, 0)
  const MAKER: Tx := Tx(1, false, [TxOut(5, SCRIPT)], [])
  const TAKER: Tx := Tx(2, false, [], [COIN])
  const PICKS: map<(nat, nat), nat> := map[(0, 0) := 0]

  function Simple(): Env {
    Env(1, (k: nat) => Some(SCRIPT), a => a, (n: nat, outs: seq<TxOut>) => 0, (tx, i: nat, s, k: nat) => Some([]))
  }

  function Actions(): seq<Action> {
    [Ingest(1, [MAKER, TAKER], PICKS), UnwindTip, Spend([], 0, [COIN], true),
     Ingest(1, [MAKER], PICKS), Spend([], 0, [COIN], true)]
  }

  lemma ScriptMatches(addrs: map<nat, Bytes>)
    requires 0 in addrs && addrs[0] == SCRIPT
    ensures 0 in Matches(addrs, SCRIPT)
  {
    assert OccursAt(SCRIPT, SCRIPT, 0);
  }

  /** Both blocks create the coin; the first also spends it. */
  lemma CoinFate(w: Wallet, txs: seq<Tx>, op: OutPoint)
    requires 0 in w.addrs && w.addrs[0] == SCRIPT
    requires txs == [MAKER, TAKER] || txs == [MAKER]
    ensures var b := BlockAt(Simple(), w, 1, txs, PICKS); var r := Apply(w.utxos, b);
            && PicksOk(b)
            && Get(r.utxos, op) == (if op == COIN then (if |txs| == 1 then Some(CoinAt(b, 0, 0)) else None)
                  else Get(w.utxos, op))
            && Get(r.undo.destroyed, op) == (if op == COIN && |txs| == 2 then Some(CoinAt(b, 0, 0)) else None)
            && (op in r.undo.created <==> op == COIN)
  {
    var b := BlockAt(Simple(), w, 1, txs, PICKS);
    ScriptMatches(b.addrs);
    var b0 := Book(w.utxos, NO_UNDO);
    var b1 := EvalTxs(b0, b, 1);
    assert EvalTxs(b0, b, 0) == b0;
    TxEffect(b0, b, 0, op);
    if |txs| == 2 {
      TxEffect(b1, b, 1, op);
    }
  }

  lemma SpendSucceeds(w: Wallet, c: Coin)
    requires w.utxos == map[COIN := c] && c == Coin(5, SCRIPT, c.maturityHeight, 0, false)
    requires w.height >= c.maturityHeight
    ensures var (w2, tx) := Create(Simple(), w, [], 0, [COIN], true);
            && tx.Some? && COIN in Prevs(tx.value.inputs)
            && w2.utxos == map[COIN := c.(isLocked := true)] && w2.journal == w.journal && w2.height == w.height
            && (0 in w.addrs && w.addrs[0] == SCRIPT ==> 0 in w2.addrs && w2.addrs[0] == SCRIPT)
  {
    var env := Simple();
    assert Candidates(w, [COIN], 0) == [];
    assert Candidates(w, [COIN], 1) == [COIN];
    assert [COIN][..1] == [COIN];
    assert Total(w.utxos, []) == 0;
    assert Total(w.utxos, [COIN]) == 5;
    assert Choose(env, w, [COIN], 1, [], 0) == Some(1);
    assert Chosen(env, w, [], 0, [COIN]) == Some([COIN]);
    var tx := Assemble(env, w, [COIN], [], 0, true).1.value;
    assert tx.inputs == [TxIn(COIN, 5, [])];
    assert SignFirst(env, w.utxos, tx, 0) == Some([]);
    var scripts := SignFirst(env, w.utxos, tx, 1);
    assert scripts.Some?;
    var signed := Signed(tx, scripts.value);
    assert Finish(env, Assemble(env, w, [COIN], [], 0, true).0, tx).1 == Some(signed);
    assert signed.inputs[0].prev == COIN && signed.inputs[0] in signed.inputs;
    assert COIN in Prevs(signed.inputs);
    assert tx.inputs[0] in tx.inputs;
    assert COIN in Prevs(tx.inputs);
  }

  const FREE: Coin := Coin(5, SCRIPT, 0, 0, false)

  ghost function At(n: nat): Run
    requires n <= 5
  {
    Exec(Simple(), Actions(), n)
  }

  /** The wallet holds just the coin, unlocked, with nothing connected. */
  ghost predicate Leftover(r: Run) {
    && r.chain == [] && r.wallet.utxos == map[COIN := FREE] && r.wallet.journal == map[]
    && r.wallet.height == 1 && 0 in r.wallet.addrs && r.wallet.addrs[0] == SCRIPT
  }

  lemma ConnectFirst(r: Run)
    requires r == Init(Simple())
    ensures Enabled(Simple(), r, Actions()[0]) && SpendsKnown(r, [MAKER, TAKER])
    ensures var r1 := Next(Simple(), r, Actions()[0]);
            && |r1.chain| == 1 && Tip(r1.chain).height == 1 && r1.wallet.height == 1
            && r1.wallet.addrs == r.wallet.addrs && r1.wallet.journal.Keys == {1}
            && var undo := r1.wallet.journal[1];
               && Elements(undo.created) == {COIN} && undo.destroyed == map[COIN := FREE] && r1.wallet.utxos == map[]
  {
    var env := Simple();
    var b := BlockAt(env, r.wallet, 1, [MAKER, TAKER], PICKS);
    CoinFate(r.wallet, [MAKER, TAKER], COIN);
    var r1 := Next(env, r, Actions()[0]);
    assert r1 == Run(Connect(r.wallet, b), [b]);
    forall op ensures Get(r1.wallet.journal[1].destroyed, op) == Get(map[COIN := FREE], op)
              ensures Get(r1.wallet.utxos, op) == None
              ensures op in r1.wallet.journal[1].created <==> op == COIN
    {
      CoinFate(r.wallet, [MAKER, TAKER], op);
    }
    SameMap(r1.wallet.journal[1].destroyed, map[COIN := FREE]);
    SameMap(r1.wallet.utxos, map[]);
  }

  lemma ConnectThenUnwind(r: Run)
    requires r == Init(Simple())
    ensures Enabled(Simple(), r, Actions()[0]) && SpendsKnown(r, [MAKER, TAKER])
    ensures var r1 := Next(Simple(), r, Actions()[0]);
            r1.chain != [] && Leftover(Next(Simple(), r1, UnwindTip))
  {
    ConnectFirst(r);
    var r1 := Next(Simple(), r, Actions()[0]);
    var r2 := Next(Simple(), r1, UnwindTip);
    assert r2.wallet.utxos == map[COIN := FREE];
    assert r2.wallet.journal == map[];
  }

  lemma SpendLeftover(r: Run)
    requires r.wallet.utxos == map[COIN := FREE] && r.wallet.height == 1
    ensures Enabled(Simple(), r, Actions()[2])
    ensures Create(Simple(), r.wallet, [], 0, [COIN], true).1.Some?
    ensures COIN in Prevs(Create(Simple(), r.wallet, [], 0, [COIN], true).1.value.inputs)
  {
    SpendSucceeds(r.wallet, FREE);
    assert Elements([COIN]) == {COIN};
  }

  lemma ConnectAgain(r: Run)
    requires Leftover(r)
    ensures var r2 := Next(Simple(), r, Actions()[2]);
            && Enabled(Simple(), r2, Actions()[3]) && SpendsKnown(r2, [MAKER])
            && var r3 := Next(Simple(), r2, Actions()[3]);
               r3.wallet.utxos == map[COIN := FREE] && r3.wallet.height == 1
  {
    SpendSucceeds(r.wallet, FREE);
    var r2 := Next(Simple(), r, Actions()[2]);
    var r3 := Next(Simple(), r2, Actions()[3]);
    CoinFate(r2.wallet, [MAKER], COIN);
    forall op ensures Get(r3.wallet.utxos, op) == Get(map[COIN := FREE], op) {
      CoinFate(r2.wallet, [MAKER], op);
    }
    SameMap(r3.wallet.utxos, map[COIN := FREE]);
  }

  lemma Steps()
    ensures At(0) == Init(Simple())
    ensures forall n :: 0 <= n < 5 ==> At(n + 1) == Next(Simple(), At(n), Actions()[n])
  {
  }

  /** In this legal run over valid blocks two created transactions spend one coin, although in between
      nothing is unlocked and nothing is unwound: the coin was left behind by an unwound block, so no
      connected block was its creator when the first transaction took it. */
  lemma LeftoverIsSpentTwice()
    ensures Simple().derive(0).Some? && Valid(Simple(), Actions())
    ensures SpendsAt(Simple(), Actions(), 2, COIN) && SpendsAt(Simple(), Actions(), 4, COIN)
    ensures forall k :: 2 < k < 4 ==> !Actions()[k].UnwindTip? && !Actions()[k].Release?
    ensures !CreatorInChain(Exec(Simple(), Actions(), 2).chain, COIN)
  {
    hide Create, Fund, Apply, Unwind;
    Steps();
    assert At(1) == Next(Simple(), At(0), Actions()[0]);
    assert At(2) == Next(Simple(), At(1), Actions()[1]);
    assert At(3) == Next(Simple(), At(2), Actions()[2]);
    assert At(4) == Next(Simple(), At(3), Actions()[3]);
    ConnectThenUnwind(At(0));
    SpendLeftover(At(2));
    ConnectAgain(At(2));
    SpendLeftover(At(4));
    forall i | 0 <= i < 5 ensures LegalAt(Simple(), Actions(), i) && ValidAt(Simple(), Actions(), i) {
      assert i == 0 || i == 1 || i == 2 || i == 3 || i == 4;
      assert At(i) == Exec(Simple(), Actions(), i);
    }
  }
}
