/** Which outputs of a block the wallet takes for its own, and what a connect and a creation do with them,
    in terms of scripts, addresses and inputs. */
module Recognition {
  import opened WalletTypes
  import opened Ledger
  import opened WalletSpec
  import opened CoinSelection
  import opened WalletRuns
  import opened KeyIndex

  // ----- scripts that pay an address -----

  lemma ContainsParts(pre: Bytes, sub: Bytes, post: Bytes)
    ensures Contains(pre + sub + post, sub)
  {
    assert OccursAt(pre + sub + post, sub, |pre|);
  }

  lemma ContainedParts(s: Bytes, sub: Bytes) returns (pre: Bytes, post: Bytes)
    requires Contains(s, sub)
    ensures s == pre + sub + post
  {
    var i :| 0 <= i <= |s| && OccursAt(s, sub, i);
    pre, post := s[..i], s[i + |sub|..];
  }

  /** An output whose script holds any of the wallet's addresses, whole and wherever, is created. */
  lemma PayingOutputCreated(b: Block, p: nat, i: nat, k: nat, pre: Bytes, post: Bytes)
    requires p < |b.txs| && i < |b.txs[p].outputs| && k in b.addrs
    requires b.txs[p].outputs[i].pkScript == pre + b.addrs[k] + post
    ensures Creates(b, p, OutPoint(b.txs[p].hash, i, 0))
  {
    ContainsParts(pre, b.addrs[k], post);
    assert k in Matches(b.addrs, b.txs[p].outputs[i].pkScript);
  }

  /** Only such outputs are created. */
  lemma CreatedOutputPays(b: Block, p: nat, op: OutPoint) returns (i: nat, k: nat, pre: Bytes, post: Bytes)
    requires p < |b.txs| && Creates(b, p, op)
    ensures i < |b.txs[p].outputs| && op == OutPoint(b.txs[p].hash, i, 0)
    ensures k in b.addrs && b.txs[p].outputs[i].pkScript == pre + b.addrs[k] + post
  {
    i := op.index;
    assert Pays(b, p, i);
    k :| k in Matches(b.addrs, b.txs[p].outputs[i].pkScript);
    pre, post := ContainedParts(b.txs[p].outputs[i].pkScript, b.addrs[k]);
  }

  // ----- connecting a block -----

  /** Some transaction from `p` on has the outpoint among its inputs. */
  ghost predicate SpentFrom(txs: seq<Tx>, p: nat, n: nat, op: OutPoint)
    requires n <= |txs|
  {
    exists q :: p <= q < n && op in txs[q].inputs
  }

  lemma SpentFromStep(txs: seq<Tx>, p: nat, n: nat, op: OutPoint)
    requires p < n <= |txs|
    ensures SpentFrom(txs, p, n, op) <==> SpentFrom(txs, p, n - 1, op) || op in txs[n - 1].inputs
  {
  }

  /** A coin made by one transaction of a block is live after it, or held for the unwind, as it was made. */
  lemma {:induction false} MadeStays(m: map<OutPoint, Coin>, b: Block, p: nat, n: nat, op: OutPoint)
    requires p < n <= |b.txs| && Creates(b, p, op)
    requires forall q: nat :: q < |b.txs| && q != p ==> !Creates(b, q, op)
    ensures var bk, coin := EvalTxs(Book(m, NO_UNDO), b, n), CoinAt(b, p, op.index);
            if SpentFrom(b.txs, p, n, op) then op !in bk.utxos && Get(bk.undo.destroyed, op) == Some(coin)
            else Get(bk.utxos, op) == Some(coin)
  {
    TxEffect(EvalTxs(Book(m, NO_UNDO), b, n - 1), b, n - 1, op);
    SpentFromStep(b.txs, p, n, op);
    if p < n - 1 {
      MadeStays(m, b, p, n - 1, op);
    }
  }

  lemma {:induction false} OthersStay(m: map<OutPoint, Coin>, b: Block, n: nat, op: OutPoint)
    requires n <= |b.txs| && forall q: nat :: q < |b.txs| ==> !Creates(b, q, op)
    ensures var bk := EvalTxs(Book(m, NO_UNDO), b, n);
            if SpentFrom(b.txs, 0, n, op) then op !in bk.utxos && Get(bk.undo.destroyed, op) == Get(m, op)
            else Get(bk.utxos, op) == Get(m, op) && op !in bk.undo.destroyed
  {
    if n > 0 {
      OthersStay(m, b, n - 1, op);
      TxEffect(EvalTxs(Book(m, NO_UNDO), b, n - 1), b, n - 1, op);
      SpentFromStep(b.txs, 0, n, op);
    }
  }

  /** The coin a block's output becomes: its value and script, not locked, to be spent at once or, if it is
      of the coinbase, from its maturity on, and filed under a key whose address the script holds. */
  ghost predicate CoinOf(env: Env, addrs: map<nat, Bytes>, height: int, tx: Tx, i: nat, c: Coin)
    requires i < |tx.outputs|
  {
    && c.value == tx.outputs[i].value && c.pkScript == tx.outputs[i].pkScript && !c.isLocked
    && c.maturityHeight == (if tx.isCoinbase then height + env.coinbaseMaturity else 0)
    && c.keyIndex in addrs && exists pre, post :: c.pkScript == pre + addrs[c.keyIndex] + post
  }

  lemma CoinMade(env: Env, w: Wallet, height: int, txs: seq<Tx>, picks: map<(nat, nat), nat>, p: nat, op: OutPoint)
    requires p < |txs|
    requires var b := BlockAt(env, w, height, txs, picks); PicksOk(b) && Creates(b, p, op)
    ensures CoinOf(env, w.addrs, height, txs[p], op.index, CoinAt(BlockAt(env, w, height, txs, picks), p, op.index))
  {
    var b := BlockAt(env, w, height, txs, picks);
    var coin := CoinAt(b, p, op.index);
    assert Pays(b, p, op.index);
    var pre, post := ContainedParts(coin.pkScript, w.addrs[coin.keyIndex]);
  }

  /** Connecting a block records every output whose script holds an address of the wallet: it is among the
      coins afterwards, or, if a transaction of the block from there on spends it, in the undo entry. */
  lemma ConnectRecords(env: Env, r: Run, a: Action, p: nat, i: nat, k: nat, pre: Bytes, post: Bytes)
    returns (coin: Coin)
    requires a.Ingest? && Enabled(env, r, a) && p < |a.txs| && i < |a.txs[p].outputs|
    requires k in r.wallet.addrs && a.txs[p].outputs[i].pkScript == pre + r.wallet.addrs[k] + post
    ensures CoinOf(env, r.wallet.addrs, a.height, a.txs[p], i, coin)
    ensures var w2, op := Next(env, r, a).wallet, OutPoint(a.txs[p].hash, i, 0);
            && a.height in w2.journal
            && if SpentFrom(a.txs, p, |a.txs|, op)
               then op !in w2.utxos && Get(w2.journal[a.height].destroyed, op) == Some(coin)
               else Get(w2.utxos, op) == Some(coin)
  {
    var b := BlockAt(env, r.wallet, a.height, a.txs, a.picks);
    var op := OutPoint(a.txs[p].hash, i, 0);
    PayingOutputCreated(b, p, i, k, pre, post);
    coin := CoinAt(b, p, i);
    CoinMade(env, r.wallet, a.height, a.txs, a.picks, p, op);
    MadeStays(r.wallet.utxos, b, p, |b.txs|, op);
  }

  /** Every new coin is such an output of the block. */
  lemma NewCoinsPay(env: Env, r: Run, a: Action, op: OutPoint) returns (p: nat, i: nat, k: nat, pre: Bytes, post: Bytes)
    requires a.Ingest? && Enabled(env, r, a)
    requires op in Next(env, r, a).wallet.utxos && Get(Next(env, r, a).wallet.utxos, op) != Get(r.wallet.utxos, op)
    ensures p < |a.txs| && i < |a.txs[p].outputs| && op == OutPoint(a.txs[p].hash, i, 0)
    ensures k in r.wallet.addrs && a.txs[p].outputs[i].pkScript == pre + r.wallet.addrs[k] + post
  {
    var b := BlockAt(env, r.wallet, a.height, a.txs, a.picks);
    if forall q: nat :: q < |b.txs| ==> !Creates(b, q, op) {
      OthersStay(r.wallet.utxos, b, |b.txs|, op);
      assert false;
    }
    p :| p < |b.txs| && Creates(b, p, op);
    i, k, pre, post := CreatedOutputPays(b, p, op);
  }

  /** A coin of none of the block's transactions is moved to the undo entry, just as it is, if one of them
      has it among its inputs, and is left alone if none has. */
  lemma ConnectSpends(env: Env, r: Run, a: Action, op: OutPoint)
    requires a.Ingest? && Enabled(env, r, a) && forall p :: 0 <= p < |a.txs| ==> a.txs[p].hash != op.hash
    ensures var w2 := Next(env, r, a).wallet;
            && a.height in w2.journal
            && if SpentFrom(a.txs, 0, |a.txs|, op)
               then op !in w2.utxos && Get(w2.journal[a.height].destroyed, op) == Get(r.wallet.utxos, op)
               else Get(w2.utxos, op) == Get(r.wallet.utxos, op) && op !in w2.journal[a.height].destroyed
  {
    var b := BlockAt(env, r.wallet, a.height, a.txs, a.picks);
    OthersStay(r.wallet.utxos, b, |b.txs|, op);
  }

  /** When the wallet may spend a coin: it is not locked, and a coinbase output has the maturity between its
      block and the wallet's height. */
  lemma SpendableExactly(env: Env, addrs: map<nat, Bytes>, height: int, tx: Tx, i: nat, c: Coin,
                         w: Wallet, op: OutPoint)
    requires i < |tx.outputs| && CoinOf(env, addrs, height, tx, i, c.(isLocked := false)) && w.height >= 0
    requires Get(w.utxos, op) == Some(c)
    ensures Spendable(w, op) <==> !c.isLocked && (tx.isCoinbase ==> w.height - height >= env.coinbaseMaturity)
  {
  }

  // ----- addresses -----

  /** An address is issued exactly if it can be derived and the node takes it; it is then the one derived at
      the counter, filed there, and the counter moves on, from the last 32-bit value to 0. */
  lemma AddressIssued(env: Env, w: Wallet, rpcOk: bool)
    requires w.hdIndex < 0x1_0000_0000
    ensures var (w2, addr) := NewAddress(env, w, rpcOk);
            && (addr.Some? <==> rpcOk && env.derive(w.hdIndex).Some?)
            && (addr.None? ==> w2 == w)
            && (addr.Some? ==>
                  && env.derive(w.hdIndex) == addr
                  && w2 == w.(addrs := w.addrs[w.hdIndex := addr.value], hdIndex := (w.hdIndex + 1) % 0x1_0000_0000))
  {
  }

  // ----- change -----

  lemma AssembledChange(env: Env, w: Wallet, chosen: seq<OutPoint>, outputs: seq<TxOut>, feeRate: int, rpcOk: bool,
                        w1: Wallet, funded: SpendTx)
    requires w.hdIndex < 0x1_0000_0000 && forall op :: op in chosen ==> op in w.utxos
    requires Assemble(env, w, chosen, outputs, feeRate, rpcOk) == (w1, Some(funded))
    ensures if funded.outputs == outputs then w1 == w
            else
              && env.derive(w.hdIndex).Some?
              && var addr := env.derive(w.hdIndex).value;
                 && w1 == w.(addrs := w.addrs[w.hdIndex := addr], hdIndex := (w.hdIndex + 1) % 0x1_0000_0000)
                 && |funded.outputs| == |outputs| + 1 && funded.outputs[..|outputs|] == outputs
                 && funded.outputs[|outputs|].pkScript == env.payScript(addr)
  {
    hide Total, Sum, ReqFee, Unsigned;
    var change := Total(w.utxos, chosen) - Sum(outputs) - ReqFee(env, |chosen|, outputs, feeRate);
    if change > 0 {
      var addr := env.derive(w.hdIndex).value;
      assert funded.outputs == outputs + [TxOut(change, env.payScript(addr))];
      assert |funded.outputs| != |outputs|;
    }
  }

  /** What exceeds the requested outputs and the fee goes to a new address of the wallet: the one derived at
      the counter, which is now filed there. Without change no address is issued. */
  lemma ChangeGoesToNewAddress(env: Env, w: Wallet, outputs: seq<TxOut>, feeRate: int, order: seq<OutPoint>,
                               rpcOk: bool, w2: Wallet, tx: SpendTx)
    requires w.hdIndex < 0x1_0000_0000 && IsOrder(order, w.utxos)
    requires Create(env, w, outputs, feeRate, order, rpcOk) == (w2, Some(tx))
    ensures if tx.outputs == outputs then w2.addrs == w.addrs && w2.hdIndex == w.hdIndex
            else
              && env.derive(w.hdIndex).Some?
              && var addr := env.derive(w.hdIndex).value;
                 && w2.addrs == w.addrs[w.hdIndex := addr] && w2.hdIndex == (w.hdIndex + 1) % 0x1_0000_0000
                 && |tx.outputs| == |outputs| + 1 && tx.outputs[..|outputs|] == outputs
                 && tx.outputs[|outputs|].pkScript == env.payScript(addr)
                 && tx.outputs[|outputs|].value ==
                      SumIn(tx.inputs) - Sum(outputs) - (env.size(|tx.inputs|, outputs) + 108 * |tx.inputs|) * feeRate
  {
    hide Chosen, Assemble, Total, ReqFee, Sum, SumIn, SignFirst, SetLocks;
    var chosen := Chosen(env, w, outputs, feeRate, order).value;
    var (w1, funded) := Assemble(env, w, chosen, outputs, feeRate, rpcOk);
    AssembledChange(env, w, chosen, outputs, feeRate, rpcOk, w1, funded.value);
    assert tx.outputs == funded.value.outputs;
    CreateConserves(env, w, outputs, feeRate, order, rpcOk, w2, tx);
    if tx.outputs != outputs {
      assert tx.outputs == outputs + [tx.outputs[|outputs|]];
      SumPush(outputs, tx.outputs[|outputs|]);
    }
  }

  lemma SumPush(outputs: seq<TxOut>, out: TxOut)
    ensures Sum([]) == 0 && Sum(outputs + [out]) == Sum(outputs) + out.value
  {
    assert (outputs + [out])[..|outputs|] == outputs;
  }

  lemma SumInPush(inputs: seq<TxIn>, x: TxIn)
    ensures SumIn([]) == 0 && SumIn(inputs + [x]) == SumIn(inputs) + x.valueIn
  {
    assert (inputs + [x])[..|inputs|] == inputs;
  }

  lemma {:induction false} CounterInRange(env: Env, acts: seq<Action>, n: nat)
    requires env.derive(0).Some? && n <= |acts|
    ensures Exec(env, acts, n).wallet.hdIndex < 0x1_0000_0000
  {
    hide Exec, Issues;
    CounterCounts(env, acts, n);
  }

  /** The transaction of a run's step, in the form later blocks confirm it. */
  ghost predicate Confirms(env: Env, acts: seq<Action>, i: nat, tx: SpendTx, mined: Tx)
    requires env.derive(0).Some? && i < |acts| && acts[i].Spend?
  {
    var (w, a) := (Exec(env, acts, i).wallet, acts[i]);
    Create(env, w, a.outputs, a.feeRate, a.order, a.rpcOk).1 == Some(tx) && mined.outputs == tx.outputs
  }

  /** Change comes back: if payment scripts hold their address, then whenever a block with a transaction the
      wallet created is connected later, the change is recorded as a coin of the wallet, at its value. */
  lemma ChangeComesBack(env: Env, acts: seq<Action>, i: nat, tx: SpendTx, j: nat, p: nat, pre: Bytes, post: Bytes)
    returns (coin: Coin)
    requires env.derive(0).Some? && Legal(env, acts) && i < j < |acts| && acts[i].Spend? && acts[j].Ingest?
    requires p < |acts[j].txs| && Confirms(env, acts, i, tx, acts[j].txs[p]) && tx.outputs != acts[i].outputs
    requires var key := Exec(env, acts, i).wallet.hdIndex;
             env.derive(key).Some? ==> env.payScript(env.derive(key).value) == pre + env.derive(key).value + post
    ensures var w, out := Exec(env, acts, j + 1).wallet, |acts[i].outputs|;
            var op := OutPoint(acts[j].txs[p].hash, out, 0);
            && out < |tx.outputs| && coin.value == tx.outputs[out].value && coin.pkScript == tx.outputs[out].pkScript
            && acts[j].height in w.journal
            && (Get(w.utxos, op) == Some(coin) || Get(w.journal[acts[j].height].destroyed, op) == Some(coin))
  {
    hide Create, Legal, Enabled, Next;
    var w, a := Exec(env, acts, i).wallet, acts[i];
    var w2 := Create(env, w, a.outputs, a.feeRate, a.order, a.rpcOk).0;
    CounterInRange(env, acts, i);
    SpendIsOrdered(env, acts, i);
    ChangeGoesToNewAddress(env, w, a.outputs, a.feeRate, a.order, a.rpcOk, w2, tx);
    var key := w.hdIndex;
    AfterSpend(env, acts, i);
    IndicesAreForever(env, acts, i + 1, j, key);
    LegalStep(env, acts, j);
    coin := ConnectRecords(env, Exec(env, acts, j), acts[j], p, |a.outputs|, key, pre, post);
  }

  lemma AfterSpend(env: Env, acts: seq<Action>, i: nat)
    requires env.derive(0).Some? && i < |acts| && acts[i].Spend?
    ensures var (w, a) := (Exec(env, acts, i).wallet, acts[i]);
            Exec(env, acts, i + 1).wallet == Create(env, w, a.outputs, a.feeRate, a.order, a.rpcOk).0
  {
  }

  lemma LegalStep(env: Env, acts: seq<Action>, j: nat)
    requires env.derive(0).Some? && Legal(env, acts) && j < |acts|
    ensures Enabled(env, Exec(env, acts, j), acts[j])
    ensures Exec(env, acts, j + 1) == Next(env, Exec(env, acts, j), acts[j])
  {
    assert LegalAt(env, acts, j);
  }

  // ----- signatures -----

  /** The transaction as it is signed, with no scripts filled in. */
  function Bare(tx: SpendTx): SpendTx {
    tx.(inputs := seq(|tx.inputs|, i requires 0 <= i < |tx.inputs| => tx.inputs[i].(sigScript := [])))
  }

  lemma {:induction false} SignedInOrder(env: Env, m: map<OutPoint, Coin>, tx: SpendTx, n: nat, i: nat)
    requires i < n <= |tx.inputs| && forall k :: 0 <= k < |tx.inputs| ==> tx.inputs[k].prev in m
    requires SignFirst(env, m, tx, n).Some?
    ensures var c := m[tx.inputs[i].prev];
            && env.derive(c.keyIndex).Some?
            && env.sign(tx, i, c.pkScript, c.keyIndex) == Some(SignFirst(env, m, tx, n).value[i])
  {
    if i < n - 1 {
      SignedInOrder(env, m, tx, n - 1, i);
    }
  }

  /** Every input of a created transaction carries the signature made for it: over the transaction without
      scripts, for the script of the coin it spends, with the key that coin is filed under. */
  lemma InputsSigned(env: Env, w: Wallet, outputs: seq<TxOut>, feeRate: int, order: seq<OutPoint>, rpcOk: bool,
                     w2: Wallet, tx: SpendTx, i: nat)
    requires Create(env, w, outputs, feeRate, order, rpcOk) == (w2, Some(tx)) && i < |tx.inputs|
    ensures tx.inputs[i].prev in w.utxos
    ensures var c := w.utxos[tx.inputs[i].prev];
            && env.derive(c.keyIndex).Some?
            && env.sign(Bare(tx), i, c.pkScript, c.keyIndex) == Some(tx.inputs[i].sigScript)
  {
    hide Chosen, SignFirst, SetLocks, Total, Sum, ReqFee, NewAddress;
    var (w1, funded) := Fund(env, w, outputs, feeRate, order, rpcOk);
    assert Bare(tx).inputs == funded.value.inputs;
    SignedInOrder(env, w1.utxos, funded.value, |funded.value.inputs|, i);
  }

  /** Over any legal run the key in that very call is one whose address the script spent holds. */
  lemma SignedWithOwnKey(env: Env, acts: seq<Action>, n: nat, w2: Wallet, tx: SpendTx, i: nat)
    returns (c: Coin, addr: Bytes, pre: Bytes, post: Bytes)
    requires env.derive(0).Some? && Legal(env, acts) && n < |acts| && acts[n].Spend?
    requires var (w, a) := (Exec(env, acts, n).wallet, acts[n]);
             Create(env, w, a.outputs, a.feeRate, a.order, a.rpcOk) == (w2, Some(tx))
    requires i < |tx.inputs|
    ensures Get(Exec(env, acts, n).wallet.utxos, tx.inputs[i].prev) == Some(c)
    ensures env.sign(Bare(tx), i, c.pkScript, c.keyIndex) == Some(tx.inputs[i].sigScript)
    ensures env.derive(c.keyIndex) == Some(addr) && c.pkScript == pre + addr + post
  {
    hide Create, Legal, Exec, Bare;
    var w, a := Exec(env, acts, n).wallet, acts[n];
    InputsSigned(env, w, a.outputs, a.feeRate, a.order, a.rpcOk, w2, tx, i);
    SigningKeysMatch(env, acts, n, w2, tx, tx.inputs[i]);
    c := w.utxos[tx.inputs[i].prev];
    addr := env.derive(c.keyIndex).value;
    pre, post := ContainedParts(c.pkScript, addr);
  }
}
