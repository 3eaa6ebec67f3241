/** Which key spends which coin. */
module KeyIndex {
  import opened WalletTypes
  import opened Ledger
  import opened WalletSpec
  import opened CoinSelection
  import opened WalletRuns

  /** The coin is filed under an index the wallet has issued, whose address its script pays. */
  ghost predicate Keyed(addrs: map<nat, Bytes>, c: Coin) {
    c.keyIndex in addrs && Contains(c.pkScript, addrs[c.keyIndex])
  }

  ghost predicate AllKeyed(addrs: map<nat, Bytes>, m: map<OutPoint, Coin>) {
    forall op :: op in m ==> Keyed(addrs, m[op])
  }

  /** Every issued index holds the address derived there, and every coin, unspent or waiting in an undo
      entry, is filed under an issued index. */
  ghost predicate KeysOk(env: Env, w: Wallet) {
    && (forall k :: k in w.addrs ==> env.derive(k) == Some(w.addrs[k]))
    && AllKeyed(w.addrs, w.utxos)
    && (forall h :: h in w.journal ==> AllKeyed(w.addrs, w.journal[h].destroyed))
  }

  lemma {:induction false} BlockKeyed(m: map<OutPoint, Coin>, b: Block, n: nat)
    requires n <= |b.txs| && PicksOk(b) && AllKeyed(b.addrs, m)
    ensures var bk := EvalTxs(Book(m, NO_UNDO), b, n);
            AllKeyed(b.addrs, bk.utxos) && AllKeyed(b.addrs, bk.undo.destroyed)
  {
    if n > 0 {
      BlockKeyed(m, b, n - 1);
      var bk := EvalTxs(Book(m, NO_UNDO), b, n - 1);
      var r := EvalTx(bk, b, n - 1);
      forall op
        ensures op in r.utxos ==> Keyed(b.addrs, r.utxos[op])
        ensures op in r.undo.destroyed ==> Keyed(b.addrs, r.undo.destroyed[op])
      {
        TxEffect(bk, b, n - 1, op);
        if Creates(b, n - 1, op) {
          assert Pays(b, n - 1, op.index);
          assert Keyed(b.addrs, CoinAt(b, n - 1, op.index));
        }
      }
    }
  }

  lemma MoreAddrs(addrs: map<nat, Bytes>, more: map<nat, Bytes>, m: map<OutPoint, Coin>)
    requires AllKeyed(addrs, m) && forall k :: k in addrs ==> k in more && more[k] == addrs[k]
    ensures AllKeyed(more, m)
  {
  }

  lemma AddressKeepsKeys(env: Env, w: Wallet, rpcOk: bool)
    requires KeysOk(env, w)
    ensures var w2 := NewAddress(env, w, rpcOk).0;
            KeysOk(env, w2) && forall k :: k in w.addrs ==> k in w2.addrs && w2.addrs[k] == w.addrs[k]
  {
    var w2 := NewAddress(env, w, rpcOk).0;
    MoreAddrs(w.addrs, w2.addrs, w.utxos);
    forall h | h in w2.journal ensures AllKeyed(w2.addrs, w2.journal[h].destroyed) {
      MoreAddrs(w.addrs, w2.addrs, w.journal[h].destroyed);
    }
  }

  /** A creation issues at most one address and otherwise touches only locks. */
  lemma CreateAddrs(env: Env, w: Wallet, outputs: seq<TxOut>, feeRate: int, order: seq<OutPoint>, rpcOk: bool)
    ensures var w2 := Create(env, w, outputs, feeRate, order, rpcOk).0;
            && ((w2.addrs, w2.hdIndex) == (w.addrs, w.hdIndex) || (w2.addrs, w2.hdIndex)
                  == (NewAddress(env, w, rpcOk).0.addrs, NewAddress(env, w, rpcOk).0.hdIndex))
            && w2.journal == w.journal && w2.utxos.Keys == w.utxos.Keys
            && (forall op :: op in w.utxos ==> w2.utxos[op].(isLocked := w.utxos[op].isLocked) == w.utxos[op])
  {
    hide Chosen, SignFirst, Total, Sum, ReqFee, NewAddress, Prevs;
    AssembleAddrs(env, w, Chosen(env, w, outputs, feeRate, order), outputs, feeRate, rpcOk);
  }

  lemma AssembleAddrs(env: Env, w: Wallet, chosen: Option<seq<OutPoint>>, outputs: seq<TxOut>, feeRate: int,
                      rpcOk: bool)
    requires chosen.Some? ==> forall op :: op in chosen.value ==> op in w.utxos
    ensures chosen.Some? ==>
              var w2 := Assemble(env, w, chosen.value, outputs, feeRate, rpcOk).0;
              (w2.addrs, w2.hdIndex) == (w.addrs, w.hdIndex) ||
              (w2.addrs, w2.hdIndex) == (NewAddress(env, w, rpcOk).0.addrs, NewAddress(env, w, rpcOk).0.hdIndex)
  {
  }

  lemma StepKeys(env: Env, r: Run, a: Action)
    requires KeysOk(env, r.wallet) && Enabled(env, r, a)
    ensures var w2 := Next(env, r, a).wallet;
            KeysOk(env, w2) && forall k :: k in r.wallet.addrs ==> k in w2.addrs && w2.addrs[k] == r.wallet.addrs[k]
  {
    var w := r.wallet;
    match a
    case Ingest(height, txs, picks) =>
      var b := BlockAt(env, w, height, txs, picks);
      BlockKeyed(w.utxos, b, |b.txs|);
    case UnwindTip =>
    case IssueAddress(rpcOk) => AddressKeepsKeys(env, w, rpcOk);
    case Spend(outputs, feeRate, order, rpcOk) =>
      CreateAddrs(env, w, outputs, feeRate, order, rpcOk);
      AddressKeepsKeys(env, w, rpcOk);
    case Release(_) =>
  }

  lemma {:induction false} RunKeys(env: Env, acts: seq<Action>, n: nat)
    requires env.derive(0).Some? && Legal(env, acts) && n <= |acts|
    ensures KeysOk(env, Exec(env, acts, n).wallet)
  {
    if n > 0 {
      RunKeys(env, acts, n - 1);
      assert LegalAt(env, acts, n - 1);
      StepKeys(env, Exec(env, acts, n - 1), acts[n - 1]);
    }
  }

  /** No index is ever reassigned: what it stands for at one point of a run it stands for ever after. */
  lemma {:induction false} IndicesAreForever(env: Env, acts: seq<Action>, i: nat, n: nat, k: nat)
    requires env.derive(0).Some? && Legal(env, acts) && i <= n <= |acts|
    requires k in Exec(env, acts, i).wallet.addrs
    ensures k in Exec(env, acts, n).wallet.addrs
    ensures Exec(env, acts, n).wallet.addrs[k] == Exec(env, acts, i).wallet.addrs[k]
  {
    if i < n {
      IndicesAreForever(env, acts, i, n - 1, k);
      RunKeys(env, acts, n - 1);
      assert LegalAt(env, acts, n - 1);
      StepKeys(env, Exec(env, acts, n - 1), acts[n - 1]);
    }
  }

  /** In any legal run, every key a created transaction is signed with belongs to an address that the
      script being spent pays. */
  lemma SigningKeysMatch(env: Env, acts: seq<Action>, i: nat, w2: Wallet, tx: SpendTx, x: TxIn)
    requires env.derive(0).Some? && Legal(env, acts) && i < |acts| && acts[i].Spend?
    requires Create(env, Exec(env, acts, i).wallet, acts[i].outputs, acts[i].feeRate, acts[i].order,
          acts[i].rpcOk) == (w2, Some(tx))
    requires x in tx.inputs
    ensures var w := Exec(env, acts, i).wallet;
            && x.prev in w.utxos
            && env.derive(w.utxos[x.prev].keyIndex).Some?
            && Contains(w.utxos[x.prev].pkScript, env.derive(w.utxos[x.prev].keyIndex).value)
  {
    var w := Exec(env, acts, i).wallet;
    RunKeys(env, acts, i);
    CreateLocks(env, w, acts[i].outputs, acts[i].feeRate, acts[i].order, acts[i].rpcOk, w2, tx);
    assert x.prev in Prevs(tx.inputs);
    assert Keyed(w.addrs, w.utxos[x.prev]);
  }

  // ----- the address counter -----

  /** The issued indices are exactly those below the counter. */
  ghost predicate IndexOk(w: Wallet) {
    forall k: nat :: k in w.addrs <==> k < w.hdIndex
  }

  ghost function Issues(env: Env, acts: seq<Action>, n: nat): nat
    requires env.derive(0).Some? && n <= |acts|
  {
    if n == 0 then 0
    else Issues(env, acts, n - 1) +
         (if Exec(env, acts, n).wallet.hdIndex != Exec(env, acts, n - 1).wallet.hdIndex then 1 else 0)
  }

  lemma StepIndex(env: Env, r: Run, a: Action)
    requires r.wallet.hdIndex < UINT32_LIMIT
    ensures var w, w2 := r.wallet, Next(env, r, a).wallet;
            || (w2.hdIndex == w.hdIndex && w2.addrs == w.addrs)
            || (w2.hdIndex == NextIndex(w.hdIndex) && w2.addrs.Keys == w.addrs.Keys + {w.hdIndex})
  {
    match a
    case Spend(outputs, feeRate, order, rpcOk) => CreateAddrs(env, r.wallet, outputs, feeRate, order, rpcOk);
    case _ =>
  }

  /** The counter and the issued indices after `c` of them, that at index 0 included. */
  ghost predicate Counted(w: Wallet, c: nat) {
    && w.hdIndex < UINT32_LIMIT
    && (c < UINT32_LIMIT ==> w.hdIndex == c)
    && (forall k: nat :: k in w.addrs <==> k < c && k < UINT32_LIMIT)
  }

  lemma CountedStep(w: Wallet, w2: Wallet, c: nat)
    requires Counted(w, c)
    requires w2.hdIndex == NextIndex(w.hdIndex) && w2.addrs.Keys == w.addrs.Keys + {w.hdIndex}
    ensures Counted(w2, c + 1) && w2.hdIndex != w.hdIndex
  {
    forall k: nat ensures k in w2.addrs <==> k < c + 1 && k < UINT32_LIMIT {
      assert k in w2.addrs <==> k in w.addrs || k == w.hdIndex;
    }
  }

  lemma CountedAtStart(env: Env)
    requires env.derive(0).Some?
    ensures Counted(Init(env).wallet, 1)
  {
  }

  lemma CountedFacts(w: Wallet, w2: Wallet, c: nat)
    requires Counted(w, c)
    ensures w.hdIndex < UINT32_LIMIT
    ensures w2.hdIndex == w.hdIndex && w2.addrs == w.addrs ==> Counted(w2, c)
    ensures NextIndex(w.hdIndex) != w.hdIndex
  {
  }

  lemma {:induction false} CounterCounts(env: Env, acts: seq<Action>, n: nat)
    requires env.derive(0).Some? && n <= |acts|
    ensures Counted(Exec(env, acts, n).wallet, 1 + Issues(env, acts, n))
  {
    hide Counted, Next, NextIndex;
    if n == 0 {
      CountedAtStart(env);
    } else {
      CounterCounts(env, acts, n - 1);
      var r, r2 := Exec(env, acts, n - 1), Exec(env, acts, n);
      CountedFacts(r.wallet, r2.wallet, 1 + Issues(env, acts, n - 1));
      StepIndex(env, r, acts[n - 1]);
      if r2.wallet.hdIndex == NextIndex(r.wallet.hdIndex) {
        CountedStep(r.wallet, r2.wallet, 1 + Issues(env, acts, n - 1));
      }
    }
  }

  /** The indices in use are exactly those below the counter until the 32-bit counter wraps, that is
      for precisely the runs that issue fewer than 2^32 - 1 addresses. */
  lemma IndexOkUntilWrap(env: Env, acts: seq<Action>, n: nat)
    requires env.derive(0).Some? && n <= |acts|
    ensures IndexOk(Exec(env, acts, n).wallet) <==> Issues(env, acts, n) < UINT32_LIMIT - 1
  {
    hide Exec, Issues;
    CounterCounts(env, acts, n);
    var w := Exec(env, acts, n).wallet;
    if Issues(env, acts, n) >= UINT32_LIMIT - 1 {
      assert w.hdIndex in w.addrs;
    }
  }
}
