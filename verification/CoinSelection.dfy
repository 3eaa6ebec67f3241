/** What funding a transaction conserves, costs and needs, and what locking does to the balance. */
module CoinSelection {
  import opened WalletTypes
  import opened Ledger
  import opened WalletSpec

  // ----- sums -----

  lemma {:induction false} SumRemove(m: map<OutPoint, Coin>, s: set<OutPoint>, op: OutPoint)
    requires s <= m.Keys && op in s
    ensures SumOver(m, s) == m[op].value + SumOver(m, s - {op})
  {
    var first :| first in s && SumOver(m, s) == m[first].value + SumOver(m, s - {first});
    if first != op {
      SumRemove(m, s - {first}, op);
      SumRemove(m, s - {op}, first);
      assert s - {first} - {op} == s - {op} - {first};
    }
  }

  lemma NoElements()
    ensures Elements<OutPoint>([]) == {}
  {
  }

  lemma SumOfNone(m: map<OutPoint, Coin>)
    ensures SumOver(m, {}) == 0
  {
  }

  lemma ElementsWithin(m: map<OutPoint, Coin>, ops: seq<OutPoint>)
    requires forall op :: op in ops ==> op in m
    ensures Elements(ops) <= m.Keys
  {
  }

  lemma OneMore(ops: seq<OutPoint>, op: OutPoint)
    requires op !in ops
    ensures Elements(ops + [op]) == Elements(ops) + {op}
    ensures Elements(ops + [op]) - {op} == Elements(ops) && |Elements(ops + [op])| == |Elements(ops)| + 1
  {
  }

  lemma {:induction false} TotalIsSum(m: map<OutPoint, Coin>, ops: seq<OutPoint>)
    requires forall op :: op in ops ==> op in m
    requires forall i, j :: 0 <= i < j < |ops| ==> ops[i] != ops[j]
    ensures Total(m, ops) == SumOver(m, Elements(ops)) && |Elements(ops)| == |ops|
  {
    hide SumOver, Elements;
    if ops == [] {
      NoElements();
      SumOfNone(m);
    } else {
      var init, last := ops[..|ops| - 1], ops[|ops| - 1];
      TotalIsSum(m, init);
      assert ops == init + [last];
      OneMore(init, last);
      ElementsWithin(m, ops);
      SumRemove(m, Elements(ops), last);
    }
  }

  lemma {:induction false} SumSplit(m: map<OutPoint, Coin>, s: set<OutPoint>, t: set<OutPoint>)
    requires t <= s <= m.Keys
    ensures SumOver(m, s) == SumOver(m, t) + SumOver(m, s - t)
  {
    if t == {} {
      assert s - t == s;
    } else {
      var op :| op in t;
      SumRemove(m, s, op);
      SumRemove(m, t, op);
      SumSplit(m, s - {op}, t - {op});
      assert s - {op} - (t - {op}) == s - t;
    }
  }

  lemma {:induction false} SumSame(m: map<OutPoint, Coin>, m2: map<OutPoint, Coin>, s: set<OutPoint>)
    requires s <= m.Keys && s <= m2.Keys
    requires forall op :: op in s ==> m[op].value == m2[op].value
    ensures SumOver(m, s) == SumOver(m2, s)
  {
    if s != {} {
      var op :| op in s;
      SumRemove(m, s, op);
      SumRemove(m2, s, op);
      SumSame(m, m2, s - {op});
    }
  }

  // ----- candidates -----

  /** `c` are, once each, the spendable coins among the first `n` visited. */
  ghost predicate SpendableAmong(w: Wallet, order: seq<OutPoint>, n: nat, c: seq<OutPoint>)
    requires n <= |order|
  {
    && (forall op :: op in c ==> exists i :: 0 <= i < n && order[i] == op)
    && (forall i :: 0 <= i < n && Spendable(w, order[i]) ==> order[i] in c)
    && (forall i, j :: 0 <= i < j < |c| ==> c[i] != c[j])
  }

  lemma AmongNext(w: Wallet, order: seq<OutPoint>, n: nat, c: seq<OutPoint>)
    requires n < |order| && SpendableAmong(w, order, n, c)
    requires forall i :: 0 <= i < n ==> order[i] != order[n]
    ensures Spendable(w, order[n]) ==> SpendableAmong(w, order, n + 1, c + [order[n]])
    ensures !Spendable(w, order[n]) ==> SpendableAmong(w, order, n + 1, c)
  {
    hide Spendable;
    forall op | op in c + [order[n]] ensures exists i :: 0 <= i < n + 1 && order[i] == op {
      if op in c {
        var i :| 0 <= i < n && order[i] == op;
      } else {
        assert order[n] == op;
      }
    }
    assert order[n] !in c;
  }

  lemma {:induction false} CandidatesAre(w: Wallet, order: seq<OutPoint>, n: nat)
    requires IsOrder(order, w.utxos) && n <= |order|
    ensures SpendableAmong(w, order, n, Candidates(w, order, n))
  {
    hide Spendable, SpendableAmong;
    if n == 0 {
      NoneAmong(w, order);
    } else {
      CandidatesAre(w, order, n - 1);
      AmongNext(w, order, n - 1, Candidates(w, order, n - 1));
      assert Candidates(w, order, n - 1) + [] == Candidates(w, order, n - 1);
    }
  }

  lemma NoneAmong(w: Wallet, order: seq<OutPoint>)
    ensures SpendableAmong(w, order, 0, [])
  {
  }

  /** The candidates of a whole scan are the spendable coins, whatever the order. */
  lemma CandidatesAll(w: Wallet, order: seq<OutPoint>)
    requires IsOrder(order, w.utxos)
    ensures var c := Candidates(w, order, |order|);
            && Elements(c) == SpendableSet(w)
            && Total(w.utxos, c) == Balance(w)
            && |c| == |SpendableSet(w)|
            && (forall i, j :: 0 <= i < j < |c| ==> c[i] != c[j])
  {
    var c := Candidates(w, order, |order|);
    CandidatesAre(w, order, |order|);
    forall op | op in SpendableSet(w) ensures op in c {
      assert op in Elements(order);
      var i :| 0 <= i < |order| && order[i] == op;
    }
    assert Elements(c) == SpendableSet(w);
    TotalIsSum(w.utxos, c);
  }

  // ----- what a funded transaction satisfies -----

  ghost function SumIn(inputs: seq<TxIn>): int {
    if inputs == [] then 0 else SumIn(inputs[..|inputs| - 1]) + inputs[|inputs| - 1].valueIn
  }

  ghost function ScriptBytes(inputs: seq<TxIn>): nat {
    if inputs == [] then 0 else ScriptBytes(inputs[..|inputs| - 1]) + |inputs[|inputs| - 1].sigScript|
  }

  lemma {:induction false} SumInTotal(m: map<OutPoint, Coin>, ops: seq<OutPoint>, inputs: seq<TxIn>)
    requires |ops| == |inputs| && forall op :: op in ops ==> op in m
    requires forall i :: 0 <= i < |ops| ==> inputs[i].valueIn == m[ops[i]].value
    ensures SumIn(inputs) == Total(m, ops)
  {
    if ops != [] {
      SumInTotal(m, ops[..|ops| - 1], inputs[..|inputs| - 1]);
    }
  }

  /** The outputs requested and after them the change, if there is any. */
  ghost predicate WithChange(outputs: seq<TxOut>, change: int, all: seq<TxOut>) {
    if change <= 0 then all == outputs else exists script :: all == outputs + [TxOut(change, script)]
  }

  lemma ChangeLast(outputs: seq<TxOut>, change: int, script: Bytes)
    ensures change > 0 ==> WithChange(outputs, change, outputs + [TxOut(change, script)])
  {
  }

  lemma NoChange(outputs: seq<TxOut>, all: seq<TxOut>)
    ensures all == outputs ==> forall change :: change <= 0 ==> WithChange(outputs, change, all)
  {
  }

  lemma AssembleShape(env: Env, w: Wallet, chosen: seq<OutPoint>, outputs: seq<TxOut>, feeRate: int, rpcOk: bool,
                      w1: Wallet, funded: SpendTx)
    requires forall op :: op in chosen ==> op in w.utxos
    requires Assemble(env, w, chosen, outputs, feeRate, rpcOk) == (w1, Some(funded))
    ensures w1.utxos == w.utxos && w1.journal == w.journal && w1.height == w.height
    ensures funded.inputs == Unsigned(w.utxos, chosen)
    ensures var change := Total(w.utxos, chosen) - Sum(outputs) - ReqFee(env, |chosen|, outputs, feeRate);
            WithChange(outputs, change, funded.outputs)
  {
    hide Total, Sum, ReqFee, Unsigned, NewAddress, WithChange;
    NoChange(outputs, funded.outputs);
    var change := Total(w.utxos, chosen) - Sum(outputs) - ReqFee(env, |chosen|, outputs, feeRate);
    if change > 0 {
      ChangeLast(outputs, change, env.payScript(NewAddress(env, w, rpcOk).1.value));
    }
  }

  /** Signing fills in scripts only; what is spent is locked and nothing else changes. */
  lemma FinishShape(env: Env, w1: Wallet, funded: SpendTx, w2: Wallet, tx: SpendTx)
    requires forall i :: 0 <= i < |funded.inputs| ==> funded.inputs[i].prev in w1.utxos
    requires Finish(env, w1, funded) == (w2, Some(tx))
    ensures tx.outputs == funded.outputs && |tx.inputs| == |funded.inputs|
    ensures forall i :: 0 <= i < |tx.inputs| ==>
              tx.inputs[i].prev == funded.inputs[i].prev && tx.inputs[i].valueIn == funded.inputs[i].valueIn
    ensures w2.utxos == SetLocks(w1.utxos, Prevs(funded.inputs), true)
    ensures w2.journal == w1.journal && w2.height == w1.height
  {
  }

  /** The shape of a created transaction: its inputs are the coins selected, its outputs those
      requested followed by the change, if any. */
  lemma CreateShape(env: Env, w: Wallet, outputs: seq<TxOut>, feeRate: int, order: seq<OutPoint>, rpcOk: bool,
                    w2: Wallet, tx: SpendTx)
    returns (chosen: seq<OutPoint>)
    requires Create(env, w, outputs, feeRate, order, rpcOk) == (w2, Some(tx))
    ensures Chosen(env, w, outputs, feeRate, order) == Some(chosen)
    ensures |tx.inputs| == |chosen| && forall i :: 0 <= i < |chosen| ==>
              && Spendable(w, chosen[i])
              && tx.inputs[i].prev == chosen[i] && tx.inputs[i].valueIn == w.utxos[chosen[i]].value
    ensures var change := Total(w.utxos, chosen) - Sum(outputs) - ReqFee(env, |chosen|, outputs, feeRate);
            WithChange(outputs, change, tx.outputs)
    ensures w2.journal == w.journal && w2.height == w.height
    ensures w2.utxos == SetLocks(w.utxos, Elements(chosen), true)
  {
    hide Chosen, Assemble, Finish, CanSpend, SetLocks, Total, ReqFee, Sum, Prevs, WithChange;
    chosen := Chosen(env, w, outputs, feeRate, order).value;
    var (w1, funded) := Assemble(env, w, chosen, outputs, feeRate, rpcOk);
    AssembleShape(env, w, chosen, outputs, feeRate, rpcOk, w1, funded.value);
    FinishShape(env, w1, funded.value, w2, tx);
    PrevsAre(funded.value.inputs, chosen);
    forall i | 0 <= i < |chosen| ensures Spendable(w, chosen[i]) {
      assert chosen[i] in chosen;
    }
  }

  lemma PrevsAre(inputs: seq<TxIn>, ops: seq<OutPoint>)
    requires |inputs| == |ops| && forall i :: 0 <= i < |ops| ==> inputs[i].prev == ops[i]
    ensures Prevs(inputs) == Elements(ops)
  {
    forall op | op in ops ensures op in Prevs(inputs) {
      var i :| 0 <= i < |ops| && ops[i] == op;
      assert inputs[i] in inputs;
    }
  }

  lemma ChosenDistinct(env: Env, w: Wallet, outputs: seq<TxOut>, feeRate: int, order: seq<OutPoint>,
          chosen: seq<OutPoint>)
    requires IsOrder(order, w.utxos)
    requires Chosen(env, w, outputs, feeRate, order) == Some(chosen)
    ensures forall i, j :: 0 <= i < j < |chosen| ==> chosen[i] != chosen[j]
    ensures |chosen| >= 1 && Total(w.utxos, chosen) - ReqFee(env, |chosen|, outputs, feeRate) >= Sum(outputs)
  {
    CandidatesAre(w, order, |order|);
  }

  /** Created transactions spend distinct spendable coins at their value, and their inputs exceed
      their outputs, change included, by exactly the fee rate times the size before change plus 108
      bytes per input. The requested outputs come first, then at most one change output. */
  lemma CreateConserves(env: Env, w: Wallet, outputs: seq<TxOut>, feeRate: int, order: seq<OutPoint>,
          rpcOk: bool, w2: Wallet, tx: SpendTx)
    requires IsOrder(order, w.utxos)
    requires Create(env, w, outputs, feeRate, order, rpcOk) == (w2, Some(tx))
    ensures |tx.inputs| >= 1
    ensures forall i, j :: 0 <= i < j < |tx.inputs| ==> tx.inputs[i].prev != tx.inputs[j].prev
    ensures forall x :: x in tx.inputs ==> Spendable(w, x.prev) && x.valueIn == w.utxos[x.prev].value
    ensures SumIn(tx.inputs) - Sum(tx.outputs) == (env.size(|tx.inputs|, outputs) + 108 * |tx.inputs|) * feeRate
    ensures tx.outputs == outputs || (exists out :: tx.outputs == outputs + [out] && out.value > 0)
  {
    hide Create, Chosen, Spendable, Total, SumIn, Sum, ReqFee, WithChange, IsOrder;
    var chosen := CreateShape(env, w, outputs, feeRate, order, rpcOk, w2, tx);
    ChosenDistinct(env, w, outputs, feeRate, order, chosen);
    SumInTotal(w.utxos, chosen, tx.inputs);
    FeeIs(env, |chosen|, outputs, feeRate);
    var change := Total(w.utxos, chosen) - Sum(outputs) - ReqFee(env, |chosen|, outputs, feeRate);
    ChangeSum(outputs, change, tx.outputs);
    forall x | x in tx.inputs ensures Spendable(w, x.prev) && x.valueIn == w.utxos[x.prev].value {
      var i :| 0 <= i < |tx.inputs| && tx.inputs[i] == x;
      assert Spendable(w, chosen[i]);
    }
    assert forall i :: 0 <= i < |chosen| ==> tx.inputs[i].prev == chosen[i];
  }

  lemma FeeIs(env: Env, n: nat, outputs: seq<TxOut>, feeRate: int)
    ensures ReqFee(env, n, outputs, feeRate) == (env.size(n, outputs) + 108 * n) * feeRate
  {
  }

  lemma ChangeSum(outputs: seq<TxOut>, change: int, all: seq<TxOut>)
    requires WithChange(outputs, change, all) && change >= 0
    ensures Sum(all) == Sum(outputs) + change
    ensures all == outputs || (exists out :: all == outputs + [out] && out.value > 0)
  {
    if change > 0 {
      assert all[..|all| - 1] == outputs;
    }
  }

  /** No smaller number of the inputs it selected, taken in the order it selected them, would have
      covered the requested outputs and the fee for spending just those. */
  lemma CreateMinimal(env: Env, w: Wallet, outputs: seq<TxOut>, feeRate: int, order: seq<OutPoint>,
          rpcOk: bool, w2: Wallet, tx: SpendTx, j: nat)
    requires Create(env, w, outputs, feeRate, order, rpcOk) == (w2, Some(tx))
    requires 1 <= j < |tx.inputs|
    ensures SumIn(tx.inputs[..j]) - ReqFee(env, j, outputs, feeRate) < Sum(outputs)
  {
    var chosen := CreateShape(env, w, outputs, feeRate, order, rpcOk, w2, tx);
    var c := Candidates(w, order, |order|);
    assert !Covers(env, w, c, j, outputs, feeRate);
    assert chosen[..j] == c[..j];
    SumInTotal(w.utxos, chosen[..j], tx.inputs[..j]);
  }

  lemma {:induction false} ScriptBytesBound(inputs: seq<TxIn>)
    requires forall i :: 0 <= i < |inputs| ==> |inputs[i].sigScript| <= SPEND_SIZE
    ensures ScriptBytes(inputs) <= SPEND_SIZE * |inputs|
  {
    if inputs != [] {
      ScriptBytesBound(inputs[..|inputs| - 1]);
    }
  }

  /** The fee paid falls short of the fee rate times the final size, that is the unsigned size plus
      the signature scripts, by no more than the fee rate times the bytes the change output added. */
  lemma FeeShortfallBounded(env: Env, w: Wallet, outputs: seq<TxOut>, feeRate: int, order: seq<OutPoint>,
          rpcOk: bool, w2: Wallet, tx: SpendTx)
    requires IsOrder(order, w.utxos) && feeRate >= 0
    requires Create(env, w, outputs, feeRate, order, rpcOk) == (w2, Some(tx))
    requires forall i :: 0 <= i < |tx.inputs| ==> |tx.inputs[i].sigScript| <= SPEND_SIZE
    ensures var n := |tx.inputs|;
            var finalSize := env.size(n, tx.outputs) + ScriptBytes(tx.inputs);
            var fee := SumIn(tx.inputs) - Sum(tx.outputs);
            feeRate * finalSize - fee <= feeRate * (env.size(n, tx.outputs) - env.size(n, outputs))
  {
    CreateConserves(env, w, outputs, feeRate, order, rpcOk, w2, tx);
    var n := |tx.inputs|;
    ScriptBytesBound(tx.inputs);
    Shortfall(feeRate, env.size(n, tx.outputs), ScriptBytes(tx.inputs), env.size(n, outputs), SPEND_SIZE * n);
  }

  lemma Shortfall(rate: int, final: int, scripts: int, before: int, reserved: int)
    requires rate >= 0 && scripts <= reserved
    ensures rate * (final + scripts) - (before + reserved) * rate <= rate * (final - before)
  {
    assert rate * (reserved - scripts) >= 0;
  }

  // ----- when funding succeeds -----

  /** Selection succeeds if spending every spendable coin at once would pay for itself. */
  lemma FundsIfBalanceCovers(env: Env, w: Wallet, outputs: seq<TxOut>, feeRate: int, order: seq<OutPoint>, rpcOk: bool)
    requires IsOrder(order, w.utxos)
    requires NewAddress(env, w, rpcOk).1.Some?
    requires SpendableSet(w) != {}
    requires Balance(w) - ReqFee(env, |SpendableSet(w)|, outputs, feeRate) >= Sum(outputs)
    ensures Fund(env, w, outputs, feeRate, order, rpcOk).1.Some?
  {
    CandidatesAll(w, order);
    var c := Candidates(w, order, |order|);
    assert c[..|c|] == c;
    assert Covers(env, w, c, |c|, outputs, feeRate);
  }

  /** Every spendable coin is worth at least what spending it adds to the fee. */
  ghost predicate PaysForItself(env: Env, w: Wallet, outputs: seq<TxOut>, feeRate: int) {
    forall op, k: nat | Spendable(w, op) && k < |SpendableSet(w)| ::
      w.utxos[op].value >= ReqFee(env, k + 1, outputs, feeRate) - ReqFee(env, k, outputs, feeRate)
  }

  lemma {:induction false} CoversMore(env: Env, w: Wallet, cands: seq<OutPoint>, k: nat, outputs: seq<TxOut>,
          feeRate: int)
    requires k <= |cands| == |SpendableSet(w)| && forall op :: op in cands ==> op in w.utxos && Spendable(w, op)
    requires PaysForItself(env, w, outputs, feeRate) && Covers(env, w, cands, k, outputs, feeRate)
    ensures Covers(env, w, cands, |cands|, outputs, feeRate)
    decreases |cands| - k
  {
    if k < |cands| {
      assert cands[..k + 1][..k] == cands[..k];
      assert cands[k] in cands;
      CoversMore(env, w, cands, k + 1, outputs, feeRate);
    }
  }

  /** Then selection succeeds exactly if spending every spendable coin would cover the outputs, so the
      order of the scan does not matter. */
  lemma FundsIffBalanceCovers(env: Env, w: Wallet, outputs: seq<TxOut>, feeRate: int, order: seq<OutPoint>, rpcOk: bool)
    requires IsOrder(order, w.utxos)
    requires NewAddress(env, w, rpcOk).1.Some?
    requires PaysForItself(env, w, outputs, feeRate)
    ensures Fund(env, w, outputs, feeRate, order, rpcOk).1.Some? <==>
            SpendableSet(w) != {} && Balance(w) - ReqFee(env, |SpendableSet(w)|, outputs, feeRate) >= Sum(outputs)
  {
    hide Candidates, SumOver, ReqFee, Total, Sum, CanSpend, PaysForItself, NewAddress;
    CandidatesAll(w, order);
    var c := Candidates(w, order, |order|);
    assert c[..|c|] == c;
    if Fund(env, w, outputs, feeRate, order, rpcOk).1.Some? {
      var k := Choose(env, w, c, 1, outputs, feeRate).value;
      CoversMore(env, w, c, k, outputs, feeRate);
      assert c[0] in Elements(c);
    } else {
      assert !Covers(env, w, c, |c|, outputs, feeRate) || |c| == 0;
    }
  }

  // ----- locks and the balance -----

  /** A failed creation leaves every coin and lock as it was; only the address counter may have moved. */
  lemma FailedCreateKeepsCoins(env: Env, w: Wallet, outputs: seq<TxOut>, feeRate: int, order: seq<OutPoint>,
                               rpcOk: bool)
    requires Create(env, w, outputs, feeRate, order, rpcOk).1.None?
    ensures var w' := Create(env, w, outputs, feeRate, order, rpcOk).0;
            w'.utxos == w.utxos && w'.journal == w.journal && w'.height == w.height && Balance(w') == Balance(w)
  {
    var w' := Create(env, w, outputs, feeRate, order, rpcOk).0;
    assert SpendableSet(w') == SpendableSet(w);
  }

  /** A successful creation locks the inputs of its transaction, all spendable until then, and changes
      no other coin. */
  lemma CreateLocks(env: Env, w: Wallet, outputs: seq<TxOut>, feeRate: int, order: seq<OutPoint>, rpcOk: bool,
          w2: Wallet, tx: SpendTx)
    requires Create(env, w, outputs, feeRate, order, rpcOk) == (w2, Some(tx))
    ensures Prevs(tx.inputs) <= SpendableSet(w)
    ensures w2.utxos == SetLocks(w.utxos, Prevs(tx.inputs), true)
    ensures w2.journal == w.journal && w2.height == w.height
  {
    var chosen := CreateShape(env, w, outputs, feeRate, order, rpcOk, w2, tx);
    PrevsAre(tx.inputs, chosen);
  }

  /** A created transaction lowers the balance by exactly the value of its inputs. */
  lemma CreateLowersBalance(env: Env, w: Wallet, outputs: seq<TxOut>, feeRate: int, order: seq<OutPoint>,
          rpcOk: bool, w2: Wallet, tx: SpendTx)
    requires IsOrder(order, w.utxos)
    requires Create(env, w, outputs, feeRate, order, rpcOk) == (w2, Some(tx))
    ensures Balance(w2) == Balance(w) - SumIn(tx.inputs)
  {
    var chosen := CreateShape(env, w, outputs, feeRate, order, rpcOk, w2, tx);
    ChosenDistinct(env, w, outputs, feeRate, order, chosen);
    TotalIsSum(w.utxos, chosen);
    SumInTotal(w.utxos, chosen, tx.inputs);
    var spent := Elements(chosen);
    SumSplit(w.utxos, SpendableSet(w), spent);
    assert SpendableSet(w2) == SpendableSet(w) - spent;
    SumSame(w.utxos, w2.utxos, SpendableSet(w2));
  }

  /** Unlocking the inputs right after restores every coin, and with them the balance. */
  lemma UnlockUndoesCreate(env: Env, w: Wallet, outputs: seq<TxOut>, feeRate: int, order: seq<OutPoint>,
          rpcOk: bool, w2: Wallet, tx: SpendTx)
    requires Create(env, w, outputs, feeRate, order, rpcOk) == (w2, Some(tx))
    ensures Unlock(w2, tx.inputs).utxos == w.utxos && Balance(Unlock(w2, tx.inputs)) == Balance(w)
  {
    CreateLocks(env, w, outputs, feeRate, order, rpcOk, w2, tx);
    var w3 := Unlock(w2, tx.inputs);
    forall op | op in w.utxos ensures w3.utxos[op] == w.utxos[op] {
      if op in Prevs(tx.inputs) {
        assert op in SpendableSet(w);
      }
    }
    assert w3.utxos == w.utxos;
    assert SpendableSet(w3) == SpendableSet(w);
  }
}
