/** What one block does to the wallet's map of unspent outputs, and what unwinding the block undoes. */
module Ledger {
  import opened WalletTypes

  /** A connected block together with what the wallet knew when it processed it: the addresses it
      then owned, the maturity height of the block's coinbase outputs, and, for an output that pays
      several of those addresses at once, the one the scan over the address map visited last. */
  datatype Block = Block(height: int, maturesAt: int, txs: seq<Tx>, addrs: map<nat, Bytes>, picks: map<(nat, nat), nat>)

  /** The map being edited and the undo entry being built while a block is processed. */
  datatype Book = Book(utxos: map<OutPoint, Coin>, undo: Undo)

  const NO_UNDO := Undo(map[], [])

  function Matches(addrs: map<nat, Bytes>, script: Bytes): set<nat> {
    set k | k in addrs && Contains(script, addrs[k])
  }

  function OpOf(tx: Tx, i: nat): OutPoint {
    OutPoint(tx.hash, i, REGULAR_TREE)
  }

  predicate Pays(b: Block, p: nat, i: nat)
    requires p < |b.txs| && i < |b.txs[p].outputs|
  {
    Matches(b.addrs, b.txs[p].outputs[i].pkScript) != {}
  }

  function CoinAt(b: Block, p: nat, i: nat): Coin
    requires p < |b.txs| && i < |b.txs[p].outputs|
  {
    Coin(b.txs[p].outputs[i].value, b.txs[p].outputs[i].pkScript,
         if b.txs[p].isCoinbase then b.maturesAt else 0,
         if (p, i) in b.picks then b.picks[(p, i)] else 0, false)
  }

  /** Every output that pays the wallet is filed under one of the keys it pays. */
  ghost predicate PicksOk(b: Block) {
    forall p: nat, i: nat | p < |b.txs| && i < |b.txs[p].outputs| && Pays(b, p, i) ::
      (p, i) in b.picks && b.picks[(p, i)] in Matches(b.addrs, b.txs[p].outputs[i].pkScript)
  }

  ghost function EvalOutput(bk: Book, b: Block, p: nat, i: nat): Book
    requires p < |b.txs| && i < |b.txs[p].outputs|
  {
    var op := OpOf(b.txs[p], i);
    if !Pays(b, p, i) then bk
    else Book(bk.utxos[op := CoinAt(b, p, i)],
              bk.undo.(created := Appended(bk.undo.created, op, |Matches(b.addrs, b.txs[p].outputs[i].pkScript)|)))
  }

  ghost function EvalOutputs(bk: Book, b: Block, p: nat, n: nat): Book
    requires p < |b.txs| && n <= |b.txs[p].outputs|
  {
    if n == 0 then bk else EvalOutput(EvalOutputs(bk, b, p, n - 1), b, p, n - 1)
  }

  ghost function EvalInput(bk: Book, op: OutPoint): Book {
    if op !in bk.utxos then bk
    else Book(bk.utxos - {op}, bk.undo.(destroyed := bk.undo.destroyed[op := bk.utxos[op]]))
  }

  ghost function EvalInputs(bk: Book, inputs: seq<OutPoint>, n: nat): Book
    requires n <= |inputs|
  {
    if n == 0 then bk else EvalInput(EvalInputs(bk, inputs, n - 1), inputs[n - 1])
  }

  ghost function EvalTx(bk: Book, b: Block, p: nat): Book
    requires p < |b.txs|
  {
    EvalInputs(EvalOutputs(bk, b, p, |b.txs[p].outputs|), b.txs[p].inputs, |b.txs[p].inputs|)
  }

  ghost function EvalTxs(bk: Book, b: Block, n: nat): Book
    requires n <= |b.txs|
  {
    if n == 0 then bk else EvalTx(EvalTxs(bk, b, n - 1), b, n - 1)
  }

  ghost function Apply(m: map<OutPoint, Coin>, b: Block): Book {
    EvalTxs(Book(m, NO_UNDO), b, |b.txs|)
  }

  /** Created outputs go first, destroyed ones come back second. */
  ghost function Unwind(m: map<OutPoint, Coin>, undo: Undo): map<OutPoint, Coin> {
    (m - Elements(undo.created)) + undo.destroyed
  }

  // ----- the effect on a single outpoint -----

  ghost predicate Creates(b: Block, p: nat, op: OutPoint)
    requires p < |b.txs|
  {
    op.hash == b.txs[p].hash && op.tree == REGULAR_TREE && op.index < |b.txs[p].outputs| && Pays(b, p, op.index)
  }

  ghost predicate Spends(b: Block, p: nat, op: OutPoint)
    requires p < |b.txs|
  {
    op in b.txs[p].inputs
  }

  /** What the map says about `op` between the outputs and the inputs of transaction `p`. */
  ghost function LiveAt(bk: Book, b: Block, p: nat, op: OutPoint): Option<Coin>
    requires p < |b.txs|
  {
    if Creates(b, p, op) then Some(CoinAt(b, p, op.index)) else Get(bk.utxos, op)
  }

  lemma {:induction false} OutputsEffect(bk: Book, b: Block, p: nat, n: nat, op: OutPoint)
    requires p < |b.txs| && n <= |b.txs[p].outputs|
    ensures var r := EvalOutputs(bk, b, p, n);
            && r.undo.destroyed == bk.undo.destroyed
            && (Creates(b, p, op) && op.index < n ==>
                  op in r.utxos && r.utxos[op] == CoinAt(b, p, op.index) && op in r.undo.created)
            && (!(Creates(b, p, op) && op.index < n) ==>
                  Get(r.utxos, op) == Get(bk.utxos, op) && (op in r.undo.created <==> op in bk.undo.created))
  {
    if n > 0 {
      OutputsEffect(bk, b, p, n - 1, op);
      var q := EvalOutputs(bk, b, p, n - 1);
      if Pays(b, p, n - 1) {
        var at := OpOf(b.txs[p], n - 1);
        var k := |Matches(b.addrs, b.txs[p].outputs[n - 1].pkScript)|;
        assert k > 0;
        InAppended(q.undo.created, at, k, op);
      }
    }
  }

  lemma {:induction false} InputsEffect(bk: Book, inputs: seq<OutPoint>, n: nat, op: OutPoint)
    requires n <= |inputs|
    ensures var r := EvalInputs(bk, inputs, n);
            && r.undo.created == bk.undo.created
            && (op in inputs[..n] && op in bk.utxos ==>
                  op !in r.utxos && Get(r.undo.destroyed, op) == Get(bk.utxos, op))
            && (!(op in inputs[..n] && op in bk.utxos) ==>
                  Get(r.utxos, op) == Get(bk.utxos, op) && Get(r.undo.destroyed, op) == Get(bk.undo.destroyed, op))
  {
    if n > 0 {
      InputsEffect(bk, inputs, n - 1, op);
      assert inputs[..n] == inputs[..n - 1] + [inputs[n - 1]];
    }
  }

  lemma TxEffect(bk: Book, b: Block, p: nat, op: OutPoint)
    requires p < |b.txs|
    ensures var r := EvalTx(bk, b, p);
            && Get(r.utxos, op) == (if Spends(b, p, op) then None else LiveAt(bk, b, p, op))
            && Get(r.undo.destroyed, op) == (if Spends(b, p, op) && LiveAt(bk, b, p, op).Some?
                                             then LiveAt(bk, b, p, op) else Get(bk.undo.destroyed, op))
            && (op in r.undo.created <==> op in bk.undo.created || Creates(b, p, op))
  {
    var tx := b.txs[p];
    OutputsEffect(bk, b, p, |tx.outputs|, op);
    InputsEffect(EvalOutputs(bk, b, p, |tx.outputs|), tx.inputs, |tx.inputs|, op);
    assert tx.inputs[..|tx.inputs|] == tx.inputs;
  }

  // ----- inversion -----

  ghost predicate CreatedBy(b: Block, n: nat, op: OutPoint)
    requires n <= |b.txs|
  {
    exists p: nat :: p < n && Creates(b, p, op)
  }

  /** `op` is created by one transaction of the block and spent by the same or a later one. */
  ghost predicate ChainedBy(b: Block, n: nat, op: OutPoint)
    requires n <= |b.txs|
  {
    exists p: nat, q: nat :: p <= q < n && Creates(b, p, op) && Spends(b, q, op)
  }

  ghost predicate NoChained(b: Block) {
    forall op :: !ChainedBy(b, |b.txs|, op)
  }

  /** While a block is processed, every outpoint it does not create is either still in the map or in
      the undo entry, never both, with the coin it had before. */
  lemma {:induction false} BlockEffect(m: map<OutPoint, Coin>, b: Block, n: nat, op: OutPoint)
    requires n <= |b.txs|
    ensures var r := EvalTxs(Book(m, NO_UNDO), b, n);
            && (op in r.undo.created <==> CreatedBy(b, n, op))
            && (!CreatedBy(b, n, op) ==>
                  && !(op in r.utxos && op in r.undo.destroyed)
                  && Get(m, op) == (if op in r.utxos then Some(r.utxos[op]) else Get(r.undo.destroyed, op)))
            && (CreatedBy(b, n, op) && op !in m ==> (op in r.undo.destroyed <==> ChainedBy(b, n, op)))
  {
    if n > 0 {
      BlockEffect(m, b, n - 1, op);
      TxEffect(EvalTxs(Book(m, NO_UNDO), b, n - 1), b, n - 1, op);
      assert CreatedBy(b, n, op) <==> CreatedBy(b, n - 1, op) || Creates(b, n - 1, op);
      ChainedStep(b, n, op);
      if CreatedBy(b, n - 1, op) && op !in m {
        NeverLost(m, b, n - 1, op);
      }
    }
  }

  lemma ChainedStep(b: Block, n: nat, op: OutPoint)
    requires 0 < n <= |b.txs|
    ensures ChainedBy(b, n, op) <==> ChainedBy(b, n - 1, op) || (CreatedBy(b, n, op) && Spends(b, n - 1, op))
  {
    if CreatedBy(b, n, op) && Spends(b, n - 1, op) {
      var p: nat :| p < n && Creates(b, p, op);
      assert p <= n - 1 < n && Creates(b, p, op) && Spends(b, n - 1, op);
    }
    if ChainedBy(b, n - 1, op) {
      var p: nat, q: nat :| p <= q < n - 1 && Creates(b, p, op) && Spends(b, q, op);
      assert p <= q < n && Creates(b, p, op) && Spends(b, q, op);
    }
  }

  /** A created output stays in the map or moves to the undo entry. */
  lemma {:induction false} NeverLost(m: map<OutPoint, Coin>, b: Block, n: nat, op: OutPoint)
    requires n <= |b.txs| && CreatedBy(b, n, op)
    ensures var r := EvalTxs(Book(m, NO_UNDO), b, n); op in r.utxos || op in r.undo.destroyed
  {
    if n > 0 {
      TxEffect(EvalTxs(Book(m, NO_UNDO), b, n - 1), b, n - 1, op);
      if CreatedBy(b, n - 1, op) {
        NeverLost(m, b, n - 1, op);
      }
    }
  }

  /** Connecting and unwinding any block restores every outpoint the block does not create, and
      leaves of those it creates exactly the coins that the undo entry holds for them. */
  lemma UnwindAfterApply(m: map<OutPoint, Coin>, b: Block, op: OutPoint)
    ensures var r := Apply(m, b);
            Get(Unwind(r.utxos, r.undo), op) ==
            if CreatedBy(b, |b.txs|, op) then Get(r.undo.destroyed, op) else Get(m, op)
  {
    BlockEffect(m, b, |b.txs|, op);
  }

  /** With fresh outputs, what is left behind is the original map plus exactly the outputs both
      created and spent inside the block. */
  lemma InversionExtras(m: map<OutPoint, Coin>, b: Block)
    requires forall op :: op in m ==> !CreatedBy(b, |b.txs|, op)
    ensures var r := Apply(m, b); var left := Unwind(r.utxos, r.undo);
            && (forall op :: op in left <==> op in m || ChainedBy(b, |b.txs|, op))
            && (forall op :: op in m ==> left[op] == m[op] && !ChainedBy(b, |b.txs|, op))
  {
    var r := Apply(m, b);
    var left := Unwind(r.utxos, r.undo);
    forall op
      ensures op in left <==> op in m || ChainedBy(b, |b.txs|, op)
      ensures op in m ==> op in left && left[op] == m[op] && !ChainedBy(b, |b.txs|, op)
    {
      UnwindAfterApply(m, b, op);
      BlockEffect(m, b, |b.txs|, op);
      assert Get(left, op).Some? <==> op in left;
    }
  }

  /** Hence unwinding is the inverse of connecting exactly for blocks without chained spends. */
  lemma InversionIff(m: map<OutPoint, Coin>, b: Block)
    requires forall op :: op in m ==> !CreatedBy(b, |b.txs|, op)
    ensures var r := Apply(m, b); Unwind(r.utxos, r.undo) == m <==> NoChained(b)
  {
    InversionExtras(m, b);
    var r := Apply(m, b);
    var left := Unwind(r.utxos, r.undo);
    if NoChained(b) {
      assert forall op :: op in left <==> op in m;
      assert left == m;
    } else {
      var op :| ChainedBy(b, |b.txs|, op);
      assert op in left && op !in m;
    }
  }

  // ----- replay from scratch -----

  /** The map obtained by processing a chain of blocks from nothing. */
  ghost function Replay(chain: seq<Block>): map<OutPoint, Coin> {
    if chain == [] then map[] else Apply(Replay(chain[..|chain| - 1]), chain[|chain| - 1]).utxos
  }

  /** One transaction of the chain. */
  datatype Event = Event(block: Block, index: nat) {
    ghost predicate Valid() { index < |block.txs| }
    ghost predicate Makes(op: OutPoint) { Valid() && Creates(block, index, op) }
    ghost predicate Takes(op: OutPoint) { Valid() && Spends(block, index, op) }
    ghost function Made(op: OutPoint): Coin
      requires Makes(op)
    {
      CoinAt(block, index, op.index)
    }
  }

  ghost function Events(b: Block, n: nat): seq<Event> {
    seq(n, (i: nat) => Event(b, i))
  }

  /** All transactions of a chain, oldest first. */
  ghost function Flatten(chain: seq<Block>): seq<Event> {
    if chain == [] then []
    else Flatten(chain[..|chain| - 1]) + Events(chain[|chain| - 1], |chain[|chain| - 1].txs|)
  }

  /** Event `k` is the last to create `op`, and neither it nor any later event spends it. */
  ghost predicate OwnedFrom(evs: seq<Event>, op: OutPoint, coin: Coin, k: nat) {
    && k < |evs| && evs[k].Makes(op) && evs[k].Made(op) == coin
    && (forall j :: k < j < |evs| ==> !evs[j].Makes(op))
    && (forall j :: k <= j < |evs| ==> !evs[j].Takes(op))
  }

  ghost predicate Owned(evs: seq<Event>, op: OutPoint, coin: Coin) {
    exists k: nat :: OwnedFrom(evs, op, coin, k)
  }

  lemma OwnedStep(evs: seq<Event>, e: Event, op: OutPoint, coin: Coin)
    ensures Owned(evs + [e], op, coin) <==>
            !e.Takes(op) && (if e.Makes(op) then coin == e.Made(op) else Owned(evs, op, coin))
  {
    var more := evs + [e];
    assert more[|evs|] == e;
    if Owned(more, op, coin) {
      var k: nat :| OwnedFrom(more, op, coin, k);
      assert !more[|evs|].Takes(op);
      if k < |evs| {
        assert forall j :: k <= j < |evs| ==> evs[j] == more[j];
        assert OwnedFrom(evs, op, coin, k);
      }
    }
    if !e.Takes(op) && e.Makes(op) && coin == e.Made(op) {
      assert OwnedFrom(more, op, coin, |evs|);
    }
    if !e.Takes(op) && !e.Makes(op) && Owned(evs, op, coin) {
      var k: nat :| OwnedFrom(evs, op, coin, k);
      assert OwnedFrom(more, op, coin, k);
    }
  }

  lemma {:induction false} BlockIsOwned(m: map<OutPoint, Coin>, evs: seq<Event>, b: Block, n: nat,
          op: OutPoint, coin: Coin)
    requires n <= |b.txs|
    requires Get(m, op) == Some(coin) <==> Owned(evs, op, coin)
    ensures Get(EvalTxs(Book(m, NO_UNDO), b, n).utxos, op) == Some(coin) <==> Owned(evs + Events(b, n), op, coin)
  {
    if n == 0 {
      assert evs + Events(b, n) == evs;
    } else {
      BlockIsOwned(m, evs, b, n - 1, op, coin);
      TxEffect(EvalTxs(Book(m, NO_UNDO), b, n - 1), b, n - 1, op);
      OwnedStep(evs + Events(b, n - 1), Event(b, n - 1), op, coin);
      assert evs + Events(b, n) == (evs + Events(b, n - 1)) + [Event(b, n - 1)];
    }
  }

  /** The replayed map holds exactly the outputs that were created for the wallet and not spent
      from then on, each with the coin of its last creation. */
  lemma {:induction false} ReplayIsOwned(chain: seq<Block>, op: OutPoint, coin: Coin)
    ensures Get(Replay(chain), op) == Some(coin) <==> Owned(Flatten(chain), op, coin)
  {
    if chain != [] {
      var init, b := chain[..|chain| - 1], chain[|chain| - 1];
      ReplayIsOwned(init, op, coin);
      BlockIsOwned(Replay(init), Flatten(init), b, |b.txs|, op, coin);
    }
  }

  // ----- lock bits -----

  /** The same coins with every lock bit cleared. */
  ghost function Unlocked(m: map<OutPoint, Coin>): map<OutPoint, Coin> {
    map op | op in m :: m[op].(isLocked := false)
  }

  ghost function UnlockedUndo(undo: Undo): Undo {
    undo.(destroyed := Unlocked(undo.destroyed))
  }

  lemma {:induction false} OutputsUnlocked(bk: Book, b: Block, p: nat, n: nat)
    requires p < |b.txs| && n <= |b.txs[p].outputs|
    ensures var r := EvalOutputs(bk, b, p, n);
            EvalOutputs(Book(Unlocked(bk.utxos), UnlockedUndo(bk.undo)), b, p, n)
            == Book(Unlocked(r.utxos), UnlockedUndo(r.undo))
  {
    if n > 0 {
      OutputsUnlocked(bk, b, p, n - 1);
      var q := EvalOutputs(bk, b, p, n - 1);
      var op := OpOf(b.txs[p], n - 1);
      assert Unlocked(q.utxos)[op := CoinAt(b, p, n - 1)] == Unlocked(q.utxos[op := CoinAt(b, p, n - 1)]);
    }
  }

  lemma {:induction false} InputsUnlocked(bk: Book, inputs: seq<OutPoint>, n: nat)
    requires n <= |inputs|
    ensures var r := EvalInputs(bk, inputs, n);
            EvalInputs(Book(Unlocked(bk.utxos), UnlockedUndo(bk.undo)), inputs, n)
            == Book(Unlocked(r.utxos), UnlockedUndo(r.undo))
  {
    if n > 0 {
      InputsUnlocked(bk, inputs, n - 1);
      var q, op := EvalInputs(bk, inputs, n - 1), inputs[n - 1];
      if op in q.utxos {
        assert Unlocked(q.utxos) - {op} == Unlocked(q.utxos - {op});
        assert Unlocked(q.undo.destroyed)[op := Unlocked(q.utxos)[op]] == Unlocked(q.undo.destroyed[op := q.utxos[op]]);
      }
    }
  }

  lemma {:induction false} TxsUnlocked(bk: Book, b: Block, n: nat)
    requires n <= |b.txs|
    ensures var r := EvalTxs(bk, b, n);
            EvalTxs(Book(Unlocked(bk.utxos), UnlockedUndo(bk.undo)), b, n)
            == Book(Unlocked(r.utxos), UnlockedUndo(r.undo))
  {
    if n > 0 {
      TxsUnlocked(bk, b, n - 1);
      var q, tx := EvalTxs(bk, b, n - 1), b.txs[n - 1];
      OutputsUnlocked(q, b, n - 1, |tx.outputs|);
      InputsUnlocked(EvalOutputs(q, b, n - 1, |tx.outputs|), tx.inputs, |tx.inputs|);
    }
  }

  /** Lock bits never influence which coins a block creates or destroys. */
  lemma ApplyUnlocked(m: map<OutPoint, Coin>, b: Block)
    ensures Apply(Unlocked(m), b) == Book(Unlocked(Apply(m, b).utxos), UnlockedUndo(Apply(m, b).undo))
  {
    var none: map<OutPoint, Coin> := map[];
    assert Unlocked(none) == none;
    TxsUnlocked(Book(m, NO_UNDO), b, |b.txs|);
  }

  lemma UnwindUnlocked(m: map<OutPoint, Coin>, undo: Undo)
    ensures Unwind(Unlocked(m), UnlockedUndo(undo)) == Unlocked(Unwind(m, undo))
  {
  }
}
