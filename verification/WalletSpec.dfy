/** The wallet as a value, and each of its operations as a function of that value. */
module WalletSpec {
  import opened WalletTypes
  import opened Ledger

  const SPEND_SIZE := 1 + 73 + 1 + 33

  datatype TxIn = TxIn(prev: OutPoint, valueIn: int, sigScript: Bytes)
  datatype SpendTx = SpendTx(inputs: seq<TxIn>, outputs: seq<TxOut>)

  /** What the wallet takes from code outside it. `derive` is the address hash at a key index (or the
      derivation error), `payScript` the script paying an address, `size` the serialized size of a
      transaction with so many unsigned inputs and these outputs, `sign` the signature script for one
      input of a transaction, given the script it spends and the key index used. */
  datatype Env = Env(
    coinbaseMaturity: nat,
    derive: nat -> Option<Bytes>,
    payScript: Bytes -> Bytes,
    size: (nat, seq<TxOut>) -> nat,
    sign: (SpendTx, nat, Bytes, nat) -> Option<Bytes>)

  datatype Wallet = Wallet(
    height: int,
    hdIndex: nat,
    addrs: map<nat, Bytes>,
    utxos: map<OutPoint, Coin>,
    journal: map<int, Undo>)

  // ----- chain updates -----

  function BlockAt(env: Env, w: Wallet, height: int, txs: seq<Tx>, picks: map<(nat, nat), nat>): Block {
    Block(height, height + env.coinbaseMaturity, txs, w.addrs, picks)
  }

  ghost function Connect(w: Wallet, b: Block): Wallet {
    var book := Apply(w.utxos, b);
    w.(height := b.height, utxos := book.utxos, journal := w.journal[b.height := book.undo])
  }

  /** Without an entry for the height the source dereferences a missing entry; callers prove it there. */
  ghost function Disconnect(w: Wallet, height: int): Wallet {
    if height !in w.journal then w
    else w.(utxos := Unwind(w.utxos, w.journal[height]), journal := w.journal - {height})
  }

  // ----- addresses -----

  /** The increment of an unsigned 32-bit counter. */
  function NextIndex(i: nat): nat {
    if i + 1 == UINT32_LIMIT then 0 else i + 1
  }

  function NewAddress(env: Env, w: Wallet, rpcOk: bool): (Wallet, Option<Bytes>) {
    match env.derive(w.hdIndex)
    case None => (w, None)
    case Some(addr) =>
      if !rpcOk then (w, None)
      else (w.(addrs := w.addrs[w.hdIndex := addr], hdIndex := NextIndex(w.hdIndex)), Some(addr))
  }

  // ----- spendable coins -----

  predicate CanSpend(c: Coin, height: int) {
    height >= c.maturityHeight && !c.isLocked
  }

  predicate Spendable(w: Wallet, op: OutPoint) {
    op in w.utxos && CanSpend(w.utxos[op], w.height)
  }

  function SpendableSet(w: Wallet): set<OutPoint> {
    set op | op in w.utxos && Spendable(w, op)
  }

  ghost function SumOver(m: map<OutPoint, Coin>, s: set<OutPoint>): int
    requires s <= m.Keys
  {
    if s == {} then 0 else var op :| op in s; m[op].value + SumOver(m, s - {op})
  }

  ghost function Balance(w: Wallet): int {
    SumOver(w.utxos, SpendableSet(w))
  }

  function Total(m: map<OutPoint, Coin>, ops: seq<OutPoint>): int
    requires forall op :: op in ops ==> op in m
  {
    if ops == [] then 0 else Total(m, ops[..|ops| - 1]) + m[ops[|ops| - 1]].value
  }

  function Sum(outputs: seq<TxOut>): int {
    if outputs == [] then 0 else Sum(outputs[..|outputs| - 1]) + outputs[|outputs| - 1].value
  }

  // ----- coin selection -----

  function ReqFee(env: Env, n: nat, outputs: seq<TxOut>, feeRate: int): int {
    (env.size(n, outputs) + SPEND_SIZE * n) * feeRate
  }

  /** The order in which one scan over the map of coins visits it. */
  ghost predicate IsOrder(order: seq<OutPoint>, m: map<OutPoint, Coin>) {
    && Elements(order) == m.Keys
    && (forall i, j :: 0 <= i < j < |order| ==> order[i] != order[j])
  }

  /** The spendable coins among the first `n` visited. */
  ghost function Candidates(w: Wallet, order: seq<OutPoint>, n: nat): (c: seq<OutPoint>)
    requires n <= |order|
    ensures forall op :: op in c ==> op in w.utxos && Spendable(w, op)
  {
    if n == 0 then []
    else
      Candidates(w, order, n - 1) + (if Spendable(w, order[n - 1]) then [order[n - 1]] else [])
  }

  /** The first `k` candidates cover the outputs and the fee for spending them. */
  ghost predicate Covers(env: Env, w: Wallet, cands: seq<OutPoint>, k: nat, outputs: seq<TxOut>, feeRate: int)
    requires k <= |cands| && forall op :: op in cands ==> op in w.utxos
  {
    Total(w.utxos, cands[..k]) - ReqFee(env, k, outputs, feeRate) >= Sum(outputs)
  }

  /** The least number of candidates, `k` or more, that covers. */
  ghost function Choose(env: Env, w: Wallet, cands: seq<OutPoint>, k: nat, outputs: seq<TxOut>,
          feeRate: int): (r: Option<nat>)
    requires forall op :: op in cands ==> op in w.utxos
    ensures r.Some? ==> k <= r.value <= |cands| && Covers(env, w, cands, r.value, outputs, feeRate)
    ensures r.Some? ==> forall j: nat :: k <= j < r.value ==> !Covers(env, w, cands, j, outputs, feeRate)
    ensures r.None? ==> forall j: nat :: k <= j <= |cands| ==> !Covers(env, w, cands, j, outputs, feeRate)
    decreases |cands| + 1 - k
  {
    if k > |cands| then None
    else if Covers(env, w, cands, k, outputs, feeRate) then Some(k)
    else Choose(env, w, cands, k + 1, outputs, feeRate)
  }

  function Unsigned(m: map<OutPoint, Coin>, ops: seq<OutPoint>): seq<TxIn>
    requires forall op :: op in ops ==> op in m
  {
    seq(|ops|, i requires 0 <= i < |ops| => TxIn(ops[i], m[ops[i]].value, []))
  }

  /** The transaction that spends the chosen coins, with what exceeds the outputs and the fee returned
      to a new address. */
  ghost function Assemble(env: Env, w: Wallet, chosen: seq<OutPoint>, outputs: seq<TxOut>, feeRate: int, rpcOk: bool)
    : (r: (Wallet, Option<SpendTx>))
    requires forall op :: op in chosen ==> op in w.utxos
    ensures r.0.utxos == w.utxos && r.0.journal == w.journal && r.0.height == w.height
    ensures r.1.Some? ==> r.1.value.inputs == Unsigned(w.utxos, chosen)
  {
    var change := Total(w.utxos, chosen) - Sum(outputs) - ReqFee(env, |chosen|, outputs, feeRate);
    if change <= 0 then (w, Some(SpendTx(Unsigned(w.utxos, chosen), outputs)))
    else
      var (w', addr) := NewAddress(env, w, rpcOk);
      match addr
      case None => (w', None)
      case Some(a) => (w', Some(SpendTx(Unsigned(w.utxos, chosen), outputs + [TxOut(change, env.payScript(a))])))
  }

  /** The coins a scan in the given order selects. */
  ghost function Chosen(env: Env, w: Wallet, outputs: seq<TxOut>, feeRate: int,
          order: seq<OutPoint>): (r: Option<seq<OutPoint>>)
    ensures r.Some? ==> forall op :: op in r.value ==> op in w.utxos && Spendable(w, op)
  {
    var cands := Candidates(w, order, |order|);
    match Choose(env, w, cands, 1, outputs, feeRate)
    case None => None
    case Some(k) => Some(cands[..k])
  }

  ghost function Fund(env: Env, w: Wallet, outputs: seq<TxOut>, feeRate: int, order: seq<OutPoint>, rpcOk: bool)
    : (r: (Wallet, Option<SpendTx>))
    ensures r.0.utxos == w.utxos && r.0.journal == w.journal && r.0.height == w.height
    ensures r.1.Some? ==> forall i :: 0 <= i < |r.1.value.inputs| ==> r.1.value.inputs[i].prev in w.utxos
  {
    match Chosen(env, w, outputs, feeRate, order)
    case None => (w, None)
    case Some(chosen) => Assemble(env, w, chosen, outputs, feeRate, rpcOk)
  }

  // ----- signing, locking -----

  /** The signature scripts of the first `n` inputs, or nothing if deriving or signing one fails. */
  function SignFirst(env: Env, m: map<OutPoint, Coin>, tx: SpendTx, n: nat): (r: Option<seq<Bytes>>)
    requires n <= |tx.inputs| && forall i :: 0 <= i < |tx.inputs| ==> tx.inputs[i].prev in m
    ensures r.Some? ==> |r.value| == n
  {
    if n == 0 then Some([])
    else
      match SignFirst(env, m, tx, n - 1)
      case None => None
      case Some(scripts) =>
        var coin := m[tx.inputs[n - 1].prev];
        if env.derive(coin.keyIndex).None? then None
        else
          match env.sign(tx, n - 1, coin.pkScript, coin.keyIndex)
          case None => None
          case Some(script) => Some(scripts + [script])
  }

  function Signed(tx: SpendTx, scripts: seq<Bytes>): SpendTx
    requires |scripts| == |tx.inputs|
  {
    tx.(inputs := seq(|scripts|, i requires 0 <= i < |scripts| => tx.inputs[i].(sigScript := scripts[i])))
  }

  ghost function Prevs(inputs: seq<TxIn>): set<OutPoint> {
    set x | x in inputs :: x.prev
  }

  ghost function SetLocks(m: map<OutPoint, Coin>, ops: set<OutPoint>, locked: bool): map<OutPoint, Coin> {
    map op | op in m :: if op in ops then m[op].(isLocked := locked) else m[op]
  }

  /** Signs a funded transaction and locks what it spends. */
  ghost function Finish(env: Env, w: Wallet, tx: SpendTx): (Wallet, Option<SpendTx>)
    requires forall i :: 0 <= i < |tx.inputs| ==> tx.inputs[i].prev in w.utxos
  {
    match SignFirst(env, w.utxos, tx, |tx.inputs|)
    case None => (w, None)
    case Some(scripts) => (w.(utxos := SetLocks(w.utxos, Prevs(tx.inputs), true)), Some(Signed(tx, scripts)))
  }

  ghost function Create(env: Env, w: Wallet, outputs: seq<TxOut>, feeRate: int, order: seq<OutPoint>, rpcOk: bool)
    : (Wallet, Option<SpendTx>)
  {
    var (w', funded) := Fund(env, w, outputs, feeRate, order, rpcOk);
    match funded
    case None => (w', None)
    case Some(tx) => Finish(env, w', tx)
  }

  ghost function Unlock(w: Wallet, inputs: seq<TxIn>): Wallet {
    w.(utxos := SetLocks(w.utxos, Prevs(inputs), false))
  }
}
