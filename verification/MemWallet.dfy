/** The wallet object. Its coins are shared, mutable records: a coin keeps its identity, and with it its
    lock, when it moves between the map of unspent outputs and an undo entry. */
module MemWallet {
  import opened WalletTypes
  import opened Ledger
  import opened WalletSpec
  import opened CoinSelection

  class Utxo {
    const pkScript: Bytes
    const value: int
    const maturityHeight: int
    const keyIndex: nat
    var isLocked: bool

    constructor (pkScript: Bytes, value: int, maturityHeight: int, keyIndex: nat)
      ensures AsCoin(false) == Coin(value, pkScript, maturityHeight, keyIndex, false) && !isLocked
    {
      this.pkScript, this.value, this.maturityHeight, this.keyIndex := pkScript, value, maturityHeight, keyIndex;
      isLocked := false;
    }

    ghost function AsCoin(locked: bool): Coin {
      Coin(value, pkScript, maturityHeight, keyIndex, locked)
    }

    predicate IsMature(height: int) {
      height >= maturityHeight
    }
  }

  class UndoEntry {
    var utxosDestroyed: map<OutPoint, Utxo>
    var utxosCreated: seq<OutPoint>

    constructor ()
      ensures utxosDestroyed == map[] && utxosCreated == []
    {
      utxosDestroyed, utxosCreated := map[], [];
    }
  }

  // ----- what the objects stand for -----

  /** The one place a record is in: under its outpoint in the map, or in one undo entry. */
  datatype Place = Live(op: OutPoint) | Spent(entry: UndoEntry, op: OutPoint)

  datatype Cell = Cell(place: Place, locked: bool)

  /** The wallet's coins and undo entries as values, and that of the entry under construction, if any;
      the records each entry holds; and for every record in use where it is and whether it is locked. */
  datatype Shadow = Shadow(
    coins: map<OutPoint, Coin>,
    draft: Undo,
    journal: map<int, Undo>,
    held: map<int, map<OutPoint, Utxo>>,
    cells: map<Utxo, Cell>)

  ghost predicate LiveOk(utxos: map<OutPoint, Utxo>, coins: map<OutPoint, Coin>, cells: map<Utxo, Cell>) {
    && utxos.Keys == coins.Keys
    && (forall op :: op in utxos ==>
          && utxos[op] in cells && cells[utxos[op]].place == Live(op)
          && coins[op] == utxos[op].AsCoin(cells[utxos[op]].locked))
  }

  ghost predicate SpentOk(entry: UndoEntry, held: map<OutPoint, Utxo>, destroyed: map<OutPoint, Coin>,
          cells: map<Utxo, Cell>)
  {
    && held.Keys == destroyed.Keys
    && (forall op :: op in held ==>
          && held[op] in cells && cells[held[op]].place == Spent(entry, op)
          && destroyed[op] == held[op].AsCoin(cells[held[op]].locked))
  }

  ghost predicate JournalOk(entries: map<int, UndoEntry>, g: Shadow) {
    && entries.Keys == g.journal.Keys == g.held.Keys
    && (forall h :: h in entries ==> SpentOk(entries[h], g.held[h], g.journal[h].destroyed, g.cells))
    && (forall h, k :: h in entries && k in entries && entries[h] == entries[k] ==> h == k)
  }

  ghost predicate Sound(utxos: map<OutPoint, Utxo>, entries: map<int, UndoEntry>, g: Shadow) {
    LiveOk(utxos, g.coins, g.cells) && JournalOk(entries, g)
  }

  ghost function WithCoin(g: Shadow, op: OutPoint, u: Utxo): Shadow {
    g.(coins := g.coins[op := u.AsCoin(false)], cells := g.cells[u := Cell(Live(op), false)],
       draft := g.draft.(created := g.draft.created + [op]))
  }

  /** Undo entries are untouched by what happens to a record that is in none of them. */
  lemma OthersKept(entries: map<int, UndoEntry>, g: Shadow, g2: Shadow, u: Utxo)
    requires JournalOk(entries, g) && g2.journal == g.journal && g2.held == g.held
    requires forall x :: x in g.cells && x != u ==> x in g2.cells && g2.cells[x] == g.cells[x]
    requires u in g.cells ==> forall h, op :: h in entries ==> g.cells[u].place != Spent(entries[h], op)
    ensures JournalOk(entries, g2)
  {
  }

  lemma InUse(utxos: map<OutPoint, Utxo>, entries: map<int, UndoEntry>, g: Shadow, op: OutPoint)
    requires Sound(utxos, entries, g) && op in utxos
    ensures utxos[op] in g.cells && op in g.coins && g.cells[utxos[op]].place == Live(op)
  {
  }

  /** A new record changes nothing for those in use. */
  lemma AddSound(utxos: map<OutPoint, Utxo>, entries: map<int, UndoEntry>, g: Shadow, op: OutPoint, u: Utxo)
    requires Sound(utxos, entries, g) && u !in g.cells
    ensures Sound(utxos[op := u], entries, WithCoin(g, op, u))
  {
    hide JournalOk;
    OthersKept(entries, g, WithCoin(g, op, u), u);
  }

  lemma AddKeepsSpent(entry: UndoEntry, d: map<OutPoint, Utxo>, v: map<OutPoint, Coin>, g: Shadow,
                      op: OutPoint, u: Utxo)
    requires SpentOk(entry, d, v, g.cells) && u !in g.cells
    ensures SpentOk(entry, d, v, WithCoin(g, op, u).cells)
  {
  }

  ghost function WithSpent(g: Shadow, op: OutPoint, u: Utxo, undo: UndoEntry): Shadow
    requires u in g.cells && op in g.coins
  {
    g.(coins := g.coins - {op}, cells := g.cells[u := g.cells[u].(place := Spent(undo, op))],
       draft := g.draft.(destroyed := g.draft.destroyed[op := g.coins[op]]))
  }

  lemma SameDomain(utxos: map<OutPoint, Utxo>, entries: map<int, UndoEntry>, g: Shadow)
    requires Sound(utxos, entries, g)
    ensures utxos.Keys == g.coins.Keys
  {
  }

  lemma SpendLive(utxos: map<OutPoint, Utxo>, g: Shadow, op: OutPoint, undo: UndoEntry)
    requires LiveOk(utxos, g.coins, g.cells) && op in utxos
    ensures utxos[op] in g.cells && op in g.coins
    ensures var g2 := WithSpent(g, op, utxos[op], undo); LiveOk(utxos - {op}, g2.coins, g2.cells)
  {
  }

  lemma SpendHeld(utxos: map<OutPoint, Utxo>, g: Shadow, op: OutPoint, undo: UndoEntry, d: map<OutPoint, Utxo>)
    requires LiveOk(utxos, g.coins, g.cells) && op in utxos
    requires SpentOk(undo, d, g.draft.destroyed, g.cells)
    ensures utxos[op] in g.cells && op in g.coins
    ensures var g2 := WithSpent(g, op, utxos[op], undo);
            SpentOk(undo, d[op := utxos[op]], g2.draft.destroyed, g2.cells)
  {
  }

  /** Moving a record to the undo entry under construction keeps its lock. */
  lemma SpendSound(utxos: map<OutPoint, Utxo>, entries: map<int, UndoEntry>, g: Shadow, op: OutPoint, undo: UndoEntry,
                   d: map<OutPoint, Utxo>)
    requires Sound(utxos, entries, g) && op in utxos
    requires SpentOk(undo, d, g.draft.destroyed, g.cells)
    ensures utxos[op] in g.cells && op in g.coins
    ensures Sound(utxos - {op}, entries, WithSpent(g, op, utxos[op], undo))
    ensures SpentOk(undo, d[op := utxos[op]], WithSpent(g, op, utxos[op], undo).draft.destroyed,
          WithSpent(g, op, utxos[op], undo).cells)
  {
    hide JournalOk, LiveOk, SpentOk;
    InUse(utxos, entries, g, op);
    var g2 := WithSpent(g, op, utxos[op], undo);
    OthersKept(entries, g, g2, utxos[op]);
    SpendLive(utxos, g, op, undo);
    SpendHeld(utxos, g, op, undo, d);
  }

  lemma RecordSound(utxos: map<OutPoint, Utxo>, entries: map<int, UndoEntry>, g: Shadow, h: int, undo: UndoEntry,
                    d: map<OutPoint, Utxo>)
    requires Sound(utxos, entries, g) && SpentOk(undo, d, g.draft.destroyed, g.cells)
    requires forall k :: k in entries ==> entries[k] != undo
    ensures Sound(utxos, entries[h := undo], g.(journal := g.journal[h := g.draft], held := g.held[h := d]))
  {
  }

  lemma TakeSound(utxos: map<OutPoint, Utxo>, entries: map<int, UndoEntry>, g: Shadow, h: int)
    requires Sound(utxos, entries, g) && h in entries
    ensures Sound(utxos, entries - {h}, g.(journal := g.journal - {h}, held := g.held - {h}))
    ensures SpentOk(entries[h], g.held[h], g.journal[h].destroyed, g.cells)
    ensures forall k :: k in entries - {h} ==> entries[k] != entries[h]
  {
  }

  lemma RemoveSound(utxos: map<OutPoint, Utxo>, entries: map<int, UndoEntry>, g: Shadow, op: OutPoint)
    requires Sound(utxos, entries, g)
    ensures Sound(utxos - {op}, entries, g.(coins := g.coins - {op}))
  {
  }

  ghost function WithLive(g: Shadow, op: OutPoint, u: Utxo): Shadow
    requires u in g.cells
  {
    g.(coins := g.coins[op := u.AsCoin(g.cells[u].locked)], cells := g.cells[u := g.cells[u].(place := Live(op))])
  }

  lemma RestoreLive(utxos: map<OutPoint, Utxo>, g: Shadow, op: OutPoint, undo: UndoEntry,
                    d: map<OutPoint, Utxo>, v: map<OutPoint, Coin>)
    requires LiveOk(utxos, g.coins, g.cells) && SpentOk(undo, d, v, g.cells) && op in d
    ensures d[op] in g.cells && g.cells[d[op]].place == Spent(undo, op)
    ensures v[op] == d[op].AsCoin(g.cells[d[op]].locked)
    ensures var g2 := WithLive(g, op, d[op]);
            LiveOk(utxos[op := d[op]], g2.coins, g2.cells) && SpentOk(undo, d - {op}, v - {op}, g2.cells)
  {
  }

  /** A record coming back from an undo entry comes back with its lock. */
  lemma RestoreSound(utxos: map<OutPoint, Utxo>, entries: map<int, UndoEntry>, g: Shadow, op: OutPoint, undo: UndoEntry,
                     d: map<OutPoint, Utxo>, v: map<OutPoint, Coin>)
    requires Sound(utxos, entries, g) && SpentOk(undo, d, v, g.cells) && op in d
    requires forall k :: k in entries ==> entries[k] != undo
    ensures d[op] in g.cells && v[op] == d[op].AsCoin(g.cells[d[op]].locked)
    ensures Sound(utxos[op := d[op]], entries, WithLive(g, op, d[op]))
    ensures SpentOk(undo, d - {op}, v - {op}, WithLive(g, op, d[op]).cells)
  {
    hide JournalOk, LiveOk, SpentOk;
    RestoreLive(utxos, g, op, undo, d, v);
    OthersKept(entries, g, WithLive(g, op, d[op]), d[op]);
  }

  ghost function WithLock(g: Shadow, op: OutPoint, u: Utxo, locked: bool): Shadow
    requires u in g.cells && op in g.coins
  {
    g.(coins := g.coins[op := g.coins[op].(isLocked := locked)], cells := g.cells[u := g.cells[u].(locked := locked)])
  }

  /** Locking a record in the map touches that coin and nothing in the journal. */
  lemma LockSound(utxos: map<OutPoint, Utxo>, entries: map<int, UndoEntry>, g: Shadow, op: OutPoint, locked: bool)
    requires Sound(utxos, entries, g) && op in utxos
    ensures utxos[op] in g.cells && op in g.coins
    ensures Sound(utxos, entries, WithLock(g, op, utxos[op], locked))
  {
    hide JournalOk;
    InUse(utxos, entries, g, op);
    OthersKept(entries, g, WithLock(g, op, utxos[op], locked), utxos[op]);
  }

  lemma Overwrite<K, V>(m: map<K, V>, n: map<K, V>, k: K, v: V, w: V)
    requires n == m || n == m[k := v]
    ensures n[k := w] == m[k := w]
  {
  }

  lemma RemoveNext(m: map<OutPoint, Coin>, ops: seq<OutPoint>, i: nat)
    requires i < |ops|
    ensures m - Elements(ops[..i]) - {ops[i]} == m - Elements(ops[..i + 1])
  {
    assert ops[..i + 1] == ops[..i] + [ops[i]];
  }

  ghost function Only<K, V>(m: map<K, V>, s: set<K>): map<K, V> {
    map k | k in m && k in s :: m[k]
  }

  lemma RestoreNext<K, V>(m: map<K, V>, d: map<K, V>, s: set<K>, k: K)
    requires k in d
    ensures (m + Only(d, s))[k := d[k]] == m + Only(d, s + {k})
  {
  }

  lemma NextElement<K>(order: seq<K>, i: nat)
    requires i < |order| && forall j, k :: 0 <= j < k < |order| ==> order[j] != order[k]
    ensures Elements(order[..i + 1]) == Elements(order[..i]) + {order[i]} && order[i] !in Elements(order[..i])
  {
    assert order[..i + 1] == order[..i] + [order[i]];
  }

  lemma OnlyAll<K, V>(m: map<K, V>, s: set<K>)
    requires m.Keys <= s
    ensures Only(m, s) == m
  {
  }

  /** The order in which one loop over a map visits its keys; any is possible. */
  method VisitOrder<K(==), V>(m: map<K, V>) returns (order: seq<K>)
    ensures forall k :: k in order <==> k in m
    ensures forall i, j :: 0 <= i < j < |order| ==> order[i] != order[j]
  {
    var remaining := m.Keys;
    order := [];
    while remaining != {}
      invariant forall k :: k in m <==> k in order || k in remaining
      invariant forall k :: k in order ==> k !in remaining
      invariant forall i, j :: 0 <= i < j < |order| ==> order[i] != order[j]
      decreases remaining
    {
      var k :| k in remaining;
      remaining, order := remaining - {k}, order + [k];
    }
  }

  /** How many of the first `n` keys visited hold an address the script pays. */
  ghost function Hits(addrs: map<nat, Bytes>, script: Bytes, order: seq<nat>, n: nat): nat
    requires n <= |order|
  {
    if n == 0 then 0 else Hits(addrs, script, order, n - 1) + (if order[n - 1] in Matches(addrs, script) then 1 else 0)
  }

  lemma {:induction false} HitsAre(addrs: map<nat, Bytes>, script: Bytes, order: seq<nat>,
          n: nat) returns (hits: set<nat>)
    requires n <= |order| && forall i, j :: 0 <= i < j < |order| ==> order[i] != order[j]
    ensures |hits| == Hits(addrs, script, order, n)
    ensures forall k :: k in hits ==> k in Matches(addrs, script) && exists i :: 0 <= i < n && order[i] == k
    ensures forall i :: 0 <= i < n && order[i] in Matches(addrs, script) ==> order[i] in hits
  {
    hits := {};
    if n > 0 {
      hits := HitsAre(addrs, script, order, n - 1);
      assert order[n - 1] !in hits;
      if order[n - 1] in Matches(addrs, script) {
        hits := hits + {order[n - 1]};
      }
    }
  }

  lemma AllHits(addrs: map<nat, Bytes>, script: Bytes, order: seq<nat>)
    requires forall k :: k in order <==> k in addrs
    requires forall i, j :: 0 <= i < j < |order| ==> order[i] != order[j]
    ensures Hits(addrs, script, order, |order|) == |Matches(addrs, script)|
  {
    var hits := HitsAre(addrs, script, order, |order|);
    forall k | k in Matches(addrs, script) ensures k in hits {
      assert k in order;
    }
    assert hits == Matches(addrs, script);
  }

  /** Evaluating a block's first transactions looks at the picks for their own outputs only. */
  lemma {:induction false} OutputsUsePicks(bk: Book, b: Block, b2: Block, p: nat, n: nat)
    requires b2 == b.(picks := b2.picks) && p < |b.txs| && n <= |b.txs[p].outputs|
    requires forall i: nat :: i < n ==> Get(b.picks, (p, i)) == Get(b2.picks, (p, i))
    ensures EvalOutputs(bk, b, p, n) == EvalOutputs(bk, b2, p, n)
  {
    if n > 0 {
      OutputsUsePicks(bk, b, b2, p, n - 1);
      assert Get(b.picks, (p, n - 1)) == Get(b2.picks, (p, n - 1));
      assert Pays(b, p, n - 1) == Pays(b2, p, n - 1);
      assert CoinAt(b, p, n - 1) == CoinAt(b2, p, n - 1);
    }
  }

  lemma {:induction false} TxsUsePicks(bk: Book, b: Block, b2: Block, n: nat)
    requires b2 == b.(picks := b2.picks) && n <= |b.txs|
    requires forall p: nat, i: nat :: p < n ==> Get(b.picks, (p, i)) == Get(b2.picks, (p, i))
    ensures EvalTxs(bk, b, n) == EvalTxs(bk, b2, n)
  {
    if n > 0 {
      TxsUsePicks(bk, b, b2, n - 1);
      OutputsUsePicks(EvalTxs(bk, b, n - 1), b, b2, n - 1, |b.txs[n - 1].outputs|);
    }
  }

  // ----- scanning coins, signing, locking -----

  lemma TotalPush(m: map<OutPoint, Coin>, ops: seq<OutPoint>, op: OutPoint)
    requires op in m && forall x :: x in ops ==> x in m
    ensures Total(m, ops + [op]) == Total(m, ops) + m[op].value
  {
    assert (ops + [op])[..|ops|] == ops;
  }

  lemma CandidatesStep(w: Wallet, order: seq<OutPoint>, i: nat)
    requires i < |order|
    ensures Candidates(w, order, i + 1) ==
            if Spendable(w, order[i]) then Candidates(w, order, i) + [order[i]] else Candidates(w, order, i)
  {
    assert Candidates(w, order, i) + [] == Candidates(w, order, i);
  }

  lemma UnsignedPush(m: map<OutPoint, Coin>, ops: seq<OutPoint>, op: OutPoint)
    requires op in m && forall x :: x in ops ==> x in m
    ensures Unsigned(m, ops + [op]) == Unsigned(m, ops) + [TxIn(op, m[op].value, [])]
  {
  }

  /** No nonempty choice of up to `n` of the candidates, taken in order, covers. */
  ghost predicate NoneCovers(env: Env, w: Wallet, cands: seq<OutPoint>, n: nat, outputs: seq<TxOut>, feeRate: int)
    requires n <= |cands| && forall op :: op in cands ==> op in w.utxos
  {
    forall j: nat :: 1 <= j <= n ==> !Covers(env, w, cands, j, outputs, feeRate)
  }

  lemma NothingYet(env: Env, w: Wallet, order: seq<OutPoint>, outputs: seq<TxOut>, feeRate: int)
    ensures Candidates(w, order, 0) == [] && Total(w.utxos, []) == 0
    ensures NoneCovers(env, w, [], 0, outputs, feeRate)
  {
  }

  lemma NothingChosen(env: Env, w: Wallet, outputs: seq<TxOut>, feeRate: int, order: seq<OutPoint>)
    requires var c := Candidates(w, order, |order|); NoneCovers(env, w, c, |c|, outputs, feeRate)
    ensures Chosen(env, w, outputs, feeRate, order) == None
  {
  }

  lemma NoneCoversPush(env: Env, w: Wallet, cands: seq<OutPoint>, op: OutPoint, outputs: seq<TxOut>, feeRate: int)
    requires op in w.utxos && forall x :: x in cands ==> x in w.utxos
    requires NoneCovers(env, w, cands, |cands|, outputs, feeRate)
    requires Total(w.utxos, cands + [op]) - ReqFee(env, |cands| + 1, outputs, feeRate) < Sum(outputs)
    ensures NoneCovers(env, w, cands + [op], |cands| + 1, outputs, feeRate)
  {
    var more := cands + [op];
    forall j: nat | 1 <= j <= |more| ensures !Covers(env, w, more, j, outputs, feeRate) {
      if j < |more| {
        assert more[..j] == cands[..j];
        assert !Covers(env, w, cands, j, outputs, feeRate);
      } else {
        assert more[..j] == more;
      }
    }
  }

  lemma {:induction false} CandidatesPrefix(w: Wallet, order: seq<OutPoint>, i: nat, n: nat)
    requires i <= n <= |order|
    ensures Candidates(w, order, i) <= Candidates(w, order, n)
  {
    if i < n {
      CandidatesPrefix(w, order, i, n - 1);
    }
  }

  /** The scan stops at the first candidate that makes the choice cover. */
  lemma ChosenHere(env: Env, w: Wallet, outputs: seq<TxOut>, feeRate: int, order: seq<OutPoint>, i: nat)
    requires 1 <= i <= |order| && Spendable(w, order[i - 1])
    requires NoneCovers(env, w, Candidates(w, order, i - 1), |Candidates(w, order, i - 1)|, outputs, feeRate)
    requires var c := Candidates(w, order, i); Total(w.utxos, c) - ReqFee(env, |c|, outputs, feeRate) >= Sum(outputs)
    ensures Chosen(env, w, outputs, feeRate, order) == Some(Candidates(w, order, i))
  {
    hide Total, ReqFee, Sum, CanSpend, Candidates, Choose;
    CandidatesStep(w, order, i - 1);
    var before, c, all := Candidates(w, order, i - 1), Candidates(w, order, i), Candidates(w, order, |order|);
    CandidatesPrefix(w, order, i, |order|);
    assert all[..|c|] == c;
    assert Covers(env, w, all, |c|, outputs, feeRate);
    forall j: nat | 1 <= j < |c| ensures !Covers(env, w, all, j, outputs, feeRate) {
      assert all[..j] == before[..j];
      assert !Covers(env, w, before, j, outputs, feeRate);
    }
  }

  lemma {:induction false} SignFails(env: Env, m: map<OutPoint, Coin>, tx: SpendTx, i: nat, n: nat)
    requires i <= n <= |tx.inputs| && forall k :: 0 <= k < |tx.inputs| ==> tx.inputs[k].prev in m
    requires SignFirst(env, m, tx, i).None?
    ensures SignFirst(env, m, tx, n).None?
  {
    if i < n {
      SignFails(env, m, tx, i, n - 1);
    }
  }

  lemma LocksPush(m: map<OutPoint, Coin>, inputs: seq<TxIn>, i: nat, locked: bool)
    requires i < |inputs|
    ensures var op, sofar, now := inputs[i].prev, SetLocks(m, Prevs(inputs[..i]), locked),
          SetLocks(m, Prevs(inputs[..i + 1]), locked);
            now == if op in m then sofar[op := sofar[op].(isLocked := locked)] else sofar
  {
    assert inputs[..i + 1] == inputs[..i] + [inputs[i]];
    assert Prevs(inputs[..i + 1]) == Prevs(inputs[..i]) + {inputs[i].prev};
  }

  class MemWallet {
    const env: Env
    var hdIndex: nat
    var currentHeight: int
    var addrs: map<nat, Bytes>
    var utxos: map<OutPoint, Utxo>
    var reorgJournal: map<int, UndoEntry>
    var chainUpdates: seq<Update>
    ghost var g: Shadow

    /** The wallet as a value. */
    ghost function State(): Wallet
      reads this
    {
      Wallet(currentHeight, hdIndex, addrs, g.coins, g.journal)
    }

    /** The objects agree with the shadow. */
    ghost predicate Tied()
      reads this`reorgJournal, this`g, reorgJournal.Values, g.cells.Keys
    {
      && (forall u :: u in g.cells ==> u.isLocked == g.cells[u].locked)
      && (forall h :: h in reorgJournal ==>
            && h in g.held && reorgJournal[h].utxosDestroyed == g.held[h]
            && h in g.journal && reorgJournal[h].utxosCreated == g.journal[h].created)
    }

    ghost predicate Valid()
      reads this, reorgJournal.Values, g.cells.Keys
    {
      hdIndex < UINT32_LIMIT && Sound(utxos, reorgJournal, g) && Tied()
    }

    /** As `Valid`, with one more undo entry under construction. */
    ghost predicate ValidWith(undo: UndoEntry)
      reads this, reorgJournal.Values, g.cells.Keys, undo
    {
      && Valid()
      && (forall h :: h in reorgJournal ==> reorgJournal[h] != undo)
      && SpentOk(undo, undo.utxosDestroyed, g.draft.destroyed, g.cells)
      && undo.utxosCreated == g.draft.created
    }

    constructor (env: Env)
      requires env.derive(0).Some?
      ensures this.env == env && Valid() && chainUpdates == []
      ensures State() == Wallet(0, 1, map[0 := env.derive(0).value], map[], map[])
    {
      this.env := env;
      hdIndex, currentHeight := 1, 0;
      addrs := map[0 := env.derive(0).value];
      utxos, reorgJournal, chainUpdates := map[], map[], [];
      g := Shadow(map[], NO_UNDO, map[], map[], map[]);
    }

    method IngestBlock(height: int, txs: seq<Tx>)
      modifies this`chainUpdates
      ensures chainUpdates == old(chainUpdates) + [Update(height, txs)]
    {
      chainUpdates := chainUpdates + [Update(height, txs)];
    }

    // ----- connecting -----

    ghost function NewCoin(output: TxOut, isCoinbase: bool, keyIndex: nat): Coin
      reads this`currentHeight
    {
      Coin(output.value, output.pkScript, if isCoinbase then currentHeight + env.coinbaseMaturity else 0,
           keyIndex, false)
    }

    /** Files one output under one key it pays. */
    method AddCoin(output: TxOut, op: OutPoint, isCoinbase: bool, keyIndex: nat, undo: UndoEntry)
      requires ValidWith(undo)
      modifies this`utxos, this`g, undo`utxosCreated
      ensures ValidWith(undo)
      ensures g.coins == old(g.coins)[op := NewCoin(output, isCoinbase, keyIndex)] && g.journal == old(g.journal)
      ensures g.draft == old(g.draft).(created := old(g.draft.created) + [op])
    {
      hide JournalOk, LiveOk;
      var maturityHeight := 0;
      if isCoinbase {
        maturityHeight := currentHeight + env.coinbaseMaturity;
      }
      var coin := new Utxo(output.pkScript, output.value, maturityHeight, keyIndex);
      AddSound(utxos, reorgJournal, g, op, coin);
      AddKeepsSpent(undo, undo.utxosDestroyed, g.draft.destroyed, g, op, coin);
      g := WithCoin(g, op, coin);
      utxos := utxos[op := coin];
      undo.utxosCreated := undo.utxosCreated + [op];
    }

    method EvalOutput(output: TxOut, op: OutPoint, isCoinbase: bool, undo: UndoEntry) returns (ghost pick: nat)
      requires ValidWith(undo)
      modifies this`utxos, this`g, undo`utxosCreated
      ensures ValidWith(undo) && g.journal == old(g.journal)
      ensures Matches(addrs, output.pkScript) == {} ==> g.coins == old(g.coins) && g.draft == old(g.draft)
      ensures Matches(addrs, output.pkScript) != {} ==>
                && pick in Matches(addrs, output.pkScript)
                && g.coins == old(g.coins)[op := NewCoin(output, isCoinbase, pick)]
                && g.draft == old(g.draft).(created := Appended(old(g.draft.created), op,
                      |Matches(addrs, output.pkScript)|))
    {
      var order := VisitOrder(addrs);
      pick := 0;
      for i := 0 to |order|
        invariant ValidWith(undo) && g.journal == old(g.journal) && g.draft.destroyed == old(g.draft.destroyed)
        invariant g.draft.created == Appended(old(g.draft.created), op, Hits(addrs, output.pkScript, order, i))
        invariant Hits(addrs, output.pkScript, order, i) == 0 ==> g.coins == old(g.coins)
        invariant Hits(addrs, output.pkScript, order, i) > 0 ==>
                    pick in Matches(addrs, output.pkScript) && g.coins
                          == old(g.coins)[op := NewCoin(output, isCoinbase, pick)]
      {
        if Contains(output.pkScript, addrs[order[i]]) {
          ghost var before := g.coins;
          AddCoin(output, op, isCoinbase, order[i], undo);
          Overwrite(old(g.coins), before, op, NewCoin(output, isCoinbase, pick), NewCoin(output, isCoinbase, order[i]));
          pick := order[i];
        }
      }
      AllHits(addrs, output.pkScript, order);
    }

    /** Every paying output of transaction `p` up to `n` is filed under a key it pays. */
    ghost predicate PickedOk(b: Block, p: nat, n: nat, picks: map<(nat, nat), nat>)
      requires p < |b.txs| && n <= |b.txs[p].outputs|
    {
      forall i: nat :: i < n && Pays(b, p, i) ==>
        (p, i) in picks && picks[(p, i)] in Matches(b.addrs, b.txs[p].outputs[i].pkScript)
    }

    /** One output filed under the key picked is one step of the specification with that pick. */
    lemma OutputPicked(start: Book, b: Block, picks: map<(nat, nat), nat>, p: nat, i: nat, pick: nat,
                       before: Book, after: Book)
      requires p < |b.txs| && i < |b.txs[p].outputs| && PickedOk(b, p, i, picks)
      requires before == Ledger.EvalOutputs(start, b.(picks := picks), p, i)
      requires var keys, op := Matches(b.addrs, b.txs[p].outputs[i].pkScript), OpOf(b.txs[p], i);
               if keys == {} then after == before
               else
                 && pick in keys
                 && after.utxos == before.utxos[op := CoinAt(b.(picks := picks[(p, i) := pick]), p, i)]
                 && after.undo == before.undo.(created := Appended(before.undo.created, op, |keys|))
      ensures PickedOk(b, p, i + 1, picks[(p, i) := pick])
      ensures after == Ledger.EvalOutputs(start, b.(picks := picks[(p, i) := pick]), p, i + 1)
    {
      hide Matches;
      var more := picks[(p, i) := pick];
      OutputsUsePicks(start, b.(picks := picks), b.(picks := more), p, i);
      assert Pays(b, p, i) == Pays(b.(picks := more), p, i);
    }

    method EvalOutputs(ghost b: Block, ghost p: nat, outputs: seq<TxOut>, txHash: Hash, isCoinbase: bool,
                       undo: UndoEntry)
      returns (ghost picks: map<(nat, nat), nat>)
      requires p < |b.txs| && outputs == b.txs[p].outputs
      requires txHash == b.txs[p].hash && isCoinbase == b.txs[p].isCoinbase
      requires b.addrs == addrs && b.maturesAt == currentHeight + env.coinbaseMaturity
      requires ValidWith(undo)
      modifies this`utxos, this`g, undo`utxosCreated
      ensures ValidWith(undo) && g.journal == old(g.journal)
      ensures PickedOk(b, p, |outputs|, picks)
      ensures forall q: nat, i: nat :: q != p ==> Get(picks, (q, i)) == Get(b.picks, (q, i))
      ensures Book(g.coins, g.draft) ==
              Ledger.EvalOutputs(old(Book(g.coins, g.draft)), b.(picks := picks), p, |outputs|)
    {
      hide Sound, Tied, SpentOk, Matches, PickedOk;
      NonePicked(b, p);
      picks := b.picks;
      ghost var start := Book(g.coins, g.draft);
      for i := 0 to |outputs|
        invariant ValidWith(undo) && g.journal == old(g.journal)
        invariant PickedOk(b, p, i, picks)
        invariant forall q: nat, k: nat :: q != p ==> Get(picks, (q, k)) == Get(b.picks, (q, k))
        invariant Book(g.coins, g.draft) == Ledger.EvalOutputs(start, b.(picks := picks), p, i)
      {
        ghost var before := Book(g.coins, g.draft);
        ghost var pick := EvalOutput(outputs[i], OutPoint(txHash, i, REGULAR_TREE), isCoinbase, undo);
        OutputPicked(start, b, picks, p, i, pick, before, Book(g.coins, g.draft));
        picks := picks[(p, i) := pick];
      }
    }

    lemma NonePicked(b: Block, p: nat)
      requires p < |b.txs|
      ensures PickedOk(b, p, 0, b.picks)
    {
    }

    method EvalInput(op: OutPoint, undo: UndoEntry)
      requires ValidWith(undo)
      modifies this`utxos, this`g, undo`utxosDestroyed
      ensures ValidWith(undo) && g.journal == old(g.journal)
      ensures Book(g.coins, g.draft) == Ledger.EvalInput(old(Book(g.coins, g.draft)), op)
    {
      hide JournalOk, LiveOk, SpentOk;
      SameDomain(utxos, reorgJournal, g);
      if op !in utxos {
        return;
      }
      var oldUtxo := utxos[op];
      SpendSound(utxos, reorgJournal, g, op, undo, undo.utxosDestroyed);
      g := WithSpent(g, op, oldUtxo, undo);
      undo.utxosDestroyed := undo.utxosDestroyed[op := oldUtxo];
      utxos := utxos - {op};
    }

    method EvalInputs(inputs: seq<OutPoint>, undo: UndoEntry)
      requires ValidWith(undo)
      modifies this`utxos, this`g, undo`utxosDestroyed
      ensures ValidWith(undo) && g.journal == old(g.journal)
      ensures Book(g.coins, g.draft) == Ledger.EvalInputs(old(Book(g.coins, g.draft)), inputs, |inputs|)
    {
      ghost var start := Book(g.coins, g.draft);
      for i := 0 to |inputs|
        invariant ValidWith(undo) && g.journal == old(g.journal)
        invariant Book(g.coins, g.draft) == Ledger.EvalInputs(start, inputs, i)
      {
        EvalInput(inputs[i], undo);
      }
    }

    /** Evaluates the transactions of a block in order, outputs before inputs. */
    method EvalTxs(ghost b: Block, txs: seq<Tx>, undo: UndoEntry) returns (ghost picks: map<(nat, nat), nat>)
      requires b.txs == txs && b.addrs == addrs && b.maturesAt == currentHeight + env.coinbaseMaturity
      requires ValidWith(undo)
      modifies this`utxos, this`g, undo
      ensures ValidWith(undo) && g.journal == old(g.journal)
      ensures PicksOk(b.(picks := picks))
      ensures Book(g.coins, g.draft) == Ledger.EvalTxs(old(Book(g.coins, g.draft)), b.(picks := picks), |txs|)
    {
      hide Sound, Tied, SpentOk;
      picks := map[];
      ghost var start := Book(g.coins, g.draft);
      for p := 0 to |txs|
        invariant ValidWith(undo) && g.journal == old(g.journal)
        invariant forall q: nat :: q < p ==> PickedOk(b, q, |txs[q].outputs|, picks)
        invariant Book(g.coins, g.draft) == Ledger.EvalTxs(start, b.(picks := picks), p)
      {
        var tx := txs[p];
        ghost var more := EvalOutputs(b.(picks := picks), p, tx.outputs, tx.hash, tx.isCoinbase, undo);
        EvalInputs(tx.inputs, undo);
        TxsUsePicks(start, b.(picks := picks), b.(picks := more), p);
        PicksKept(b, picks, more, p);
        picks := more;
      }
      AllPicked(b, picks);
    }

    lemma PicksKept(b: Block, picks: map<(nat, nat), nat>, more: map<(nat, nat), nat>, p: nat)
      requires p < |b.txs| && PickedOk(b.(picks := picks), p, |b.txs[p].outputs|, more)
      requires forall q: nat, i: nat :: q != p ==> Get(more, (q, i)) == Get(picks, (q, i))
      requires forall q: nat :: q < p ==> PickedOk(b, q, |b.txs[q].outputs|, picks)
      ensures forall q: nat :: q <= p ==> PickedOk(b, q, |b.txs[q].outputs|, more)
    {
      forall q: nat | q <= p ensures PickedOk(b, q, |b.txs[q].outputs|, more) {
        forall i: nat | i < |b.txs[q].outputs| && Pays(b, q, i)
          ensures (q, i) in more && more[(q, i)] in Matches(b.addrs, b.txs[q].outputs[i].pkScript)
        {
          if q == p {
            assert Pays(b.(picks := picks), p, i);
          } else {
            assert PickedOk(b, q, |b.txs[q].outputs|, picks);
            assert Get(more, (q, i)) == Get(picks, (q, i));
          }
        }
      }
    }

    lemma AllPicked(b: Block, picks: map<(nat, nat), nat>)
      requires forall q: nat :: q < |b.txs| ==> PickedOk(b, q, |b.txs[q].outputs|, picks)
      ensures PicksOk(b.(picks := picks))
    {
      forall p: nat, i: nat | p < |b.txs| && i < |b.txs[p].outputs| && Pays(b.(picks := picks), p, i)
        ensures (p, i) in picks && picks[(p, i)] in Matches(b.addrs, b.txs[p].outputs[i].pkScript)
      {
        assert PickedOk(b, p, |b.txs[p].outputs|, picks);
        assert Pays(b, p, i);
      }
    }

    method Record(height: int, undo: UndoEntry)
      requires ValidWith(undo)
      modifies this`reorgJournal, this`g
      ensures Valid() && g.coins == old(g.coins) && g.journal == old(g.journal)[height := old(g.draft)]
    {
      RecordSound(utxos, reorgJournal, g, height, undo, undo.utxosDestroyed);
      reorgJournal := reorgJournal[height := undo];
      g := g.(journal := g.journal[height := g.draft], held := g.held[height := undo.utxosDestroyed]);
    }

    method NewUndo() returns (undo: UndoEntry)
      requires Valid()
      modifies this`g
      ensures fresh(undo) && ValidWith(undo) && g == old(g).(draft := NO_UNDO)
    {
      undo := new UndoEntry();
      g := g.(draft := NO_UNDO);
    }

    /** Applies an update: the height, then the coins, then the undo entry. */
    method Process(update: Update) returns (ghost picks: map<(nat, nat), nat>)
      requires Valid()
      modifies this`currentHeight, this`utxos, this`g, this`reorgJournal
      ensures Valid()
      ensures var b := BlockAt(env, old(State()), update.height, update.txs, picks);
              PicksOk(b) && State() == Connect(old(State()), b)
    {
      hide Sound, SpentOk, PicksOk;
      currentHeight := update.height;
      var undo := NewUndo();
      ghost var b := BlockAt(env, old(State()), update.height, update.txs, map[]);
      picks := EvalTxs(b, update.txs, undo);
      Record(update.height, undo);
    }

    /** One round of `chainSyncer` after a signal: pops the oldest update and applies it. */
    method SyncNext() returns (ghost picks: map<(nat, nat), nat>)
      requires Valid() && chainUpdates != []
      modifies this`chainUpdates, this`currentHeight, this`utxos, this`g, this`reorgJournal
      ensures Valid() && chainUpdates == old(chainUpdates)[1..]
      ensures var u := old(chainUpdates)[0];
              var b := BlockAt(env, old(State()), u.height, u.txs, picks);
              PicksOk(b) && State() == Connect(old(State()), b)
    {
      var update := chainUpdates[0];
      chainUpdates := chainUpdates[1..];
      picks := Process(update);
    }

    // ----- disconnecting -----

    method RemoveOne(op: OutPoint, undo: UndoEntry)
      requires ValidWith(undo)
      modifies this`utxos, this`g
      ensures ValidWith(undo) && g == old(g).(coins := old(g.coins) - {op})
    {
      hide JournalOk, LiveOk;
      RemoveSound(utxos, reorgJournal, g, op);
      utxos := utxos - {op};
      g := g.(coins := g.coins - {op});
    }

    method RemoveAll(undo: UndoEntry)
      requires ValidWith(undo)
      modifies this`utxos, this`g
      ensures ValidWith(undo) && g == old(g).(coins := old(g.coins) - Elements(undo.utxosCreated))
    {
      for i := 0 to |undo.utxosCreated|
        invariant ValidWith(undo) && g == old(g).(coins := old(g.coins) - Elements(undo.utxosCreated[..i]))
      {
        RemoveOne(undo.utxosCreated[i], undo);
        RemoveNext(old(g.coins), undo.utxosCreated, i);
      }
      assert undo.utxosCreated[..|undo.utxosCreated|] == undo.utxosCreated;
    }

    /** The records of `undo` not in `back` are still to be restored. */
    ghost predicate Restoring(undo: UndoEntry, back: set<OutPoint>)
      reads this, reorgJournal.Values, g.cells.Keys, undo
    {
      && Valid()
      && (forall h :: h in reorgJournal ==> reorgJournal[h] != undo)
      && SpentOk(undo, undo.utxosDestroyed - back, g.draft.destroyed - back, g.cells)
    }

    method RestoreOne(op: OutPoint, undo: UndoEntry, ghost back: set<OutPoint>)
      requires Restoring(undo, back) && op in undo.utxosDestroyed && op !in back && op in g.draft.destroyed
      modifies this`utxos, this`g
      ensures Restoring(undo, back + {op})
      ensures g.journal == old(g.journal) && g.draft == old(g.draft)
      ensures g.coins == old(g.coins)[op := old(g.draft.destroyed[op])]
    {
      hide JournalOk, LiveOk, SpentOk;
      RestoreSound(utxos, reorgJournal, g, op, undo, undo.utxosDestroyed - back, g.draft.destroyed - back);
      assert undo.utxosDestroyed - back - {op} == undo.utxosDestroyed - (back + {op});
      assert g.draft.destroyed - back - {op} == g.draft.destroyed - (back + {op});
      utxos := utxos[op := undo.utxosDestroyed[op]];
      g := WithLive(g, op, undo.utxosDestroyed[op]);
    }

    method RestoreEach(undo: UndoEntry, order: seq<OutPoint>)
      requires Restoring(undo, {}) && undo.utxosDestroyed.Keys == g.draft.destroyed.Keys
      requires forall op :: op in order ==> op in undo.utxosDestroyed
      requires forall i, j :: 0 <= i < j < |order| ==> order[i] != order[j]
      modifies this`utxos, this`g
      ensures Restoring(undo, Elements(order)) && g.journal == old(g.journal) && g.draft == old(g.draft)
      ensures g.coins == old(g.coins) + Only(g.draft.destroyed, Elements(order))
    {
      assert Elements(order[..0]) == {};
      for i := 0 to |order|
        invariant Restoring(undo, Elements(order[..i])) && g.journal == old(g.journal) && g.draft == old(g.draft)
        invariant g.coins == old(g.coins) + Only(g.draft.destroyed, Elements(order[..i]))
      {
        NextElement(order, i);
        RestoreNext(old(g.coins), g.draft.destroyed, Elements(order[..i]), order[i]);
        RestoreOne(order[i], undo, Elements(order[..i]));
      }
      assert order[..|order|] == order;
    }

    method RestoreAll(undo: UndoEntry)
      requires ValidWith(undo)
      modifies this`utxos, this`g
      ensures Valid() && g.coins == old(g.coins) + g.draft.destroyed && g.journal == old(g.journal)
      ensures g.draft == old(g.draft)
    {
      var order := VisitOrder(undo.utxosDestroyed);
      StartRestoring(undo);
      RestoreEach(undo, order);
      OnlyAll(g.draft.destroyed, Elements(order));
    }

    lemma StartRestoring(undo: UndoEntry)
      requires ValidWith(undo)
      ensures Restoring(undo, {}) && undo.utxosDestroyed.Keys == g.draft.destroyed.Keys
    {
      assert undo.utxosDestroyed - {} == undo.utxosDestroyed && g.draft.destroyed - {} == g.draft.destroyed;
    }

    lemma JournalHeights()
      requires Valid()
      ensures reorgJournal.Keys == g.journal.Keys
    {
    }

    /** Takes the undo entry of a height out of the journal. */
    method TakeEntry(height: int) returns (undo: UndoEntry)
      requires Valid() && height in reorgJournal
      modifies this`reorgJournal, this`g
      ensures ValidWith(undo) && height in old(g.journal) && height in old(reorgJournal)
      ensures undo == old(reorgJournal)[height]
      ensures g == old(g).(draft := old(g.journal[height]), journal := old(g.journal) - {height}, held := g.held)
    {
      hide LiveOk, SpentOk;
      undo := reorgJournal[height];
      TakeSound(utxos, reorgJournal, g, height);
      reorgJournal := reorgJournal - {height};
      g := g.(draft := g.journal[height], journal := g.journal - {height}, held := g.held - {height});
    }

    /** Without an undo entry for the height the source dereferences a missing entry; that is what
        `crashed` stands for. */
    method UnwindBlock(height: int) returns (crashed: bool)
      requires Valid()
      modifies this`utxos, this`g, this`reorgJournal
      ensures Valid()
      ensures crashed <==> height !in old(State()).journal
      ensures State() == Disconnect(old(State()), height)
    {
      hide Valid, ValidWith;
      JournalHeights();
      crashed := height !in reorgJournal;
      if crashed {
        return;
      }
      var undo := TakeEntry(height);
      RemoveAll(undo);
      RestoreAll(undo);
    }

    // ----- addresses and the balance -----

    method NewAddress(rpcOk: bool) returns (addr: Option<Bytes>)
      requires Valid()
      modifies this`addrs, this`hdIndex
      ensures Valid() && (State(), addr) == WalletSpec.NewAddress(env, old(State()), rpcOk)
    {
      var index := hdIndex;
      addr := env.derive(index);
      if addr == None {
        return;
      }
      if !rpcOk {
        return None;
      }
      addrs := addrs[index := addr.value];
      hdIndex := NextIndex(hdIndex);
    }

    /** The record visited, and whether a scan may use it: mature and not locked. */
    method Visit(op: OutPoint) returns (utxo: Utxo, usable: bool)
      requires Valid() && op in utxos
      ensures op in g.coins && utxo.value == g.coins[op].value && usable == Spendable(State(), op)
    {
      utxo := utxos[op];
      usable := utxo.IsMature(currentHeight) && !utxo.isLocked;
    }

    method ConfirmedBalance() returns (balance: int)
      requires Valid()
      ensures balance == Balance(State())
    {
      var order := VisitOrder(utxos);
      balance := SumSpendable(order);
      OrderOfCoins(order);
      CandidatesAll(State(), order);
    }

    method SumSpendable(order: seq<OutPoint>) returns (balance: int)
      requires Valid() && forall op :: op in order ==> op in utxos
      ensures balance == Total(g.coins, Candidates(State(), order, |order|))
    {
      hide Valid, Candidates, Total, Spendable;
      balance := 0;
      NothingYet(env, State(), order, [], 0);
      for i := 0 to |order|
        invariant balance == Total(g.coins, Candidates(State(), order, i))
      {
        assert order[i] in order;
        var utxo, usable := Visit(order[i]);
        CandidatesStep(State(), order, i);
        if !usable {
          continue;
        }
        balance := balance + utxo.value;
        TotalPush(g.coins, Candidates(State(), order, i), order[i]);
      }
    }

    lemma OrderOfCoins(order: seq<OutPoint>)
      requires Valid() && forall op :: op in order <==> op in utxos
      requires forall i, j :: 0 <= i < j < |order| ==> order[i] != order[j]
      ensures IsOrder(order, State().utxos)
    {
      assert Elements(order) == g.coins.Keys;
    }

    // ----- creating transactions -----

    method FundTx(outputs: seq<TxOut>, amt: int, feeRate: int, rpcOk: bool) returns (tx: Option<SpendTx>,
            ghost order: seq<OutPoint>)
      requires Valid() && amt == Sum(outputs)
      modifies this`addrs, this`hdIndex
      ensures Valid() && IsOrder(order, old(State()).utxos)
      ensures (State(), tx) == Fund(env, old(State()), outputs, feeRate, order, rpcOk)
    {
      var visit := VisitOrder(utxos);
      OrderOfCoins(visit);
      order := visit;
      ghost var chosen;
      var inputs, changeVal;
      inputs, changeVal, chosen := Select(outputs, amt, feeRate, visit);
      if inputs == None {
        return None, order;
      }
      tx := AddChange(chosen, inputs.value, outputs, changeVal, feeRate, rpcOk);
    }

    /** Takes spendable coins in the order visited until they cover the amount and their own fee. */
    method Select(outputs: seq<TxOut>, amt: int, feeRate: int, order: seq<OutPoint>)
      returns (inputs: Option<seq<TxIn>>, changeVal: int, ghost chosen: seq<OutPoint>)
      requires Valid() && amt == Sum(outputs) && forall op :: op in order ==> op in utxos
      ensures Chosen(env, State(), outputs, feeRate, order) == if inputs == None then None else Some(chosen)
      ensures inputs.Some? ==>
                && (forall op :: op in chosen ==> op in g.coins) && inputs.value == Unsigned(g.coins, chosen)
                && changeVal == Total(g.coins, chosen) - Sum(outputs) - ReqFee(env, |chosen|, outputs, feeRate)
    {
      hide Valid, Candidates, Total, Spendable, NoneCovers, Covers, Choose;
      ghost var w := State();
      chosen := [];
      NothingYet(env, w, order, outputs, feeRate);
      var amtSelected, txIn := 0, [];
      for i := 0 to |order|
        invariant chosen == Candidates(w, order, i)
        invariant amtSelected == Total(w.utxos, chosen) && txIn == Unsigned(w.utxos, chosen)
        invariant NoneCovers(env, w, chosen, |chosen|, outputs, feeRate)
      {
        assert order[i] in order;
        var utxo, usable := Visit(order[i]);
        CandidatesStep(w, order, i);
        if !usable {
          continue;
        }
        TotalPush(w.utxos, chosen, order[i]);
        UnsignedPush(w.utxos, chosen, order[i]);
        amtSelected := amtSelected + utxo.value;
        txIn := txIn + [TxIn(order[i], utxo.value, [])];
        var txSize := env.size(|txIn|, outputs) + SPEND_SIZE * |txIn|;
        var reqFee := txSize * feeRate;
        if amtSelected - reqFee < amt {
          NoneCoversPush(env, w, chosen, order[i], outputs, feeRate);
          chosen := chosen + [order[i]];
          continue;
        }
        chosen := chosen + [order[i]];
        ChosenHere(env, w, outputs, feeRate, order, i + 1);
        return Some(txIn), amtSelected - amt - reqFee, chosen;
      }
      inputs, changeVal := None, 0;
      NothingChosen(env, w, outputs, feeRate, order);
    }

    /** What is left over, if anything, goes to a new address. */
    method AddChange(ghost chosen: seq<OutPoint>, inputs: seq<TxIn>, outputs: seq<TxOut>, changeVal: int,
            ghost feeRate: int, rpcOk: bool)
      returns (tx: Option<SpendTx>)
      requires Valid() && (forall op :: op in chosen ==> op in g.coins) && inputs == Unsigned(g.coins, chosen)
      requires changeVal == Total(g.coins, chosen) - Sum(outputs) - ReqFee(env, |chosen|, outputs, feeRate)
      modifies this`addrs, this`hdIndex
      ensures Valid() && (State(), tx) == Assemble(env, old(State()), chosen, outputs, feeRate, rpcOk)
    {
      hide Valid, Total, Sum, ReqFee, Unsigned;
      if changeVal <= 0 {
        return Some(SpendTx(inputs, outputs));
      }
      var addr := NewAddress(rpcOk);
      if addr == None {
        return None;
      }
      tx := Some(SpendTx(inputs, outputs + [TxOut(changeVal, env.payScript(addr.value))]));
    }

    /** Sets the lock of a record in the map. */
    method SetLock(u: Utxo, ghost op: OutPoint, locked: bool)
      requires Valid() && op in utxos && utxos[op] == u
      modifies this`g, u`isLocked
      ensures Valid() && op in old(g.coins)
      ensures g == old(g).(coins := old(g.coins)[op := old(g.coins[op]).(isLocked := locked)], cells := g.cells)
    {
      hide JournalOk, LiveOk;
      LockSound(utxos, reorgJournal, g, op, locked);
      u.isLocked := locked;
      g := WithLock(g, op, u, locked);
    }

    method CreateTransaction(outputs: seq<TxOut>, feeRate: int, rpcOk: bool) returns (tx: Option<SpendTx>,
            ghost order: seq<OutPoint>)
      requires Valid()
      modifies this`addrs, this`hdIndex, this`g, utxos.Values
      ensures Valid() && IsOrder(order, old(State()).utxos)
      ensures (State(), tx) == Create(env, old(State()), outputs, feeRate, order, rpcOk)
    {
      var outputAmt := 0;
      for i := 0 to |outputs|
        invariant outputAmt == Sum(outputs[..i])
      {
        outputAmt := outputAmt + outputs[i].value;
        assert outputs[..i + 1][..i] == outputs[..i];
      }
      assert outputs[..|outputs|] == outputs;
      tx, order := FundTx(outputs, outputAmt, feeRate, rpcOk);
      if tx == None {
        return;
      }
      tx := SignAndLock(tx.value);
    }

    /** Signs every input, then locks what they spend; nothing is locked if a signature fails. */
    method SignAndLock(unsigned: SpendTx) returns (tx: Option<SpendTx>)
      requires Valid() && forall i :: 0 <= i < |unsigned.inputs| ==> unsigned.inputs[i].prev in utxos
      modifies this`g, utxos.Values
      ensures Valid() && (State(), tx) == Finish(env, old(State()), unsigned)
    {
      var scripts: seq<Bytes>, spentOutputs: seq<Utxo> := [], [];
      for i := 0 to |unsigned.inputs|
        invariant SignFirst(env, g.coins, unsigned, i) == Some(scripts)
        invariant |spentOutputs| == i && forall k :: 0 <= k < i ==> spentOutputs[k] == utxos[unsigned.inputs[k].prev]
      {
        var utxo := utxos[unsigned.inputs[i].prev];
        if env.derive(utxo.keyIndex).None? {
          SignFails(env, g.coins, unsigned, i + 1, |unsigned.inputs|);
          return None;
        }
        var sigScript := env.sign(unsigned, i, utxo.pkScript, utxo.keyIndex);
        if sigScript.None? {
          SignFails(env, g.coins, unsigned, i + 1, |unsigned.inputs|);
          return None;
        }
        scripts, spentOutputs := scripts + [sigScript.value], spentOutputs + [utxo];
      }
      LockAll(unsigned.inputs, spentOutputs);
      tx := Some(Signed(unsigned, scripts));
    }

    method LockAll(ghost inputs: seq<TxIn>, spentOutputs: seq<Utxo>)
      requires Valid() && |inputs| == |spentOutputs|
      requires forall i :: 0 <= i < |inputs| ==> inputs[i].prev in utxos && spentOutputs[i] == utxos[inputs[i].prev]
      modifies this`g, utxos.Values
      ensures Valid() && State() == old(State()).(utxos := SetLocks(old(g.coins), Prevs(inputs), true))
    {
      ghost var start := g.coins;
      for i := 0 to |spentOutputs|
        invariant Valid() && g.journal == old(g.journal)
        invariant g.coins == SetLocks(start, Prevs(inputs[..i]), true)
      {
        SetLock(spentOutputs[i], inputs[i].prev, true);
        LocksPush(start, inputs, i, true);
      }
      assert inputs[..|inputs|] == inputs;
    }

    method UnlockOutputs(inputs: seq<TxIn>)
      requires Valid()
      modifies this`g, utxos.Values
      ensures Valid() && State() == Unlock(old(State()), inputs)
    {
      ghost var start := g.coins;
      for i := 0 to |inputs|
        invariant Valid() && g.journal == old(g.journal)
        invariant g.coins == SetLocks(start, Prevs(inputs[..i]), false)
      {
        LocksPush(start, inputs, i, false);
        if inputs[i].prev !in utxos {
          continue;
        }
        SetLock(utxos[inputs[i].prev], inputs[i].prev, false);
      }
      assert inputs[..|inputs|] == inputs;
    }
  }
}
