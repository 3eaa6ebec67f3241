/** Values shared by the in-memory wallet's model: outputs, transactions, coins and undo entries. */
module WalletTypes {
  datatype Option<+T> = None | Some(value: T)

  type byte = x: int | 0 <= x < 256
  type Bytes = seq<byte>
  type Hash = nat

  const UINT32_LIMIT := 0x1_0000_0000

  // Outputs the wallet records always carry the regular tree; an input may name either tree.
  const REGULAR_TREE: int := 0

  datatype OutPoint = OutPoint(hash: Hash, index: nat, tree: int)
  datatype TxOut = TxOut(value: int, pkScript: Bytes)

  /** A transaction of a connected block. */
  datatype Tx = Tx(hash: Hash, isCoinbase: bool, outputs: seq<TxOut>, inputs: seq<OutPoint>)

  /** A block waiting to be processed by the wallet. */
  datatype Update = Update(height: int, txs: seq<Tx>)

  /** The value of a `utxo` record, lock bit included. */
  datatype Coin = Coin(value: int, pkScript: Bytes, maturityHeight: int, keyIndex: nat, isLocked: bool)

  /** The value of an undo entry. An outpoint occurs in `created` once for every address it matched. */
  datatype Undo = Undo(destroyed: map<OutPoint, Coin>, created: seq<OutPoint>)

  predicate OccursAt(s: Bytes, sub: Bytes, i: nat) {
    i + |sub| <= |s| && s[i..i + |sub|] == sub
  }

  predicate Contains(s: Bytes, sub: Bytes) {
    exists i | 0 <= i <= |s| :: OccursAt(s, sub, i)
  }

  function Elements<T(==)>(s: seq<T>): set<T> {
    set x | x in s
  }

  ghost function Get<K, V>(m: map<K, V>, k: K): Option<V> {
    if k in m then Some(m[k]) else None
  }

  /** The sequence after appending `x` so many times. */
  ghost function Appended<T>(s: seq<T>, x: T, n: nat): seq<T> {
    if n == 0 then s else Appended(s, x, n - 1) + [x]
  }

  lemma {:induction false} InAppended<T>(s: seq<T>, x: T, n: nat, y: T)
    ensures y in Appended(s, x, n) <==> y in s || (n > 0 && y == x)
  {
    if n > 0 {
      InAppended(s, x, n - 1, y);
    }
  }

  lemma SameMap<K, V>(a: map<K, V>, b: map<K, V>)
    requires forall k :: Get(a, k) == Get(b, k)
    ensures a == b
  {
    forall k ensures k in a <==> k in b {
      assert Get(a, k) == Get(b, k);
    }
    forall k | k in a ensures a[k] == b[k] {
      assert Get(a, k) == Get(b, k);
    }
  }
}
