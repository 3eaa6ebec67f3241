/** How the nonces are split over the cores, and how one solver goes through its share. */
module NonceRanges {
  import opened WalletTypes

  const START_NONCE: uint32 := 1
  const STOP_NONCE: uint32 := 0xFFFF_FFFF

  type uint32 = x: int | 0 <= x < UINT32_LIMIT

  datatype Range = Range(first: uint32, last: uint32)

  /** Outcome of one solver, as sent on the results channel. */
  datatype Result = Result(found: bool, nonce: uint32)

  // ----- unsigned 32-bit arithmetic -----

  function Wrap(x: int): uint32 {
    x % UINT32_LIMIT
  }

  function NoncesPerCore(numCores: uint32): uint32
    requires numCores > 0
  {
    (STOP_NONCE - START_NONCE) / numCores
  }

  /** The range of core `i`, every operation wrapping. The last core takes what the division leaves. */
  function RangeOf(numCores: uint32, i: uint32): Range
    requires i < numCores
  {
    var first := Wrap(START_NONCE + Wrap(NoncesPerCore(numCores) * i));
    var last := Wrap(Wrap(START_NONCE + Wrap(NoncesPerCore(numCores) * Wrap(i + 1))) - 1);
    Range(first, if i == Wrap(numCores - 1) then STOP_NONCE else last)
  }

  predicate InRange(x: uint32, r: Range) {
    r.first <= x <= r.last
  }

  lemma Monotone(per: nat, i: nat, n: nat)
    requires i <= n
    ensures per * i <= per * n
  {
  }

  lemma PerCoreBounds(numCores: uint32, i: uint32)
    requires i < numCores
    ensures var per := NoncesPerCore(numCores); 0 <= per * i <= STOP_NONCE - 1 && 0 <= per * (i + 1) <= STOP_NONCE - 1
  {
    var total := STOP_NONCE - START_NONCE;
    var per := NoncesPerCore(numCores);
    assert per * numCores <= total;
    Monotone(per, i, numCores);
    Monotone(per, i + 1, numCores);
    Monotone(per, 0, i);
    Monotone(per, 0, i + 1);
  }

  lemma WrapSmall(x: int)
    requires 0 <= x < UINT32_LIMIT
    ensures Wrap(x) == x
  {
  }

  lemma PerCoreIs(numCores: uint32)
    requires numCores > 0
    ensures NoncesPerCore(numCores) == 0xFFFF_FFFE / numCores
  {
  }

  /** No operation on the bounds overflows or goes below zero. */
  lemma BoundsExact(numCores: uint32, i: uint32)
    requires i < numCores
    ensures var per := 0xFFFF_FFFE / numCores;
            && RangeOf(numCores, i).first == 1 + per * i
            && RangeOf(numCores, i).last == (if i == numCores - 1 then 0xFFFF_FFFF else per * (i + 1))
            && 1 + per * i <= 0xFFFF_FFFF && 0 <= per * (i + 1) <= 0xFFFF_FFFE
  {
    PerCoreIs(numCores);
    hide NoncesPerCore, Wrap;
    PerCoreBounds(numCores, i);
    var per := NoncesPerCore(numCores);
    WrapSmall(i + 1);
    WrapSmall(numCores - 1);
    WrapSmall(per * i);
    WrapSmall(per * (i + 1));
    WrapSmall(1 + per * i);
    WrapSmall(1 + per * (i + 1));
    WrapSmall(1 + per * (i + 1) - 1);
  }

  /** The core whose range a nonce is in. */
  function CoreOf(numCores: uint32, x: uint32): uint32
    requires numCores > 0
  {
    var per := NoncesPerCore(numCores);
    if per == 0 || (x - 1) / per >= numCores then numCores - 1
    else if x == 0 then 0
    else (x - 1) / per
  }

  lemma QuotientAtLeast(y: nat, per: nat, k: nat)
    requires per > 0
    ensures y / per >= k <==> per * k <= y
  {
    var q := y / per;
    assert per * q <= y < per * (q + 1);
    if q < k {
      Monotone(per, q + 1, k);
    } else {
      Monotone(per, k, q);
    }
  }

  /** The ranges are disjoint and cover the nonces from 1 to the largest, no more, for any number of
      cores: a nonce is in the range of core `i` exactly if it is not 0 and `i` is its core. */
  lemma RangesPartition(numCores: uint32, x: uint32, i: uint32)
    requires i < numCores
    ensures CoreOf(numCores, x) < numCores
    ensures InRange(x, RangeOf(numCores, i)) <==> x >= 1 && i == CoreOf(numCores, x)
  {
    var per := NoncesPerCore(numCores);
    BoundsExact(numCores, i);
    if per == 0 {
    } else if x >= 1 {
      QuotientAtLeast(x - 1, per, i);
      QuotientAtLeast(x - 1, per, i + 1);
    }
  }

  // ----- starting the solvers -----

  /** The ranges handed to the solvers, one per core in order. */
  method Split(numCores: uint32) returns (ranges: seq<Range>)
    requires numCores > 0
    ensures |ranges| == numCores && forall i :: 0 <= i < numCores ==> ranges[i] == RangeOf(numCores, i)
  {
    var noncesPerCore := (STOP_NONCE - START_NONCE) / numCores;
    ranges := [];
    var i: uint32 := 0;
    while i < numCores
      invariant i <= numCores && |ranges| == i
      invariant forall k :: 0 <= k < i ==> ranges[k] == RangeOf(numCores, k)
    {
      var rangeStart := Wrap(START_NONCE + Wrap(noncesPerCore * i));
      var rangeStop := Wrap(Wrap(START_NONCE + Wrap(noncesPerCore * Wrap(i + 1))) - 1);
      if i == Wrap(numCores - 1) {
        rangeStop := STOP_NONCE;
      }
      ranges := ranges + [Range(rangeStart, rangeStop)];
      i := i + 1;
    }
  }

  // ----- one solver -----

  /** The nonces from `first` on, `n` of them. */
  ghost function From(first: int, n: nat): seq<int> {
    if n == 0 then [] else From(first, n - 1) + [first + n - 1]
  }

  lemma WrapNext(i: uint32)
    ensures Wrap(i + 1) == if i + 1 == UINT32_LIMIT then 0 else i + 1
  {
  }

  /** One solver's loop, where `quits` says of the poll before each nonce whether it finds the search
      called off. It tests the nonces of its range in order, each once, up to the first good one or the
      first poll that calls it off, and it ends even where the counter wraps past the largest nonce. */
  method Solve(r: Range, good: uint32 -> bool, quits: uint32 -> bool) returns (result: Result, ghost tested: seq<int>)
    requires r.first >= START_NONCE
    ensures tested == From(r.first, |tested|) && (|tested| == 0 || r.first + |tested| - 1 <= r.last)
    ensures forall x: uint32 :: r.first <= x < r.first + |tested| ==> !quits(x)
    ensures forall x: uint32 :: r.first <= x < r.first + |tested| - 1 ==> !good(x)
    ensures result.found ==>
              && InRange(result.nonce, r) && result.nonce == r.first + |tested| - 1 && good(result.nonce)
              && (forall x: uint32 :: r.first <= x < result.nonce ==> !good(x) && !quits(x))
    ensures !result.found ==>
              && result.nonce == 0
              && (forall x: uint32 :: r.first <= x < r.first + |tested| ==> !good(x))
              && (r.first + |tested| > r.last || quits(r.first + |tested|))
    ensures !result.found && (forall x: uint32 :: InRange(x, r) ==> !quits(x)) ==>
              forall x: uint32 :: InRange(x, r) ==> !good(x)
  {
    hide Wrap;
    tested := [];
    var i := r.first;
    while i >= r.first && i <= r.last
      invariant tested == From(r.first, |tested|)
      invariant if r.first + |tested| == UINT32_LIMIT then i == 0 else i == r.first + |tested|
      invariant |tested| == 0 || r.first + |tested| - 1 <= r.last
      invariant forall x: uint32 :: r.first <= x < r.first + |tested| ==> !quits(x) && !good(x)
      decreases UINT32_LIMIT - r.first - |tested|
    {
      if quits(i) {
        return Result(false, 0), tested;
      }
      tested := tested + [i];
      if good(i) {
        return Result(true, i), tested;
      }
      WrapNext(i);
      i := Wrap(i + 1);
    }
    result := Result(false, 0);
  }
}
