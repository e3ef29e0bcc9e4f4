/** Small types and saturating arithmetic shared by the whole project. */
module Common {

  datatype Option<+T> = None | Some(value: T)

  type byte = x: int | 0 <= x < 256

  const U32_MAX: nat := 0xFFFF_FFFF
  const U64_MAX: nat := 0xFFFF_FFFF_FFFF_FFFF

  function Min(a: nat, b: nat): nat { if a <= b then a else b }

  function Max(a: nat, b: nat): nat { if a <= b then b else a }

  /** Rust's `saturating_sub` on unsigned integers. */
  function MonusSat(a: nat, b: nat): nat { if a <= b then 0 else a - b }

  /** Rust's `saturating_add` for a type whose greatest value is `top`. */
  function AddSat(a: nat, b: nat, top: nat): nat { Min(a + b, top) }

  /** Rust's `saturating_mul` for a type whose greatest value is `top`. */
  function MulSat(a: nat, b: nat, top: nat): nat { Min(a * b, top) }

  /** The least number of batches of size `batch` that hold `n` items. */
  function CeilDiv(n: nat, batch: nat): nat
    requires batch > 0
  {
    (n + batch - 1) / batch
  }

  ghost predicate NoDuplicates<T>(s: seq<T>) {
    forall i, j :: 0 <= i < j < |s| ==> s[i] != s[j]
  }

  /** ASCII bytes of a text. */
  function Ascii(text: string): (b: seq<byte>)
    requires forall i :: 0 <= i < |text| ==> text[i] as int < 128
    ensures |b| == |text|
  {
    seq(|text|, i requires 0 <= i < |text| => text[i] as int)
  }

  /** The members of a sequence. */
  function Elements<T>(s: seq<T>): set<T> { set x | x in s }

  function Pow2(n: nat): (r: nat)
    ensures r >= 1
  {
    if n == 0 then 1 else 2 * Pow2(n - 1)
  }

  lemma DivideAndRest(x: nat, d: nat)
    requires d > 0
    ensures x == d * (x / d) + x % d && x % d < d
  {
  }

  lemma MultipleBelow(d: nat, a: nat, b: nat)
    requires a <= b
    ensures a * d <= b * d
  {
    assert b * d == a * d + (b - a) * d;
  }

  lemma CeilDivBounds(total: nat, limit: nat)
    requires limit > 0
    ensures var c := CeilDiv(total, limit); total <= c * limit && (c > 0 ==> (c - 1) * limit < total)
  {
    var c := CeilDiv(total, limit);
    DivideAndRest(total + limit - 1, limit);
    assert limit * c == c * limit;
    if c > 0 { assert (c - 1) * limit == c * limit - limit; }
  }

  lemma CeilDivExact(total: nat, limit: nat, n: nat)
    requires limit > 0
    ensures total <= n * limit <==> CeilDiv(total, limit) <= n
  {
    CeilDivBounds(total, limit);
    hide CeilDiv;
    var c := CeilDiv(total, limit);
    if c <= n { MultipleBelow(limit, c, n); } else { MultipleBelow(limit, n, c - 1); }
  }

  lemma CeilDivMonotone(a: nat, b: nat, batch: nat)
    requires batch > 0 && a <= b
    ensures CeilDiv(a, batch) <= CeilDiv(b, batch)
  {
    CeilDivBounds(b, batch);
    CeilDivExact(a, batch, CeilDiv(b, batch));
  }

  /** Taking a batch off, or what is left of one, saves exactly one batch. */
  lemma CeilDivStep(n: nat, batch: nat)
    requires batch > 0 && n > 0
    ensures CeilDiv(n, batch) == CeilDiv(MonusSat(n, batch), batch) + 1
  {
    hide CeilDiv;
    var rest := MonusSat(n, batch);
    var k := CeilDiv(rest, batch);
    CeilDivBounds(rest, batch);
    CeilDivExact(n, batch, k + 1);
    CeilDivExact(n, batch, k);
    assert (k + 1) * batch == k * batch + batch;
    if k > 0 { assert (k - 1) * batch == k * batch - batch; }
  }
}
