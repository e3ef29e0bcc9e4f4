/** Big-endian key encodings (support/src/lib.rs): fixed width, order preserving, invertible. */
module BigEndian {
  import opened Common
  import opened StorageOrder

  function Pow256(w: nat): (r: nat)
    ensures r >= 1
  {
    if w == 0 then 1 else 256 * Pow256(w - 1)
  }

  /** The number a byte string denotes, most significant byte first (`from_be_bytes`). */
  function Value(b: seq<byte>): nat {
    if b == [] then 0 else b[0] * Pow256(|b| - 1) + Value(b[1..])
  }

  /** The `w` low bytes of `x`, most significant first (`to_be_bytes`). */
  function Encode(x: nat, w: nat): (b: seq<byte>)
    ensures |b| == w
  {
    if w == 0 then [] else Encode(x / 256, w - 1) + [x % 256]
  }

  /** Reading a key of width `w` off an input: fails if the input is too short. */
  function Decode(input: seq<byte>, w: nat): Option<(nat, seq<byte>)> {
    if |input| < w then None else Some((Value(input[..w]), input[w..]))
  }

  lemma {:induction false} ValueSnoc(b: seq<byte>, x: byte)
    ensures Value(b + [x]) == 256 * Value(b) + x
  {
    if b == [] {
      assert b + [x] == [x] && [x][1..] == [];
      assert Value([x]) == x * Pow256(0) + Value([x][1..]);
    } else {
      assert (b + [x])[1..] == b[1..] + [x];
      ValueSnoc(b[1..], x);
      assert b[0] * (256 * Pow256(|b| - 1)) == 256 * (b[0] * Pow256(|b| - 1));
    }
  }

  /** Encoding keeps the value of everything that fits the width. */
  lemma {:induction false} EncodeValue(x: nat, w: nat)
    requires x < Pow256(w)
    ensures Value(Encode(x, w)) == x
  {
    if w > 0 {
      EncodeValue(x / 256, w - 1);
      ValueSnoc(Encode(x / 256, w - 1), x % 256);
    }
  }

  lemma {:induction false} ValueBound(b: seq<byte>)
    ensures Value(b) < Pow256(|b|)
  {
    if b != [] {
      ValueBound(b[1..]);
      TopByte(b[0], Pow256(|b| - 1), Value(b[1..]));
    }
  }

  lemma TopByte(d: byte, p: nat, v: nat)
    requires v < p
    ensures d * p + v < (d + 1) * p <= 256 * p
  {
    assert (d + 1) * p == d * p + p;
    assert 256 * p == (d + 1) * p + (255 - d) * p;
  }

  /** Decoding an encoded key gives it back and leaves the rest of the input. */
  lemma RoundTrip(x: nat, w: nat, rest: seq<byte>)
    requires x < Pow256(w)
    ensures Decode(Encode(x, w) + rest, w) == Some((x, rest))
  {
    EncodeValue(x, w);
    assert (Encode(x, w) + rest)[..w] == Encode(x, w);
    assert (Encode(x, w) + rest)[w..] == rest;
  }

  /** And encoding a decoded key gives its bytes back. */
  lemma {:induction false} BytesRoundTrip(b: seq<byte>)
    ensures Encode(Value(b), |b|) == b
  {
    if b != [] {
      var n := |b| - 1;
      var init, last := b[..n], b[n];
      assert b == init + [last];
      ValueSnoc(init, last);
      BytesRoundTrip(init);
      assert Value(b) / 256 == Value(init) && Value(b) % 256 == last;
    }
  }

  /** Byte-wise lexicographic order, as the storage trie iterates. */
  predicate Lex(a: seq<byte>, b: seq<byte>) {
    if b == [] then false
    else if a == [] then true
    else a[0] < b[0] || (a[0] == b[0] && Lex(a[1..], b[1..]))
  }

  /** Same-width keys compare as the numbers they denote. */
  lemma {:induction false} LexIsNumeric(a: seq<byte>, b: seq<byte>)
    requires |a| == |b|
    ensures Lex(a, b) <==> Value(a) < Value(b)
  {
    if a != [] {
      var p := Pow256(|a| - 1);
      ValueBound(a[1..]);
      ValueBound(b[1..]);
      if a[0] < b[0] {
        LowerTop(a[0], b[0], p, Value(a[1..]), Value(b[1..]));
      } else if b[0] < a[0] {
        LowerTop(b[0], a[0], p, Value(b[1..]), Value(a[1..]));
      } else {
        LexIsNumeric(a[1..], b[1..]);
      }
    }
  }

  lemma LowerTop(d: byte, e: byte, p: nat, v: nat, w: nat)
    requires d < e && v < p
    ensures d * p + v < e * p + w
  {
    TopByte(d, p, v);
    assert e * p == (d + 1) * p + (e - d - 1) * p;
  }

  /** So encoded keys iterate in numeric order. */
  lemma EncodingPreservesOrder(x: nat, y: nat, w: nat)
    requires x < Pow256(w) && y < Pow256(w)
    ensures Lex(Encode(x, w), Encode(y, w)) <==> x < y
  {
    EncodeValue(x, w);
    EncodeValue(y, w);
    LexIsNumeric(Encode(x, w), Encode(y, w));
  }

  lemma {:induction false} LexPrefix(a: seq<byte>, b: seq<byte>, c: seq<byte>, d: seq<byte>)
    requires |a| == |b|
    ensures Lex(a + c, b + d) <==> Lex(a, b) || (a == b && Lex(c, d))
  {
    if a == [] {
      assert a + c == c && b + d == d;
    } else {
      assert (a + c)[1..] == a[1..] + c && (b + d)[1..] == b[1..] + d;
      LexPrefix(a[1..], b[1..], c, d);
      assert a == b <==> a[0] == b[0] && a[1..] == b[1..];
    }
  }

  /**
   The keys of a double map under `Identity` hashers iterate by the first key, then by the second:
   the order `StorageOrder.SortedPairs` lists.
   */
  lemma DoubleKeysInOrder(k: (nat, nat), l: (nat, nat), w: nat, v: nat)
    requires k.0 < Pow256(w) && l.0 < Pow256(w) && k.1 < Pow256(v) && l.1 < Pow256(v)
    ensures Lex(Encode(k.0, w) + Encode(k.1, v), Encode(l.0, w) + Encode(l.1, v)) <==> Before(k, l)
  {
    hide Encode, Lex, Pow256;
    EncodingPreservesOrder(k.0, l.0, w);
    EncodingPreservesOrder(k.1, l.1, v);
    EncodeValue(k.0, w);
    EncodeValue(l.0, w);
    LexPrefix(Encode(k.0, w), Encode(l.0, w), Encode(k.1, v), Encode(l.1, v));
  }
}
