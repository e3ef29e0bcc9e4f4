/** Product context preimages and their 32-byte suffixes (support/src/context.rs). */
module Contexts {
  import opened Common
  import opened Labels

  type u8 = byte
  type u32 = x: int | 0 <= x < 0x1_0000_0000

  const SLASH: byte := 47
  const SUFFIX_LENGTH: nat := 32
  /** `"product/"`. */
  const PRODUCT_PREFIX: seq<byte> := [112, 114, 111, 100, 117, 99, 116, SLASH]
  /** `"sys/"`. */
  const SYSTEM_SUFFIX_PREFIX: seq<byte> := [115, 121, 115, SLASH]
  /** `"sig/"`. */
  const SIGNING_PREFIX: seq<byte> := [115, 105, 103, SLASH]
  const INDEX_MAGIC: seq<byte> := [
    0x12, 0xe8, 0x60, 0x13, 0x73, 0x6c, 0x54, 0x98, 0xf0, 0x50, 0xb0, 0x3c, 0xdc, 0x16, 0x95, 0x7d,
    0xff, 0x0e, 0x42, 0x2f, 0xb9, 0x2c, 0xa7, 0x7e, 0xc3, 0xab, 0x16, 0x8f
  ]

  const RESOURCES_NOTIFICATION_FAMILY: u32 := 1
  const STATEMENT_STORE_SLOT_FAMILY: u32 := 2
  const LONG_TERM_STORAGE_FAMILY: u32 := 3
  const PGAS_CLAIM_FAMILY: u32 := 4

  type Bytes32 = b: seq<byte> | |b| == SUFFIX_LENGTH witness Zeros(SUFFIX_LENGTH)

  datatype ProductContextSuffix = Index(index: u32) | Raw(bytes: Bytes32)

  function Zeros(n: nat): (z: seq<byte>)
    ensures |z| == n && forall i :: 0 <= i < n ==> z[i] == 0
  {
    seq(n, _ => 0)
  }

  /** `u32::to_le_bytes`. */
  function Le32(x: u32): (b: seq<byte>)
    ensures |b| == 4
  {
    [x % 256, x / 0x100 % 256, x / 0x1_0000 % 256, x / 0x100_0000]
  }

  /** `u32::from_le_bytes`. */
  function FromLe32(b0: int, b1: int, b2: int, b3: int): int {
    b0 + 0x100 * b1 + 0x1_0000 * b2 + 0x100_0000 * b3
  }

  lemma Le32Injective(x: u32, y: u32)
    ensures Le32(x) == Le32(y) <==> x == y
  {
    Le32Value(x);
    Le32Value(y);
  }

  lemma Le32Value(x: u32)
    ensures var b := Le32(x); x == FromLe32(b[0], b[1], b[2], b[3])
  {
    assert x / 0x100 == x / 0x1_0000 * 0x100 + x / 0x100 % 256;
    assert x / 0x1_0000 == x / 0x100_0000 * 0x100 + x / 0x1_0000 % 256;
  }

  // ----- the preimage of a context -----

  /** `"product/" ++ name ++ "." ++ network ++ "/" ++ suffix`. */
  function Preimage(name: seq<byte>, network: seq<byte>, suffix: Bytes32): seq<byte> {
    PRODUCT_PREFIX + name + [DOT] + network + [SLASH] + suffix
  }

  datatype Parsed = Parsed(name: seq<byte>, network: seq<byte>, suffix: Bytes32)

  /** The position of the first dot, or the length if there is none. */
  function FirstDot(s: seq<byte>): (k: nat)
    ensures k <= |s| && DOT !in s[..k] && (k < |s| ==> s[k] == DOT)
  {
    if s == [] then 0
    else if s[0] == DOT then 0
    else
      var k := FirstDot(s[1..]);
      assert s[..k + 1] == [s[0]] + s[1..][..k];
      k + 1
  }

  /** The reader of a preimage: strip the prefix and the 33-byte tail, cut the rest at its first dot. */
  function Parse(input: seq<byte>): Option<Parsed> {
    var p, t := |PRODUCT_PREFIX|, |input| - SUFFIX_LENGTH - 1;
    if t < p || input[..p] != PRODUCT_PREFIX || input[t] != SLASH then None
    else
      var body := input[p..t];
      var k := FirstDot(body);
      if k == |body| then None else Some(Parsed(body[..k], body[k + 1..], input[t + 1..]))
  }

  /** Whatever the reader accepts is the preimage of what it returns, under a name without a dot. */
  lemma ParseSound(input: seq<byte>)
    ensures Parse(input).Some? ==>
      var r := Parse(input).value;
      DOT !in r.name && input == Preimage(r.name, r.network, r.suffix)
  {
    var p, t := |PRODUCT_PREFIX|, |input| - SUFFIX_LENGTH - 1;
    if Parse(input).Some? {
      var body := input[p..t];
      var k := FirstDot(body);
      assert input == input[..p] + input[p..t] + [input[t]] + input[t + 1..];
      assert body == body[..k] + [DOT] + body[k + 1..];
      assert input == PRODUCT_PREFIX + body + [SLASH] + input[t + 1..];
    }
  }

  lemma PreimageBody(name: seq<byte>, network: seq<byte>, suffix: Bytes32)
    ensures var input, body := Preimage(name, network, suffix), name + [DOT] + network;
      && |input| == |PRODUCT_PREFIX| + |body| + 1 + SUFFIX_LENGTH
      && input[..|PRODUCT_PREFIX|] == PRODUCT_PREFIX
      && input[|PRODUCT_PREFIX|..|PRODUCT_PREFIX| + |body|] == body
      && input[|PRODUCT_PREFIX| + |body|] == SLASH
      && input[|PRODUCT_PREFIX| + |body| + 1..] == suffix
  {
    assert Preimage(name, network, suffix) == PRODUCT_PREFIX + (name + [DOT] + network) + [SLASH] + suffix;
  }

  lemma FirstDotOf(name: seq<byte>, network: seq<byte>)
    ensures DOT !in name <==> FirstDot(name + [DOT] + network) == |name|
  {
    var body := name + [DOT] + network;
    var k := FirstDot(body);
    assert body[|name|] == DOT;
    forall i | 0 <= i < k ensures body[i] != DOT {
      assert body[i] == body[..k][i] && body[..k][i] in body[..k];
    }
    if k < |name| {
      assert name[k] == DOT;
    } else {
      assert body[..k] == name;
    }
  }

  /**
   The bytes give back the name, the network suffix and the 32-byte suffix exactly when the name
   holds no dot, whatever the network suffix is (it may hold dots and slashes).
   */
  lemma ParsesBackIffNoDot(name: seq<byte>, network: seq<byte>, suffix: Bytes32)
    ensures Parse(Preimage(name, network, suffix)) == Some(Parsed(name, network, suffix)) <==> DOT !in name
  {
    var body := name + [DOT] + network;
    PreimageBody(name, network, suffix);
    FirstDotOf(name, network);
    var k := FirstDot(body);
    hide Preimage;
    if k == |name| {
      assert body[..k] == name && body[k + 1..] == network;
    } else {
      assert k < |body| ==> |body[..k]| != |name|;
    }
  }

  /** A dotted name can share its bytes with another product of another network. */
  lemma DottedNamesCollide(suffix: Bytes32)
    ensures Preimage([97, DOT, 98], [99], suffix) == Preimage([97], [98, DOT, 99], suffix)
    ensures !IsDnsLabel([97, DOT, 98]) && IsDnsLabel([97])
  {
    assert !IsLabelByte([97, DOT, 98][1]);
  }

  /** For product names (single DNS labels) the preimage determines all three parts. */
  lemma PreimageInjective(name: seq<byte>, network: seq<byte>, suffix: Bytes32,
                          name': seq<byte>, network': seq<byte>, suffix': Bytes32)
    requires IsDnsLabel(name) && IsDnsLabel(name')
    ensures Preimage(name, network, suffix) == Preimage(name', network', suffix') <==>
      name == name' && network == network' && suffix == suffix'
  {
    hide Preimage, Parse;
    ParsesBackIffNoDot(name, network, suffix);
    ParsesBackIffNoDot(name', network', suffix');
  }

  // ----- the allocated suffixes -----

  /** Everything this crate hands out as a suffix. */
  datatype Allocation =
    | Enumerable(index: u32)
    | Signing
    | ResourcesNotification(period: u32, ordinal: u8)
    | StatementStoreSlot(period: u32, slotSeq: u32)
    | LongTermStorage(period: u32, counter: u8)
    | PgasClaim(day: u32, slot: u32)

  function SuffixBytes(s: ProductContextSuffix): Bytes32 {
    match s
    case Index(index) => Le32(index) + INDEX_MAGIC
    case Raw(bytes) => bytes
  }

  /** `"sys/" ++ u32_le(family) ++ u32_le(value) ++ tail ++ zero padding`. */
  function SystemSuffix(family: u32, value: u32, tail: seq<byte>): Bytes32
    requires |tail| <= 20
  {
    SYSTEM_SUFFIX_PREFIX + Le32(family) + Le32(value) + tail + Zeros(20 - |tail|)
  }

  function Allocated(a: Allocation): ProductContextSuffix {
    match a
    case Enumerable(index) => Index(index)
    case Signing => Raw(SIGNING_PREFIX + Zeros(28))
    case ResourcesNotification(period, ordinal) => Raw(SystemSuffix(RESOURCES_NOTIFICATION_FAMILY, period, [ordinal]))
    case StatementStoreSlot(period, slotSeq) => Raw(SystemSuffix(STATEMENT_STORE_SLOT_FAMILY, period, Le32(slotSeq)))
    case LongTermStorage(period, counter) => Raw(SystemSuffix(LONG_TERM_STORAGE_FAMILY, period, [counter]))
    case PgasClaim(day, slot) => Raw(SystemSuffix(PGAS_CLAIM_FAMILY, day, Le32(slot)))
  }

  /** The fixed-offset reading of a system suffix. */
  lemma SystemSuffixParts(family: u32, value: u32, tail: seq<byte>)
    requires |tail| <= 20
    ensures var b := SystemSuffix(family, value, tail);
      && b[..4] == SYSTEM_SUFFIX_PREFIX && b[4..8] == Le32(family) && b[8..12] == Le32(value)
      && b[12..12 + |tail|] == tail && b[12 + |tail|..] == Zeros(20 - |tail|)
  {
    hide Le32, Zeros;
  }

  /** Two system suffixes with tails of one length agree only if every part does. */
  lemma SystemSuffixInjective(f: u32, v: u32, tail: seq<byte>, f': u32, v': u32, tail': seq<byte>)
    requires |tail| <= 20 && |tail'| <= 20
    ensures SystemSuffix(f, v, tail) == SystemSuffix(f', v', tail') ==> f == f' && v == v'
    ensures |tail| == |tail'| && SystemSuffix(f, v, tail) == SystemSuffix(f', v', tail') ==> tail == tail'
  {
    hide SystemSuffix, Le32;
    SystemSuffixParts(f, v, tail);
    SystemSuffixParts(f', v', tail');
    Le32Injective(f, f');
    Le32Injective(v, v');
  }

  /** The fifth byte tells the three kinds of suffix apart: family, magic or padding. */
  function Kind(a: Allocation): byte {
    match a
    case Enumerable(_) => 0x12
    case Signing => 0
    case ResourcesNotification(_, _) => 1
    case StatementStoreSlot(_, _) => 2
    case LongTermStorage(_, _) => 3
    case PgasClaim(_, _) => 4
  }

  lemma FifthByte(a: Allocation)
    ensures SuffixBytes(Allocated(a))[4] == Kind(a)
  {
    hide Zeros;
  }

  /**
   The `Index` suffixes, the signing suffix and the four personhood families are pairwise disjoint,
   and each is injective in its parameters.
   */
  lemma AllocationsDistinct(a: Allocation, b: Allocation)
    ensures SuffixBytes(Allocated(a)) == SuffixBytes(Allocated(b)) <==> a == b
  {
    FifthByte(a);
    FifthByte(b);
    hide SystemSuffix, Le32, Zeros;
    match (a, b) {
      case (Enumerable(i), Enumerable(j)) =>
        Le32Injective(i, j);
        assert (Le32(i) + INDEX_MAGIC)[..4] == Le32(i) && (Le32(j) + INDEX_MAGIC)[..4] == Le32(j);
      case (ResourcesNotification(p, s), ResourcesNotification(q, t)) =>
        SystemSuffixInjective(RESOURCES_NOTIFICATION_FAMILY, p, [s], RESOURCES_NOTIFICATION_FAMILY, q, [t]);
      case (StatementStoreSlot(p, s), StatementStoreSlot(q, t)) =>
        SystemSuffixInjective(STATEMENT_STORE_SLOT_FAMILY, p, Le32(s), STATEMENT_STORE_SLOT_FAMILY, q, Le32(t));
        Le32Injective(s, t);
      case (LongTermStorage(p, s), LongTermStorage(q, t)) =>
        SystemSuffixInjective(LONG_TERM_STORAGE_FAMILY, p, [s], LONG_TERM_STORAGE_FAMILY, q, [t]);
      case (PgasClaim(p, s), PgasClaim(q, t)) =>
        SystemSuffixInjective(PGAS_CLAIM_FAMILY, p, Le32(s), PGAS_CLAIM_FAMILY, q, Le32(t));
        Le32Injective(s, t);
      case _ =>
    }
  }

  /** So one preimage serves one product, on one network, for one allocation. */
  lemma ContextsDistinct(name: seq<byte>, network: seq<byte>, a: Allocation,
                         name': seq<byte>, network': seq<byte>, b: Allocation)
    requires IsDnsLabel(name) && IsDnsLabel(name')
    ensures Preimage(name, network, SuffixBytes(Allocated(a))) == Preimage(name', network', SuffixBytes(Allocated(b))) <==>
      name == name' && network == network' && a == b
  {
    hide Preimage, SuffixBytes;
    PreimageInjective(name, network, SuffixBytes(Allocated(a)), name', network', SuffixBytes(Allocated(b)));
    AllocationsDistinct(a, b);
  }

  // ----- known bytes -----

  /** The prefixes are the texts the specification names. */
  lemma KnownPrefixes()
    ensures PRODUCT_PREFIX == Ascii("product/") && SYSTEM_SUFFIX_PREFIX == Ascii("sys/") && SIGNING_PREFIX == Ascii("sig/")
    ensures [DOT] == Ascii(".") && [SLASH] == Ascii("/")
  {
  }

  /** `product/voting.dot/` followed by the suffix. */
  lemma KnownPreimage(suffix: Bytes32)
    ensures Preimage(Ascii("voting"), Ascii("dot"), suffix) == Ascii("product/voting.dot/") + suffix
  {
    KnownPrefixes();
    assert Ascii("product/") + Ascii("voting") + Ascii(".") + Ascii("dot") + Ascii("/") == Ascii("product/voting.dot/");
  }

  /** Little-endian indices come first, the marker after them. */
  lemma KnownIndex()
    ensures var b := SuffixBytes(Index(0x0102_0304));
      && b[..4] == [0x04, 0x03, 0x02, 0x01]
      && b[4..16] == [0x12, 0xe8, 0x60, 0x13, 0x73, 0x6c, 0x54, 0x98, 0xf0, 0x50, 0xb0, 0x3c]
      && b[16..] == [0xdc, 0x16, 0x95, 0x7d, 0xff, 0x0e, 0x42, 0x2f, 0xb9, 0x2c, 0xa7, 0x7e, 0xc3, 0xab, 0x16, 0x8f]
  {
    assert Le32(0x0102_0304) == [0x04, 0x03, 0x02, 0x01];
    hide Le32;
    var b := SuffixBytes(Index(0x0102_0304));
    assert b[..4] == Le32(0x0102_0304) && b[4..] == INDEX_MAGIC;
    assert b[4..16] == INDEX_MAGIC[..12] && b[16..] == INDEX_MAGIC[12..];
  }

  lemma KnownSigning()
    ensures SuffixBytes(Allocated(Signing)) == Ascii("sig/") + Zeros(28)
  {
    KnownPrefixes();
  }

  /** Where each personhood family keeps its parameters. */
  lemma KnownLayout(period: u32, small: u8, large: u32)
    ensures forall a :: a in [ResourcesNotification(period, small), LongTermStorage(period, small)] ==>
      var b := SuffixBytes(Allocated(a));
      && b[..4] == Ascii("sys/") && b[4..8] == [if a.LongTermStorage? then 3 else 1, 0, 0, 0]
      && b[8..12] == Le32(period) && b[12] == small && b[13..] == Zeros(19)
    ensures forall a :: a in [StatementStoreSlot(period, large), PgasClaim(period, large)] ==>
      var b := SuffixBytes(Allocated(a));
      && b[..4] == Ascii("sys/") && b[4..8] == [if a.PgasClaim? then 4 else 2, 0, 0, 0]
      && b[8..12] == Le32(period) && b[12..16] == Le32(large) && b[16..] == Zeros(16)
  {
    KnownPrefixes();
    SystemSuffixParts(1, period, [small]);
    SystemSuffixParts(3, period, [small]);
    SystemSuffixParts(2, period, Le32(large));
    SystemSuffixParts(4, period, Le32(large));
    hide SystemSuffix, Zeros, Ascii;
  }

  // ----- the builders -----

  /** `copy_from_slice` into `target[at..at + |source|]`. */
  method CopyFromSlice(target: array<byte>, at: nat, source: seq<byte>)
    requires at + |source| <= target.Length
    modifies target
    ensures target[..] == old(target[..at]) + source + old(target[at + |source|..])
  {
    for i := 0 to |source|
      invariant forall j :: 0 <= j < target.Length ==>
        target[j] == if at <= j < at + i then source[j - at] else old(target[j])
    {
      target[at + i] := source[i];
    }
  }

  method ZeroSuffix() returns (suffix: array<byte>)
    ensures fresh(suffix) && suffix.Length == SUFFIX_LENGTH && suffix[..] == Zeros(SUFFIX_LENGTH)
  {
    suffix := new byte[SUFFIX_LENGTH](_ => 0);
  }

  /** `ProductContextSuffix::bytes`. */
  method BuildSuffixBytes(s: ProductContextSuffix) returns (bytes: seq<byte>)
    ensures bytes == SuffixBytes(s)
  {
    match s
    case Index(index) =>
      var buffer := ZeroSuffix();
      CopyFromSlice(buffer, 0, Le32(index));
      CopyFromSlice(buffer, 4, INDEX_MAGIC);
      bytes := buffer[..];
    case Raw(raw) =>
      bytes := raw;
  }

  method BuildSigningSuffix() returns (bytes: seq<byte>)
    ensures bytes == SuffixBytes(Allocated(Signing))
  {
    var buffer := ZeroSuffix();
    buffer[0], buffer[1], buffer[2], buffer[3] := 115, 105, 103, SLASH;
    bytes := buffer[..];
  }

  /** `raw_u32_u8`. */
  method RawU32U8(family: u32, value: u32, tail: u8) returns (bytes: seq<byte>)
    ensures bytes == SystemSuffix(family, value, [tail])
  {
    hide Le32;
    var suffix := ZeroSuffix();
    CopyFromSlice(suffix, 0, SYSTEM_SUFFIX_PREFIX);
    assert suffix[..] == SYSTEM_SUFFIX_PREFIX + Zeros(28);
    CopyFromSlice(suffix, 4, Le32(family));
    assert suffix[..] == SYSTEM_SUFFIX_PREFIX + Le32(family) + Zeros(24);
    CopyFromSlice(suffix, 8, Le32(value));
    assert suffix[..] == SYSTEM_SUFFIX_PREFIX + Le32(family) + Le32(value) + Zeros(20);
    suffix[12] := tail;
    bytes := suffix[..];
  }

  /** `raw_u32_u32`. */
  method RawU32U32(family: u32, first: u32, second: u32) returns (bytes: seq<byte>)
    ensures bytes == SystemSuffix(family, first, Le32(second))
  {
    hide Le32;
    var suffix := ZeroSuffix();
    CopyFromSlice(suffix, 0, SYSTEM_SUFFIX_PREFIX);
    assert suffix[..] == SYSTEM_SUFFIX_PREFIX + Zeros(28);
    CopyFromSlice(suffix, 4, Le32(family));
    assert suffix[..] == SYSTEM_SUFFIX_PREFIX + Le32(family) + Zeros(24);
    CopyFromSlice(suffix, 8, Le32(first));
    assert suffix[..] == SYSTEM_SUFFIX_PREFIX + Le32(family) + Le32(first) + Zeros(20);
    CopyFromSlice(suffix, 12, Le32(second));
    bytes := suffix[..];
  }

  /** The bytes built for an allocation are its own: no other allocation has them. */
  method BuildAllocation(a: Allocation) returns (bytes: seq<byte>)
    ensures bytes == SuffixBytes(Allocated(a))
    ensures forall b :: SuffixBytes(Allocated(b)) == bytes ==> b == a
  {
    match a {
      case Enumerable(index) => bytes := BuildSuffixBytes(Index(index));
      case Signing => bytes := BuildSigningSuffix();
      case ResourcesNotification(period, ordinal) => bytes := RawU32U8(RESOURCES_NOTIFICATION_FAMILY, period, ordinal);
      case StatementStoreSlot(period, slotSeq) => bytes := RawU32U32(STATEMENT_STORE_SLOT_FAMILY, period, slotSeq);
      case LongTermStorage(period, counter) => bytes := RawU32U8(LONG_TERM_STORAGE_FAMILY, period, counter);
      case PgasClaim(day, slot) => bytes := RawU32U32(PGAS_CLAIM_FAMILY, day, slot);
    }
    assert bytes == SuffixBytes(Allocated(a));
    hide SuffixBytes, Allocated;
    forall b | SuffixBytes(Allocated(b)) == bytes ensures b == a { AllocationsDistinct(a, b); }
  }

  /** What `build_product_context` feeds to the hash. */
  method BuildProductContext(name: seq<byte>, network: seq<byte>, suffix: ProductContextSuffix) returns (input: seq<byte>)
    ensures input == Preimage(name, network, SuffixBytes(suffix))
    ensures IsDnsLabel(name) ==> Parse(input) == Some(Parsed(name, network, SuffixBytes(suffix)))
  {
    hide SuffixBytes, Parse;
    var bytes := BuildSuffixBytes(suffix);
    input := [];
    input := input + PRODUCT_PREFIX;
    input := input + name;
    input := input + [DOT];
    input := input + network;
    input := input + [SLASH];
    input := input + bytes;
    ParsesBackIffNoDot(name, network, SuffixBytes(suffix));
  }
}
