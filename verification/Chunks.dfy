/**
 Paged chunk storage (pallets/chunks-manager/src/lib.rs): where a chunk lives, single reads, range
 reads page by page, and writing a list in page-size slices.
 */
module Chunks {
  import opened Common

  type Chunk = nat

  datatype Error = ChunkNotFound | InvalidChunkRange
  datatype Result<+T> = Ok(value: T) | Err(error: Error)

  // ----- bits -----

  /** Bitwise and of unsigned numbers. */
  function BitAnd(a: nat, b: nat): nat {
    if a == 0 || b == 0 then 0 else (a % 2) * (b % 2) + 2 * BitAnd(a / 2, b / 2)
  }

  lemma {:induction false} MaskIsRemainder(a: nat, k: nat)
    ensures BitAnd(a, Pow2(k) - 1) == a % Pow2(k)
  {
    if k > 0 && a > 0 {
      var half := Pow2(k - 1);
      assert (Pow2(k) - 1) % 2 == 1 && (Pow2(k) - 1) / 2 == half - 1;
      MaskIsRemainder(a / 2, k - 1);
      HalveRemainder(a, half);
      if Pow2(k) - 1 == 0 { assert false; }
    }
  }

  lemma HalveRemainder(a: nat, half: nat)
    requires half > 0
    ensures a % (2 * half) == a % 2 + 2 * ((a / 2) % half)
  {
    var h := a / 2;
    DivideAndRest(h, half);
    var q, r := h / half, h % half;
    assert a == 2 * h + a % 2;
    assert a == (2 * half) * q + (2 * r + a % 2) by { assert 2 * (half * q) == (2 * half) * q; }
    RemainderUnique(a, 2 * half, q, 2 * r + a % 2);
  }

  lemma MultipleStep(d: nat, n: nat)
    requires n > 0
    ensures d * n >= d
  {
    assert d * n == d + d * (n - 1);
  }

  lemma SmallerQuotient(d: nat, q: nat, r: nat, q': nat, r': nat)
    requires r < d && q < q'
    ensures d * q + r < d * q' + r'
  {
    MultipleStep(d, q' - q);
    assert d * q' == d * q + d * (q' - q);
  }

  lemma RemainderUnique(x: nat, d: nat, q: nat, r: nat)
    requires d > 0 && x == d * q + r && r < d
    ensures x / d == q && x % d == r
  {
    DivideAndRest(x, d);
    if q < x / d {
      SmallerQuotient(d, q, r, x / d, x % d);
    } else if x / d < q {
      SmallerQuotient(d, x / d, x % d, q, r);
    }
  }

  ghost predicate IsPow2(n: nat) { exists k: nat :: Pow2(k) == n }

  lemma {:induction false} AndSelf(a: nat)
    ensures BitAnd(a, a) == a
  {
    if a > 0 {
      AndSelf(a / 2);
      BitSquare(a % 2);
      DivideAndRest(a, 2);
    }
  }

  lemma BitSquare(b: nat)
    requires b < 2
    ensures b * b == b
  {
    if b == 0 { assert 0 * 0 == 0; } else { assert 1 * 1 == 1; }
  }

  /** A number whose predecessor shares no bit with it is a power of two. */
  lemma {:induction false} LoneBit(n: nat)
    requires n > 0 && BitAnd(n, n - 1) == 0
    ensures IsPow2(n)
  {
    if n == 1 {
      assert Pow2(0) == 1;
    } else if n % 2 == 1 {
      assert (n - 1) / 2 == n / 2;
      AndSelf(n / 2);
    } else {
      assert (n - 1) / 2 == n / 2 - 1 && (n - 1) % 2 == 1;
      LoneBit(n / 2);
      var k: nat :| Pow2(k) == n / 2;
      assert Pow2(k + 1) == n;
    }
  }

  /** Masking with `n - 1` is the remainder by `n` for every index iff `n` is a power of two. */
  lemma MaskIsModulusIff(n: nat)
    requires n > 0
    ensures (forall a: nat :: BitAnd(a, n - 1) == a % n) <==> IsPow2(n)
  {
    if IsPow2(n) {
      var k: nat :| Pow2(k) == n;
      forall a: nat ensures BitAnd(a, n - 1) == a % n { MaskIsRemainder(a, k); }
    } else if forall a: nat :: BitAnd(a, n - 1) == a % n {
      assert BitAnd(n, n - 1) == n % n;
      RemainderUnique(n, n, 1, 0);
      LoneBit(n);
    }
  }

  // ----- locations -----

  /** Number of pages a ring of `2^exponent` chunks occupies; a small ring still has one page. */
  function TotalPages(pageSize: nat, exponent: nat): (n: nat)
    requires pageSize > 0
    ensures n >= 1
  {
    Max(1, Pow2(exponent) / pageSize)
  }

  /** `get_location`: the page is picked by a bit mask. */
  function Location(pageSize: nat, exponent: nat, index: nat): (l: (nat, nat))
    requires pageSize > 0
    ensures l.1 < pageSize
  {
    (BitAnd(index / pageSize, TotalPages(pageSize, exponent) - 1), index % pageSize)
  }

  lemma {:induction false} Pow2Quotient(a: nat, b: nat)
    requires b <= a
    ensures Pow2(a) / Pow2(b) == Pow2(a - b)
  {
    Pow2Split(a, b);
    RemainderUnique(Pow2(a), Pow2(b), Pow2(a - b), 0);
  }

  lemma {:induction false} Pow2Split(a: nat, b: nat)
    requires b <= a
    ensures Pow2(a) == Pow2(b) * Pow2(a - b)
  {
    if b > 0 {
      Pow2Split(a - 1, b - 1);
      assert Pow2(a) == 2 * Pow2(a - 1) && Pow2(b) == 2 * Pow2(b - 1);
    }
  }

  lemma TotalPagesPow2(k: nat, exponent: nat)
    ensures TotalPages(Pow2(k), exponent) == Pow2(MonusSat(exponent, k))
  {
    if k <= exponent {
      Pow2Quotient(exponent, k);
      assert MonusSat(exponent, k) == exponent - k;
    } else {
      SmallerPow2(exponent, k);
      RemainderUnique(Pow2(exponent), Pow2(k), 0, Pow2(exponent));
    }
  }

  /** With a power-of-two page size the masked page is the page number modulo the page count. */
  lemma LocationIsModular(k: nat, exponent: nat, index: nat)
    ensures Location(Pow2(k), exponent, index)
         == ((index / Pow2(k)) % TotalPages(Pow2(k), exponent), index % Pow2(k))
  {
    hide Pow2, TotalPages, BitAnd;
    TotalPagesPow2(k, exponent);
    MaskIsRemainder(index / Pow2(k), MonusSat(exponent, k));
  }

  lemma {:induction false} SmallerPow2(a: nat, b: nat)
    requires a < b
    ensures Pow2(a) < Pow2(b)
  {
    if a + 1 < b { SmallerPow2(a, b - 1); }
  }

  /** Indices of one page-size stretch sit side by side on one page. */
  lemma SamePage(pageSize: nat, exponent: nat, index: nat, j: nat)
    requires pageSize > 0 && index % pageSize + j < pageSize
    ensures Location(pageSize, exponent, index + j)
         == (Location(pageSize, exponent, index).0, Location(pageSize, exponent, index).1 + j)
  {
    DivideAndRest(index, pageSize);
    RemainderUnique(index + j, pageSize, index / pageSize, index % pageSize + j);
  }

  // ----- reads -----

  /** `get_chunk`. */
  function GetChunk(pages: map<(nat, nat), seq<Chunk>>, pageSize: nat, exponent: nat, index: nat): Result<Chunk>
    requires pageSize > 0
  {
    var (page, position) := Location(pageSize, exponent, index);
    if (exponent, page) in pages && position < |pages[(exponent, page)]| then Ok(pages[(exponent, page)][position])
    else Err(ChunkNotFound)
  }

  /** A chunk reads as what its page holds at its offset, and is missing exactly if page or offset is. */
  lemma ReadIs(pages: map<(nat, nat), seq<Chunk>>, k: nat, exponent: nat, index: nat, chunk: Chunk)
    ensures var key, offset := (exponent, (index / Pow2(k)) % TotalPages(Pow2(k), exponent)), index % Pow2(k);
      && (GetChunk(pages, Pow2(k), exponent, index) == Ok(chunk) <==>
            key in pages && offset < |pages[key]| && pages[key][offset] == chunk)
      && (GetChunk(pages, Pow2(k), exponent, index) == Err(ChunkNotFound) <==>
            key !in pages || offset >= |pages[key]|)
  {
    LocationIsModular(k, exponent, index);
    hide Location, TotalPages, Pow2;
  }

  /** Every index of the range is stored. */
  ghost predicate AllStored(pages: map<(nat, nat), seq<Chunk>>, pageSize: nat, exponent: nat, lo: nat, hi: nat)
    requires pageSize > 0
  {
    forall i :: lo <= i < hi ==> GetChunk(pages, pageSize, exponent, i).Ok?
  }

  /** `chunks` are the results of single reads of the range. */
  ghost predicate Reads(pages: map<(nat, nat), seq<Chunk>>, pageSize: nat, exponent: nat, lo: nat, hi: nat, chunks: seq<Chunk>)
    requires pageSize > 0
  {
    && lo <= hi && |chunks| == hi - lo
    && forall i :: lo <= i < hi ==> GetChunk(pages, pageSize, exponent, i) == Ok(chunks[i - lo])
  }

  /** One stretch of a page holds exactly the single reads of its indices. */
  lemma StretchReads(pages: map<(nat, nat), seq<Chunk>>, pageSize: nat, exponent: nat, index: nat, count: nat)
    requires pageSize > 0 && 0 < count <= pageSize - index % pageSize
    ensures var (page, position) := Location(pageSize, exponent, index);
      var found := (exponent, page) in pages && position + count <= |pages[(exponent, page)]|;
      && (found ==> Reads(pages, pageSize, exponent, index, index + count,
                          pages[(exponent, page)][position..position + count]))
      && (!found ==> GetChunk(pages, pageSize, exponent, index + count - 1) == Err(ChunkNotFound))
  {
    hide BitAnd, TotalPages;
    var (page, position) := Location(pageSize, exponent, index);
    forall i | index <= i < index + count
      ensures Location(pageSize, exponent, i) == (page, position + (i - index))
    {
      SamePage(pageSize, exponent, index, i - index);
    }
    hide Location;
    assert Location(pageSize, exponent, index + count - 1) == (page, position + count - 1);
  }

  lemma ReadsJoin(pages: map<(nat, nat), seq<Chunk>>, pageSize: nat, exponent: nat, lo: nat, mid: nat, hi: nat,
                  a: seq<Chunk>, b: seq<Chunk>)
    requires pageSize > 0
    requires Reads(pages, pageSize, exponent, lo, mid, a) && Reads(pages, pageSize, exponent, mid, hi, b)
    ensures Reads(pages, pageSize, exponent, lo, hi, a + b)
  {
    hide GetChunk;
  }

  // ----- uploads -----

  datatype Contents = Contents(pages: map<(nat, nat), seq<Chunk>>, hashes: map<(nat, nat), nat>)

  /** The page hash and the validating decoder, both foreign code. */
  datatype Codec = Codec(hash: seq<byte> -> nat, decode: seq<byte> -> Option<seq<Chunk>>)

  datatype Upload = Added | NotAuthorized | InvalidChunks

  predicate Publishes(hashes: map<(nat, nat), nat>, key: (nat, nat), hash: nat) {
    key in hashes && hashes[key] == hash
  }

  /** `authorize_add_chunks` followed by `add_chunks`. */
  function AddPage(c: Contents, pageSize: nat, codec: Codec, key: (nat, nat), encoded: seq<byte>): (Contents, Upload) {
    if key in c.pages || !Publishes(c.hashes, key, codec.hash(encoded)) then (c, NotAuthorized)
    else
      match codec.decode(encoded)
      case None => (c, InvalidChunks)
      case Some(page) =>
        if |page| > pageSize then (c, InvalidChunks) else (c.(pages := c.pages[key := page]), Added)
  }

  /** A page is added exactly if absent, its bytes' hash published, and it decodes within the page size. */
  lemma AddedIff(c: Contents, pageSize: nat, codec: Codec, key: (nat, nat), encoded: seq<byte>)
    ensures var (after, answer) := AddPage(c, pageSize, codec, key, encoded);
      var page := codec.decode(encoded);
      && (answer == Added <==>
            && key !in c.pages && key in c.hashes && c.hashes[key] == codec.hash(encoded)
            && page.Some? && |page.value| <= pageSize)
      && (answer != Added ==> after == c)
      && (answer == Added ==> after == Contents(c.pages[key := page.value], c.hashes))
  {
  }

  /** The hashes of the first pages of a ring, as published together. */
  function Published(exponent: nat, list: seq<nat>): map<(nat, nat), nat> {
    map i: nat | i < |list| :: (exponent, i) := list[i]
  }

  lemma NothingPublished(hashes: map<(nat, nat), nat>, exponent: nat, list: seq<nat>)
    ensures hashes + Published(exponent, list[..0]) == hashes
  {
  }

  lemma PublishNext(hashes: map<(nat, nat), nat>, exponent: nat, list: seq<nat>, i: nat)
    requires i < |list|
    ensures hashes + Published(exponent, list[..i + 1])
         == (hashes + Published(exponent, list[..i]))[(exponent, i) := list[i]]
  {
    var was, now := Published(exponent, list[..i]), Published(exponent, list[..i + 1]);
    assert now == was[(exponent, i) := list[i]];
  }

  datatype Op =
    | OpAdd(key: (nat, nat), encoded: seq<byte>)
    | OpSetHashes(exponent: nat, list: seq<nat>)

  function Perform(c: Contents, pageSize: nat, codec: Codec, op: Op): Contents {
    match op
    case OpAdd(key, encoded) => AddPage(c, pageSize, codec, key, encoded).0
    case OpSetHashes(exponent, list) => c.(hashes := c.hashes + Published(exponent, list))
  }

  /** Publishing names the hash of every listed page of the ring and leaves all others, and all pages. */
  lemma PublishedIs(c: Contents, pageSize: nat, codec: Codec, exponent: nat, list: seq<nat>, key: (nat, nat))
    ensures var t := Perform(c, pageSize, codec, OpSetHashes(exponent, list));
      && t.pages == c.pages
      && if key.0 == exponent && key.1 < |list| then key in t.hashes && t.hashes[key] == list[key.1]
         else (key in t.hashes <==> key in c.hashes) && (key in c.hashes ==> t.hashes[key] == c.hashes[key])
  {
    assert key == (key.0, key.1);
  }

  function StateAt(pageSize: nat, codec: Codec, ops: seq<Op>, n: nat): Contents
    requires n <= |ops|
  {
    if n == 0 then Contents(map[], map[])
    else Perform(StateAt(pageSize, codec, ops, n - 1), pageSize, codec, ops[n - 1])
  }

  /** A stored page stays as it is, whatever hashes are published later. */
  lemma {:induction false} PagesStay(pageSize: nat, codec: Codec, ops: seq<Op>, n: nat, m: nat, key: (nat, nat))
    requires n <= m <= |ops| && key in StateAt(pageSize, codec, ops, n).pages
    ensures key in StateAt(pageSize, codec, ops, m).pages
    ensures StateAt(pageSize, codec, ops, m).pages[key] == StateAt(pageSize, codec, ops, n).pages[key]
  {
    if n < m { PagesStay(pageSize, codec, ops, n, m - 1, key); }
  }

  /** So a chunk, once readable, reads the same in every later state. */
  lemma ReadsStay(pageSize: nat, codec: Codec, ops: seq<Op>, n: nat, m: nat, exponent: nat, index: nat)
    requires pageSize > 0 && n <= m <= |ops|
    requires GetChunk(StateAt(pageSize, codec, ops, n).pages, pageSize, exponent, index).Ok?
    ensures GetChunk(StateAt(pageSize, codec, ops, m).pages, pageSize, exponent, index)
         == GetChunk(StateAt(pageSize, codec, ops, n).pages, pageSize, exponent, index)
  {
    hide StateAt, Location;
    PagesStay(pageSize, codec, ops, n, m, (exponent, Location(pageSize, exponent, index).0));
  }

  /** Step `j` uploaded `page` under `key` with bytes of the hash published at that moment. */
  ghost predicate UploadedBy(pageSize: nat, codec: Codec, ops: seq<Op>, j: nat, key: (nat, nat), page: seq<Chunk>) {
    && j < |ops| && ops[j].OpAdd? && ops[j].key == key
    && codec.decode(ops[j].encoded) == Some(page) && |page| <= pageSize
    && Publishes(StateAt(pageSize, codec, ops, j).hashes, key, codec.hash(ops[j].encoded))
  }

  /** Every stored page decodes bytes whose hash the manager had published. */
  lemma {:induction false} PagesWerePublished(pageSize: nat, codec: Codec, ops: seq<Op>, n: nat, key: (nat, nat))
    requires n <= |ops| && key in StateAt(pageSize, codec, ops, n).pages
    ensures exists j: nat :: j < n && UploadedBy(pageSize, codec, ops, j, key, StateAt(pageSize, codec, ops, n).pages[key])
  {
    if n > 0 {
      if key in StateAt(pageSize, codec, ops, n - 1).pages {
        PagesWerePublished(pageSize, codec, ops, n - 1, key);
        PagesStay(pageSize, codec, ops, n - 1, n, key);
      } else {
        assert UploadedBy(pageSize, codec, ops, n - 1, key, StateAt(pageSize, codec, ops, n).pages[key]);
      }
    }
  }

  class Store {
    const pageSize: nat
    var pages: map<(nat, nat), seq<Chunk>>
    var pageHashes: map<(nat, nat), nat>

    function View(): Contents
      reads this
    {
      Contents(pages, pageHashes)
    }

    ghost predicate Valid()
      reads this
    {
      pageSize > 0 && forall k :: k in pages ==> |pages[k]| <= pageSize
    }

    constructor (pageSize: nat)
      requires pageSize > 0
      ensures Valid() && this.pageSize == pageSize && View() == Contents(map[], map[])
    {
      this.pageSize := pageSize;
      pages, pageHashes := map[], map[];
    }

    /** `add_chunks` behind its gate: a page is written once, and only if its hash was published. */
    method AddChunks(codec: Codec, exponent: nat, pageIndex: nat, encoded: seq<byte>) returns (r: Upload)
      requires Valid()
      modifies this`pages
      ensures Valid() && (View(), r) == AddPage(old(View()), pageSize, codec, (exponent, pageIndex), encoded)
    {
      var key := (exponent, pageIndex);
      if key in pages { return NotAuthorized; }
      var hash := codec.hash(encoded);
      if key !in pageHashes || pageHashes[key] != hash { return NotAuthorized; }
      var decoded := codec.decode(encoded);
      if decoded.None? || |decoded.value| > pageSize { return InvalidChunks; }
      pages := pages[key := decoded.value];
      r := Added;
    }

    /** `add_chunk_page_hashes`: one entry after another, over whatever was published before. */
    method SetChunkPageHashes(exponent: nat, list: seq<nat>)
      requires Valid()
      modifies this`pageHashes
      ensures Valid() && View() == old(View()).(hashes := old(pageHashes) + Published(exponent, list))
    {
      hide Published;
      NothingPublished(pageHashes, exponent, list);
      for i := 0 to |list|
        invariant pageHashes == old(pageHashes) + Published(exponent, list[..i])
      {
        PublishNext(old(pageHashes), exponent, list, i);
        pageHashes := pageHashes[(exponent, i) := list[i]];
      }
      assert list[..|list|] == list;
    }

    /** The paged range read returns what single reads return, and fails iff some index is missing. */
    method GetChunks(exponent: nat, start: nat, end: nat) returns (r: Result<seq<Chunk>>)
      requires Valid()
      ensures start >= end ==> r == Err(InvalidChunkRange)
      ensures start < end ==>
        && (r.Ok? <==> AllStored(pages, pageSize, exponent, start, end))
        && (r.Ok? ==> Reads(pages, pageSize, exponent, start, end, r.value))
        && (r.Err? ==> r.error == ChunkNotFound)
    {
      if start >= end { return Err(InvalidChunkRange); }
      hide GetChunk, Location, BitAnd;
      var result: seq<Chunk> := [];
      var index := start;
      while index < end
        invariant start <= index <= end
        invariant Reads(pages, pageSize, exponent, start, index, result)
      {
        var (page, position) := Location(pageSize, exponent, index);
        PositionIs(pageSize, exponent, index);
        var count := Min(MonusSat(pageSize, position), MonusSat(end, index));
        StretchReads(pages, pageSize, exponent, index, count);
        if (exponent, page) !in pages {
          return Err(ChunkNotFound);
        }
        if |pages[(exponent, page)]| < position + count {
          return Err(ChunkNotFound);
        }
        ReadsJoin(pages, pageSize, exponent, start, index, index + count, result,
                  pages[(exponent, page)][position..position + count]);
        result := result + pages[(exponent, page)][position..position + count];
        index := index + count;
      }
      r := Ok(result);
    }

    /** `add_all_chunks`: page after page of the list, the last one possibly shorter. */
    method AddAllChunks(exponent: nat, chunks: seq<Chunk>) returns (n: nat)
      requires Valid()
      modifies this`pages
      ensures Valid() && Holds(pages, pageSize, exponent, chunks)
      ensures IsPageCount(n, pageSize, |chunks|)
      ensures forall k: (nat, nat) :: !(k.0 == exponent && k.1 < n) ==>
        (k in pages <==> k in old(pages)) && (k in pages ==> pages[k] == old(pages)[k])
    {
      hide PageOf, StoredBelow, IsPageCount, Holds, NextOffset;
      n := 0;
      var offset := 0;
      FirstPage(pages, pageSize, exponent, chunks);
      while offset < |chunks|
        invariant Valid() && NextOffset(n, pageSize, |chunks|, offset)
        invariant StoredBelow(pages, pageSize, exponent, chunks, n)
        invariant forall k: (nat, nat) :: !(k.0 == exponent && k.1 < n) ==>
          (k in pages <==> k in old(pages)) && (k in pages ==> pages[k] == old(pages)[k])
        decreases |chunks| - offset
      {
        WritePage(pages, pageSize, exponent, chunks, n, offset);
        pages := pages[(exponent, n) := PageOf(chunks, pageSize, n)];
        n := n + 1;
        offset := offset + pageSize;
      }
      AllPages(pages, pageSize, exponent, chunks, n, offset);
    }
  }

  /** `offset` is where page `n` starts, and page `n - 1` starts within the list. */
  predicate NextOffset(n: nat, d: nat, length: nat, offset: nat) {
    offset == n * d && (n == 0 || (n - 1) * d < length)
  }

  ghost predicate StoredBelow(pages: map<(nat, nat), seq<Chunk>>, d: nat, exponent: nat, chunks: seq<Chunk>, n: nat)
    requires d > 0
  {
    forall p: nat :: p < n ==> Stored(pages, d, exponent, chunks, p)
  }

  lemma FirstPage(pages: map<(nat, nat), seq<Chunk>>, d: nat, exponent: nat, chunks: seq<Chunk>)
    requires d > 0
    ensures NextOffset(0, d, |chunks|, 0) && StoredBelow(pages, d, exponent, chunks, 0)
  {
  }

  lemma WritePage(pages: map<(nat, nat), seq<Chunk>>, d: nat, exponent: nat, chunks: seq<Chunk>, n: nat, offset: nat)
    requires d > 0 && NextOffset(n, d, |chunks|, offset) && offset < |chunks|
    requires StoredBelow(pages, d, exponent, chunks, n)
    ensures n * d <= |chunks| && NextOffset(n + 1, d, |chunks|, offset + d)
    ensures StoredBelow(pages[(exponent, n) := PageOf(chunks, d, n)], d, exponent, chunks, n + 1)
  {
    hide PageOf;
    assert (n + 1) * d == n * d + d;
    var after := pages[(exponent, n) := PageOf(chunks, d, n)];
    forall p: nat | p < n + 1 ensures Stored(after, d, exponent, chunks, p) {
      if p < n { assert Stored(pages, d, exponent, chunks, p); }
    }
  }

  lemma AllPages(pages: map<(nat, nat), seq<Chunk>>, d: nat, exponent: nat, chunks: seq<Chunk>, n: nat, offset: nat)
    requires d > 0 && NextOffset(n, d, |chunks|, offset) && offset >= |chunks|
    requires StoredBelow(pages, d, exponent, chunks, n)
    ensures Holds(pages, d, exponent, chunks) && IsPageCount(n, d, |chunks|)
  {
    hide Stored;
    forall p: nat | p * d < |chunks| ensures Stored(pages, d, exponent, chunks, p) {
      PagesBelow(n, d, |chunks|, p);
    }
  }

  /** `n` pages of size `d` are what a list of `length` needs. */
  predicate IsPageCount(n: nat, d: nat, length: nat) {
    n * d >= length && (n == 0 || (n - 1) * d < length)
  }

  lemma PositionIs(pageSize: nat, exponent: nat, index: nat)
    requires pageSize > 0
    ensures Location(pageSize, exponent, index).1 == index % pageSize < pageSize
  {
  }

  lemma PagesBelow(n: nat, d: nat, length: nat, p: nat)
    requires d > 0 && IsPageCount(n, d, length)
    ensures p < n <==> p * d < length
  {
    if p < n { ScaleMonotone(p, n - 1, d); } else { ScaleMonotone(n, p, d); }
  }

  lemma ScaleMonotone(a: nat, b: nat, d: nat)
    requires a <= b
    ensures a * d <= b * d
  {
    assert b * d == a * d + (b - a) * d;
  }

  /** The `p`-th page-size slice of a list. */
  function PageOf(chunks: seq<Chunk>, pageSize: nat, p: nat): (page: seq<Chunk>)
    requires pageSize > 0 && p * pageSize <= |chunks|
    ensures |page| <= pageSize
  {
    chunks[p * pageSize..Min((p + 1) * pageSize, |chunks|)]
  }

  /** The pages of a list under one ring exponent. */
  ghost predicate Holds(pages: map<(nat, nat), seq<Chunk>>, pageSize: nat, exponent: nat, chunks: seq<Chunk>)
    requires pageSize > 0
  {
    forall p: nat :: p * pageSize < |chunks| ==> Stored(pages, pageSize, exponent, chunks, p)
  }

  ghost predicate Stored(pages: map<(nat, nat), seq<Chunk>>, pageSize: nat, exponent: nat, chunks: seq<Chunk>, p: nat)
    requires pageSize > 0
  {
    p * pageSize <= |chunks| && (exponent, p) in pages && pages[(exponent, p)] == PageOf(chunks, pageSize, p)
  }

  /** What the ring addresses: all its pages, completely filled. */
  function Capacity(pageSize: nat, exponent: nat): nat
    requires pageSize > 0
  {
    TotalPages(pageSize, exponent) * pageSize
  }

  /** With a power-of-two page size that is the ring's size, or one page if the ring is smaller. */
  lemma CapacityIsRing(k: nat, exponent: nat)
    ensures Capacity(Pow2(k), exponent) == if k <= exponent then Pow2(exponent) else Pow2(k)
  {
    hide TotalPages, Pow2;
    TotalPagesPow2(k, exponent);
    if k <= exponent {
      Pow2Split(exponent, k);
      assert MonusSat(exponent, k) == exponent - k;
    } else {
      assert MonusSat(exponent, k) == 0;
      Pow2Zero();
    }
  }

  lemma Pow2Zero()
    ensures Pow2(0) == 1
  {
  }

  lemma PageWithin(index: nat, d: nat, n: nat)
    requires d > 0
    ensures index < n * d <==> index / d < n
  {
    DivideAndRest(index, d);
    if index / d < n {
      ScaleMonotone(index / d + 1, n, d);
      assert (index / d + 1) * d == d * (index / d) + d;
    } else {
      ScaleMonotone(n, index / d, d);
    }
  }

  /** A stored list reads back unchanged at every index the ring addresses. */
  lemma StoredReadsBack(pages: map<(nat, nat), seq<Chunk>>, k: nat, exponent: nat, chunks: seq<Chunk>, i: nat)
    requires Holds(pages, Pow2(k), exponent, chunks) && i < |chunks| && i < Capacity(Pow2(k), exponent)
    ensures GetChunk(pages, Pow2(k), exponent, i) == Ok(chunks[i])
  {
    hide Pow2, BitAnd, TotalPages;
    var d, n := Pow2(k), TotalPages(Pow2(k), exponent);
    LocationIsModular(k, exponent, i);
    PageWithin(i, d, n);
    DivideAndRest(i, d);
    var p, r := i / d, i % d;
    RemainderUnique(p, n, 0, p);
    assert p * d == d * p <= i;
    assert (p + 1) * d == d * p + d;
    assert Stored(pages, d, exponent, chunks, p);
    assert PageOf(chunks, d, p)[r] == chunks[i];
  }

  ghost predicate RoundTrips(k: nat, exponent: nat, length: nat) {
    forall pages, chunks: seq<Chunk> :: |chunks| == length && Holds(pages, Pow2(k), exponent, chunks) ==>
      Reads(pages, Pow2(k), exponent, 0, length, chunks)
  }

  /** Storing then reading is the identity for all lists of a length iff the ring can address it. */
  lemma RoundTripIffFits(k: nat, exponent: nat, length: nat)
    ensures RoundTrips(k, exponent, length) <==> length <= Capacity(Pow2(k), exponent)
  {
    hide GetChunk, Pow2;
    var d, n := Pow2(k), TotalPages(Pow2(k), exponent);
    if length <= n * d {
      forall pages, chunks: seq<Chunk> | |chunks| == length && Holds(pages, d, exponent, chunks)
        ensures Reads(pages, d, exponent, 0, length, chunks)
      {
        hide Holds;
        forall i | 0 <= i < length ensures GetChunk(pages, d, exponent, i) == Ok(chunks[i]) {
          StoredReadsBack(pages, k, exponent, chunks, i);
        }
      }
    } else {
      WrapsAround(k, exponent, length);
    }
  }

  /** The pages of the list 0, 1, 2, ... */
  function Counting(length: nat): seq<Chunk> { seq(length, i => i) }

  function PagesFor(d: nat, exponent: nat, chunks: seq<Chunk>): map<(nat, nat), seq<Chunk>>
    requires d > 0
  {
    map p: nat | p < |chunks| && p * d < |chunks| :: (exponent, p) := PageOf(chunks, d, p)
  }

  lemma PagesForHolds(d: nat, exponent: nat, chunks: seq<Chunk>)
    requires d > 0
    ensures Holds(PagesFor(d, exponent, chunks), d, exponent, chunks)
  {
    forall p: nat | p * d < |chunks| ensures Stored(PagesFor(d, exponent, chunks), d, exponent, chunks, p) {
      ScaleMonotone(1, d, p);
    }
  }

  lemma ReadsAt(pages: map<(nat, nat), seq<Chunk>>, d: nat, exponent: nat, length: nat, chunks: seq<Chunk>, i: nat)
    requires d > 0 && i < length == |chunks|
    ensures Reads(pages, d, exponent, 0, length, chunks) ==> GetChunk(pages, d, exponent, i) == Ok(chunks[i])
  {
    hide GetChunk;
    assert chunks[i] == chunks[i - 0];
  }

  /** Past the capacity, the first index addresses the first page again. */
  lemma WrapsAround(k: nat, exponent: nat, length: nat)
    requires length > Capacity(Pow2(k), exponent)
    ensures !RoundTrips(k, exponent, length)
  {
    hide Pow2, BitAnd;
    var d, n := Pow2(k), TotalPages(Pow2(k), exponent);
    var chunks := Counting(length);
    var pages := PagesFor(d, exponent, chunks);
    PagesForHolds(d, exponent, chunks);
    LocationIsModular(k, exponent, n * d);
    LocationIsModular(k, exponent, 0);
    RemainderUnique(n * d, d, n, 0);
    RemainderUnique(n, n, 1, 0);
    RemainderUnique(0, d, 0, 0);
    RemainderUnique(0, n, 0, 0);
    assert Location(d, exponent, n * d) == Location(d, exponent, 0);
    hide Holds, PagesFor, TotalPages, Location;
    assert GetChunk(pages, d, exponent, n * d) == GetChunk(pages, d, exponent, 0);
    ScaleMonotone(1, n, d);
    assert chunks[0] == 0 && chunks[n * d] == n * d > 0;
    ReadsAt(pages, d, exponent, length, chunks, 0);
    ReadsAt(pages, d, exponent, length, chunks, n * d);
  }
}
