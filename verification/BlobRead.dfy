/** Reading a window of a verified blob, and reading a whole blob page by page. */
module BlobRead {
  import opened Wrappers

  const U64_MAX: nat := 0xFFFF_FFFF_FFFF_FFFF

  type Byte = b: nat | b < 256

  type Bytes = seq<Byte>

  datatype Error = TooLarge | InvalidWindow | Corrupt | Overflow

  function Min(a: nat, b: nat): nat { if a < b then a else b }

  function Max(a: nat, b: nat): nat { if a < b then b else a }

  function Concat(chunks: seq<Bytes>): Bytes {
    if chunks == [] then [] else Concat(chunks[..|chunks| - 1]) + chunks[|chunks| - 1]
  }

  /** The bytes of `content` in the window. */
  function Window(content: Bytes, offset: nat, limit: nat): Bytes {
    content[Min(offset, |content|)..Min(offset + limit, |content|)]
  }

  /** What the next piece of the file adds to the window. */
  function Piece(chunk: Bytes, observed: nat, offset: nat, limit: nat): Bytes {
    var end := observed + |chunk|;
    var from, to := Max(offset, observed), Min(Min(offset + limit, U64_MAX), end);
    if from < to then chunk[from - observed..to - observed] else []
  }

  lemma PieceIsSlice(content: Bytes, chunk: Bytes, offset: nat, limit: nat)
    requires |content + chunk| <= U64_MAX
    ensures var all := content + chunk;
            var from, to := Max(Min(offset, |all|), Min(offset + limit, |content|)), Min(offset + limit, |all|);
            from <= to && Piece(chunk, |content|, offset, limit) == all[from..to]
  {
    var n := |content|;
    var from, to := Max(offset, n), Min(offset + limit, n + |chunk|);
    if from < to { ChunkSlice(content, chunk, from - n, to - n); }
  }

  lemma ChunkSlice(content: Bytes, chunk: Bytes, from: nat, to: nat)
    requires from <= to <= |chunk|
    ensures chunk[from..to] == (content + chunk)[|content| + from..|content| + to]
  {
  }

  lemma WindowIsSlice(content: Bytes, chunk: Bytes, offset: nat, limit: nat)
    ensures Window(content, offset, limit) == (content + chunk)[Min(offset, |content|)..Min(offset + limit, |content|)]
  {
  }

  lemma PieceExtends(content: Bytes, chunk: Bytes, offset: nat, limit: nat)
    requires |content + chunk| <= U64_MAX
    ensures Window(content, offset, limit) + Piece(chunk, |content|, offset, limit)
            == Window(content + chunk, offset, limit)
  {
    WindowIsSlice(content, chunk, offset, limit);
    PieceIsSlice(content, chunk, offset, limit);
    if offset <= |content| {
      SliceJoin(content + chunk, offset, Min(offset + limit, |content|), Min(offset + limit, |content + chunk|));
    }
  }

  lemma SliceJoin(all: Bytes, a: nat, b: nat, c: nat)
    requires a <= b <= c <= |all|
    ensures all[a..b] + all[b..c] == all[a..c]
  {
  }

  /** What the caller knows before the file is read: size limit, digest, expected
      length, window, the file's size, and whether it was touched meanwhile. */
  datatype Request = Request(
    maxBlob: nat, maxRead: nat, digest: nat, expected: nat, offset: nat, limit: nat, size: nat, touched: bool)

  predicate Acceptable(r: Request) {
    r.expected <= r.maxBlob && 0 < r.limit <= r.maxRead && r.offset <= r.expected && r.size == r.expected
  }

  /** However the file arrives in chunks, the window of its content is returned
      exactly when length and digest match and nothing changed meanwhile. */
  method ReadSlice(hash: Bytes -> nat, chunks: seq<Bytes>, r: Request) returns (result: Result<Bytes, Error>)
    requires r.expected <= U64_MAX && r.offset <= U64_MAX
    ensures result.Success? <==>
            Acceptable(r) && |Concat(chunks)| == r.expected && hash(Concat(chunks)) == r.digest && !r.touched
    ensures result.Success? ==> result.value == Window(Concat(chunks), r.offset, r.limit)
    ensures r.expected > r.maxBlob ==> result == Failure(TooLarge)
  {
    if r.expected > r.maxBlob { return Failure(TooLarge); }
    if r.limit == 0 || r.limit > r.maxRead || r.offset > r.expected { return Failure(InvalidWindow); }
    if r.size != r.expected { return Failure(Corrupt); }
    var observed: nat := 0;
    var bytes: Bytes := [];
    ghost var content: Bytes := [];
    for i := 0 to |chunks|
      invariant content == Concat(chunks[..i]) && observed == |content| <= r.expected
      invariant bytes == Window(content, r.offset, r.limit)
    {
      NextChunk(chunks, i);
      var end := observed + |chunks[i]|;
      if end > r.expected {
        return Failure(if end > U64_MAX then Overflow else Corrupt);
      }
      PieceExtends(content, chunks[i], r.offset, r.limit);
      bytes := bytes + Piece(chunks[i], observed, r.offset, r.limit);
      content := content + chunks[i];
      observed := end;
    }
    assert chunks[..|chunks|] == chunks;
    if hash(Concat(chunks)) != r.digest || observed != r.expected || r.touched { return Failure(Corrupt); }
    return Success(bytes);
  }

  lemma NextChunk(chunks: seq<Bytes>, i: nat)
    requires i < |chunks|
    ensures Concat(chunks[..i + 1]) == Concat(chunks[..i]) + chunks[i]
    ensures |Concat(chunks[..i + 1])| <= |Concat(chunks)|
  {
    assert chunks[..i + 1][..i] == chunks[..i];
    ConcatGrows(chunks, i + 1);
  }

  lemma {:induction false} ConcatGrows(chunks: seq<Bytes>, n: nat)
    requires n <= |chunks|
    ensures |Concat(chunks[..n])| <= |Concat(chunks)|
    decreases |chunks|
  {
    if n == |chunks| {
      assert chunks[..n] == chunks;
    } else {
      assert chunks[..|chunks| - 1][..n] == chunks[..n];
      ConcatGrows(chunks[..|chunks| - 1], n);
    }
  }

  // ------------------------------------------------------------------------- paging

  /** Where the next page starts, if there is one. */
  function NextOffset(total: nat, offset: nat, page: Bytes): Option<nat> {
    if offset + |page| < total then Some(offset + |page|) else None
  }

  /** What a client gets by following the offsets with any positive page sizes. */
  function Pages(content: Bytes, offset: nat, limits: nat -> nat): Bytes
    requires offset <= |content| && forall k :: limits(k) >= 1
    decreases |content| - offset
  {
    var page := Window(content, offset, limits(offset));
    var next := NextOffset(|content|, offset, page);
    page + if next.None? then [] else Pages(content, next.value, limits)
  }

  lemma {:induction false} PagesReadAll(content: Bytes, offset: nat, limits: nat -> nat)
    requires offset <= |content| && forall k :: limits(k) >= 1
    ensures Pages(content, offset, limits) == content[offset..]
    decreases |content| - offset
  {
    var page := Window(content, offset, limits(offset));
    var next := NextOffset(|content|, offset, page);
    if next.Some? {
      PagesReadAll(content, next.value, limits);
      assert page + content[next.value..] == content[offset..];
    }
  }

  /** The whole blob, each page read from a file that arrives in chunks of its own. */
  method ReadWhole(hash: Bytes -> nat, content: Bytes, chunking: nat -> seq<Bytes>, limit: nat, max: nat)
    returns (all: Bytes)
    requires 0 < limit <= max && |content| <= max && max <= U64_MAX
    requires forall k :: Concat(chunking(k)) == content
    ensures all == content
  {
    all := [];
    var offset: nat := 0;
    var more := true;
    while more
      invariant offset <= |content| && all == content[..offset]
      invariant !more ==> offset == |content|
      decreases more, |content| - offset
    {
      var r := Request(max, max, hash(content), |content|, offset, limit, |content|, false);
      var page := ReadSlice(hash, chunking(offset), r);
      var next := NextOffset(|content|, offset, page.value);
      all := all + page.value;
      more, offset := next.Some?, offset + |page.value|;
    }
  }
}
