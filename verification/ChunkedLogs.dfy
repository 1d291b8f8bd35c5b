/** Fetching the logs of a block range in chunks, falling back to single blocks where a chunk fails. */
module ChunkedLogs {
  import opened Wrappers

  type Log = nat

  const TWO_64: nat := 0x1_0000_0000_0000_0000

  /** A log source: the logs of each block, and which inclusive range requests fail. */
  datatype Provider = Provider(logs: nat -> seq<Log>, fails: (nat, nat) -> bool)

  /** The logs of the blocks from `a` up to but not including `b`. */
  function BlockLogs(p: Provider, a: nat, b: nat): seq<Log>
    decreases if a < b then b - a else 0
  {
    if a >= b then [] else p.logs(a) + BlockLogs(p, a + 1, b)
  }

  /** A request for the blocks from `lo` to `hi`, both included. */
  function Query(p: Provider, lo: nat, hi: nat): Option<seq<Log>> {
    if p.fails(lo, hi) then None else Some(BlockLogs(p, lo, hi + 1))
  }

  lemma SingleBlock(p: Provider, b: nat)
    ensures BlockLogs(p, b, b + 1) == p.logs(b)
  {
    assert BlockLogs(p, b + 1, b + 1) == [];
  }

  // ---------------------------------------------------------------------------------------------
  // Chunk ranges
  // ---------------------------------------------------------------------------------------------

  /** Half-open. */
  datatype Range = Range(lo: nat, hi: nat)

  predicate Contains(r: Range, b: nat) {
    r.lo <= b < r.hi
  }

  function Min(a: nat, b: nat): nat {
    if a <= b then a else b
  }

  function ChunkRanges(from: nat, to: nat, size: nat): seq<Range>
    requires size >= 1
    decreases if from < to then to - from else 0
  {
    if from >= to then [] else [Range(from, Min(from + size, to))] + ChunkRanges(from + size, to, size)
  }

  /** Consecutive nonempty pieces of at most `size` blocks, from `from` exactly up to `to`. */
  predicate Tiles(ranges: seq<Range>, from: nat, to: nat, size: nat) {
    if from >= to then ranges == []
    else
      && ranges != [] && ranges[0].lo == from < ranges[0].hi && ranges[0].hi <= to && ranges[0].hi <= from + size
      && Tiles(ranges[1..], ranges[0].hi, to, size)
  }

  lemma {:induction false} ChunksTile(from: nat, to: nat, size: nat)
    requires size >= 1
    ensures Tiles(ChunkRanges(from, to, size), from, to, size)
    decreases if from < to then to - from else 0
  {
    if from < to {
      var ranges := ChunkRanges(from, to, size);
      ChunksTile(from + size, to, size);
      assert ranges[1..] == ChunkRanges(from + size, to, size);
      if from + size >= to {
        assert ranges[1..] == [];
      }
    }
  }

  /** In a tiling every block of the range lies in exactly one piece, and no other block in any. */
  lemma {:induction false} InExactlyOnePiece(ranges: seq<Range>, from: nat, to: nat, size: nat, b: nat)
    requires Tiles(ranges, from, to, size)
    ensures from <= b < to <==> exists i :: 0 <= i < |ranges| && Contains(ranges[i], b)
    ensures forall i, j :: 0 <= i < |ranges| && 0 <= j < |ranges| ==>
              Contains(ranges[i], b) && Contains(ranges[j], b) ==> i == j
    decreases |ranges|
  {
    if from < to {
      var tail := ranges[1..];
      InExactlyOnePiece(tail, ranges[0].hi, to, size, b);
      assert forall i :: 0 < i < |ranges| ==> ranges[i] == tail[i - 1];
      if Contains(ranges[0], b) {
        assert forall i :: 0 <= i < |tail| ==> !Contains(tail[i], b);
      } else if from <= b < to {
        var i :| 0 <= i < |tail| && Contains(tail[i], b);
        assert Contains(ranges[i + 1], b);
      }
    }
  }

  /** The piece a block lies in. */
  function Home(ranges: seq<Range>, b: nat): Option<Range> {
    if ranges == [] then None else if Contains(ranges[0], b) then Some(ranges[0]) else Home(ranges[1..], b)
  }

  // ---------------------------------------------------------------------------------------------
  // Requests
  // ---------------------------------------------------------------------------------------------

  function Single(p: Provider, b: nat): seq<Log> {
    var single := Query(p, b, b);
    if single.Some? then single.value else []
  }

  function Singles(p: Provider, lo: nat, hi: nat): seq<Log>
    decreases if lo < hi then hi - lo else 0
  {
    if lo >= hi then [] else Single(p, lo) + Singles(p, lo + 1, hi)
  }

  function ChunkLogs(p: Provider, r: Range): seq<Log> {
    if r.lo >= r.hi then []
    else
      var chunk := Query(p, r.lo, r.hi - 1);
      if chunk.Some? then chunk.value else Singles(p, r.lo, r.hi)
  }

  /** All chunks, one after the other. */
  function Gather(p: Provider, ranges: seq<Range>): seq<Log> {
    if ranges == [] then [] else ChunkLogs(p, ranges[0]) + Gather(p, ranges[1..])
  }

  lemma SinglesStep(p: Provider, logs: seq<Log>, b: nat, hi: nat)
    requires b < hi
    ensures logs + Singles(p, b, hi) == (logs + Single(p, b)) + Singles(p, b + 1, hi)
  {
    Assoc(logs, Single(p, b), Singles(p, b + 1, hi));
  }

  lemma SinglesDone(p: Provider, logs: seq<Log>, hi: nat)
    ensures logs + Singles(p, hi, hi) == logs
  {
  }

  method FetchSingles(p: Provider, lo: nat, hi: nat) returns (logs: seq<Log>)
    requires lo <= hi
    ensures logs == Singles(p, lo, hi)
  {
    hide Query, Singles;
    logs := [];
    assert logs + Singles(p, lo, hi) == Singles(p, lo, hi);
    for b := lo to hi
      invariant logs + Singles(p, b, hi) == Singles(p, lo, hi)
    {
      var single := Query(p, b, b);
      SinglesStep(p, logs, b, hi);
      if single.Some? {
        logs := logs + single.value;
      } else {
        assert logs + [] == logs;
      }
    }
    SinglesDone(p, logs, hi);
  }

  method FetchChunk(p: Provider, r: Range) returns (logs: seq<Log>)
    requires r.lo < r.hi
    ensures logs == ChunkLogs(p, r)
  {
    var chunk := Query(p, r.lo, r.hi - 1);
    if chunk.Some? {
      return chunk.value;
    }
    logs := FetchSingles(p, r.lo, r.hi);
  }

  datatype Part = Part(start: nat, logs: seq<Log>)

  /** Stable insertion: after every part that does not start later. */
  function Insert(parts: seq<Part>, x: Part): seq<Part> {
    if parts == [] || parts[|parts| - 1].start <= x.start then parts + [x]
    else Insert(parts[..|parts| - 1], x) + [parts[|parts| - 1]]
  }

  function SortByStart(parts: seq<Part>): seq<Part> {
    if parts == [] then [] else Insert(SortByStart(parts[..|parts| - 1]), parts[|parts| - 1])
  }

  predicate Sorted(parts: seq<Part>) {
    forall i :: 0 < i < |parts| ==> parts[i - 1].start <= parts[i].start
  }

  lemma InsertLast(parts: seq<Part>, x: Part)
    requires parts == [] || parts[|parts| - 1].start <= x.start
    ensures Insert(parts, x) == parts + [x]
  {
  }

  /** The buffered stream keeps the chunk order, which sorting then leaves alone. */
  lemma {:induction false} SortKeepsSorted(parts: seq<Part>)
    requires Sorted(parts)
    ensures SortByStart(parts) == parts
  {
    hide Insert;
    if parts != [] {
      SortKeepsSorted(parts[..|parts| - 1]);
      InsertLast(parts[..|parts| - 1], parts[|parts| - 1]);
      assert parts == parts[..|parts| - 1] + [parts[|parts| - 1]];
    }
  }

  function Flatten(parts: seq<Part>): seq<Log> {
    if parts == [] then [] else parts[0].logs + Flatten(parts[1..])
  }

  function Parts(p: Provider, ranges: seq<Range>): seq<Part> {
    seq(|ranges|, i requires 0 <= i < |ranges| => Part(ranges[i].lo, ChunkLogs(p, ranges[i])))
  }

  lemma {:induction false} FlattenParts(p: Provider, ranges: seq<Range>)
    ensures Flatten(Parts(p, ranges)) == Gather(p, ranges)
  {
    if ranges != [] {
      FlattenParts(p, ranges[1..]);
      hide ChunkLogs;
      assert Parts(p, ranges)[1..] == Parts(p, ranges[1..]);
    }
  }

  lemma {:induction false} TilesSorted(ranges: seq<Range>, from: nat, to: nat, size: nat)
    requires Tiles(ranges, from, to, size)
    ensures forall i :: 0 <= i < |ranges| ==> from <= ranges[i].lo < ranges[i].hi
    ensures forall i :: 0 < i < |ranges| ==> ranges[i - 1].lo <= ranges[i].lo
    decreases |ranges|
  {
    if from < to {
      TilesSorted(ranges[1..], ranges[0].hi, to, size);
      assert forall i :: 0 < i < |ranges| ==> ranges[i] == ranges[1..][i - 1];
    }
  }

  method FlattenLogs(parts: seq<Part>) returns (all: seq<Log>)
    ensures all == Flatten(parts)
  {
    all := [];
    for i := 0 to |parts|
      invariant all + Flatten(parts[i..]) == Flatten(parts)
    {
      assert parts[i..][1..] == parts[i + 1..];
      Assoc(all, parts[i].logs, Flatten(parts[i + 1..]));
      all := all + parts[i].logs;
    }
    assert all + [] == all;
  }

  // ---------------------------------------------------------------------------------------------
  // Which logs come out
  // ---------------------------------------------------------------------------------------------

  /** Block `b`'s logs arrive: the request for its chunk succeeds, or that for the block alone. */
  predicate Arrives(p: Provider, ranges: seq<Range>, b: nat) {
    var home := Home(ranges, b);
    home.Some? && home.value.hi > 0 && (!p.fails(home.value.lo, home.value.hi - 1) || !p.fails(b, b))
  }

  /** The logs of the blocks that arrive, block by block. */
  function ArrivedLogs(p: Provider, ranges: seq<Range>, a: nat, b: nat): seq<Log>
    decreases if a < b then b - a else 0
  {
    if a >= b then []
    else (if Arrives(p, ranges, a) then p.logs(a) else []) + ArrivedLogs(p, ranges, a + 1, b)
  }

  lemma {:induction false} ArrivedConcat(p: Provider, ranges: seq<Range>, a: nat, m: nat, b: nat)
    requires a <= m <= b
    ensures ArrivedLogs(p, ranges, a, b) == ArrivedLogs(p, ranges, a, m) + ArrivedLogs(p, ranges, m, b)
    decreases m - a
  {
    hide Arrives;
    if a < m {
      ArrivedConcat(p, ranges, a + 1, m, b);
      var first := if Arrives(p, ranges, a) then p.logs(a) else [];
      Assoc(first, ArrivedLogs(p, ranges, a + 1, m), ArrivedLogs(p, ranges, m, b));
    } else {
      assert [] + ArrivedLogs(p, ranges, m, b) == ArrivedLogs(p, ranges, m, b);
    }
  }

  /** What arrives of one chunk. */
  lemma {:induction false} ChunkArrives(p: Provider, ranges: seq<Range>, r: Range, a: nat)
    requires r.lo <= a <= r.hi && forall b :: a <= b < r.hi ==> Home(ranges, b) == Some(r)
    ensures r.lo < r.hi ==>
              ArrivedLogs(p, ranges, a, r.hi) ==
                if p.fails(r.lo, r.hi - 1) then Singles(p, a, r.hi) else BlockLogs(p, a, r.hi)
    decreases r.hi - a
  {
    hide Home;
    if a < r.hi {
      ChunkArrives(p, ranges, r, a + 1);
      SingleBlock(p, a);
    }
  }

  lemma HomeOf(rest: seq<Range>, from: nat, to: nat, size: nat, b: nat)
    requires Tiles(rest, from, to, size) && from <= b < to
    ensures rest != [] && Home(rest, b) == if b < rest[0].hi then Some(rest[0]) else Home(rest[1..], b)
  {
  }

  lemma FirstChunkArrives(p: Provider, ranges: seq<Range>, r: Range)
    requires r.lo < r.hi && forall b :: r.lo <= b < r.hi ==> Home(ranges, b) == Some(r)
    ensures ChunkLogs(p, r) == ArrivedLogs(p, ranges, r.lo, r.hi)
  {
    hide Home, ArrivedLogs, Singles, BlockLogs;
    ChunkArrives(p, ranges, r, r.lo);
  }

  lemma {:induction false} GatherFrom(p: Provider, ranges: seq<Range>, rest: seq<Range>, from: nat, to: nat, size: nat)
    requires Tiles(rest, from, to, size) && forall b :: from <= b < to ==> Home(ranges, b) == Home(rest, b)
    ensures Gather(p, rest) == ArrivedLogs(p, ranges, from, to)
    decreases |rest|
  {
    hide Home, ChunkLogs, Arrives;
    if from < to {
      var r := rest[0];
      forall b | from <= b < to ensures Home(ranges, b) == if b < r.hi then Some(r) else Home(rest[1..], b) {
        HomeOf(rest, from, to, size, b);
      }
      hide ArrivedLogs;
      FirstChunkArrives(p, ranges, r);
      GatherFrom(p, ranges, rest[1..], r.hi, to, size);
      ArrivedConcat(p, ranges, from, r.hi, to);
    }
  }

  /** For every pattern of failures: the result is, block by block and in order, the logs of exactly the
      blocks whose chunk request or own request succeeds. */
  lemma ResultIsWhatArrives(p: Provider, from: nat, to: nat, size: nat)
    requires size >= 1
    ensures var ranges := ChunkRanges(from, to, size);
            Gather(p, ranges) == ArrivedLogs(p, ranges, from, to)
  {
    ChunksTile(from, to, size);
    GatherFrom(p, ChunkRanges(from, to, size), ChunkRanges(from, to, size), from, to, size);
  }

  lemma {:induction false} EveryBlockHasAHome(ranges: seq<Range>, from: nat, to: nat, size: nat, b: nat)
    requires Tiles(ranges, from, to, size) && from <= b < to
    ensures Home(ranges, b).Some? && Contains(Home(ranges, b).value, b)
    decreases |ranges|
  {
    if b >= ranges[0].hi {
      EveryBlockHasAHome(ranges[1..], ranges[0].hi, to, size, b);
    }
  }

  lemma {:induction false} AllArrive(p: Provider, ranges: seq<Range>, a: nat, b: nat)
    requires forall c :: a <= c < b ==> Arrives(p, ranges, c)
    ensures ArrivedLogs(p, ranges, a, b) == BlockLogs(p, a, b)
    decreases if a < b then b - a else 0
  {
    hide Arrives;
    if a < b {
      AllArrive(p, ranges, a + 1, b);
    }
  }

  /** If requests for single blocks succeed, then whatever chunks fail, the result is the block-by-block
      logs of the half-open range. */
  lemma SinglesSuffice(p: Provider, from: nat, to: nat, size: nat)
    requires size >= 1 && forall b :: from <= b < to ==> !p.fails(b, b)
    ensures Gather(p, ChunkRanges(from, to, size)) == BlockLogs(p, from, to)
  {
    var ranges := ChunkRanges(from, to, size);
    ResultIsWhatArrives(p, from, to, size);
    ChunksTile(from, to, size);
    forall b | from <= b < to ensures Arrives(p, ranges, b) {
      EveryBlockHasAHome(ranges, from, to, size, b);
    }
    AllArrive(p, ranges, from, to);
  }

  predicate Subsequence(x: seq<Log>, y: seq<Log>)
    decreases |y|
  {
    if y == [] then x == []
    else Subsequence(x, y[1..]) || (x != [] && x[0] == y[0] && Subsequence(x[1..], y[1..]))
  }

  lemma {:induction false} SubsequenceSkip(x: seq<Log>, z: seq<Log>, y: seq<Log>)
    requires Subsequence(x, y)
    ensures Subsequence(x, z + y)
  {
    if z == [] {
      assert z + y == y;
    } else {
      SubsequenceSkip(x, z[1..], y);
      assert (z + y)[1..] == z[1..] + y;
    }
  }

  lemma {:induction false} SubsequenceKeep(z: seq<Log>, x: seq<Log>, y: seq<Log>)
    requires Subsequence(x, y)
    ensures Subsequence(z + x, z + y)
  {
    if z == [] {
      assert z + y == y && z + x == x;
    } else {
      SubsequenceKeep(z[1..], x, y);
      assert (z + y)[1..] == z[1..] + y && (z + x)[1..] == z[1..] + x;
    }
  }

  /** Whatever fails, nothing is added, repeated or reordered. */
  lemma {:induction false} ArrivedIsSubsequence(p: Provider, ranges: seq<Range>, a: nat, b: nat)
    ensures Subsequence(ArrivedLogs(p, ranges, a, b), BlockLogs(p, a, b))
    decreases if a < b then b - a else 0
  {
    hide Arrives, Subsequence;
    if a < b {
      ArrivedIsSubsequence(p, ranges, a + 1, b);
      var x, y := ArrivedLogs(p, ranges, a + 1, b), BlockLogs(p, a + 1, b);
      if Arrives(p, ranges, a) {
        SubsequenceKeep(p.logs(a), x, y);
      } else {
        SubsequenceSkip(x, p.logs(a), y);
        assert [] + x == x;
      }
    } else {
      NothingIsSubsequence();
    }
  }

  lemma NothingIsSubsequence()
    ensures Subsequence([], [])
  {
  }

  lemma {:induction false} BlockLogsLast(p: Provider, a: nat, b: nat)
    requires a <= b
    ensures BlockLogs(p, a, b + 1) == BlockLogs(p, a, b) + p.logs(b)
    decreases b - a
  {
    if a < b {
      BlockLogsLast(p, a + 1, b);
      Assoc(p.logs(a), BlockLogs(p, a + 1, b), p.logs(b));
    } else {
      SingleBlock(p, b);
      assert [] + p.logs(b) == p.logs(b);
    }
  }

  /** Every block from `a` up to `b` arrives or has no logs. */
  ghost predicate NothingLost(p: Provider, ranges: seq<Range>, a: nat, b: nat) {
    forall c :: a <= c < b ==> Arrives(p, ranges, c) || p.logs(c) == []
  }

  lemma NothingLostStep(p: Provider, ranges: seq<Range>, a: nat, b: nat)
    requires a < b
    ensures NothingLost(p, ranges, a, b) <==>
              (Arrives(p, ranges, a) || p.logs(a) == []) && NothingLost(p, ranges, a + 1, b)
  {
    hide Arrives;
  }

  /** What arrives is never more than the logs of the range, and as much exactly when nothing is lost. */
  lemma {:induction false} AsMuchIffNothingLost(p: Provider, ranges: seq<Range>, a: nat, b: nat)
    ensures |ArrivedLogs(p, ranges, a, b)| <= |BlockLogs(p, a, b)|
    ensures |ArrivedLogs(p, ranges, a, b)| == |BlockLogs(p, a, b)| <==> NothingLost(p, ranges, a, b)
    ensures NothingLost(p, ranges, a, b) ==> ArrivedLogs(p, ranges, a, b) == BlockLogs(p, a, b)
    decreases if a < b then b - a else 0
  {
    hide Arrives;
    if a < b {
      NothingLostStep(p, ranges, a, b);
      AsMuchIffNothingLost(p, ranges, a + 1, b);
    }
  }

  /** For every pattern of failures, exactly when the fallback answers what the direct request would:
      the last block, before which the fallback stops, has no logs, and neither has any block of which
      both the chunk's request and its own fail. */
  lemma FallbackIsDirectIff(p: Provider, from: nat, to: nat, size: nat)
    requires size >= 1 && from <= to
    ensures var ranges := ChunkRanges(from, to, size);
            Gather(p, ranges) == BlockLogs(p, from, to + 1) <==>
              p.logs(to) == [] && forall b :: from <= b < to ==> Arrives(p, ranges, b) || p.logs(b) == []
  {
    hide Gather, ChunkRanges, ArrivedLogs, Arrives;
    var ranges := ChunkRanges(from, to, size);
    ResultIsWhatArrives(p, from, to, size);
    BlockLogsLast(p, from, to);
    AsMuchIffNothingLost(p, ranges, from, to);
    assert NothingLost(p, ranges, from, to) <==>
           forall b :: from <= b < to ==> Arrives(p, ranges, b) || p.logs(b) == [];
    if p.logs(to) == [] {
      assert BlockLogs(p, from, to) + [] == BlockLogs(p, from, to);
    }
  }

  const ONE_LOG := Provider((b: nat) => if b == 0 then [7] else [], (lo: nat, hi: nat) => lo == 0 && hi == 0)

  /** A block whose own request fails after that of its chunk is lost, though the last block is empty. */
  lemma FailingBlockIsLost()
    ensures ONE_LOG.logs(1) == [] && Gather(ONE_LOG, ChunkRanges(0, 1, 1)) != BlockLogs(ONE_LOG, 0, 2)
  {
    var ranges := ChunkRanges(0, 1, 1);
    assert ranges == [Range(0, 1)];
    assert Home(ranges, 0) == Some(Range(0, 1));
    assert !Arrives(ONE_LOG, ranges, 0);
    FallbackIsDirectIff(ONE_LOG, 0, 1, 1);
  }

  /** The end of every chunk is computed within 64 bits. */
  predicate StartsFit(from: nat, to: nat, size: nat)
    requires size >= 1
  {
    var ranges := ChunkRanges(from, to, size);
    forall i :: 0 <= i < |ranges| ==> ranges[i].lo + size < TWO_64
  }

  lemma RangesStep(done: seq<Range>, start: nat, to: nat, size: nat)
    requires size >= 1 && start < to
    ensures var whole, r := done + ChunkRanges(start, to, size), Range(start, Min(start + size, to));
            whole == (done + [r]) + ChunkRanges(start + size, to, size) && |done| < |whole| && whole[|done|] == r
  {
    Assoc(done, [Range(start, Min(start + size, to))], ChunkRanges(start + size, to, size));
  }

  lemma RangesDone(done: seq<Range>, start: nat, to: nat, size: nat)
    requires size >= 1 && start >= to
    ensures done + ChunkRanges(start, to, size) == done
  {
  }

  /** The ranges, computed with 64-bit additions. */
  method MakeRanges(from: nat, to: nat, size: nat) returns (ranges: seq<Range>)
    requires size >= 1 && StartsFit(from, to, size)
    ensures ranges == ChunkRanges(from, to, size)
  {
    hide ChunkRanges;
    ghost var whole := ChunkRanges(from, to, size);
    ranges := [];
    var start := from;
    assert [] + whole == whole;
    while start < to
      invariant ranges + ChunkRanges(start, to, size) == whole
      decreases if start < to then to - start else 0
    {
      RangesStep(ranges, start, to, size);
      assert start + size < TWO_64;
      ranges := ranges + [Range(start, Min((start + size) % TWO_64, to))];
      start := start + size;
    }
    RangesDone(ranges, start, to, size);
  }

  /** The chunked fallback.  Without a numeric range the filter is passed on as it is: `direct` is what
      the source answers to it. */
  method GetLogsChunkedConcurrent(p: Provider, from: Option<nat>, to: Option<nat>, size: nat, direct: Option<seq<Log>>)
    returns (r: Option<seq<Log>>)
    requires size >= 1 && (from.Some? && to.Some? ==> StartsFit(from.value, to.value, size))
    ensures from.None? || to.None? ==> r == direct
    ensures from.Some? && to.Some? ==>
              var ranges := ChunkRanges(from.value, to.value, size);
              r == Some(Gather(p, ranges)) && r == Some(ArrivedLogs(p, ranges, from.value, to.value))
  {
    if from.None? || to.None? {
      return direct;
    }
    if from.value >= to.value {
      return Some([]);
    }
    hide ChunkLogs;
    var ranges := MakeRanges(from.value, to.value, size);
    ResultIsWhatArrives(p, from.value, to.value, size);
    ChunksTile(from.value, to.value, size);
    TilesSorted(ranges, from.value, to.value, size);
    var results: seq<Part> := [];
    for i := 0 to |ranges|
      invariant results == Parts(p, ranges)[..i]
    {
      var logs := FetchChunk(p, ranges[i]);
      results := results + [Part(ranges[i].lo, logs)];
    }
    assert results == Parts(p, ranges);
    SortKeepsSorted(results);
    FlattenParts(p, ranges);
    var all := FlattenLogs(SortByStart(results));
    return Some(all);
  }
}
