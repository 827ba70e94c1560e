// Cutting a video's frames into clips, and the rows an ingest writes for them.
module ClipChunks {
  import opened Sequences
  import opened ClipNumbers

  datatype Chunk = Chunk(start: nat, count: nat)

  // Chunks one after the other from a first frame up to an end.
  ghost predicate Adjacent(chunks: seq<Chunk>, from: int, to: int)
    decreases |chunks|
  {
    if chunks == [] then from == to
    else chunks[0].start == from && chunks[0].count > 0 && Adjacent(chunks[1..], from + chunks[0].count, to)
  }

  ghost predicate FullBut(chunks: seq<Chunk>, per: nat) {
    forall k :: 0 <= k < |chunks| - 1 ==> chunks[k].count == per
  }

  // The longest a last chunk gets: a whole one, or a whole one with a merged
  // remainder too short to stand alone.
  function Longest(per: nat, minLen: nat): int {
    if minLen > 0 then per + minLen - 1 else per
  }

  // How a video is to be cut.
  ghost predicate CutsInto(total: int, per: nat, minLen: nat, chunks: seq<Chunk>) {
    && Adjacent(chunks, 0, if total > 0 then total else 0)
    && FullBut(chunks, per)
    && (chunks != [] ==> chunks[|chunks|-1].count <= Longest(per, minLen))
    && (|chunks| > 1 ==> chunks[|chunks|-1].count >= minLen)
  }

  // The chunks from a frame on, the short remainder merged.
  function ChunksFrom(from: nat, total: nat, per: nat, minLen: nat): seq<Chunk>
    requires 0 < per && from <= total
    decreases total - from
  {
    if from == total then []
    else if total - from <= per || total - from - per < minLen then [Chunk(from, total - from)]
    else [Chunk(from, per)] + ChunksFrom(from + per, total, per, minLen)
  }

  function Chunks(total: nat, per: nat, minLen: nat): seq<Chunk>
    requires 0 < per
  {
    ChunksFrom(0, total, per, minLen)
  }

  lemma {:induction false} AdjacentSnoc(chunks: seq<Chunk>, from: int, to: int, c: Chunk)
    requires Adjacent(chunks, from, to) && c.start == to && c.count > 0
    ensures Adjacent(chunks + [c], from, to + c.count)
    decreases |chunks|
  {
    if chunks != [] {
      assert (chunks + [c])[1..] == chunks[1..] + [c];
      AdjacentSnoc(chunks[1..], from + chunks[0].count, to, c);
    } else {
      assert (chunks + [c])[1..] == [];
    }
  }

  lemma {:induction false} AdjacentButLast(chunks: seq<Chunk>, from: int, to: int)
    requires Adjacent(chunks, from, to) && chunks != []
    ensures var n := |chunks| - 1;
            Adjacent(chunks[..n], from, chunks[n].start) && chunks[n].start + chunks[n].count == to
              && chunks[n].count > 0
    decreases |chunks|
  {
    if |chunks| > 1 {
      AdjacentButLast(chunks[1..], from + chunks[0].count, to);
      assert chunks[1..][..|chunks|-2] == chunks[..|chunks|-1][1..];
    } else {
      assert chunks[1..] == [];
    }
  }

  lemma {:induction false} AdjacentLength(chunks: seq<Chunk>, from: int, to: int, per: nat)
    requires Adjacent(chunks, from, to)
    ensures from <= to && (chunks == [] <==> from == to)
    decreases |chunks|
  {
    if chunks != [] {
      AdjacentLength(chunks[1..], from + chunks[0].count, to, per);
    }
  }

  // The requirements leave one way to cut.
  lemma {:induction false} CutIsUnique(from: nat, total: nat, per: nat, minLen: nat, chunks: seq<Chunk>)
    requires 0 < per && minLen <= per && from <= total
    requires Adjacent(chunks, from, total) && FullBut(chunks, per)
    requires chunks != [] ==> chunks[|chunks|-1].count <= Longest(per, minLen)
    requires |chunks| > 1 ==> chunks[|chunks|-1].count >= minLen
    ensures chunks == ChunksFrom(from, total, per, minLen)
    decreases |chunks|
  {
    AdjacentLength(chunks, from, total, per);
    if chunks != [] {
      var rest := chunks[1..];
      AdjacentLength(rest, from + chunks[0].count, total, per);
      assert chunks == [chunks[0]] + rest;
      if rest != [] {
        assert rest[|rest|-1] == chunks[|chunks|-1];
        LastFits(rest, from + per, total);
        assert FullBut(rest, per) by {
          assert forall k :: 0 <= k < |rest| - 1 ==> rest[k] == chunks[k+1];
        }
        CutIsUnique(from + per, total, per, minLen, rest);
      }
    }
  }

  lemma LastFits(chunks: seq<Chunk>, from: int, to: int)
    requires Adjacent(chunks, from, to) && chunks != []
    ensures chunks[|chunks|-1].count <= to - from && chunks[|chunks|-1].count > 0
  {
    AdjacentButLast(chunks, from, to);
    AdjacentLength(chunks[..|chunks|-1], from, chunks[|chunks|-1].start, 0);
  }

  // chunkClips: the whole video cut as required.
  method ChunkClips(total: int, per: nat, minLen: nat) returns (chunks: seq<Chunk>)
    requires 0 < per && minLen <= per
    ensures CutsInto(total, per, minLen, chunks)
    ensures chunks == Chunks(if total > 0 then total else 0, per, minLen)
  {
    if total <= 0 {
      return [];
    }
    chunks := [];
    var start := 0;
    while start < total
      invariant start >= 0
      invariant Adjacent(chunks, 0, if start < total then start else total)
      invariant forall k :: 0 <= k < |chunks| - 1 ==> chunks[k].count == per
      invariant start < total && chunks != [] ==> chunks[|chunks|-1].count == per
      invariant chunks != [] ==> chunks[|chunks|-1].count <= per
      decreases total - start
    {
      var c := Chunk(start, if per < total - start then per else total - start);
      AdjacentSnoc(chunks, 0, start, c);
      chunks := chunks + [c];
      start := start + per;
    }
    AdjacentLength(chunks, 0, total, per);
    AdjacentButLast(chunks, 0, total);
    var n := |chunks|;
    if n > 1 && chunks[n-1].count < minLen {
      chunks := MergeLast(chunks, total, per);
    }
    CutIsUnique(0, total, per, minLen, chunks);
  }

  // The last chunk joined to the one before it.
  method MergeLast(chunks0: seq<Chunk>, total: nat, ghost per: nat) returns (chunks: seq<Chunk>)
    requires |chunks0| > 1 && Adjacent(chunks0, 0, total) && FullBut(chunks0, per)
    ensures Adjacent(chunks, 0, total) && |chunks| == |chunks0| - 1 && FullBut(chunks, per)
    ensures chunks[|chunks|-1].count == per + chunks0[|chunks0|-1].count
  {
    var n := |chunks0|;
    chunks := chunks0[n-2 := chunks0[n-2].(count := chunks0[n-2].count + chunks0[n-1].count)];
    chunks := chunks[..n-1];
    AdjacentButLast(chunks0, 0, total);
    AdjacentButLast(chunks0[..n-1], 0, chunks0[n-1].start);
    assert chunks0[..n-1][..n-2] == chunks[..n-2];
    AdjacentSnoc(chunks[..n-2], 0, chunks[n-2].start, chunks[n-2]);
    assert chunks == chunks[..n-2] + [chunks[n-2]];
  }

  // Every chunk is long enough when the video is.
  lemma ChunksLongEnough(total: int, per: nat, minLen: nat, chunks: seq<Chunk>)
    requires 0 < per && minLen <= per && CutsInto(total, per, minLen, chunks) && minLen <= total
    ensures forall k :: 0 <= k < |chunks| ==> chunks[k].count >= minLen
  {
    if |chunks| == 1 {
      AdjacentButLast(chunks, 0, total);
      assert chunks[..0] == [];
    }
  }

  // ---- The rows of an ingest

  function ClipRows(chunks: seq<Chunk>, firstId: nat): seq<Clip> {
    seq(|chunks|, i requires 0 <= i < |chunks| => Clip(firstId + i, i, chunks[i].start, chunks[i].count, false))
  }

  datatype FrameRow = FrameRow(clip: nat, idx: nat, hash: int)

  // Where a frame is among the chunks: its clip, by position.
  ghost predicate InChunk(chunks: seq<Chunk>, k: nat, idx: nat) {
    k < |chunks| && chunks[k].start <= idx < chunks[k].start + chunks[k].count
  }

  // Frames up to a bound, one row each in order, in the clip that holds them.
  ghost predicate FrameRows(rows: seq<FrameRow>, chunks: seq<Chunk>, hashes: seq<int>, firstId: nat) {
    && |rows| <= |hashes|
    && forall i: nat :: i < |rows| ==>
         rows[i].idx == i && rows[i].hash == hashes[i] && rows[i].clip >= firstId
           && InChunk(chunks, rows[i].clip - firstId, i)
  }

  lemma {:induction false} ChunkBounds(chunks: seq<Chunk>, from: nat, to: nat, k: nat)
    requires Adjacent(chunks, from, to) && k < |chunks|
    ensures from <= chunks[k].start < chunks[k].start + chunks[k].count <= to
    ensures k == 0 ==> chunks[k].start == from
    ensures k > 0 ==> chunks[k].start == chunks[k-1].start + chunks[k-1].count
    ensures k == |chunks| - 1 ==> chunks[k].start + chunks[k].count == to
    decreases |chunks|
  {
    AdjacentLength(chunks[1..], from + chunks[0].count, to, 0);
    if k > 0 {
      ChunkBounds(chunks[1..], from + chunks[0].count, to, k - 1);
    }
  }

  method InsertClip(chunk: Chunk, k: nat, hashes: seq<int>, frames0: seq<FrameRow>, firstId: nat,
                    ghost chunks: seq<Chunk>)
    returns (frames: seq<FrameRow>)
    requires k < |chunks| && chunks[k] == chunk && chunk.start == |frames0| && chunk.start + chunk.count <= |hashes|
    requires FrameRows(frames0, chunks, hashes, firstId)
    ensures FrameRows(frames, chunks, hashes, firstId) && |frames| == chunk.start + chunk.count
  {
    frames := frames0;
    for j := 0 to chunk.count
      invariant FrameRows(frames, chunks, hashes, firstId) && |frames| == chunk.start + j
    {
      var idx := chunk.start + j;
      assert InChunk(chunks, k, idx);
      frames := frames + [FrameRow(firstId + k, idx, hashes[idx])];
    }
  }

  // insertClips: the clips of the cut, and a row for every frame of the video.
  method InsertClips(hashes: seq<int>, per: nat, minLen: nat, firstId: nat)
    returns (clips: seq<Clip>, frames: seq<FrameRow>)
    requires 0 < per && minLen <= per
    ensures clips == ClipRows(Chunks(|hashes|, per, minLen), firstId)
    ensures |frames| == |hashes| && FrameRows(frames, Chunks(|hashes|, per, minLen), hashes, firstId)
  {
    var chunks := ChunkClips(|hashes|, per, minLen);
    clips, frames := [], [];
    for i := 0 to |chunks|
      invariant clips == ClipRows(chunks[..i], firstId)
      invariant FrameRows(frames, chunks, hashes, firstId)
      invariant |frames| == if i < |chunks| then chunks[i].start else |hashes|
    {
      ChunkBounds(chunks, 0, |hashes|, i);
      if i + 1 < |chunks| {
        ChunkBounds(chunks, 0, |hashes|, i + 1);
      }
      clips := clips + [Clip(firstId + i, i, chunks[i].start, chunks[i].count, false)];
      frames := InsertClip(chunks[i], i, hashes, frames, firstId, chunks);
    }
    assert chunks[..|chunks|] == chunks;
  }

  // No frame is in two clips.
  lemma InOneChunk(chunks: seq<Chunk>, to: nat, i: nat, j: nat, idx: nat)
    requires Adjacent(chunks, 0, to) && InChunk(chunks, i, idx) && InChunk(chunks, j, idx)
    ensures i == j
  {
    if i < j {
      StartsLater(chunks, to, i, j);
    } else if j < i {
      StartsLater(chunks, to, j, i);
    }
  }

  lemma {:induction false} StartsLater(chunks: seq<Chunk>, to: nat, i: nat, j: nat)
    requires Adjacent(chunks, 0, to) && i < j < |chunks|
    ensures chunks[i].start < chunks[i].start + chunks[i].count <= chunks[j].start
    decreases j
  {
    ChunkBounds(chunks, 0, to, i);
    ChunkBounds(chunks, 0, to, j);
    if i < j - 1 {
      StartsLater(chunks, to, i, j - 1);
      ChunkBounds(chunks, 0, to, j - 1);
    }
  }

  lemma {:induction false} ChunksFromCut(from: nat, total: nat, per: nat, minLen: nat)
    requires 0 < per && from <= total
    ensures Adjacent(ChunksFrom(from, total, per, minLen), from, total)
    decreases total - from
  {
    var chunks := ChunksFrom(from, total, per, minLen);
    if from < total {
      if |chunks| > 1 || chunks[0].count < total - from {
        ChunksFromCut(from + per, total, per, minLen);
        assert chunks[1..] == ChunksFrom(from + per, total, per, minLen);
      } else {
        assert chunks[1..] == [];
      }
    }
  }

  lemma RowRank(chunks: seq<Chunk>, to: nat, firstId: nat, i: nat)
    requires Adjacent(chunks, 0, to) && i < |chunks|
    ensures Rank(ClipRows(chunks, firstId), ClipRows(chunks, firstId)[i]) == i
  {
    var rows := ClipRows(chunks, firstId);
    var keep := LiveBefore(rows[i]);
    forall r | r in rows[..i] ensures keep(r) {
      var k :| 0 <= k < i && rows[..i][k] == r;
      StartsLater(chunks, to, k, i);
    }
    forall r | r in rows[i..] ensures !keep(r) {
      var k :| 0 <= k < |rows[i..]| && rows[i..][k] == r;
      if k > 0 {
        StartsLater(chunks, to, i, i + k);
      }
    }
    SplitAt(rows, i);
    FilterAppend(keep, rows[..i], rows[i..]);
    FilterAll(keep, rows[..i]);
    FilterNone(keep, rows[i..]);
  }

  lemma {:induction false} RowFrames(rows: seq<Clip>, chunks: seq<Chunk>, from: int, to: int)
    requires Adjacent(chunks, from, to) && |rows| == |chunks|
    requires forall k :: 0 <= k < |rows| ==> !rows[k].trashed && rows[k].count == chunks[k].count
    ensures Frames(rows) == to - from
    decreases |rows|
  {
    if rows != [] {
      RowFrames(rows[1..], chunks[1..], from + chunks[0].count, to);
    }
  }

  // A video as ingest leaves it: numbered, and with all its frames counted.
  lemma IngestedIsSound(total: nat, per: nat, minLen: nat, firstId: nat, trashed: bool)
    requires 0 < per && minLen <= per
    ensures Sound(Video(ClipRows(Chunks(total, per, minLen), firstId), total, trashed))
  {
    var chunks := Chunks(total, per, minLen);
    var rows := ClipRows(chunks, firstId);
    ChunksFromCut(0, total, per, minLen);
    RowFrames(rows, chunks, 0, total);
    forall k | 0 <= k < |rows| ensures rows[k].idx == Rank(rows, rows[k]) {
      RowRank(chunks, total, firstId, k);
    }
    assert Unique(rows) by {
      assert forall k :: 0 <= k < |rows| ==> Map(IdOf(), rows)[k] == firstId + k;
    }
  }
}
