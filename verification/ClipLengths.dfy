// How short and how long the clips of a video get.
module ClipLengths {
  import opened Remainders
  import opened ClipChunks

  ghost predicate AtLeast(chunks: seq<Chunk>, short: nat) {
    forall k :: 0 <= k < |chunks| ==> chunks[k].count >= short
  }

  // The frames left over after whole clips are none, make a clip long enough
  // by themselves, or are few enough to be merged into a whole one.
  predicate EndsWell(total: nat, per: nat, minLen: nat, short: nat)
    requires 0 < per
  {
    total % per == 0 || total % per >= short || (total > per && total % per < minLen)
  }

  lemma AtLeastCons(c: Chunk, chunks: seq<Chunk>, short: nat)
    ensures AtLeast([c] + chunks, short) <==> c.count >= short && AtLeast(chunks, short)
  {
    assert forall k :: 0 <= k < |chunks| ==> ([c] + chunks)[k+1] == chunks[k];
    if AtLeast([c] + chunks, short) {
      assert ([c] + chunks)[0].count >= short;
    }
  }

  // Taking one whole clip off leaves the same end.
  lemma EndStays(total: nat, per: nat, minLen: nat, short: nat)
    requires 0 < per && minLen <= per && total > per && total - per >= minLen
    ensures EndsWell(total, per, minLen, short) <==> EndsWell(total - per, per, minLen, short)
  {
    TakeOne(total, per);
    if total - per < per {
      Small(total - per, per);
    }
    if total - per == per {
      Whole(per);
    }
  }

  lemma EndOfLast(total: nat, per: nat, minLen: nat, short: nat)
    requires 0 < per && minLen <= short <= per && 0 < total && (total <= per || total - per < minLen)
    ensures EndsWell(total, per, minLen, short) <==> total >= short
  {
    if total < per {
      Small(total, per);
    } else if total == per {
      Whole(per);
    } else {
      TakeOne(total, per);
      Small(total - per, per);
    }
  }

  lemma {:induction false} LongFrom(from: nat, total: nat, per: nat, minLen: nat, short: nat)
    requires 0 < per && minLen <= short <= per && from < total
    ensures AtLeast(ChunksFrom(from, total, per, minLen), short) <==> EndsWell(total - from, per, minLen, short)
    decreases total - from
  {
    if total - from <= per || total - from - per < minLen {
      AtLeastCons(Chunk(from, total - from), [], short);
      EndOfLast(total - from, per, minLen, short);
      assert [Chunk(from, total - from)] + [] == [Chunk(from, total - from)];
    } else {
      AtLeastCons(Chunk(from, per), ChunksFrom(from + per, total, per, minLen), short);
      LongFrom(from + per, total, per, minLen, short);
      EndStays(total - from, per, minLen, short);
    }
  }

  // For any length between the shortest clip and a whole one, every clip has
  // it exactly when the video ends well.
  lemma ClipsLongEnough(total: nat, per: nat, minLen: nat, short: nat)
    requires 0 < per && minLen <= short <= per && 0 < total
    ensures AtLeast(Chunks(total, per, minLen), short) <==> EndsWell(total, per, minLen, short)
  {
    LongFrom(0, total, per, minLen, short);
  }

  lemma {:induction false} NoneTooLong(from: nat, total: nat, per: nat, minLen: nat)
    requires 0 < per && from <= total
    ensures forall k :: 0 <= k < |ChunksFrom(from, total, per, minLen)| ==>
              ChunksFrom(from, total, per, minLen)[k].count <= Longest(per, minLen)
    decreases total - from
  {
    if from < total && total - from > per && total - from - per >= minLen {
      NoneTooLong(from + per, total, per, minLen);
    }
  }

  // With whole clips of three shortest ones, as 15 seconds are of 5: all clips
  // have two to four of them exactly when the end does not fall between.
  lemma ClipsInRange(total: nat, per: nat, minLen: nat)
    requires 0 < per && 2 * minLen <= per && 0 < total
    ensures (forall k :: 0 <= k < |Chunks(total, per, minLen)| ==>
               2 * minLen <= Chunks(total, per, minLen)[k].count <= per + minLen) <==>
            EndsWell(total, per, minLen, 2 * minLen)
  {
    ClipsLongEnough(total, per, minLen, 2 * minLen);
    NoneTooLong(0, total, per, minLen);
  }

  // At one frame a second a video of 22 seconds ends in a clip of 7.
  lemma ShortLastClip()
    ensures Chunks(22, 15, 5) == [Chunk(0, 15), Chunk(15, 7)] && !EndsWell(22, 15, 5, 10)
  {
    assert ChunksFrom(15, 22, 15, 5) == [Chunk(15, 7)];
  }
}
