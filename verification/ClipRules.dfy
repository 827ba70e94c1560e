// What trashing, restoring and deleting a clip does to each clip of its video.
module ClipRules {
  import opened Sequences
  import opened ClipNumbers

  // The live clips that come before one: by first frame, and by id among
  // equals.
  ghost function LiveAhead(clips: seq<Clip>, c: Clip): set<nat> {
    set j: nat | j < |clips| && !clips[j].trashed
                 && (clips[j].start < c.start || (clips[j].start == c.start && clips[j].id < c.id))
  }

  lemma RankIs(clips: seq<Clip>, c: Clip)
    ensures Rank(clips, c) == |LiveAhead(clips, c)|
  {
    FilterCounts(LiveBefore(c), clips);
    assert Places(LiveBefore(c), clips) == LiveAhead(clips, c);
  }

  // One clip is put in or out of the trash; live clips are numbered by how
  // many come before them, and trashed ones keep the number they had.
  ghost predicate Moved(before: seq<Clip>, clips: seq<Clip>, id: nat, trashed: bool) {
    && |clips| == |before|
    && forall k :: 0 <= k < |clips| ==> MovedClip(clips, before[k], clips[k], id, trashed)
  }

  ghost predicate MovedClip(clips: seq<Clip>, was: Clip, c: Clip, id: nat, trashed: bool) {
    && c.id == was.id && c.start == was.start && c.count == was.count
    && c.trashed == (if c.id == id then trashed else was.trashed)
    && c.idx == if c.trashed then was.idx else |LiveAhead(clips, c)|
  }

  lemma RenumberMoves(clips: seq<Clip>, id: nat, trashed: bool)
    ensures Moved(clips, Renumbered(Mark(clips, id, trashed)), id, trashed)
  {
    var marked := Mark(clips, id, trashed);
    var out := Renumbered(marked);
    RenumberedIsNumbered(marked);
    forall k | 0 <= k < |out| ensures MovedClip(out, clips[k], out[k], id, trashed) {
      RankIs(out, out[k]);
    }
  }

  lemma {:induction false} CountOfClip(clips: seq<Clip>, c: Clip)
    requires Unique(clips) && c in clips
    ensures CountOf(clips, c.id) == c.count
  {
    UniqueRest(clips);
    if c != clips[0] {
      var k :| 0 <= k < |clips[1..]| && clips[1..][k] == c;
      CountOfClip(clips[1..], c);
    }
  }

  // The clip, in or out of the trash.
  ghost predicate IsIn(v: Video, id: nat, trashed: bool, c: Clip) {
    c in v.clips && c.id == id && c.trashed == trashed
  }

  lemma HasIff(v: Video, id: nat, was: bool)
    ensures Has(v.clips, id, was) <==> exists c :: IsIn(v, id, was, c)
  {
    if Has(v.clips, id, was) {
      var k :| 0 <= k < |v.clips| && v.clips[k].id == id && v.clips[k].trashed == was;
      assert IsIn(v, id, was, v.clips[k]);
    }
    if c :| IsIn(v, id, was, c) {
      var k :| 0 <= k < |v.clips| && v.clips[k] == c;
    }
  }

  // What trashing or restoring a clip comes to: it takes one that was not, or
  // was, in the trash, of a video that is not, and its frames go along.
  ghost predicate Switched(v: Video, result: Option<Video>, id: nat, was: bool) {
    && (result.Some? <==> !v.trashed && exists c :: IsIn(v, id, was, c))
    && forall c :: result.Some? && IsIn(v, id, was, c) ==>
         && Moved(v.clips, result.value.clips, id, !was) && !result.value.trashed
         && result.value.frames == if was then v.frames + c.count else v.frames - c.count
  }

  lemma TrashTells(v: Video, id: nat)
    requires Unique(v.clips)
    ensures Switched(v, TrashClip(v, id), id, false)
  {
    HasIff(v, id, false);
    RenumberMoves(v.clips, id, true);
    forall c | IsIn(v, id, false, c) ensures CountOf(v.clips, id) == c.count {
      CountOfClip(v.clips, c);
    }
  }

  lemma RestoreTells(v: Video, id: nat)
    requires Unique(v.clips)
    ensures Switched(v, RestoreClip(v, id), id, true)
  {
    HasIff(v, id, true);
    RenumberMoves(v.clips, id, false);
    forall c | IsIn(v, id, true, c) ensures CountOf(v.clips, id) == c.count {
      CountOfClip(v.clips, c);
    }
  }

  // Deleting drops a trashed clip and leaves the others as they are.
  lemma PurgeTells(v: Video, id: nat)
    requires Unique(v.clips)
    ensures PurgeClip(v, id).Some? <==> exists c :: IsIn(v, id, true, c)
    ensures PurgeClip(v, id).Some? ==>
              var w := PurgeClip(v, id).value;
              && w.frames == v.frames && w.trashed == v.trashed
              && |w.clips| == |v.clips| - 1 && forall c :: c in w.clips <==> c in v.clips && c.id != id
  {
    HasIff(v, id, true);
    if Has(v.clips, id, true) {
      OnlyOne(v.clips, id);
      forall c ensures c in Filter(Others(id), v.clips) <==> c in v.clips && c.id != id {
        assert Others(id)(c) <==> c.id != id || !c.trashed;
      }
    }
  }

  lemma {:induction false} OnlyOne(clips: seq<Clip>, id: nat)
    requires Unique(clips) && Has(clips, id, true)
    ensures |Filter(Others(id), clips)| == |clips| - 1
    ensures forall c :: c in clips && c.id == id ==> c.trashed
  {
    UniqueRest(clips);
    if clips[0].id == id {
      forall j | 0 < j < |clips| ensures clips[j].id != id {
        assert clips[1..][j-1] == clips[j];
      }
      assert clips[0].trashed;
      FilterAll(Others(id), clips[1..]);
    } else {
      var k :| 0 <= k < |clips| && clips[k].id == id && clips[k].trashed;
      assert clips[1..][k-1] == clips[k];
      OnlyOne(clips[1..], id);
    }
  }
}
