// Restoring several clips at once, and whole runs of a video's life from its
// ingest on.
module ClipRuns {
  import opened Sequences
  import opened ClipNumbers
  import opened ClipChunks

  // ---- Restoring several clips

  // All or nothing: one that cannot be restored undoes the others.
  function RestoreAll(v: Video, ids: seq<nat>): Option<Video>
    decreases |ids|
  {
    if ids == [] then Some(v)
    else
      match RestoreClip(v, ids[0])
      case None => None
      case Some(w) => RestoreAll(w, ids[1..])
  }

  function Revive(ids: seq<nat>): Clip -> Clip {
    (c: Clip) => if c.id in ids then c.(trashed := false) else c
  }

  ghost predicate AllTrashed(clips: seq<Clip>, ids: seq<nat>) {
    forall id :: id in ids ==> Has(clips, id, true)
  }

  // Restoring without any order: all the clips come back, then are numbered.
  function Revived(v: Video, ids: seq<nat>): Video {
    var clips := Renumbered(Map(Revive(ids), v.clips));
    v.(clips := clips, frames := Frames(clips))
  }

  lemma ReviveNone(v: Video)
    requires Sound(v)
    ensures Revived(v, []) == v
  {
    assert Map(Revive([]), v.clips) == v.clips;
    NumberedStays(v.clips);
  }

  lemma RestoredHas(v: Video, id: nat, other: nat)
    requires Unique(v.clips) && Has(v.clips, id, true) && other != id
    ensures Has(Renumbered(Mark(v.clips, id, false)), other, true) == Has(v.clips, other, true)
  {
    var out := Renumbered(Mark(v.clips, id, false));
    assert forall k :: 0 <= k < |out| ==>
             out[k].id == v.clips[k].id && (out[k].id != id ==> out[k].trashed == v.clips[k].trashed);
    if Has(v.clips, other, true) {
      var k :| 0 <= k < |v.clips| && v.clips[k].id == other && v.clips[k].trashed;
      assert out[k].id == other && out[k].trashed;
    }
    if Has(out, other, true) {
      var k :| 0 <= k < |out| && out[k].id == other && out[k].trashed;
      assert v.clips[k].id == other && v.clips[k].trashed;
    }
  }

  lemma ReviveStep(v: Video, ids: seq<nat>)
    requires ids != [] && RestoreClip(v, ids[0]).Some?
    ensures Revived(RestoreClip(v, ids[0]).value, ids[1..]) == Revived(v, ids)
  {
    var back := Mark(v.clips, ids[0], false);
    var a, b := Map(Revive(ids), v.clips), Map(Revive(ids[1..]), Renumbered(back));
    forall k | 0 <= k < |a| ensures b[k] == a[k].(idx := b[k].idx) && (a[k].trashed ==> a[k] == b[k]) {
      assert v.clips[k].id in ids <==> v.clips[k].id == ids[0] || v.clips[k].id in ids[1..];
    }
    RenumberIgnoresNumbers(a, b);
  }

  // Restoring a set of clips one by one fails exactly when one of them is not
  // in the trash or the video is, and otherwise gives what restoring them
  // together gives.
  lemma {:induction false} RestoreAllIs(v: Video, ids: seq<nat>)
    requires Sound(v) && Distinct(ids)
    ensures RestoreAll(v, ids) ==
            if ids != [] && (v.trashed || !AllTrashed(v.clips, ids)) then None else Some(Revived(v, ids))
    decreases |ids|
  {
    if ids == [] {
      ReviveNone(v);
    } else if RestoreClip(v, ids[0]).Some? {
      var w := RestoreClip(v, ids[0]).value;
      RestoreKeepsSound(v, ids[0]);
      RestoreAllIs(w, ids[1..]);
      ReviveStep(v, ids);
      forall id | id in ids[1..] ensures Has(w.clips, id, true) == Has(v.clips, id, true) && id in ids {
        var k :| 0 <= k < |ids[1..]| && ids[1..][k] == id;
        assert ids[0] != ids[k+1];
        RestoredHas(v, ids[0], id);
      }
      assert AllTrashed(v.clips, ids) <==> AllTrashed(w.clips, ids[1..]);
    } else {
      assert ids[0] in ids;
    }
  }

  // So the order does not matter.
  lemma RestoreInAnyOrder(v: Video, a: seq<nat>, b: seq<nat>)
    requires Sound(v) && Distinct(a) && Distinct(b) && forall id :: id in a <==> id in b
    ensures RestoreAll(v, a) == RestoreAll(v, b)
  {
    RestoreAllIs(v, a);
    RestoreAllIs(v, b);
    assert Map(Revive(a), v.clips) == Map(Revive(b), v.clips);
    if a != [] {
      assert a[0] in b;
    }
    if b != [] {
      assert b[0] in a;
    }
    assert AllTrashed(v.clips, a) <==> AllTrashed(v.clips, b);
  }

  // ---- Runs

  datatype Op =
    | Trash(id: nat)
    | Restore(id: nat)
    | Purge(id: nat)
    | TrashVideo
    | RestoreVideo
    | Ingest(total: nat, per: nat, minLen: nat, firstId: nat)

  function Do(v: Video, op: Op): Video {
    match op
    case Trash(id) => OrElse(TrashClip(v, id), v)
    case Restore(id) => OrElse(RestoreClip(v, id), v)
    case Purge(id) => OrElse(PurgeClip(v, id), v)
    case TrashVideo => v.(trashed := true)
    case RestoreVideo => v.(trashed := false)
    case Ingest(total, per, minLen, firstId) =>
      if total == 0 || per == 0 || minLen > per then v
      else Video(ClipRows(Chunks(total, per, minLen), firstId), total, v.trashed)
  }

  function Run(v: Video, ops: seq<Op>): Video
    decreases |ops|
  {
    if ops == [] then v else Run(Do(v, ops[0]), ops[1..])
  }

  lemma DoKeepsSound(v: Video, op: Op)
    requires Sound(v)
    ensures Sound(Do(v, op))
  {
    match op
    case Trash(id) => TrashKeepsSound(v, id);
    case Restore(id) => RestoreKeepsSound(v, id);
    case Purge(id) => PurgeKeepsSound(v, id);
    case TrashVideo =>
    case RestoreVideo =>
    case Ingest(total, per, minLen, firstId) =>
      if total > 0 && 0 < per && minLen <= per {
        IngestedIsSound(total, per, minLen, firstId, v.trashed);
      }
  }

  lemma {:induction false} RunKeepsSound(v: Video, ops: seq<Op>)
    requires Sound(v)
    ensures Sound(Run(v, ops))
    decreases |ops|
  {
    if ops != [] {
      DoKeepsSound(v, ops[0]);
      RunKeepsSound(Do(v, ops[0]), ops[1..]);
    }
  }

  // However a video is trashed, restored, purged and ingested again after its
  // ingest, its live clips are numbered and its frame count is theirs.
  lemma ReadyVideosAreSound(total: nat, per: nat, minLen: nat, firstId: nat, ops: seq<Op>)
    requires total > 0 && 0 < per && minLen <= per
    ensures Sound(Run(Video(ClipRows(Chunks(total, per, minLen), firstId), total, false), ops))
  {
    IngestedIsSound(total, per, minLen, firstId, false);
    RunKeepsSound(Video(ClipRows(Chunks(total, per, minLen), firstId), total, false), ops);
  }
}
