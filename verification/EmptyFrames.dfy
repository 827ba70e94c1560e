// Frames marked empty: which changes keep them without boxes, and exactly when
// a model's boxes land on one.
module EmptyFrames {
  import opened Sequences
  import opened Geometry
  import opened BoxEvents
  import opened AnnotationTables
  import opened ProposalCounts
  import opened AnnotationLedger

  predicate MarkedEmpty(db: Db, frame: nat) {
    frame in db.frames && db.frames[frame].status == Empty
  }

  // A frame marked empty holds no box but rejected ones.
  ghost predicate EmptyBare(db: Db) {
    forall r :: r in db.rows && r.held.status != Rejected ==> !MarkedEmpty(db, r.key.frame)
  }

  // And nothing here leaves a box rejected in place.
  ghost predicate NoneRejected(db: Db) {
    forall r :: r in db.rows ==> r.held.status != Rejected
  }

  // ---- Labelers' requests

  lemma RowKept(rows: seq<Row>, f: Row -> Row, r: Row)
    requires r in Map(f, rows)
    ensures exists x :: x in rows && f(x) == r
  {
    var k :| 0 <= k < |rows| && f(rows[k]) == r;
    assert rows[k] in rows;
  }

  lemma UpsertBare(db: Db, key: Key, rect: Rect)
    ensures EmptyBare(db) ==> EmptyBare(EmptyCleared(Upserted(db, key, rect), key.frame))
    ensures NoneRejected(db) ==> NoneRejected(Upserted(db, key, rect))
  {
    forall r | r in Upserted(db, key, rect).rows ensures r == Drawn(key, rect) || r in db.rows {
      if HasRow(db.rows, key) {
        RowKept(db.rows, DrawnOver(key, rect), r);
      }
    }
  }

  lemma BoxSavedBare(db: Db, overlap: Overlap, me: nat, key: Key, rect: Rect)
    ensures EmptyBare(db) ==> EmptyBare(BoxSaved(db, overlap, me, key, rect))
    ensures NoneRejected(db) ==> NoneRejected(BoxSaved(db, overlap, me, key, rect))
  {
    var noted := Recorded(db, overlap, Edit(me, OpSet, rect), StatesAt(db, key));
    assert EmptyBare(db) ==> EmptyBare(noted);
    UpsertBare(noted, key, rect);
  }

  lemma CopyBare(db: Db, overlap: Overlap, me: nat, from: nat, to: nat, only: seq<nat>)
    ensures var next := Copy(db, overlap, me, from, to, only);
            next.Some? ==> (EmptyBare(db) ==> EmptyBare(next.value)) && (NoneRejected(db) ==> NoneRejected(next.value))
  {
    var source := Filter(Copies(db.rows, from, to, only), db.rows);
    forall r | r in Copied(db, from, to, only) ensures r.key.frame == to && r.held.status == Verified {
      RowKept(source, CopyTo(to), r);
    }
  }

  // Accepting moves no box and rejects none.
  lemma AcceptedFrom(rows: seq<Row>, frame: nat, r: Row)
    requires r in Map(Accepted(frame), rows)
    ensures exists x :: x in rows && x.key == r.key && (x.held.status == Rejected <==> r.held.status == Rejected)
  {
    RowKept(rows, Accepted(frame), r);
  }

  lemma NoBoxOn(rows: seq<Row>, frame: nat, r: Row)
    requires !HasBox(rows, frame) && r in rows && r.held.status != Rejected
    ensures r.key.frame != frame
  {
    var k :| 0 <= k < |rows| && rows[k] == r;
  }

  lemma MarkBare(db: Db, me: nat, frame: nat, status: Option<FrameStatus>)
    ensures var next := Mark(db, me, frame, status);
            next.Some? ==> (EmptyBare(db) ==> EmptyBare(next.value)) && (NoneRejected(db) ==> NoneRejected(next.value))
  {
    if Mark(db, me, frame, status).Some? {
      var next := Mark(db, me, frame, status).value;
      if status.value == Labeled {
        forall r | r in next.rows
          ensures NoneRejected(db) ==> r.held.status != Rejected
          ensures EmptyBare(db) && r.held.status != Rejected ==> !MarkedEmpty(next, r.key.frame)
        {
          AcceptedFrom(db.rows, frame, r);
        }
      } else if status.value == Empty {
        forall r | r in db.rows && r.held.status != Rejected ensures EmptyBare(db) ==> !MarkedEmpty(next, r.key.frame) {
          NoBoxOn(db.rows, frame, r);
        }
      }
    }
  }

  lemma RequestBare(db: Db, overlap: Overlap, me: nat, r: Request)
    ensures var next := Handle(db, overlap, me, r);
            next.Some? ==> (EmptyBare(db) ==> EmptyBare(next.value)) && (NoneRejected(db) ==> NoneRejected(next.value))
  {
    if Handle(db, overlap, me, r).Some? {
      match r
      case CreateTrack(clip, frame, labelType, ok, box) =>
        BoxSavedBare(TrackAdded(db, Track(clip, labelType, false, None)), overlap, me, Key(db.nextTrack, frame),
                     ClampBox(box).value);
      case SetBox(key, box) => BoxSavedBare(db, overlap, me, key, ClampBox(box).value);
      case CopyBoxes(from, to, only) => CopyBare(db, overlap, me, from, to, only);
      case SetFrameStatus(frame, status) => MarkBare(db, me, frame, status);
      case TrackObject(frame, onto, labelType, ok, prompt) =>
        if prompt.InBox? {
          var ready := if onto.None? then TrackAdded(db, Track(db.frames[frame].clip, labelType, false, None)) else db;
          BoxSavedBare(ready, overlap, me, Key(if onto.None? then db.nextTrack else onto.value, frame),
                       ClampBox(Some(prompt.drawn)).value);
        }
      case _ =>
    }
  }

  // ---- Models' writes

  // What a model's boxes do to others: none moves, and none is rejected or
  // loses its rejection.
  ghost predicate KeepsBoxes(db: Db, next: Db) {
    && next.frames == db.frames
    && forall r :: r in db.rows ==> exists x :: x in next.rows && x.key == r.key && SameRejection(x, r)
  }

  predicate SameRejection(x: Row, r: Row) {
    x.held.status == Rejected <==> r.held.status == Rejected
  }

  lemma StaysUnbare(db: Db, next: Db)
    requires KeepsBoxes(db, next) && !EmptyBare(db)
    ensures !EmptyBare(next)
  {
    var r :| r in db.rows && r.held.status != Rejected && MarkedEmpty(db, r.key.frame);
    var x :| x in next.rows && x.key == r.key && SameRejection(x, r);
  }

  lemma PutKeepsBoxes(db: Db, key: Key, rect: Rect, source: Source)
    ensures KeepsBoxes(db, ProposalPut(db, key, rect, source))
  {
    var next := ProposalPut(db, key, rect, source);
    forall r | r in db.rows ensures exists x :: x in next.rows && x.key == r.key && SameRejection(x, r) {
      var k :| 0 <= k < |db.rows| && db.rows[k] == r;
      assert next.rows[k] in next.rows && next.rows[k].key == r.key && SameRejection(next.rows[k], r);
    }
  }

  // Rows after a put: the new proposal, or one there before.
  lemma PutRows(db: Db, key: Key, rect: Rect, source: Source, r: Row)
    requires r in ProposalPut(db, key, rect, source).rows
    ensures (r.key == key && r.held.status == Proposed && !HasRow(db.rows, key)) ||
            exists x :: x in db.rows && x.key == r.key && SameRejection(x, r)
  {
    if HasRow(db.rows, key) && OpenRow(db.rows, key) {
      RowKept(db.rows, Replaced(key, rect, source), r);
      var x :| x in db.rows && Replaced(key, rect, source)(x) == r;
      assert SameRejection(x, r);
    } else if r in db.rows {
      assert SameRejection(r, r);
    }
  }

  lemma PutHasRow(db: Db, key: Key, rect: Rect, source: Source, other: Key)
    requires other != key
    ensures HasRow(ProposalPut(db, key, rect, source).rows, other) <==> HasRow(db.rows, other)
  {
    var rows := ProposalPut(db, key, rect, source).rows;
    assert forall k :: 0 <= k < |db.rows| ==> rows[k].key == db.rows[k].key;
  }

  // One proposal leaves empty frames bare unless it is new on one of them.
  lemma PutBare(db: Db, key: Key, rect: Rect, source: Source)
    requires EmptyBare(db)
    ensures EmptyBare(ProposalPut(db, key, rect, source)) <==> !MarkedEmpty(db, key.frame) || HasRow(db.rows, key)
  {
    var next := ProposalPut(db, key, rect, source);
    if !HasRow(db.rows, key) {
      assert next.rows[|db.rows|] == Row(key, Held(rect, source, Proposed)) && next.rows[|db.rows|] in next.rows;
    }
    if !MarkedEmpty(db, key.frame) || HasRow(db.rows, key) {
      forall r | r in next.rows && r.held.status != Rejected ensures !MarkedEmpty(next, r.key.frame) {
        PutRows(db, key, rect, source, r);
        if !(r.key == key && !HasRow(db.rows, key)) {
          var x :| x in db.rows && x.key == r.key && SameRejection(x, r);
          assert !MarkedEmpty(db, x.key.frame);
        }
      }
    }
  }

  // Every box is off the empty frames or on a track that has one there.
  ghost predicate Spared(db: Db, track: nat, boxes: seq<Found>) {
    forall k :: 0 <= k < |boxes| ==> !MarkedEmpty(db, boxes[k].frame) || HasRow(db.rows, Key(track, boxes[k].frame))
  }

  lemma SparedRest(db: Db, track: nat, boxes: seq<Found>, source: Source)
    requires boxes != [] && forall i, j :: 0 <= i < j < |boxes| ==> boxes[i].frame != boxes[j].frame
    ensures var key := Key(track, boxes[0].frame);
            Spared(db, track, boxes) <==>
              && (!MarkedEmpty(db, key.frame) || HasRow(db.rows, key))
              && Spared(ProposalPut(db, key, boxes[0].rect, source), track, boxes[1..])
  {
    var key := Key(track, boxes[0].frame);
    var next := ProposalPut(db, key, boxes[0].rect, source);
    forall k | 0 <= k < |boxes[1..]|
      ensures MarkedEmpty(next, boxes[1..][k].frame) == MarkedEmpty(db, boxes[k+1].frame)
      ensures HasRow(next.rows, Key(track, boxes[1..][k].frame)) == HasRow(db.rows, Key(track, boxes[k+1].frame))
    {
      PutHasRow(db, key, boxes[0].rect, source, Key(track, boxes[k+1].frame));
    }
    SparedSplit(db, next, track, boxes);
  }

  lemma SparedSplit(db: Db, next: Db, track: nat, boxes: seq<Found>)
    requires boxes != []
    requires forall k :: 0 <= k < |boxes[1..]| ==>
               && MarkedEmpty(next, boxes[1..][k].frame) == MarkedEmpty(db, boxes[k+1].frame)
               && HasRow(next.rows, Key(track, boxes[1..][k].frame)) == HasRow(db.rows, Key(track, boxes[k+1].frame))
    ensures Spared(db, track, boxes) <==>
              && (!MarkedEmpty(db, boxes[0].frame) || HasRow(db.rows, Key(track, boxes[0].frame)))
              && Spared(next, track, boxes[1..])
  {
    assert forall k :: 0 < k < |boxes| ==> boxes[1..][k-1] == boxes[k];
  }

  lemma {:induction false} PutsBare(db: Db, track: nat, boxes: seq<Found>, source: Source)
    requires EmptyBare(db) && forall i, j :: 0 <= i < j < |boxes| ==> boxes[i].frame != boxes[j].frame
    ensures EmptyBare(ProposalsPut(db, track, boxes, source)) <==> Spared(db, track, boxes)
    decreases |boxes|
  {
    if boxes != [] {
      var key := Key(track, boxes[0].frame);
      var next := ProposalPut(db, key, boxes[0].rect, source);
      PutBare(db, key, boxes[0].rect, source);
      SparedRest(db, track, boxes, source);
      if EmptyBare(next) {
        PutsBare(next, track, boxes[1..], source);
      } else {
        PutsStayUnbare(next, track, boxes[1..], source);
      }
    }
  }

  lemma {:induction false} PutsStayUnbare(db: Db, track: nat, boxes: seq<Found>, source: Source)
    requires !EmptyBare(db)
    ensures !EmptyBare(ProposalsPut(db, track, boxes, source))
    decreases |boxes|
  {
    if boxes != [] {
      var key := Key(track, boxes[0].frame);
      PutKeepsBoxes(db, key, boxes[0].rect, source);
      StaysUnbare(db, ProposalPut(db, key, boxes[0].rect, source));
      PutsStayUnbare(ProposalPut(db, key, boxes[0].rect, source), track, boxes[1..], source);
    }
  }

  lemma {:induction false} ObjectsStayUnbare(db: Db, like: Track, frame: nat, rects: seq<Rect>)
    requires !EmptyBare(db)
    ensures !EmptyBare(ObjectsFound(db, like, frame, rects))
    decreases |rects|
  {
    if rects != [] {
      var added := TrackAdded(db, Track(like.clip, like.labelType, false, None));
      assert !EmptyBare(added);
      PutKeepsBoxes(added, Key(db.nextTrack, frame), rects[0], Sam);
      StaysUnbare(added, ProposalPut(added, Key(db.nextTrack, frame), rects[0], Sam));
      ObjectsStayUnbare(ProposalPut(added, Key(db.nextTrack, frame), rects[0], Sam), like, frame, rects[1..]);
    }
  }

  lemma {:induction false} ObjectsBare(db: Db, like: Track, frame: nat, rects: seq<Rect>)
    requires Sound(db) && EmptyBare(db) && frame in db.frames && db.frames[frame].clip == like.clip
    ensures EmptyBare(ObjectsFound(db, like, frame, rects)) <==> rects == [] || !MarkedEmpty(db, frame)
    decreases |rects|
  {
    if rects != [] {
      var t := Track(like.clip, like.labelType, false, None);
      var added := TrackAdded(db, t);
      var key := Key(db.nextTrack, frame);
      NewTrackIsBare(db, frame);
      ObjectsFoundKeep(db, like, frame, rects[..1]);
      assert ObjectsFound(db, like, frame, rects[..1]) == ProposalPut(added, key, rects[0], Sam);
      PutBare(added, key, rects[0], Sam);
      if !MarkedEmpty(db, frame) {
        ObjectsBare(ProposalPut(added, key, rects[0], Sam), like, frame, rects[1..]);
      } else {
        ObjectsStayUnbare(ProposalPut(added, key, rects[0], Sam), like, frame, rects[1..]);
      }
    }
  }

  lemma NewTrackIsBare(db: Db, frame: nat)
    requires Sound(db)
    ensures !HasRow(db.rows, Key(db.nextTrack, frame))
  {
    forall k | 0 <= k < |db.rows| ensures db.rows[k].key.track != db.nextTrack {
      assert db.rows[k] in db.rows;
      assert InClip(db, db.rows[k].key);
    }
  }

  // ---- Writes that stay off empty frames

  lemma DropBare(db: Db, gone: Row -> bool, ids: seq<nat>)
    requires EmptyBare(db)
    ensures EmptyBare(EmptyTracksDropped(ProposalsDropped(db, gone), ids)) && EmptyBare(ProposalsDropped(db, gone))
  {
  }

  lemma {:induction false} PrelabelsBare(db: Db, track: nat, boxes: seq<Found>, source: Source)
    requires EmptyBare(db) && forall b :: b in boxes ==> !MarkedEmpty(db, b.frame)
    ensures EmptyBare(PrelabelsPut(db, track, boxes, source))
    ensures PrelabelsPut(db, track, boxes, source).frames == db.frames
    decreases |boxes|
  {
    if boxes != [] {
      var key := Key(track, boxes[0].frame);
      assert boxes[0] in boxes;
      PutBare(db, key, boxes[0].rect, source);
      PrelabelsBare(PrelabelPut(db, key, boxes[0].rect, source), track, boxes[1..], source);
    }
  }

  lemma {:induction false} TracksFoundBare(db: Db, clip: nat, locked: seq<nat>, found: seq<FoundTrack>, source: Source)
    requires EmptyBare(db) && forall f :: f in locked ==> !MarkedEmpty(db, f)
    ensures EmptyBare(TracksFound(db, clip, locked, found, source))
    decreases |found|
  {
    if found != [] {
      var added := TrackAdded(db, Track(clip, found[0].labelType, false, Some(found[0].labelType)));
      var boxes := Filter(FoundOn(locked), found[0].boxes);
      assert EmptyBare(added);
      PrelabelsBare(added, db.nextTrack, boxes, source);
      TracksFoundBare(PrelabelsPut(added, db.nextTrack, boxes, source), clip, locked, found[1..], source);
    }
  }

  lemma SavePrelabelsBare(db: Db, clip: nat, frames: seq<nat>, source: Source, found: seq<FoundTrack>)
    requires EmptyBare(db)
    ensures EmptyBare(Write(db, SavePrelabels(clip, frames, source, found)).value)
  {
    var locked := Filter(Unmarked(db, clip), frames);
    var gone := OpenPrelabel(db, locked, source);
    var ids := TracksOf(Map(KeyOf(), Filter(Gone(gone), db.rows)));
    DropBare(db, gone, ids);
    TracksFoundBare(EmptyTracksDropped(ProposalsDropped(db, gone), ids), clip, locked, found, source);
  }

  // ---- Exactly when empty frames stay bare

  // The step writes no box onto a frame marked empty.
  ghost predicate Spares(db: Db, step: Step) {
    match step
    case Models(ReportBoxes(track, boxes, _)) => Reportable(db, track, boxes) ==> Spared(db, track, boxes)
    case Models(FindObjects(track, frame, rects)) =>
      TrackLive(db, track) && InClip(db, Key(track, frame)) ==> rects == [] || !MarkedEmpty(db, frame)
    case _ => true
  }

  lemma WriteBare(db: Db, w: ModelWrite)
    requires Sound(db) && EmptyBare(db)
    ensures EmptyBare(OrSame(Write(db, w), db)) <==> Spares(db, Models(w))
  {
    match w
    case ReportBoxes(track, boxes, source) =>
      if Reportable(db, track, boxes) {
        PutsBare(db, track, boxes, source);
      }
    case FindObjects(track, frame, rects) =>
      if TrackLive(db, track) && InClip(db, Key(track, frame)) {
        ObjectsBare(db, db.tracks[track], frame, rects);
      }
    case SavePrelabels(clip, frames, source, found) => SavePrelabelsBare(db, clip, frames, source, found);
    case RestartTracking(track, idx) => DropBare(db, FromIdx(db, track, idx), []);
    case DropEmptyTrack(track) =>
    case ClearPrelabels(frames) =>
      DropBare(db, AnyPrelabel(frames), TracksOf(Map(KeyOf(), Filter(Gone(AnyPrelabel(frames)), db.rows))));
  }

  // No labeler's request, pre-label or trashing puts a box on an empty frame;
  // a tracker's report or an exemplar search does just when it writes to one.
  lemma StepBare(db: Db, overlap: Overlap, step: Step)
    requires Sound(db) && EmptyBare(db)
    ensures EmptyBare(Do(db, overlap, step)) <==> Spares(db, step)
  {
    match step
    case Labels(me, request) => RequestBare(db, overlap, me, request);
    case Models(write) => WriteBare(db, write);
    case Trashes(live) =>
  }

  // Every model write of the run spares the empty frames there are by then.
  ghost predicate SparesAll(db: Db, overlap: Overlap, steps: seq<Step>)
    decreases |steps|
  {
    steps == [] || (Spares(db, steps[0]) && SparesAll(Do(db, overlap, steps[0]), overlap, steps[1..]))
  }

  lemma {:induction false} RunBare(db: Db, overlap: Overlap, steps: seq<Step>)
    requires Sound(db) && EmptyBare(db) && SparesAll(db, overlap, steps)
    ensures EmptyBare(Run(db, overlap, steps))
    decreases |steps|
  {
    if steps != [] {
      DoKeeps(db, overlap, steps[0]);
      StepBare(db, overlap, steps[0]);
      RunBare(Do(db, overlap, steps[0]), overlap, steps[1..]);
    }
  }

  lemma FreshIsBare(live: set<nat>, frames: map<nat, Frame>)
    ensures Sound(Fresh(live, frames)) && EmptyBare(Fresh(live, frames)) && NoneRejected(Fresh(live, frames))
  {
  }

  // ---- No box is ever rejected in place

  lemma PutNoneRejected(db: Db, key: Key, rect: Rect, source: Source)
    requires NoneRejected(db)
    ensures NoneRejected(ProposalPut(db, key, rect, source))
  {
    forall r | r in ProposalPut(db, key, rect, source).rows ensures r.held.status != Rejected {
      PutRows(db, key, rect, source, r);
    }
  }

  lemma {:induction false} PutsNoneRejected(db: Db, track: nat, boxes: seq<Found>, source: Source)
    requires NoneRejected(db)
    ensures NoneRejected(ProposalsPut(db, track, boxes, source)) && NoneRejected(PrelabelsPut(db, track, boxes, source))
    decreases |boxes|
  {
    if boxes != [] {
      var key := Key(track, boxes[0].frame);
      PutNoneRejected(db, key, boxes[0].rect, source);
      PutsNoneRejected(ProposalPut(db, key, boxes[0].rect, source), track, boxes[1..], source);
      PutsNoneRejected(PrelabelPut(db, key, boxes[0].rect, source), track, boxes[1..], source);
    }
  }

  lemma {:induction false} TracksNoneRejected(db: Db, clip: nat, locked: seq<nat>, found: seq<FoundTrack>,
                                              source: Source)
    requires NoneRejected(db)
    ensures NoneRejected(TracksFound(db, clip, locked, found, source))
    decreases |found|
  {
    if found != [] {
      var added := TrackAdded(db, Track(clip, found[0].labelType, false, Some(found[0].labelType)));
      var boxes := Filter(FoundOn(locked), found[0].boxes);
      assert NoneRejected(added);
      PutsNoneRejected(added, db.nextTrack, boxes, source);
      TracksNoneRejected(PrelabelsPut(added, db.nextTrack, boxes, source), clip, locked, found[1..], source);
    }
  }

  lemma {:induction false} ObjectsNoneRejected(db: Db, like: Track, frame: nat, rects: seq<Rect>)
    requires NoneRejected(db)
    ensures NoneRejected(ObjectsFound(db, like, frame, rects))
    decreases |rects|
  {
    if rects != [] {
      var added := TrackAdded(db, Track(like.clip, like.labelType, false, None));
      PutNoneRejected(added, Key(db.nextTrack, frame), rects[0], Sam);
      ObjectsNoneRejected(ProposalPut(added, Key(db.nextTrack, frame), rects[0], Sam), like, frame, rects[1..]);
    }
  }

  lemma WriteNoneRejected(db: Db, w: ModelWrite)
    requires NoneRejected(db)
    ensures NoneRejected(OrSame(Write(db, w), db))
  {
    match w
    case ReportBoxes(track, boxes, source) => PutsNoneRejected(db, track, boxes, source);
    case FindObjects(track, frame, rects) =>
      if TrackLive(db, track) && InClip(db, Key(track, frame)) {
        ObjectsNoneRejected(db, db.tracks[track], frame, rects);
      }
    case SavePrelabels(clip, frames, source, found) =>
      var locked := Filter(Unmarked(db, clip), frames);
      var gone := OpenPrelabel(db, locked, source);
      var ids := TracksOf(Map(KeyOf(), Filter(Gone(gone), db.rows)));
      assert NoneRejected(EmptyTracksDropped(ProposalsDropped(db, gone), ids));
      TracksNoneRejected(EmptyTracksDropped(ProposalsDropped(db, gone), ids), clip, locked, found, source);
    case _ =>
  }

  lemma {:induction false} RunNoneRejected(db: Db, overlap: Overlap, steps: seq<Step>)
    requires NoneRejected(db)
    ensures NoneRejected(Run(db, overlap, steps))
    decreases |steps|
  {
    if steps != [] {
      match steps[0] {
        case Labels(me, request) => RequestBare(db, overlap, me, request);
        case Models(write) => WriteNoneRejected(db, write);
        case Trashes(live) =>
      }
      RunNoneRejected(Do(db, overlap, steps[0]), overlap, steps[1..]);
    }
  }

  lemma SparedIsOffEmpty(db: Db, track: nat, boxes: seq<Found>)
    requires EmptyBare(db) && NoneRejected(db)
    ensures Spared(db, track, boxes) <==> forall k :: 0 <= k < |boxes| ==> !MarkedEmpty(db, boxes[k].frame)
  {
    forall k | 0 <= k < |boxes| && HasRow(db.rows, Key(track, boxes[k].frame))
      ensures !MarkedEmpty(db, boxes[k].frame)
    {
      var i :| 0 <= i < |db.rows| && db.rows[i].key == Key(track, boxes[k].frame);
      assert db.rows[i] in db.rows;
    }
  }

  // After any run, a tracker's report leaves the empty frames bare exactly
  // when none of its boxes is on one.
  lemma ReportLandsOnEmpty(live: set<nat>, frames: map<nat, Frame>, overlap: Overlap, steps: seq<Step>,
                           track: nat, boxes: seq<Found>, source: Source)
    requires var db := Run(Fresh(live, frames), overlap, steps);
             EmptyBare(db) && Reportable(db, track, boxes)
    ensures var db := Run(Fresh(live, frames), overlap, steps);
            EmptyBare(Do(db, overlap, Models(ReportBoxes(track, boxes, source)))) <==>
            forall k :: 0 <= k < |boxes| ==> db.frames[boxes[k].frame].status != Empty
  {
    var db := Run(Fresh(live, frames), overlap, steps);
    FreshIsBare(live, frames);
    EveryProposalIsAccountedFor(Fresh(live, frames), overlap, steps);
    RunNoneRejected(Fresh(live, frames), overlap, steps);
    StepBare(db, overlap, Models(ReportBoxes(track, boxes, source)));
    SparedIsOffEmpty(db, track, boxes);
    assert forall k :: 0 <= k < |boxes| ==> InClip(db, Key(track, boxes[k].frame));
  }

  // ---- It happens

  function Whole(): Rect {
    Rect(0.0, 0.0, 1.0, 1.0)
  }

  function OneFrame(status: FrameStatus, marker: Option<nat>): map<nat, Frame> {
    map[1 := Frame(1, 0, status, marker)]
  }

  // Tracking starts from a point, the frame is marked empty meanwhile, and the
  // tracker reports a box on it.
  function LateReport(): seq<Step> {
    [Labels(7, TrackObject(1, None, 5, true, AtPoint(0.5, 0.5))),
     Labels(7, SetFrameStatus(1, Some(Empty))),
     Models(ReportBoxes(1, [Found(1, Whole())], Sam))]
  }

  lemma RunThree(db: Db, overlap: Overlap, a: Step, b: Step, c: Step)
    ensures Run(db, overlap, [a, b, c]) == Do(Do(Do(db, overlap, a), overlap, b), overlap, c)
  {
    var first := Do(db, overlap, a);
    var second := Do(first, overlap, b);
    assert [a, b, c][1..] == [b, c] && [b, c][1..] == [c] && [c][1..] == [];
    assert Run(second, overlap, [c]) == Do(second, overlap, c);
    assert Run(first, overlap, [b, c]) == Run(second, overlap, [c]);
  }

  lemma ProposalOnEmptyFrame(overlap: Overlap)
    ensures var db := Run(Fresh({1}, OneFrame(Unlabeled, None)), overlap, LateReport());
            && MarkedEmpty(db, 1) && OpenCount(db.rows, Key(1, 1)) == 1 && !EmptyBare(db)
  {
    var start := Fresh({1}, OneFrame(Unlabeled, None));
    var tracked := start.(tracks := map[1 := Track(1, 5, false, None)], nextTrack := 2);
    var marked := tracked.(frames := OneFrame(Empty, Some(7)));
    var steps := LateReport();
    RunThree(start, overlap, steps[0], steps[1], steps[2]);
    assert Do(start, overlap, steps[0]) == tracked;
    assert Do(tracked, overlap, steps[1]) == marked;
    var row := Row(Key(1, 1), Held(Whole(), Sam, Proposed));
    assert InClip(marked, Key(1, 1));
    assert ProposalsPut(marked, 1, [Found(1, Whole())], Sam) == ProposalPut(marked, Key(1, 1), Whole(), Sam);
    var db := Do(marked, overlap, steps[2]);
    assert db.rows == [row] && row in db.rows;
  }
}
