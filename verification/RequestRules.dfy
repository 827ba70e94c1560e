// What each labeling request changes and when it fails, said of the tables
// before and after alone.
module RequestRules {
  import opened Sequences
  import opened Geometry
  import opened BoxEvents
  import opened AnnotationTables

  // ---- The box that is saved

  predicate InFrame(x: real, y: real) {
    0.0 <= x <= 1.0 && 0.0 <= y <= 1.0
  }

  predicate Inside(inner: Rect, outer: Rect) {
    && outer.x <= inner.x && inner.x + inner.w <= outer.x + outer.w
    && outer.y <= inner.y && inner.y + inner.h <= outer.y + outer.h
  }

  predicate LargeEnough(r: Rect) {
    r.w >= MIN_SIDE && r.h >= MIN_SIDE
  }

  // Enough of the drawn box is in the frame.
  ghost predicate Fits(drawn: Rect) {
    exists r :: Inside(r, drawn) && Inside(r, Rect(0.0, 0.0, 1.0, 1.0)) && LargeEnough(r)
  }

  // The part of the drawn box that is in the frame.
  ghost predicate Clipped(drawn: Rect, saved: Rect) {
    && LargeEnough(saved)
    && (forall x, y :: Covers(saved, x, y) <==> Covers(drawn, x, y) && InFrame(x, y))
    && (Inside(drawn, Rect(0.0, 0.0, 1.0, 1.0)) ==> saved == drawn)
  }

  lemma ClampTells(drawn: Rect)
    ensures ClampBox(Some(drawn)).Some? <==> Fits(drawn)
    ensures ClampBox(Some(drawn)).Some? ==> Clipped(drawn, ClampBox(Some(drawn)).value)
  {
    var saved := ClampBox(Some(drawn));
    if saved.Some? {
      assert Inside(saved.value, drawn) && Inside(saved.value, Rect(0.0, 0.0, 1.0, 1.0));
      forall x, y ensures Covers(saved.value, x, y) <==> Covers(drawn, x, y) && InFrame(x, y) {
      }
    }
  }

  // There is one box that is that part.
  lemma ClippedOneWay(drawn: Rect, a: Rect, b: Rect)
    requires Clipped(drawn, a) && Clipped(drawn, b)
    ensures a == b
  {
    assert Covers(a, a.x, a.y) && Covers(a, a.x + a.w, a.y + a.h);
    assert Covers(b, b.x, b.y) && Covers(b, b.x + b.w, b.y + b.h);
    SamePoints(drawn, a, b, a.x, a.y);
    SamePoints(drawn, a, b, a.x + a.w, a.y + a.h);
    SamePoints(drawn, b, a, b.x, b.y);
    SamePoints(drawn, b, a, b.x + b.w, b.y + b.h);
  }

  lemma SamePoints(drawn: Rect, a: Rect, b: Rect, x: real, y: real)
    requires Clipped(drawn, a) && Clipped(drawn, b) && Covers(a, x, y)
    ensures Covers(b, x, y)
  {
  }

  // ---- What an edit is about

  // What is known of a track on a frame, apart from its box.
  predicate About(db: Db, key: Key, s: State) {
    && key.track in db.tracks && key.frame in db.frames && db.tracks[key.track].clip == db.frames[key.frame].clip
    && s.key == key && s.frameStatus == db.frames[key.frame].status && s.statusBy == db.frames[key.frame].markedBy
    && s.labelType == db.tracks[key.track].labelType && s.classEdited == db.tracks[key.track].classEdited
    && s.proposedType == db.tracks[key.track].proposedType
  }

  ghost predicate Holds(rows: seq<Row>, key: Key) {
    exists r :: r in rows && r.key == key
  }

  lemma HoldsIff(rows: seq<Row>, key: Key)
    ensures Holds(rows, key) <==> HasRow(rows, key)
    ensures Holds(rows, key) <==> Filter(Where(Is(key)), rows) != []
  {
    var own := Filter(Where(Is(key)), rows);
    if own != [] {
      assert own[0] in own;
    }
    if r :| r in rows && r.key == key {
      assert Where(Is(key))(r);
      assert r in own;
    }
  }

  lemma BareIs(db: Db, key: Key, s: State)
    requires InClip(db, key)
    ensures About(db, key, s) <==> s == BareState(db, key).(box := s.box)
  {
  }

  // For one frame the track's box is read, or none if it has none there.
  lemma StatesAtTell(db: Db, key: Key, s: State)
    ensures s in StatesAt(db, key) <==>
            About(db, key, s) &&
            if s.box.Some? then Row(key, s.box.value) in db.rows else !Holds(db.rows, key)
  {
    var own := Filter(Where(Is(key)), db.rows);
    HoldsIff(db.rows, key);
    if InClip(db, key) {
      BareIs(db, key, s);
      if s in Map(StateOf(db), own) {
        var k :| 0 <= k < |own| && StateOf(db)(own[k]) == s;
        assert own[k] in own && own[k] == Row(key, own[k].held);
      }
      if s.box.Some? && Row(key, s.box.value) in db.rows && About(db, key, s) {
        var r := Row(key, s.box.value);
        assert Where(Is(key))(r) && r in own;
        var k :| 0 <= k < |own| && own[k] == r;
        assert Map(StateOf(db), own)[k] == s;
      }
    }
  }

  // For a track all its boxes are read.
  lemma StatesOfTrackTell(db: Db, track: nat, s: State)
    ensures s in StatesOfTrack(db, track) <==>
            s.key.track == track && About(db, s.key, s) && s.box.Some? && Row(s.key, s.box.value) in db.rows
  {
    var own, states := Filter(Where(OnTrack(db, track)), db.rows), StatesOfTrack(db, track);
    if s in states {
      var k :| 0 <= k < |states| && StateOf(db)(own[k]) == s;
      assert own[k] in own && own[k] == Row(s.key, s.box.value);
      BareIs(db, s.key, s);
    }
    if s.key.track == track && About(db, s.key, s) && s.box.Some? && Row(s.key, s.box.value) in db.rows {
      var r := Row(s.key, s.box.value);
      BareIs(db, s.key, s);
      assert Where(OnTrack(db, track))(r) && r in own;
      var k :| 0 <= k < |own| && own[k] == r;
      assert states[k] == s;
    }
  }

  // ---- Boxes that stay

  function At(key: Key): Key -> bool {
    (k: Key) => k == key
  }

  function AlongTrack(track: nat): Key -> bool {
    (k: Key) => k.track == track
  }

  function Elsewhere(here: Key -> bool): Row -> bool {
    (r: Row) => !here(r.key)
  }

  // The boxes at other places are the same.
  ghost predicate SameElsewhere(before: seq<Row>, rows: seq<Row>, here: Key -> bool) {
    Filter(Elsewhere(here), rows) == Filter(Elsewhere(here), before)
  }

  lemma {:induction false} DrawnElsewhere(rows: seq<Row>, key: Key, rect: Rect)
    ensures SameElsewhere(rows, Map(DrawnOver(key, rect), rows), At(key))
  {
    if rows != [] {
      DrawnElsewhere(rows[1..], key, rect);
      MapStep(DrawnOver(key, rect), rows);
      FilterCons(Elsewhere(At(key)), DrawnOver(key, rect)(rows[0]), Map(DrawnOver(key, rect), rows[1..]));
    }
  }

  lemma AddedElsewhere(rows: seq<Row>, r: Row, here: Key -> bool)
    requires here(r.key)
    ensures SameElsewhere(rows, rows + [r], here)
  {
    FilterAppend(Elsewhere(here), rows, [r]);
  }

  // Dropping the boxes of a place drops them alone.
  lemma FilteredElsewhere(rows: seq<Row>, here: Key -> bool, keep: Row -> bool)
    requires forall r :: keep(r) <==> !here(r.key)
    ensures SameElsewhere(rows, Filter(keep, rows), here)
    ensures forall r :: r in Filter(keep, rows) ==> !here(r.key)
  {
    FilterTwice(Elsewhere(here), keep, Elsewhere(here), rows);
  }

  // One box at the place, drawn by a labeler.
  ghost predicate DrawnAt(rows: seq<Row>, key: Key, rect: Rect) {
    && (exists r :: r in rows && r.key == key)
    && (forall r :: r in rows && r.key == key ==> r.held == Held(rect, Human, Verified))
  }

  lemma UpsertTells(db: Db, key: Key, rect: Rect)
    ensures DrawnAt(Upserted(db, key, rect).rows, key, rect)
    ensures SameElsewhere(db.rows, Upserted(db, key, rect).rows, At(key))
  {
    var rows := Upserted(db, key, rect).rows;
    if HasRow(db.rows, key) {
      DrawnElsewhere(db.rows, key, rect);
      var k :| 0 <= k < |db.rows| && db.rows[k].key == key;
      assert rows[k] == Drawn(key, rect) && rows[k] in rows;
    } else {
      AddedElsewhere(db.rows, Drawn(key, rect), At(key));
      assert Drawn(key, rect) in rows;
    }
  }

  // A frame marked empty is marked no more, and nothing else changes.
  ghost predicate Unemptied(before: map<nat, Frame>, frames: map<nat, Frame>, frame: nat) {
    frames == if frame in before && before[frame].status == Empty
              then before[frame := Frame(before[frame].clip, before[frame].idx, Unlabeled, None)] else before
  }

  // The edit's events and refusals are added.
  ghost predicate Noted(before: Db, db: Db, overlap: Overlap, e: Edit, states: seq<State>) {
    && db.events == before.events + EventsOf(e, states)
    && db.refusals == before.refusals + RefusalsOf(overlap, e, states)
  }

  // Nothing that requests leave alone.
  ghost predicate SameRest(before: Db, db: Db) {
    db.live == before.live && db.proposed == before.proposed && db.withdrawn == before.withdrawn
  }

  // A labeler's box is the only one at its place, and noted there.
  ghost predicate Saved(before: Db, db: Db, overlap: Overlap, me: nat, key: Key, drawn: Rect) {
    exists rect :: SavedAs(before, db, overlap, me, key, drawn, rect)
  }

  ghost predicate SavedAs(before: Db, db: Db, overlap: Overlap, me: nat, key: Key, drawn: Rect, rect: Rect) {
    && Clipped(drawn, rect) && DrawnAt(db.rows, key, rect) && SameElsewhere(before.rows, db.rows, At(key))
    && Noted(before, db, overlap, Edit(me, OpSet, rect), StatesAt(before, key))
    && Unemptied(before.frames, db.frames, key.frame)
    && db.tracks == before.tracks && db.nextTrack == before.nextTrack && SameRest(before, db)
  }

  lemma BoxSavedTells(db: Db, overlap: Overlap, me: nat, key: Key, drawn: Rect)
    requires ClampBox(Some(drawn)).Some?
    ensures Saved(db, BoxSaved(db, overlap, me, key, ClampBox(Some(drawn)).value), overlap, me, key, drawn)
  {
    var rect := ClampBox(Some(drawn)).value;
    ClampTells(drawn);
    UpsertTells(Recorded(db, overlap, Edit(me, OpSet, rect), StatesAt(db, key)), key, rect);
    assert SavedAs(db, BoxSaved(db, overlap, me, key, rect), overlap, me, key, drawn, rect);
  }

  // ---- Each request

  predicate LiveFrame(db: Db, frame: nat) {
    frame in db.frames && db.frames[frame].clip in db.live
  }

  predicate LiveTrack(db: Db, track: nat) {
    track in db.tracks && db.tracks[track].clip in db.live
  }

  // A drawn box that can be saved.
  ghost predicate Drawable(box: Option<Rect>) {
    box.Some? && Fits(box.value)
  }

  // A track and a frame of one live clip.
  predicate Together(db: Db, key: Key) {
    LiveTrack(db, key.track) && LiveFrame(db, key.frame) && db.tracks[key.track].clip == db.frames[key.frame].clip
  }

  lemma SetTells(db: Db, overlap: Overlap, me: nat, key: Key, box: Option<Rect>)
    ensures var next := Set(db, overlap, me, key, box);
            && (next.Some? <==> Drawable(box) && Together(db, key))
            && (next.Some? ==> Saved(db, next.value, overlap, me, key, box.value))
  {
    if box.Some? {
      ClampTells(box.value);
      if Set(db, overlap, me, key, box).Some? {
        BoxSavedTells(db, overlap, me, key, box.value);
      }
    }
  }

  // A new track, numbered next.
  ghost predicate Begun(before: Db, db: Db, clip: nat, labelType: nat) {
    && db.tracks == before.tracks[before.nextTrack := Track(clip, labelType, false, None)]
    && db == before.(tracks := db.tracks, nextTrack := before.nextTrack + 1)
  }

  ghost predicate BegunAndSaved(before: Db, db: Db, overlap: Overlap, me: nat, clip: nat, labelType: nat, frame: nat,
                                drawn: Rect) {
    exists begun :: Begun(before, begun, clip, labelType)
                    && Saved(begun, db, overlap, me, Key(before.nextTrack, frame), drawn)
  }

  lemma CreateTells(db: Db, overlap: Overlap, me: nat, clip: nat, frame: nat, labelType: nat, valuesOk: bool,
                    box: Option<Rect>)
    ensures var next := Create(db, overlap, me, clip, frame, labelType, valuesOk, box);
            && (next.Some? <==> Drawable(box) && valuesOk && LiveFrame(db, frame) && db.frames[frame].clip == clip)
            && (next.Some? ==> BegunAndSaved(db, next.value, overlap, me, clip, labelType, frame, box.value))
  {
    if box.Some? {
      ClampTells(box.value);
      if Create(db, overlap, me, clip, frame, labelType, valuesOk, box).Some? {
        var begun := TrackAdded(db, Track(clip, labelType, false, None));
        BoxSavedTells(begun, overlap, me, Key(db.nextTrack, frame), box.value);
        assert Begun(db, begun, clip, labelType);
      }
    }
  }

  // Only the track's type and the note that its class was edited change.
  ghost predicate Retyped(before: Db, db: Db, track: nat, labelType: nat, edited: bool)
    requires track in before.tracks
  {
    var t := before.tracks[track];
    && db.tracks == before.tracks[track := Track(t.clip, labelType, t.classEdited || edited, t.proposedType)]
    && db.rows == before.rows && db.frames == before.frames && db.nextTrack == before.nextTrack
    && SameRest(before, db)
  }

  lemma UpdateTells(db: Db, overlap: Overlap, me: nat, track: nat, labelType: nat, valuesOk: bool, valuesChange: bool)
    ensures var next := Update(db, overlap, me, track, labelType, valuesOk, valuesChange);
            && (next.Some? <==> LiveTrack(db, track) && valuesOk)
            && (next.Some? ==>
                  var other := db.tracks[track].labelType != labelType;
                  && Retyped(db, next.value, track, labelType, other || valuesChange)
                  && Noted(db, next.value, overlap, Edit(me, OpRelabel, Rect(0.0, 0.0, 0.0, 0.0)),
                           if other then StatesOfTrack(db, track) else []))
  {
  }

  // The track and its boxes are gone and no others.
  ghost predicate Removed(before: Db, db: Db, track: nat) {
    && db.tracks == before.tracks - {track} && (forall r :: r in db.rows ==> r.key.track != track)
    && SameElsewhere(before.rows, db.rows, AlongTrack(track))
    && db.frames == before.frames && db.nextTrack == before.nextTrack && SameRest(before, db)
  }

  lemma DroppedTells(db: Db, track: nat)
    ensures Removed(db, TrackDropped(db, track), track)
  {
    FilteredElsewhere(db.rows, AlongTrack(track), Where(Not(OfTrack(track))));
  }

  lemma DeleteTells(db: Db, overlap: Overlap, me: nat, track: nat)
    ensures var next := Delete(db, overlap, me, track);
            && (next.Some? <==> LiveTrack(db, track))
            && (next.Some? ==>
                  && Removed(db, next.value, track)
                  && Noted(db, next.value, overlap, Edit(me, OpDelete, Rect(0.0, 0.0, 0.0, 0.0)),
                           StatesOfTrack(db, track)))
  {
    if LiveTrack(db, track) {
      var e := Edit(me, OpDelete, Rect(0.0, 0.0, 0.0, 0.0));
      DroppedTells(Recorded(db, overlap, e, StatesOfTrack(db, track)), track);
    }
  }

  // The box is gone, and its track too if it was the last.
  ghost predicate RemovedBox(before: Db, db: Db, key: Key) {
    && !Holds(db.rows, key) && SameElsewhere(before.rows, db.rows, At(key))
    && db.tracks == (if exists r :: r in db.rows && r.key.track == key.track then before.tracks
                     else before.tracks - {key.track})
    && db.frames == before.frames && db.nextTrack == before.nextTrack && SameRest(before, db)
  }

  lemma HasBoxesIff(rows: seq<Row>, track: nat)
    ensures HasBoxes(rows, track) <==> exists r :: r in rows && r.key.track == track
  {
    if HasBoxes(rows, track) {
      var k :| 0 <= k < |rows| && rows[k].key.track == track;
      assert rows[k] in rows;
    }
  }

  // A track without boxes takes none along.
  lemma DropsNoRows(db: Db, track: nat)
    requires forall r :: r in db.rows ==> r.key.track != track
    ensures TrackDropped(db, track).rows == db.rows
  {
    FilterAll(Where(Not(OfTrack(track))), db.rows);
  }

  lemma RemoveBoxTells(db: Db, overlap: Overlap, me: nat, key: Key)
    ensures var next := RemoveBox(db, overlap, me, key);
            && (next.Some? <==> LiveTrack(db, key.track) && Holds(db.rows, key))
            && (next.Some? ==>
                  && RemovedBox(db, next.value, key)
                  && Noted(db, next.value, overlap, Edit(me, OpDelete, Rect(0.0, 0.0, 0.0, 0.0)), StatesAt(db, key)))
  {
    HoldsIff(db.rows, key);
    if HasRow(db.rows, key) && LiveTrack(db, key.track) {
      var noted := Recorded(db, overlap, Edit(me, OpDelete, Rect(0.0, 0.0, 0.0, 0.0)), StatesAt(db, key));
      var left := noted.(rows := Filter(Where(Not(Is(key))), db.rows));
      FilteredElsewhere(db.rows, At(key), Where(Not(Is(key))));
      HasBoxesIff(left.rows, key.track);
      if !HasBoxes(left.rows, key.track) {
        DropsNoRows(left, key.track);
      }
    }
  }

  // ---- Copying

  // The box a copy is of: on the source frame, not rejected, of one of the
  // tracks asked for if any are, and none of its track on the target.
  ghost predicate CopyOf(rows: seq<Row>, from: nat, to: nat, only: seq<nat>, source: Row, copy: Row) {
    && source in rows && source.key.frame == from && (source.held.status == Proposed || source.held.status == Verified)
    && (|only| > 0 ==> source.key.track in only)
    && !Holds(rows, Key(source.key.track, to))
    && copy == Row(Key(source.key.track, to), Held(source.held.rect, Human, Verified))
  }

  lemma CopiedTells(db: Db, from: nat, to: nat, only: seq<nat>, copy: Row)
    ensures copy in Copied(db, from, to, only) <==> exists source :: CopyOf(db.rows, from, to, only, source, copy)
  {
    var kept, copied := Filter(Copies(db.rows, from, to, only), db.rows), Copied(db, from, to, only);
    if copy in copied {
      var k :| 0 <= k < |copied| && copied[k] == copy;
      assert kept[k] in kept;
      HoldsIff(db.rows, Key(kept[k].key.track, to));
      assert CopyOf(db.rows, from, to, only, kept[k], copy);
    }
    if source :| CopyOf(db.rows, from, to, only, source, copy) {
      HoldsIff(db.rows, Key(source.key.track, to));
      assert source in kept;
      var k :| 0 <= k < |kept| && kept[k] == source;
      assert copied[k] == copy;
    }
  }

  // The copies are added behind the boxes there are.
  ghost predicate CopiesAdded(before: Db, db: Db, from: nat, to: nat, only: seq<nat>) {
    && |before.rows| <= |db.rows| && db.rows[..|before.rows|] == before.rows
    && (forall copy :: copy in db.rows[|before.rows|..] <==>
          exists source :: CopyOf(before.rows, from, to, only, source, copy))
    && (if |db.rows| > |before.rows| then Unemptied(before.frames, db.frames, to) else db.frames == before.frames)
    && db.tracks == before.tracks && db.nextTrack == before.nextTrack && SameRest(before, db)
    && db.refusals == before.refusals
  }

  lemma CopyTells(db: Db, overlap: Overlap, me: nat, from: nat, to: nat, only: seq<nat>)
    ensures var next := Copy(db, overlap, me, from, to, only);
            && (next.Some? <==>
                  LiveFrame(db, from) && LiveFrame(db, to) && db.frames[from].clip == db.frames[to].clip)
            && (next.Some? ==> CopiesAdded(db, next.value, from, to, only))
  {
    var next, copied := Copy(db, overlap, me, from, to, only), Copied(db, from, to, only);
    if next.Some? {
      forall copy ensures copy in copied <==> exists source :: CopyOf(db.rows, from, to, only, source, copy) {
        CopiedTells(db, from, to, only, copy);
      }
      CopyAdds(db, overlap, me, from, to, only);
      assert (db.rows + copied)[..|db.rows|] == db.rows && (db.rows + copied)[|db.rows|..] == copied;
    }
  }

  lemma CopyAdds(db: Db, overlap: Overlap, me: nat, from: nat, to: nat, only: seq<nat>)
    requires Copy(db, overlap, me, from, to, only).Some?
    ensures var next, copied := Copy(db, overlap, me, from, to, only).value, Copied(db, from, to, only);
            && next.rows == db.rows + copied
            && (if |copied| > 0 then Unemptied(db.frames, next.frames, to) else next.frames == db.frames)
            && next.tracks == db.tracks && next.nextTrack == db.nextTrack && SameRest(db, next)
            && next.refusals == db.refusals
  {
    var copied := Copied(db, from, to, only);
    CopyRefusesNone(db.(rows := db.rows + copied), overlap, me, copied);
  }

  lemma {:induction false} CopyStatesUnboxed(db: Db, copied: seq<Row>)
    ensures forall s :: s in CopyStates(db, copied) ==> s.box.None?
  {
    if copied != [] {
      var n := |copied| - 1;
      CopyStatesUnboxed(db, copied[..n]);
    }
  }

  lemma CopyRefusesNone(db: Db, overlap: Overlap, me: nat, copied: seq<Row>)
    ensures RefusalsOf(overlap, CopyEdit(me), CopyStates(db, copied)) == []
  {
    CopyStatesUnboxed(db, copied);
    FilterNone(Refuses(overlap, CopyEdit(me)), CopyStates(db, copied));
  }

  // ---- Marking a frame

  // Whose a frame's status is: nobody's when unmarked, and whoever first gave
  // it the status it has.
  ghost predicate MarkedAs(before: Frame, frame: Frame, me: nat, status: FrameStatus) {
    && frame.clip == before.clip && frame.idx == before.idx && frame.status == status
    && frame.markedBy == (match status
                          case Unlabeled => None
                          case _ => if before.status == status then before.markedBy else Some(me))
  }

  predicate OpenAt(r: Row, frame: nat) {
    r.key.frame == frame && r.held.status == Proposed
  }

  // Every open proposal on the frame becomes a labeler's, and no other box
  // changes.
  ghost predicate AllAccepted(before: seq<Row>, rows: seq<Row>, frame: nat) {
    |rows| == |before| &&
    forall k :: 0 <= k < |rows| ==>
      rows[k] == if OpenAt(before[k], frame)
                 then Row(before[k].key, Held(before[k].held.rect, before[k].held.source, Verified)) else before[k]
  }

  // The event of a proposal accepted with its frame.
  ghost predicate AcceptsBox(db: Db, me: nat, frame: nat, r: Row, ev: Event) {
    && r in db.rows && OpenAt(r, frame) && r.key.track in db.tracks
    && var t := db.tracks[r.key.track];
       var kept := t.classEdited && (r.held.source == Yolo || r.held.source == Cv);
       ev == Event(if kept then WasEdited else WasAccepted, r.key, t.labelType, me, r.held.source, None)
  }

  ghost predicate OnTracks(db: Db) {
    forall r :: r in db.rows ==> r.key.track in db.tracks
  }

  lemma AcceptingTells(db: Db, me: nat, frame: nat, ev: Event)
    requires OnTracks(db)
    ensures ev in Map(Accepting(db, me), Filter(OpenOn(frame), db.rows)) <==>
            exists r :: AcceptsBox(db, me, frame, r, ev)
  {
    var own := Filter(OpenOn(frame), db.rows);
    var events := Map(Accepting(db, me), own);
    if ev in events {
      var k :| 0 <= k < |events| && events[k] == ev;
      assert own[k] in own;
      assert AcceptsBox(db, me, frame, own[k], ev);
    }
    if r :| AcceptsBox(db, me, frame, r, ev) {
      assert r in own;
      var k :| 0 <= k < |own| && own[k] == r;
      assert events[k] == ev;
    }
  }

  ghost predicate MarkedOn(before: Db, db: Db, me: nat, frame: nat, status: FrameStatus) {
    && frame in before.frames && frame in db.frames && MarkedAs(before.frames[frame], db.frames[frame], me, status)
    && db.frames == before.frames[frame := db.frames[frame]]
    && (if status == Labeled then AllAccepted(before.rows, db.rows, frame) else db.rows == before.rows)
    && db.tracks == before.tracks && db.nextTrack == before.nextTrack && SameRest(before, db)
    && db.refusals == before.refusals
  }

  // Each box accepted leaves one event, and nothing else does.
  ghost predicate AcceptedNoted(before: Db, db: Db, me: nat, frame: nat, status: FrameStatus) {
    && |before.events| <= |db.events| && db.events[..|before.events|] == before.events
    && forall ev :: ev in db.events[|before.events|..] <==>
                    status == Labeled && exists r :: AcceptsBox(before, me, frame, r, ev)
  }

  // No box is left on the frame but rejected ones.
  ghost predicate Bare(db: Db, frame: nat) {
    forall r :: r in db.rows && r.key.frame == frame ==> r.held.status == Rejected
  }

  lemma BareIff(db: Db, frame: nat)
    ensures Bare(db, frame) <==> !HasBox(db.rows, frame)
  {
    if HasBox(db.rows, frame) {
      var k :| 0 <= k < |db.rows| && db.rows[k].key.frame == frame && db.rows[k].held.status != Rejected;
      assert db.rows[k] in db.rows;
    }
  }

  lemma MarkTells(db: Db, me: nat, frame: nat, status: Option<FrameStatus>)
    ensures var next := Mark(db, me, frame, status);
            && (next.Some? <==>
                  status.Some? && LiveFrame(db, frame) && (status.value == Empty ==> Bare(db, frame)))
            && (next.Some? ==> MarkedOn(db, next.value, me, frame, status.value))
  {
    BareIff(db, frame);
  }

  lemma MarkNotes(db: Db, me: nat, frame: nat, status: Option<FrameStatus>)
    requires Mark(db, me, frame, status).Some? && OnTracks(db)
    ensures AcceptedNoted(db, Mark(db, me, frame, status).value, me, frame, status.value)
  {
    var next := Mark(db, me, frame, status).value;
    if status.value == Labeled {
      var marked := db.(frames := db.frames[frame := Marked(db.frames[frame], me, Labeled)]);
      var more := Map(Accepting(marked, me), Filter(OpenOn(frame), db.rows));
      assert next.events == db.events + more;
      forall ev ensures ev in more <==> exists r :: AcceptsBox(db, me, frame, r, ev) {
        AcceptingTells(marked, me, frame, ev);
        assert forall r :: AcceptsBox(db, me, frame, r, ev) <==> AcceptsBox(marked, me, frame, r, ev);
      }
    }
  }

  // ---- Tracking an object

  // A point on the frame or a box that can be saved.
  ghost predicate Usable(prompt: Prompt) {
    match prompt
    case AtPoint(x, y) => InFrame(x, y)
    case InBox(drawn) => Fits(drawn)
    case NoPrompt => false
  }

  // The track that is followed: one there already, or a new one.
  ghost predicate OnTo(before: Db, db: Db, frame: nat, onto: Option<nat>, labelType: nat)
    requires frame in before.frames
  {
    match onto
    case None => Begun(before, db, before.frames[frame].clip, labelType)
    case Some(_) => db == before
  }

  ghost predicate Followed(before: Db, db: Db, overlap: Overlap, me: nat, frame: nat, onto: Option<nat>,
                           labelType: nat, prompt: Prompt, ready: Db)
    requires frame in before.frames
  {
    OnTo(before, ready, frame, onto, labelType) &&
    match prompt
    case InBox(drawn) =>
      Saved(ready, db, overlap, me, Key(match onto case None => before.nextTrack case Some(t) => t, frame), drawn)
    case _ => db == ready
  }

  lemma FollowTells(db: Db, overlap: Overlap, me: nat, frame: nat, onto: Option<nat>, labelType: nat,
                    valuesOk: bool, prompt: Prompt)
    ensures var next := Follow(db, overlap, me, frame, onto, labelType, valuesOk, prompt);
            && (next.Some? <==> Usable(prompt) && LiveFrame(db, frame) &&
                                match onto case None => valuesOk case Some(t) => Together(db, Key(t, frame)))
            && (next.Some? ==> exists ready ::
                  Followed(db, next.value, overlap, me, frame, onto, labelType, prompt, ready))
  {
    if prompt.InBox? {
      ClampTells(prompt.drawn);
    }
    var next := Follow(db, overlap, me, frame, onto, labelType, valuesOk, prompt);
    if next.Some? {
      var ready := if onto.None? then TrackAdded(db, Track(db.frames[frame].clip, labelType, false, None)) else db;
      var key := Key(if onto.None? then db.nextTrack else onto.value, frame);
      if prompt.InBox? {
        BoxSavedTells(ready, overlap, me, key, prompt.drawn);
      }
      assert Followed(db, next.value, overlap, me, frame, onto, labelType, prompt, ready);
    }
  }

  // ---- Every request

  // Whether a request succeeds, and what it did if so.
  ghost predicate Did(before: Db, after: Option<Db>, overlap: Overlap, me: nat, r: Request) {
    match r
    case CreateTrack(clip, frame, labelType, ok, box) =>
      && (after.Some? <==> Drawable(box) && ok && LiveFrame(before, frame) && before.frames[frame].clip == clip)
      && (after.Some? ==> BegunAndSaved(before, after.value, overlap, me, clip, labelType, frame, box.value))
    case UpdateTrack(track, labelType, ok, change) =>
      && (after.Some? <==> LiveTrack(before, track) && ok)
      && (after.Some? ==>
            var other := before.tracks[track].labelType != labelType;
            && Retyped(before, after.value, track, labelType, other || change)
            && Noted(before, after.value, overlap, Edit(me, OpRelabel, Rect(0.0, 0.0, 0.0, 0.0)),
                     if other then StatesOfTrack(before, track) else []))
    case DeleteTrack(track) =>
      && (after.Some? <==> LiveTrack(before, track))
      && (after.Some? ==>
            && Removed(before, after.value, track)
            && Noted(before, after.value, overlap, Edit(me, OpDelete, Rect(0.0, 0.0, 0.0, 0.0)),
                     StatesOfTrack(before, track)))
    case SetBox(key, box) =>
      && (after.Some? <==> Drawable(box) && Together(before, key))
      && (after.Some? ==> Saved(before, after.value, overlap, me, key, box.value))
    case DeleteBox(key) =>
      && (after.Some? <==> LiveTrack(before, key.track) && Holds(before.rows, key))
      && (after.Some? ==>
            && RemovedBox(before, after.value, key)
            && Noted(before, after.value, overlap, Edit(me, OpDelete, Rect(0.0, 0.0, 0.0, 0.0)), StatesAt(before, key)))
    case CopyBoxes(from, to, only) =>
      && (after.Some? <==>
            LiveFrame(before, from) && LiveFrame(before, to) && before.frames[from].clip == before.frames[to].clip)
      && (after.Some? ==> CopiesAdded(before, after.value, from, to, only))
    case SetFrameStatus(frame, status) =>
      && (after.Some? <==>
            status.Some? && LiveFrame(before, frame) && (status.value == Empty ==> Bare(before, frame)))
      && (after.Some? ==> MarkedOn(before, after.value, me, frame, status.value))
    case TrackObject(frame, onto, labelType, ok, prompt) =>
      && (after.Some? <==> Usable(prompt) && LiveFrame(before, frame) &&
                           match onto case None => ok case Some(t) => Together(before, Key(t, frame)))
      && (after.Some? ==> exists ready ::
            Followed(before, after.value, overlap, me, frame, onto, labelType, prompt, ready))
  }

  // Every request succeeds exactly when it may, and changes what it should
  // and nothing else.
  lemma RequestTells(db: Db, overlap: Overlap, me: nat, r: Request)
    ensures Did(db, Handle(db, overlap, me, r), overlap, me, r)
  {
    match r
    case CreateTrack(clip, frame, labelType, ok, box) => CreateTells(db, overlap, me, clip, frame, labelType, ok, box);
    case UpdateTrack(track, labelType, ok, change) => UpdateTells(db, overlap, me, track, labelType, ok, change);
    case DeleteTrack(track) => DeleteTells(db, overlap, me, track);
    case SetBox(key, box) => SetTells(db, overlap, me, key, box);
    case DeleteBox(key) => RemoveBoxTells(db, overlap, me, key);
    case CopyBoxes(from, to, only) => CopyTells(db, overlap, me, from, to, only);
    case SetFrameStatus(frame, status) => MarkTells(db, me, frame, status);
    case TrackObject(frame, onto, labelType, ok, prompt) =>
      FollowTells(db, overlap, me, frame, onto, labelType, ok, prompt);
  }
}
