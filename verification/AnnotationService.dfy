// The labeling requests as the server runs them: each a transaction of
// statements in order, undone whole when a later one fails.
module AnnotationService {
  import opened Sequences
  import opened Geometry
  import opened BoxEvents
  import opened AnnotationTables
  import opened RequestRules
  import opened ProposalCounts
  import opened TableShape
  import opened AnnotationLedger

  class Service {
    const overlap: Overlap
    var db: Db

    constructor (overlap: Overlap, db: Db)
      ensures this.overlap == overlap && this.db == db
    {
      this.overlap, this.db := overlap, db;
    }

    method RecordBoxEvents(e: Edit, states: seq<State>)
      modifies this`db
      ensures db == Recorded(old(db), overlap, e, states)
    {
      var events, refusals := InsertBoxEvents(overlap, e, states);
      db := db.(events := db.events + events, refusals := db.refusals + refusals);
    }

    method SaveBox(me: nat, key: Key, rect: Rect)
      modifies this`db
      ensures db == BoxSaved(old(db), overlap, me, key, rect)
    {
      RecordBoxEvents(Edit(me, OpSet, rect), StatesAt(db, key));
      db := Upserted(db, key, rect);
      db := EmptyCleared(db, key.frame);
    }

    method CreateTrack(me: nat, clip: nat, frame: nat, labelType: nat, valuesOk: bool, box: Option<Rect>)
      returns (ok: bool)
      modifies this`db
      ensures var next := Handle(old(db), overlap, me, Request.CreateTrack(clip, frame, labelType, valuesOk, box));
              ok == next.Some? && db == OrSame(next, old(db))
      ensures Did(old(db), if ok then Some(db) else None, overlap, me,
                  Request.CreateTrack(clip, frame, labelType, valuesOk, box))
      ensures Sound(old(db)) ==> Sound(db)
      ensures ok && Shaped(old(db)) ==> Resolves(old(db), db)
    {
      RequestServes(db, overlap, me, Request.CreateTrack(clip, frame, labelType, valuesOk, box));
      RequestTells(db, overlap, me, Request.CreateTrack(clip, frame, labelType, valuesOk, box));
      var rect := ClampBox(box);
      if rect.None? || !FrameLive(db, frame) || db.frames[frame].clip != clip || !valuesOk {
        return false;
      }
      var track := db.nextTrack;
      db := TrackAdded(db, Track(db.frames[frame].clip, labelType, false, None));
      SaveBox(me, Key(track, frame), rect.value);
      return true;
    }

    method UpdateTrack(me: nat, track: nat, labelType: nat, valuesOk: bool, valuesChange: bool) returns (ok: bool)
      modifies this`db
      ensures var next := Handle(old(db), overlap, me, Request.UpdateTrack(track, labelType, valuesOk, valuesChange));
              ok == next.Some? && db == OrSame(next, old(db))
      ensures Did(old(db), if ok then Some(db) else None, overlap, me,
                  Request.UpdateTrack(track, labelType, valuesOk, valuesChange))
      ensures Sound(old(db)) ==> Sound(db)
      ensures ok && Shaped(old(db)) ==> Resolves(old(db), db)
    {
      RequestServes(db, overlap, me, Request.UpdateTrack(track, labelType, valuesOk, valuesChange));
      RequestTells(db, overlap, me, Request.UpdateTrack(track, labelType, valuesOk, valuesChange));
      if !TrackLive(db, track) || !valuesOk {
        return false;
      }
      var t := db.tracks[track];
      if labelType != t.labelType {
        RecordBoxEvents(Edit(me, OpRelabel, Rect(0.0, 0.0, 0.0, 0.0)), StatesOfTrack(db, track));
      }
      var edited := labelType != t.labelType || valuesChange;
      db := db.(tracks := db.tracks[track := t.(labelType := labelType, classEdited := t.classEdited || edited)]);
      return true;
    }

    method DeleteTrack(me: nat, track: nat) returns (ok: bool)
      modifies this`db
      ensures var next := Handle(old(db), overlap, me, Request.DeleteTrack(track));
              ok == next.Some? && db == OrSame(next, old(db))
      ensures Did(old(db), if ok then Some(db) else None, overlap, me, Request.DeleteTrack(track))
      ensures Sound(old(db)) ==> Sound(db)
      ensures ok && Shaped(old(db)) ==> Resolves(old(db), db)
    {
      RequestServes(db, overlap, me, Request.DeleteTrack(track));
      RequestTells(db, overlap, me, Request.DeleteTrack(track));
      var begun := db;
      RecordBoxEvents(Edit(me, OpDelete, Rect(0.0, 0.0, 0.0, 0.0)), StatesOfTrack(db, track));
      if !TrackLive(db, track) {
        db := begun;
        return false;
      }
      db := TrackDropped(db, track);
      return true;
    }

    method SetBox(me: nat, key: Key, box: Option<Rect>) returns (ok: bool)
      modifies this`db
      ensures var next := Handle(old(db), overlap, me, Request.SetBox(key, box));
              ok == next.Some? && db == OrSame(next, old(db))
      ensures Did(old(db), if ok then Some(db) else None, overlap, me, Request.SetBox(key, box))
      ensures Sound(old(db)) ==> Sound(db)
      ensures ok && Shaped(old(db)) ==> Resolves(old(db), db)
    {
      RequestServes(db, overlap, me, Request.SetBox(key, box));
      RequestTells(db, overlap, me, Request.SetBox(key, box));
      var rect := ClampBox(box);
      if rect.None? || !TrackLive(db, key.track) || !FrameLive(db, key.frame) || !InClip(db, key) {
        return false;
      }
      SaveBox(me, key, rect.value);
      return true;
    }

    method DeleteBox(me: nat, key: Key) returns (ok: bool)
      modifies this`db
      ensures var next := Handle(old(db), overlap, me, Request.DeleteBox(key));
              ok == next.Some? && db == OrSame(next, old(db))
      ensures Did(old(db), if ok then Some(db) else None, overlap, me, Request.DeleteBox(key))
      ensures Sound(old(db)) ==> Sound(db)
      ensures ok && Shaped(old(db)) ==> Resolves(old(db), db)
    {
      RequestServes(db, overlap, me, Request.DeleteBox(key));
      RequestTells(db, overlap, me, Request.DeleteBox(key));
      var begun := db;
      RecordBoxEvents(Edit(me, OpDelete, Rect(0.0, 0.0, 0.0, 0.0)), StatesAt(db, key));
      if !HasRow(db.rows, key) || !TrackLive(db, key.track) {
        db := begun;
        return false;
      }
      db := db.(rows := Filter(Where(Not(Is(key))), db.rows));
      if !HasBoxes(db.rows, key.track) {
        db := TrackDropped(db, key.track);
      }
      return true;
    }

    method RecordCopies(me: nat, to: Frame, copied: seq<Row>)
      modifies this`db
      ensures db == CopiesRecorded(old(db), overlap, me, to, copied)
    {
      if to.status == Unlabeled || to.markedBy.None? || to.markedBy.value == me {
        return;
      }
      var states: seq<State> := [];
      for i := 0 to |copied|
        invariant db == old(db) && states == CopyStates(db, copied[..i])
      {
        CopyStatesStep(db, copied, i);
        states := states + Map(Unboxed(), StatesAt(db, copied[i].key));
      }
      assert copied[..|copied|] == copied;
      assert states == CopyStates(db, copied);
      RecordBoxEvents(CopyEdit(me), states);
    }

    method CopyBoxes(me: nat, from: nat, to: nat, only: seq<nat>) returns (ok: bool)
      modifies this`db
      ensures var next := Handle(old(db), overlap, me, Request.CopyBoxes(from, to, only));
              ok == next.Some? && db == OrSame(next, old(db))
      ensures Did(old(db), if ok then Some(db) else None, overlap, me, Request.CopyBoxes(from, to, only))
      ensures Sound(old(db)) ==> Sound(db)
      ensures ok && Shaped(old(db)) ==> Resolves(old(db), db)
    {
      RequestServes(db, overlap, me, Request.CopyBoxes(from, to, only));
      RequestTells(db, overlap, me, Request.CopyBoxes(from, to, only));
      if !FrameLive(db, from) || !FrameLive(db, to) || db.frames[from].clip != db.frames[to].clip {
        return false;
      }
      var target := db.frames[to];
      var copied := Copied(db, from, to, only);
      if copied != [] {
        db := db.(rows := db.rows + copied);
        RecordCopies(me, target, copied);
        db := EmptyCleared(db, to);
      }
      return true;
    }

    method SetFrameStatus(me: nat, frame: nat, status: Option<FrameStatus>) returns (ok: bool)
      modifies this`db
      ensures var next := Handle(old(db), overlap, me, Request.SetFrameStatus(frame, status));
              ok == next.Some? && db == OrSame(next, old(db))
      ensures Did(old(db), if ok then Some(db) else None, overlap, me, Request.SetFrameStatus(frame, status))
      ensures Sound(old(db)) ==> Sound(db)
      ensures ok && Shaped(old(db)) ==> Resolves(old(db), db)
    {
      RequestServes(db, overlap, me, Request.SetFrameStatus(frame, status));
      RequestTells(db, overlap, me, Request.SetFrameStatus(frame, status));
      if status.None? || (status.value == Empty && HasBox(db.rows, frame)) || !FrameLive(db, frame) {
        return false;
      }
      db := db.(frames := db.frames[frame := Marked(db.frames[frame], me, status.value)]);
      if status.value == Labeled {
        db := db.(events := db.events + Map(Accepting(db, me), Filter(OpenOn(frame), db.rows)));
        db := db.(rows := Map(Accepted(frame), db.rows));
      }
      return true;
    }

    // The tracking job that follows is not part of this model.
    method TrackObject(me: nat, frame: nat, onto: Option<nat>, labelType: nat, valuesOk: bool, prompt: Prompt)
      returns (ok: bool)
      modifies this`db
      ensures var next := Handle(old(db), overlap, me, Request.TrackObject(frame, onto, labelType, valuesOk, prompt));
              ok == next.Some? && db == OrSame(next, old(db))
      ensures Did(old(db), if ok then Some(db) else None, overlap, me,
                  Request.TrackObject(frame, onto, labelType, valuesOk, prompt))
      ensures Sound(old(db)) ==> Sound(db)
      ensures ok && Shaped(old(db)) ==> Resolves(old(db), db)
    {
      RequestServes(db, overlap, me, Request.TrackObject(frame, onto, labelType, valuesOk, prompt));
      RequestTells(db, overlap, me, Request.TrackObject(frame, onto, labelType, valuesOk, prompt));
      if !PromptOk(prompt) || !FrameLive(db, frame) || (onto.None? && !valuesOk) {
        return false;
      }
      var track;
      if onto.None? {
        track := db.nextTrack;
        db := TrackAdded(db, Track(db.frames[frame].clip, labelType, false, None));
      } else {
        track := onto.value;
        if !TrackLive(db, track) || !InClip(db, Key(track, frame)) {
          return false;
        }
      }
      if prompt.InBox? {
        SaveBox(me, Key(track, frame), ClampBox(Some(prompt.drawn)).value);
      }
      return true;
    }
  }

  lemma CopyStatesStep(db: Db, copied: seq<Row>, i: nat)
    requires i < |copied|
    ensures CopyStates(db, copied[..i+1]) == CopyStates(db, copied[..i]) + Map(Unboxed(), StatesAt(db, copied[i].key))
  {
    assert copied[..i+1][..i] == copied[..i];
  }
}
