// How many proposals are open at a key, and that each labeler's request
// decides just the ones it closes.
module ProposalCounts {
  import opened Sequences
  import opened Geometry
  import opened BoxEvents
  import opened AnnotationTables

  // ---- Counting

  function OpenAt(key: Key): Row -> bool {
    (r: Row) => r.key == key && r.held.status == Proposed
  }

  // How many open proposals a key holds; one at most, once keys are unique.
  function OpenCount(rows: seq<Row>, key: Key): nat {
    |Filter(OpenAt(key), rows)|
  }

  function Times(keys: seq<Key>, key: Key): nat {
    |Filter(Is(key), keys)|
  }

  lemma {:induction false} OpenWhere(rows: seq<Row>, q: Key -> bool, key: Key)
    ensures OpenCount(Filter(Where(q), rows), key) == if q(key) then OpenCount(rows, key) else 0
  {
    if rows != [] {
      OpenWhere(rows[1..], q, key);
    }
  }

  lemma {:induction false} OpenStates(db: Db, rows: seq<Row>, key: Key)
    ensures |Filter(IsOpenAt(key), Map(StateOf(db), rows))| == OpenCount(rows, key)
  {
    FilterMap(StateOf(db), IsOpenAt(key), OpenAt(key), rows);
  }

  lemma OpenAppend(a: seq<Row>, b: seq<Row>, key: Key)
    ensures OpenCount(a + b, key) == OpenCount(a, key) + OpenCount(b, key)
  {
    FilterAppend(OpenAt(key), a, b);
  }

  lemma DecidedAppend(a: seq<Event>, b: seq<Event>, key: Key)
    ensures Decided(a + b, key) == Decided(a, key) + Decided(b, key)
  {
    FilterAppend(Decides(key), a, b);
  }

  lemma {:induction false} DrawnOverCloses(rows: seq<Row>, key: Key, rect: Rect, other: Key)
    ensures OpenCount(Map(DrawnOver(key, rect), rows), other) == if other == key then 0 else OpenCount(rows, other)
  {
    if rows != [] {
      MapStep(DrawnOver(key, rect), rows);
      DrawnOverCloses(rows[1..], key, rect, other);
    }
  }

  lemma {:induction false} NoRowNoneOpen(rows: seq<Row>, key: Key)
    requires !HasRow(rows, key)
    ensures OpenCount(rows, key) == 0
  {
    forall r | r in rows ensures !OpenAt(key)(r) {
      var k :| 0 <= k < |rows| && rows[k] == r;
    }
    FilterNone(OpenAt(key), rows);
  }

  lemma UpsertCloses(db: Db, key: Key, rect: Rect, other: Key)
    ensures OpenCount(Upserted(db, key, rect).rows, other) == if other == key then 0 else OpenCount(db.rows, other)
  {
    if HasRow(db.rows, key) {
      DrawnOverCloses(db.rows, key, rect, other);
    } else {
      OpenAppend(db.rows, [Drawn(key, rect)], other);
      NoRowNoneOpen(db.rows, key);
      assert OpenCount([Drawn(key, rect)], other) == 0;
    }
  }

  lemma {:induction false} AcceptedCloses(rows: seq<Row>, frame: nat, key: Key)
    ensures OpenCount(Map(Accepted(frame), rows), key) == if key.frame == frame then 0 else OpenCount(rows, key)
  {
    if rows != [] {
      var r := Accepted(frame)(rows[0]);
      assert OpenAt(key)(r) <==> OpenAt(key)(rows[0]) && key.frame != frame;
      MapStep(Accepted(frame), rows);
      AcceptedCloses(rows[1..], frame, key);
      assert Map(Accepted(frame), rows)[1..] == Map(Accepted(frame), rows[1..]);
    }
  }

  // ---- What a labeler's request does to proposals

  // Each proposal it takes off the open ones leaves one decision event, and
  // nothing else does; no proposal is opened, made or withdrawn.
  ghost predicate Resolves(db: Db, next: Db) {
    && next.proposed == db.proposed && next.withdrawn == db.withdrawn
    && (forall key: Key :: Resolved(db, next, key))
  }

  ghost predicate Resolved(db: Db, next: Db, key: Key) {
    && OpenCount(next.rows, key) <= OpenCount(db.rows, key)
    && Decided(next.events, key) == Decided(db.events, key) + OpenCount(db.rows, key) - OpenCount(next.rows, key)
  }

  // Recording the states of some keys' boxes and closing those keys resolves.
  lemma RecordAndClose(db: Db, overlap: Overlap, e: Edit, states: seq<State>, q: Key -> bool, next: Db, key: Key)
    requires e.op != OpRelabel && next.events == Recorded(db, overlap, e, states).events
    requires |Filter(IsOpenAt(key), states)| == if q(key) then OpenCount(db.rows, key) else 0
    requires OpenCount(next.rows, key) == if q(key) then 0 else OpenCount(db.rows, key)
    ensures Resolved(db, next, key)
  {
    DecidedAppend(db.events, EventsOf(e, states), key);
    EditDecides(e, states, key);
  }

  lemma StatesAtOpen(db: Db, at: Key, key: Key)
    requires InClip(db, at)
    ensures |Filter(IsOpenAt(key), StatesAt(db, at))| == if key == at then OpenCount(db.rows, key) else 0
  {
    OpenWhere(db.rows, Is(at), key);
    OpenStates(db, Filter(Where(Is(at)), db.rows), key);
    if Filter(Where(Is(at)), db.rows) == [] {
      assert Filter(IsOpenAt(key), [BareState(db, at)]) == [];
    }
  }

  lemma StatesOfTrackOpen(db: Db, track: nat, key: Key)
    ensures |Filter(IsOpenAt(key), StatesOfTrack(db, track))| ==
            if OnTrack(db, track)(key) then OpenCount(db.rows, key) else 0
  {
    OpenWhere(db.rows, OnTrack(db, track), key);
    OpenStates(db, Filter(Where(OnTrack(db, track)), db.rows), key);
  }

  lemma BoxSavedResolves(db: Db, overlap: Overlap, me: nat, key: Key, rect: Rect)
    requires InClip(db, key)
    ensures Resolves(db, BoxSaved(db, overlap, me, key, rect))
  {
    var e := Edit(me, OpSet, rect);
    var noted := Recorded(db, overlap, e, StatesAt(db, key));
    forall other: Key ensures Resolved(db, BoxSaved(db, overlap, me, key, rect), other) {
      UpsertCloses(noted, key, rect, other);
      StatesAtOpen(db, key, other);
      RecordAndClose(db, overlap, e, StatesAt(db, key), Is(key), BoxSaved(db, overlap, me, key, rect), other);
    }
  }

  // Every box is where its track and frame are, on one clip.
  ghost predicate Placed(db: Db) {
    forall r :: r in db.rows ==> InClip(db, r.key)
  }

  lemma PlacedOpen(db: Db, key: Key)
    requires Placed(db) && !InClip(db, key)
    ensures OpenCount(db.rows, key) == 0
  {
    forall k | 0 <= k < |db.rows| ensures db.rows[k].key != key {
      assert InClip(db, db.rows[k].key);
    }
    NoRowNoneOpen(db.rows, key);
  }

  // A new track starts without boxes.
  lemma ResolvesOnNewTrack(db: Db, track: Track, next: Db)
    requires Resolves(TrackAdded(db, track), next)
    ensures Resolves(db, next)
  {
    forall key: Key ensures Resolved(db, next, key) {
      assert Resolved(TrackAdded(db, track), next, key);
    }
  }

  lemma NewTrackResolves(db: Db, overlap: Overlap, me: nat, track: Track, frame: nat, rect: Rect)
    requires frame in db.frames && db.frames[frame].clip == track.clip
    ensures Resolves(db, BoxSaved(TrackAdded(db, track), overlap, me, Key(db.nextTrack, frame), rect))
  {
    BoxSavedResolves(TrackAdded(db, track), overlap, me, Key(db.nextTrack, frame), rect);
    ResolvesOnNewTrack(db, track, BoxSaved(TrackAdded(db, track), overlap, me, Key(db.nextTrack, frame), rect));
  }

  lemma DeleteResolves(db: Db, overlap: Overlap, me: nat, track: nat)
    requires Placed(db)
    ensures Delete(db, overlap, me, track).Some? ==> Resolves(db, Delete(db, overlap, me, track).value)
  {
    if Delete(db, overlap, me, track).Some? {
      var next := Delete(db, overlap, me, track).value;
      var e := Edit(me, OpDelete, Rect(0.0, 0.0, 0.0, 0.0));
      forall key: Key ensures Resolved(db, next, key) {
        if !InClip(db, key) {
          PlacedOpen(db, key);
        }
        OpenWhere(db.rows, Not(OfTrack(track)), key);
        StatesOfTrackOpen(db, track, key);
        RecordAndClose(db, overlap, e, StatesOfTrack(db, track), OnTrack(db, track), next, key);
      }
    }
  }

  lemma RemoveBoxResolves(db: Db, overlap: Overlap, me: nat, at: Key)
    requires Placed(db)
    ensures RemoveBox(db, overlap, me, at).Some? ==> Resolves(db, RemoveBox(db, overlap, me, at).value)
  {
    if RemoveBox(db, overlap, me, at).Some? {
      var next := RemoveBox(db, overlap, me, at).value;
      var e := Edit(me, OpDelete, Rect(0.0, 0.0, 0.0, 0.0));
      var left := Filter(Where(Not(Is(at))), db.rows);
      var i :| 0 <= i < |db.rows| && db.rows[i].key == at;
      assert InClip(db, db.rows[i].key);
      NoBoxesLeft(left, at.track);
      forall key: Key ensures Resolved(db, next, key) {
        OpenWhere(db.rows, Not(Is(at)), key);
        StatesAtOpen(db, at, key);
        RecordAndClose(db, overlap, e, StatesAt(db, at), Is(at), next, key);
      }
    }
  }

  // Dropping a track without boxes leaves the boxes alone.
  lemma NoBoxesLeft(rows: seq<Row>, track: nat)
    ensures !HasBoxes(rows, track) ==> Filter(Where(Not(OfTrack(track))), rows) == rows
  {
    if !HasBoxes(rows, track) {
      forall r | r in rows ensures Where(Not(OfTrack(track)))(r) {
        var k :| 0 <= k < |rows| && rows[k] == r;
      }
      FilterAll(Where(Not(OfTrack(track))), rows);
    }
  }

  lemma UpdateResolves(db: Db, overlap: Overlap, me: nat, track: nat, labelType: nat, ok: bool, change: bool)
    ensures var next := Update(db, overlap, me, track, labelType, ok, change);
            next.Some? ==> Resolves(db, next.value)
  {
    var e := Edit(me, OpRelabel, Rect(0.0, 0.0, 0.0, 0.0));
    forall key: Key
      ensures Decided(Recorded(db, overlap, e, StatesOfTrack(db, track)).events, key) == Decided(db.events, key)
    {
      DecidedAppend(db.events, EventsOf(e, StatesOfTrack(db, track)), key);
      EditDecides(e, StatesOfTrack(db, track), key);
    }
  }

  lemma {:induction false} CopiesClosed(rows: seq<Row>, to: nat, key: Key)
    ensures OpenCount(Map(CopyTo(to), rows), key) == 0
  {
    if rows != [] {
      MapStep(CopyTo(to), rows);
      CopiesClosed(rows[1..], to, key);
    }
  }

  lemma {:induction false} CopyStatesClosed(db: Db, copied: seq<Row>, key: Key)
    ensures |Filter(IsOpenAt(key), CopyStates(db, copied))| == 0
  {
    if copied != [] {
      var n := |copied| - 1;
      var here := Map(Unboxed(), StatesAt(db, copied[n].key));
      CopyStatesClosed(db, copied[..n], key);
      FilterAppend(IsOpenAt(key), CopyStates(db, copied[..n]), here);
      FilterNone(IsOpenAt(key), here);
    }
  }

  lemma CopyResolves(db: Db, overlap: Overlap, me: nat, from: nat, to: nat, only: seq<nat>)
    ensures var next := Copy(db, overlap, me, from, to, only);
            next.Some? ==> Resolves(db, next.value)
  {
    var copied := Copied(db, from, to, only);
    var added := db.(rows := db.rows + copied);
    forall key: Key
      ensures OpenCount(added.rows, key) == OpenCount(db.rows, key)
      ensures Decided(Recorded(added, overlap, CopyEdit(me), CopyStates(added, copied)).events, key) ==
              Decided(db.events, key)
    {
      OpenAppend(db.rows, copied, key);
      CopiesClosed(Filter(Copies(db.rows, from, to, only), db.rows), to, key);
      CopyStatesClosed(added, copied, key);
      DecidedAppend(db.events, EventsOf(CopyEdit(me), CopyStates(added, copied)), key);
      EditDecides(CopyEdit(me), CopyStates(added, copied), key);
    }
  }

  lemma {:induction false} AcceptingDecides(db: Db, me: nat, frame: nat, rows: seq<Row>, key: Key)
    ensures Decided(Map(Accepting(db, me), Filter(OpenOn(frame), rows)), key) ==
            if key.frame == frame then OpenCount(rows, key) else 0
  {
    if rows != [] {
      AcceptingDecides(db, me, frame, rows[1..], key);
      MapCons(Accepting(db, me), rows[0], Filter(OpenOn(frame), rows[1..]));
    }
  }

  lemma MarkResolves(db: Db, me: nat, frame: nat, status: Option<FrameStatus>)
    ensures var next := Mark(db, me, frame, status);
            next.Some? ==> Resolves(db, next.value)
  {
    if Mark(db, me, frame, status).Some? {
      var marked := db.(frames := db.frames[frame := Marked(db.frames[frame], me, status.value)]);
      forall key: Key ensures Resolved(db, ProposalsAccepted(marked, me, frame), key) {
        AcceptedCloses(db.rows, frame, key);
        AcceptingDecides(marked, me, frame, db.rows, key);
        DecidedAppend(db.events, Map(Accepting(marked, me), Filter(OpenOn(frame), db.rows)), key);
      }
    }
  }
}
