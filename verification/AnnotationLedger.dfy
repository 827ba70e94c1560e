// What becomes of each proposal over whole runs of edits, model writes and
// trashing.
module AnnotationLedger {
  import opened Sequences
  import opened Geometry
  import opened BoxEvents
  import opened AnnotationTables
  import opened ProposalCounts
  import opened TableShape

  // ---- Labelers' requests

  lemma RequestResolves(db: Db, overlap: Overlap, me: nat, r: Request)
    requires Shaped(db)
    ensures Handle(db, overlap, me, r).Some? ==> Resolves(db, Handle(db, overlap, me, r).value)
  {
    match r
    case CreateTrack(clip, frame, labelType, ok, box) =>
      if Handle(db, overlap, me, r).Some? {
        NewTrackResolves(db, overlap, me, Track(clip, labelType, false, None), frame, ClampBox(box).value);
      }
    case UpdateTrack(track, labelType, ok, change) => UpdateResolves(db, overlap, me, track, labelType, ok, change);
    case DeleteTrack(track) => DeleteResolves(db, overlap, me, track);
    case SetBox(key, box) =>
      if Handle(db, overlap, me, r).Some? {
        BoxSavedResolves(db, overlap, me, key, ClampBox(box).value);
      }
    case DeleteBox(key) => RemoveBoxResolves(db, overlap, me, key);
    case CopyBoxes(from, to, only) => CopyResolves(db, overlap, me, from, to, only);
    case SetFrameStatus(frame, status) => MarkResolves(db, me, frame, status);
    case TrackObject(frame, onto, labelType, ok, prompt) =>
      FollowResolves(db, overlap, me, frame, onto, labelType, ok, prompt);
  }

  lemma FollowResolves(db: Db, overlap: Overlap, me: nat, frame: nat, onto: Option<nat>, labelType: nat, ok: bool,
                       prompt: Prompt)
    ensures var next := Follow(db, overlap, me, frame, onto, labelType, ok, prompt);
            next.Some? ==> Resolves(db, next.value)
  {
    if Follow(db, overlap, me, frame, onto, labelType, ok, prompt).Some? && prompt.InBox? {
      var rect := ClampBox(Some(prompt.drawn)).value;
      if onto.None? {
        NewTrackResolves(db, overlap, me, Track(db.frames[frame].clip, labelType, false, None), frame, rect);
      } else {
        BoxSavedResolves(db, overlap, me, Key(onto.value, frame), rect);
      }
    }
  }

  lemma BoxSavedShaped(db: Db, overlap: Overlap, me: nat, key: Key, rect: Rect)
    requires Shaped(db) && InClip(db, key)
    ensures Shaped(BoxSaved(db, overlap, me, key, rect))
  {
    var noted := Recorded(db, overlap, Edit(me, OpSet, rect), StatesAt(db, key));
    assert Shaped(noted) && InClip(noted, key);
    UpsertShaped(noted, key, rect);
  }

  lemma RequestShaped(db: Db, overlap: Overlap, me: nat, r: Request)
    requires Shaped(db)
    ensures Handle(db, overlap, me, r).Some? ==> Shaped(Handle(db, overlap, me, r).value)
  {
    if Handle(db, overlap, me, r).Some? {
      match r
      case CreateTrack(clip, frame, labelType, ok, box) =>
        var ready := TrackAdded(db, Track(clip, labelType, false, None));
        TrackAddedShaped(db, Track(clip, labelType, false, None));
        BoxSavedShaped(ready, overlap, me, Key(db.nextTrack, frame), ClampBox(box).value);
      case UpdateTrack(track, labelType, ok, change) =>
      case DeleteTrack(track) => DeleteShaped(db, overlap, me, track);
      case SetBox(key, box) => BoxSavedShaped(db, overlap, me, key, ClampBox(box).value);
      case DeleteBox(key) => RemoveBoxShaped(db, overlap, me, key);
      case CopyBoxes(from, to, only) => CopyShaped(db, overlap, me, from, to, only);
      case SetFrameStatus(frame, status) => MarkShaped(db, me, frame, status);
      case TrackObject(frame, onto, labelType, ok, prompt) =>
        FollowShaped(db, overlap, me, frame, onto, labelType, ok, prompt);
    }
  }

  lemma FollowShaped(db: Db, overlap: Overlap, me: nat, frame: nat, onto: Option<nat>, labelType: nat, ok: bool,
                     prompt: Prompt)
    requires Shaped(db)
    ensures var next := Follow(db, overlap, me, frame, onto, labelType, ok, prompt);
            next.Some? ==> Shaped(next.value)
  {
    if Follow(db, overlap, me, frame, onto, labelType, ok, prompt).Some? {
      var ready := if onto.None? then TrackAdded(db, Track(db.frames[frame].clip, labelType, false, None)) else db;
      TrackAddedShaped(db, Track(db.frames[frame].clip, labelType, false, None));
      if prompt.InBox? {
        BoxSavedShaped(ready, overlap, me, Key(if onto.None? then db.nextTrack else onto.value, frame),
                       ClampBox(Some(prompt.drawn)).value);
      }
    }
  }

  lemma DeleteShaped(db: Db, overlap: Overlap, me: nat, track: nat)
    requires Shaped(db)
    ensures Delete(db, overlap, me, track).Some? ==> Shaped(Delete(db, overlap, me, track).value)
  {
    var noted := Recorded(db, overlap, Edit(me, OpDelete, Rect(0.0, 0.0, 0.0, 0.0)), StatesOfTrack(db, track));
    assert Shaped(noted);
    TrackDroppedShaped(noted, track);
  }

  lemma RemoveBoxShaped(db: Db, overlap: Overlap, me: nat, key: Key)
    requires Shaped(db)
    ensures RemoveBox(db, overlap, me, key).Some? ==> Shaped(RemoveBox(db, overlap, me, key).value)
  {
    var noted := Recorded(db, overlap, Edit(me, OpDelete, Rect(0.0, 0.0, 0.0, 0.0)), StatesAt(db, key));
    assert Shaped(noted);
    FilterShaped(noted, Where(Not(Is(key))));
    TrackDroppedShaped(noted.(rows := Filter(Where(Not(Is(key))), db.rows)), key.track);
  }

  // ---- Models' writes

  // Every proposal made so far is open, decided or withdrawn.
  ghost predicate Settled(db: Db, key: Key) {
    Times(db.proposed, key) == OpenCount(db.rows, key) + Decided(db.events, key) + Times(db.withdrawn, key)
  }

  lemma TimesSnoc(keys: seq<Key>, k: Key, key: Key)
    ensures Times(keys + [k], key) == Times(keys, key) + (if k == key then 1 else 0)
  {
    FilterAppend(Is(key), keys, [k]);
  }

  lemma {:induction false} ReplacedStaysOpen(rows: seq<Row>, key: Key, rect: Rect, source: Source, other: Key)
    ensures OpenCount(Map(Replaced(key, rect, source), rows), other) == OpenCount(rows, other)
  {
    if rows != [] {
      MapStep(Replaced(key, rect, source), rows);
      ReplacedStaysOpen(rows[1..], key, rect, source, other);
    }
  }

  lemma PutSettles(db: Db, key: Key, rect: Rect, source: Source, other: Key)
    requires Settled(db, other)
    ensures Settled(ProposalPut(db, key, rect, source), other)
  {
    TimesSnoc(db.proposed, key, other);
    if !HasRow(db.rows, key) {
      var r := Row(key, Held(rect, source, Proposed));
      OpenAppend(db.rows, [r], other);
      assert OpenCount([r], other) == if other == key then 1 else 0;
    } else if OpenRow(db.rows, key) {
      TimesSnoc(db.withdrawn, key, other);
      ReplacedStaysOpen(db.rows, key, rect, source, other);
    }
  }

  lemma {:induction false} DropSplits(rows: seq<Row>, gone: Row -> bool, key: Key)
    ensures OpenCount(rows, key) == OpenCount(Filter(Kept(gone), rows), key)
            + Times(Map(KeyOf(), Filter(Gone(gone), rows)), key)
  {
    if rows != [] {
      DropSplits(rows[1..], gone, key);
      MapCons(KeyOf(), rows[0], Filter(Gone(gone), rows[1..]));
    }
  }

  lemma DropSettles(db: Db, gone: Row -> bool, key: Key)
    requires Settled(db, key)
    ensures Settled(ProposalsDropped(db, gone), key)
  {
    DropSplits(db.rows, gone, key);
    FilterAppend(Is(key), db.withdrawn, Map(KeyOf(), Filter(Gone(gone), db.rows)));
  }

  // The tables are in shape, every event is one they take, and every
  // proposal is accounted for.
  ghost predicate Sound(db: Db) {
    && Shaped(db)
    && (forall ev :: ev in db.events ==> WellFormed(ev))
    && (forall key: Key :: Settled(db, key))
  }

  lemma PutKeeps(db: Db, key: Key, rect: Rect, source: Source)
    requires Sound(db) && InClip(db, key)
    ensures Sound(ProposalPut(db, key, rect, source))
  {
    PutShaped(db, key, rect, source);
    forall other: Key ensures Settled(ProposalPut(db, key, rect, source), other) {
      PutSettles(db, key, rect, source, other);
    }
  }

  lemma DropKeeps(db: Db, gone: Row -> bool)
    requires Sound(db)
    ensures Sound(ProposalsDropped(db, gone))
  {
    FilterShaped(db, Kept(gone));
    forall key: Key ensures Settled(ProposalsDropped(db, gone), key) {
      DropSettles(db, gone, key);
    }
  }

  // A change to tracks alone leaves every count as it was.
  lemma TracksKeep(db: Db, next: Db)
    requires Sound(db) && Shaped(next)
    requires next.rows == db.rows && next.events == db.events && next.proposed == db.proposed
             && next.withdrawn == db.withdrawn
    ensures Sound(next)
  {
    forall key: Key ensures Settled(next, key) {
      assert Settled(db, key);
    }
  }

  lemma EmptyTracksKeep(db: Db, ids: seq<nat>)
    requires Sound(db)
    ensures Sound(EmptyTracksDropped(db, ids))
  {
    EmptyTracksShaped(db, ids);
    TracksKeep(db, EmptyTracksDropped(db, ids));
  }

  ghost predicate InClipAll(db: Db, track: nat, boxes: seq<Found>) {
    forall b :: b in boxes ==> InClip(db, Key(track, b.frame))
  }

  lemma {:induction false} PutsKeep(db: Db, track: nat, boxes: seq<Found>, source: Source)
    requires Sound(db) && InClipAll(db, track, boxes)
    ensures Sound(ProposalsPut(db, track, boxes, source))
    decreases |boxes|
  {
    if boxes != [] {
      assert boxes[0] in boxes;
      PutKeeps(db, Key(track, boxes[0].frame), boxes[0].rect, source);
      PutsKeep(ProposalPut(db, Key(track, boxes[0].frame), boxes[0].rect, source), track, boxes[1..], source);
    }
  }

  lemma {:induction false} PrelabelsKeep(db: Db, track: nat, boxes: seq<Found>, source: Source)
    requires Sound(db) && InClipAll(db, track, boxes)
    ensures var next := PrelabelsPut(db, track, boxes, source);
            Sound(next) && next.frames == db.frames
    decreases |boxes|
  {
    if boxes != [] {
      assert boxes[0] in boxes;
      PutKeeps(db, Key(track, boxes[0].frame), boxes[0].rect, source);
      PrelabelsKeep(PrelabelPut(db, Key(track, boxes[0].frame), boxes[0].rect, source), track, boxes[1..], source);
    }
  }

  ghost predicate FramesOf(db: Db, clip: nat, frames: seq<nat>) {
    forall f :: f in frames ==> f in db.frames && db.frames[f].clip == clip
  }

  lemma {:induction false} TracksFoundKeep(db: Db, clip: nat, locked: seq<nat>, found: seq<FoundTrack>, source: Source)
    requires Sound(db) && FramesOf(db, clip, locked)
    ensures Sound(TracksFound(db, clip, locked, found, source))
    decreases |found|
  {
    if found != [] {
      var added := TrackAdded(db, Track(clip, found[0].labelType, false, Some(found[0].labelType)));
      var boxes := Filter(FoundOn(locked), found[0].boxes);
      TrackAddedShaped(db, Track(clip, found[0].labelType, false, Some(found[0].labelType)));
      TracksKeep(db, added);
      PrelabelsKeep(added, db.nextTrack, boxes, source);
      TracksFoundKeep(PrelabelsPut(added, db.nextTrack, boxes, source), clip, locked, found[1..], source);
    }
  }

  lemma {:induction false} ObjectsFoundKeep(db: Db, like: Track, frame: nat, rects: seq<Rect>)
    requires Sound(db) && frame in db.frames && db.frames[frame].clip == like.clip
    ensures Sound(ObjectsFound(db, like, frame, rects))
    decreases |rects|
  {
    if rects != [] {
      var t := Track(like.clip, like.labelType, false, None);
      TrackAddedShaped(db, t);
      TracksKeep(db, TrackAdded(db, t));
      PutKeeps(TrackAdded(db, t), Key(db.nextTrack, frame), rects[0], Sam);
      ObjectsFoundKeep(ProposalPut(TrackAdded(db, t), Key(db.nextTrack, frame), rects[0], Sam), like, frame,
                       rects[1..]);
    }
  }

  lemma WriteKeeps(db: Db, w: ModelWrite)
    requires Sound(db)
    ensures Write(db, w).Some? ==> Sound(Write(db, w).value)
  {
    match w
    case ReportBoxes(track, boxes, source) =>
      if Reportable(db, track, boxes) {
        PutsKeep(db, track, boxes, source);
      }
    case RestartTracking(track, idx) => DropKeeps(db, FromIdx(db, track, idx));
    case DropEmptyTrack(track) => EmptyTracksKeep(db, [track]);
    case SavePrelabels(clip, frames, source, found) => SavePrelabelsKeep(db, clip, frames, source, found);
    case ClearPrelabels(frames) =>
      DropKeeps(db, AnyPrelabel(frames));
      EmptyTracksKeep(ProposalsDropped(db, AnyPrelabel(frames)),
                      TracksOf(Map(KeyOf(), Filter(Gone(AnyPrelabel(frames)), db.rows))));
    case FindObjects(track, frame, rects) =>
      if Write(db, w).Some? {
        ObjectsFoundKeep(db, db.tracks[track], frame, rects);
      }
  }

  lemma SavePrelabelsKeep(db: Db, clip: nat, frames: seq<nat>, source: Source, found: seq<FoundTrack>)
    requires Sound(db)
    ensures Sound(Write(db, SavePrelabels(clip, frames, source, found)).value)
  {
    var locked := Filter(Unmarked(db, clip), frames);
    var gone := OpenPrelabel(db, locked, source);
    var ids := TracksOf(Map(KeyOf(), Filter(Gone(gone), db.rows)));
    DropKeeps(db, gone);
    EmptyTracksKeep(ProposalsDropped(db, gone), ids);
    TracksFoundKeep(EmptyTracksDropped(ProposalsDropped(db, gone), ids), clip, locked, found, source);
  }

  // ---- Runs

  lemma RequestEvents(db: Db, overlap: Overlap, me: nat, r: Request)
    requires forall ev :: ev in db.events ==> WellFormed(ev)
    ensures var next := Handle(db, overlap, me, r);
            next.Some? ==> forall ev :: ev in next.value.events ==> WellFormed(ev)
  {
    if r.SetFrameStatus? {
      MarkEvents(db, me, r.frame, r.status);
    } else if Handle(db, overlap, me, r).Some? {
      forall e: Edit, states: seq<State> ensures forall ev :: ev in EventsOf(e, states) ==> WellFormed(ev) {
        EventsWellFormed(e, states);
      }
    }
  }

  lemma MarkEvents(db: Db, me: nat, frame: nat, status: Option<FrameStatus>)
    requires forall ev :: ev in db.events ==> WellFormed(ev)
    ensures var next := Mark(db, me, frame, status);
            next.Some? ==> forall ev :: ev in next.value.events ==> WellFormed(ev)
  {
    if Mark(db, me, frame, status).Some? {
      var marked := db.(frames := db.frames[frame := Marked(db.frames[frame], me, status.value)]);
      AcceptingWellFormed(marked, me, Filter(OpenOn(frame), db.rows));
    }
  }

  lemma AcceptingWellFormed(db: Db, me: nat, rows: seq<Row>)
    ensures forall ev :: ev in Map(Accepting(db, me), rows) ==> WellFormed(ev)
  {
  }

  lemma RequestKeeps(db: Db, overlap: Overlap, me: nat, r: Request)
    requires Sound(db)
    ensures Handle(db, overlap, me, r).Some? ==> Sound(Handle(db, overlap, me, r).value)
  {
    RequestShaped(db, overlap, me, r);
    RequestResolves(db, overlap, me, r);
    RequestEvents(db, overlap, me, r);
    if Handle(db, overlap, me, r).Some? {
      var next := Handle(db, overlap, me, r).value;
      forall key: Key ensures Settled(next, key) {
        assert Settled(db, key) && Resolved(db, next, key);
      }
    }
  }

  // What any request does for the ledger, taken or refused.
  lemma RequestServes(db: Db, overlap: Overlap, me: nat, r: Request)
    ensures var result := Handle(db, overlap, me, r);
            && (Sound(db) ==> Sound(OrSame(result, db)))
            && (result.Some? && Shaped(db) ==> Resolves(db, OrSame(result, db)))
  {
    if Sound(db) {
      RequestKeeps(db, overlap, me, r);
    }
    if Shaped(db) {
      RequestResolves(db, overlap, me, r);
    }
  }

  datatype Step = Labels(me: nat, request: Request) | Models(write: ModelWrite) | Trashes(live: set<nat>)

  function OrSame(result: Option<Db>, db: Db): Db {
    if result.Some? then result.value else db
  }

  // A failed request changes nothing. Clips come and go with the trash.
  function Do(db: Db, overlap: Overlap, step: Step): Db {
    match step
    case Labels(me, request) => OrSame(Handle(db, overlap, me, request), db)
    case Models(write) => OrSame(Write(db, write), db)
    case Trashes(live) => db.(live := live)
  }

  function Run(db: Db, overlap: Overlap, steps: seq<Step>): Db
    decreases |steps|
  {
    if steps == [] then db else Run(Do(db, overlap, steps[0]), overlap, steps[1..])
  }

  lemma DoKeeps(db: Db, overlap: Overlap, step: Step)
    requires Sound(db)
    ensures Sound(Do(db, overlap, step))
  {
    match step
    case Labels(me, request) => RequestKeeps(db, overlap, me, request);
    case Models(write) => WriteKeeps(db, write);
    case Trashes(live) =>
      assert Shaped(db.(live := live));
      TracksKeep(db, db.(live := live));
  }

  // Over any run of edits, model writes and trashing: every proposal a model
  // made is still open, was decided in exactly one accepted, edited or
  // rejected event, or was withdrawn by a model.
  lemma {:induction false} EveryProposalIsAccountedFor(db: Db, overlap: Overlap, steps: seq<Step>)
    requires Sound(db)
    ensures Sound(Run(db, overlap, steps))
    decreases |steps|
  {
    if steps != [] {
      DoKeeps(db, overlap, steps[0]);
      EveryProposalIsAccountedFor(Do(db, overlap, steps[0]), overlap, steps[1..]);
    }
  }

  // Tables without a track yet.
  function Fresh(live: set<nat>, frames: map<nat, Frame>): Db {
    Db(live, frames, map[], 1, [], [], [], [], [])
  }

  lemma AccountedFromTheStart(live: set<nat>, frames: map<nat, Frame>, overlap: Overlap, steps: seq<Step>)
    ensures var db := Run(Fresh(live, frames), overlap, steps);
            && Shaped(db)
            && (forall ev :: ev in db.events ==> WellFormed(ev))
            && (forall key: Key :: Times(db.proposed, key) ==
                                   OpenCount(db.rows, key) + Decided(db.events, key) + Times(db.withdrawn, key))
  {
    assert Sound(Fresh(live, frames));
    EveryProposalIsAccountedFor(Fresh(live, frames), overlap, steps);
    var db := Run(Fresh(live, frames), overlap, steps);
    forall key: Key
      ensures Times(db.proposed, key) == OpenCount(db.rows, key) + Decided(db.events, key) + Times(db.withdrawn, key)
    {
      assert Settled(db, key);
    }
  }

  lemma {:induction false} OpenAtMostOnce(rows: seq<Row>, key: Key)
    requires Keyed(rows)
    ensures OpenCount(rows, key) <= 1
  {
    if rows != [] {
      KeyedRest(rows);
      OpenAtMostOnce(rows[1..], key);
      if rows[0].key == key {
        forall r | r in rows[1..] ensures !OpenAt(key)(r) {
        }
        FilterNone(OpenAt(key), rows[1..]);
      }
    }
  }

  // A request decides exactly the proposals it takes off the open ones, each
  // in one event.
  lemma RequestDecidesOnce(db: Db, overlap: Overlap, me: nat, r: Request, key: Key)
    requires Sound(db) && Handle(db, overlap, me, r).Some?
    ensures var next := Handle(db, overlap, me, r).value;
            && OpenCount(db.rows, key) <= 1
            && Decided(next.events, key) - Decided(db.events, key) ==
                 if OpenCount(db.rows, key) == 1 && OpenCount(next.rows, key) == 0 then 1 else 0
  {
    RequestResolves(db, overlap, me, r);
    assert Resolved(db, Handle(db, overlap, me, r).value, key);
    OpenAtMostOnce(db.rows, key);
  }

  // ---- Accepting by frame status

  // Marking a frame labeled records for each open proposal what re-saving
  // its box unchanged would.
  lemma AcceptingIsResaving(db: Db, me: nat, r: Row)
    requires Shaped(db) && r in db.rows && r.held.status == Proposed
    ensures var e := Edit(me, OpSet, r.held.rect);
            && BoxEvent(e, StateOf(db)(r)) == Some(Accepting(db, me)(r).kind)
            && ToEvent(e)(StateOf(db)(r)) == Accepting(db, me)(r)
  {
    assert InClip(db, r.key);
  }

  // ---- Copies

  function BareOf(db: Db): Row -> State {
    (r: Row) => BareState(db, r.key)
  }

  lemma {:induction false} OneAtKey(rows: seq<Row>, r: Row)
    requires Keyed(rows) && r in rows
    ensures Filter(Where(Is(r.key)), rows) == [r]
  {
    KeyedRest(rows);
    if rows[0] == r {
      FilterNone(Where(Is(r.key)), rows[1..]);
    } else {
      OneAtKey(rows[1..], r);
    }
  }

  lemma {:induction false} CopyStatesBare(db: Db, copied: seq<Row>)
    requires Keyed(db.rows) && Placed(db) && forall r :: r in copied ==> r in db.rows
    ensures CopyStates(db, copied) == Map(BareOf(db), copied)
  {
    if copied != [] {
      var n := |copied| - 1;
      var r := copied[n];
      assert r in copied && copied == copied[..n] + [r];
      OneBare(db, r);
      CopyStatesBare(db, copied[..n]);
      MapAppend(BareOf(db), copied[..n], [r]);
    }
  }

  lemma OneBare(db: Db, r: Row)
    requires Keyed(db.rows) && Placed(db) && r in db.rows
    ensures Map(Unboxed(), StatesAt(db, r.key)) == [BareState(db, r.key)]
  {
    OneAtKey(db.rows, r);
    assert StatesAt(db, r.key) == [StateOf(db)(r)];
  }

  function AddedBy(db: Db, me: nat): Row -> Event {
    (r: Row) => Event(WasAdded, r.key, BareState(db, r.key).labelType, me, Human, BareState(db, r.key).statusBy)
  }

  // Copying onto a frame someone else marked corrects them once per copied
  // box, and copying onto any other frame corrects nobody.
  lemma CopiesAreCorrections(db: Db, overlap: Overlap, me: nat, from: nat, to: nat, only: seq<nat>)
    requires Shaped(db) && Copy(db, overlap, me, from, to, only).Some?
    ensures var copied := Copied(db, from, to, only);
            var f := db.frames[to];
            Copy(db, overlap, me, from, to, only).value.events == db.events +
              if f.status != Unlabeled && f.markedBy.Some? && f.markedBy.value != me
              then Map(AddedBy(db, me), copied) else []
  {
    var f := db.frames[to];
    if Copied(db, from, to, only) != [] && f.status != Unlabeled && f.markedBy.Some? && f.markedBy.value != me {
      CopyEvents(db, me, from, to, only);
    }
  }

  lemma CopyEvents(db: Db, me: nat, from: nat, to: nat, only: seq<nat>)
    requires Shaped(db) && from in db.frames && to in db.frames && db.frames[from].clip == db.frames[to].clip
    requires var f := db.frames[to];
             f.status != Unlabeled && f.markedBy.Some? && f.markedBy.value != me
    ensures var copied := Copied(db, from, to, only);
            EventsOf(CopyEdit(me), CopyStates(db.(rows := db.rows + copied), copied)) == Map(AddedBy(db, me), copied)
  {
    var copied := Copied(db, from, to, only);
    var all := db.(rows := db.rows + copied);
    CopyKeyed(db, from, to, only);
    CopyPlaced(db, from, to, only);
    CopiedAre(db, from, to, only);
    CopyStatesBare(all, copied);
    AllAdded(all, me, db.frames[to], to, copied);
    AddedIgnoresRows(db, all.rows, me, copied);
  }

  lemma AddedIgnoresRows(db: Db, rows: seq<Row>, me: nat, copied: seq<Row>)
    ensures Map(AddedBy(db.(rows := rows), me), copied) == Map(AddedBy(db, me), copied)
  {
    forall k | 0 <= k < |copied| ensures AddedBy(db.(rows := rows), me)(copied[k]) == AddedBy(db, me)(copied[k]) {
      BareIgnoresRows(db, rows, copied[k].key);
    }
  }

  lemma BareIgnoresRows(db: Db, rows: seq<Row>, key: Key)
    ensures BareState(db.(rows := rows), key) == BareState(db, key)
  {
    assert InClip(db.(rows := rows), key) == InClip(db, key);
  }

  lemma AllAdded(db: Db, me: nat, f: Frame, to: nat, copied: seq<Row>)
    requires Placed(db) && to in db.frames && db.frames[to] == f
    requires f.status != Unlabeled && f.markedBy.Some? && f.markedBy.value != me
    requires forall r :: r in copied ==> r in db.rows && r.key.frame == to
    ensures EventsOf(CopyEdit(me), Map(BareOf(db), copied)) == Map(AddedBy(db, me), copied)
  {
    var states := Map(BareOf(db), copied);
    forall k | 0 <= k < |copied|
      ensures Records(CopyEdit(me))(states[k]) && ToEvent(CopyEdit(me))(states[k]) == AddedBy(db, me)(copied[k])
    {
      assert copied[k] in copied;
      assert InClip(db, copied[k].key);
    }
    forall s | s in states ensures Records(CopyEdit(me))(s) {
      var k :| 0 <= k < |states| && states[k] == s;
    }
    FilterAll(Records(CopyEdit(me)), states);
  }
}
