// What each write of a model changes, said of the tables before and after
// alone.
module WriteRules {
  import opened Sequences
  import opened Geometry
  import opened BoxEvents
  import opened AnnotationTables
  import opened RequestRules
  import opened TableShape

  // A write changes boxes and tracks, and what it keeps of proposals.
  ghost predicate SameTables(before: Db, db: Db) {
    db.live == before.live && db.frames == before.frames && db.events == before.events
    && db.refusals == before.refusals
  }

  function Proposal(track: nat, frame: nat, rect: Rect, source: Source): Row {
    Row(Key(track, frame), Held(rect, source, Proposed))
  }

  // A model may put a proposal where there is no box or an open proposal.
  ghost predicate Free(rows: seq<Row>, key: Key) {
    !Holds(rows, key) || exists r :: r in rows && r.key == key && r.held.status == Proposed
  }

  lemma FreeIff(rows: seq<Row>, key: Key)
    ensures Free(rows, key) <==> !HasRow(rows, key) || OpenRow(rows, key)
  {
    HoldsIff(rows, key);
    if OpenRow(rows, key) {
      var k :| 0 <= k < |rows| && rows[k].key == key && rows[k].held.status == Proposed;
      assert rows[k] in rows;
    }
  }

  // ---- One proposal

  lemma ReplacedTells(rows: seq<Row>, key: Key, rect: Rect, source: Source, r: Row)
    ensures r in Map(Replaced(key, rect, source), rows) <==>
            || (r in rows && !(r.key == key && r.held.status == Proposed))
            || (r == Proposal(key.track, key.frame, rect, source) && OpenRow(rows, key))
  {
    var out := Map(Replaced(key, rect, source), rows);
    if r in out {
      var k :| 0 <= k < |out| && out[k] == r;
      assert rows[k] in rows;
    }
    if r in rows && !(r.key == key && r.held.status == Proposed) {
      var k :| 0 <= k < |rows| && rows[k] == r;
      assert out[k] == r;
    }
    if OpenRow(rows, key) {
      var k :| 0 <= k < |rows| && rows[k].key == key && rows[k].held.status == Proposed;
      assert out[k] == Proposal(key.track, key.frame, rect, source) && out[k] in out;
    }
  }

  lemma PutTells(db: Db, key: Key, rect: Rect, source: Source, r: Row)
    ensures r in ProposalPut(db, key, rect, source).rows <==>
            || (r in db.rows && !(r.key == key && r.held.status == Proposed))
            || (r == Proposal(key.track, key.frame, rect, source) && Free(db.rows, key))
  {
    FreeIff(db.rows, key);
    HoldsIff(db.rows, key);
    if OpenRow(db.rows, key) {
      ReplacedTells(db.rows, key, rect, source, r);
    }
  }

  lemma PutElsewhere(db: Db, key: Key, rect: Rect, source: Source, other: Key)
    requires other != key
    ensures Free(ProposalPut(db, key, rect, source).rows, other) <==> Free(db.rows, other)
    ensures Holds(ProposalPut(db, key, rect, source).rows, other) <==> Holds(db.rows, other)
  {
    forall r: Row | r.key == other ensures r in ProposalPut(db, key, rect, source).rows <==> r in db.rows {
      PutTells(db, key, rect, source, r);
    }
  }

  // ---- Reported boxes

  // The k-th box is the one reported.
  ghost predicate Reported(rows: seq<Row>, track: nat, boxes: seq<Found>, source: Source, r: Row, k: nat) {
    && k < |boxes| && r == Proposal(track, boxes[k].frame, boxes[k].rect, source) && Free(rows, r.key)
  }

  ghost predicate OnReport(track: nat, boxes: seq<Found>, r: Row) {
    r.key.track == track && exists b :: b in boxes && b.frame == r.key.frame
  }

  ghost predicate InReport(before: seq<Row>, track: nat, boxes: seq<Found>, source: Source, r: Row) {
    || (r in before && !(r.held.status == Proposed && OnReport(track, boxes, r)))
    || (exists k: nat :: Reported(before, track, boxes, source, r, k))
  }

  lemma {:induction false} ReportTells(db: Db, track: nat, boxes: seq<Found>, source: Source, r: Row)
    requires forall i, j :: 0 <= i < j < |boxes| ==> boxes[i].frame != boxes[j].frame
    ensures r in ProposalsPut(db, track, boxes, source).rows <==> InReport(db.rows, track, boxes, source, r)
    decreases |boxes|
  {
    if boxes != [] {
      var b, rest := boxes[0], boxes[1..];
      var next := ProposalPut(db, Key(track, b.frame), b.rect, source);
      ReportTells(next, track, rest, source, r);
      ReportStep(db, next, track, boxes, source, r);
    }
  }

  lemma ReportLater(before: seq<Row>, next: seq<Row>, track: nat, boxes: seq<Found>, source: Source, r: Row)
    requires boxes != [] && r.key != Key(track, boxes[0].frame) && (Free(next, r.key) <==> Free(before, r.key))
    ensures (exists k: nat :: Reported(next, track, boxes[1..], source, r, k)) <==>
            (exists k: nat :: Reported(before, track, boxes, source, r, k))
    ensures OnReport(track, boxes, r) <==> OnReport(track, boxes[1..], r)
  {
    if k: nat :| Reported(next, track, boxes[1..], source, r, k) {
      var j: nat := k + 1;
      assert Reported(before, track, boxes, source, r, j);
    }
    if k: nat :| Reported(before, track, boxes, source, r, k) {
      var j: nat := k - 1;
      assert Reported(next, track, boxes[1..], source, r, j);
    }
    if OnReport(track, boxes, r) {
      var b :| b in boxes && b.frame == r.key.frame;
      assert b in boxes[1..];
    }
  }

  lemma NotLater(rows: seq<Row>, track: nat, boxes: seq<Found>, source: Source, r: Row)
    requires boxes != [] && forall i, j :: 0 <= i < j < |boxes| ==> boxes[i].frame != boxes[j].frame
    requires r.key == Key(track, boxes[0].frame)
    ensures !OnReport(track, boxes[1..], r)
    ensures forall k: nat :: !Reported(rows, track, boxes[1..], source, r, k)
    ensures forall k: nat :: Reported(rows, track, boxes, source, r, k) ==> k == 0
  {
    forall k | 0 <= k < |boxes[1..]| ensures boxes[1..][k].frame != r.key.frame {
      assert boxes[0].frame != boxes[k+1].frame;
    }
  }

  lemma ReportStep(db: Db, next: Db, track: nat, boxes: seq<Found>, source: Source, r: Row)
    requires boxes != [] && forall i, j :: 0 <= i < j < |boxes| ==> boxes[i].frame != boxes[j].frame
    requires next == ProposalPut(db, Key(track, boxes[0].frame), boxes[0].rect, source)
    ensures InReport(next.rows, track, boxes[1..], source, r) <==> InReport(db.rows, track, boxes, source, r)
  {
    var key := Key(track, boxes[0].frame);
    PutTells(db, key, boxes[0].rect, source, r);
    if r.key == key {
      NotLater(next.rows, track, boxes, source, r);
      NotLater(db.rows, track, boxes, source, r);
      assert boxes[0] in boxes && OnReport(track, boxes, r);
      assert Reported(db.rows, track, boxes, source, r, 0) <==>
             r == Proposal(track, boxes[0].frame, boxes[0].rect, source) && Free(db.rows, key);
    } else {
      PutElsewhere(db, key, boxes[0].rect, source, r.key);
      ReportLater(db.rows, next.rows, track, boxes, source, r);
    }
  }

  lemma {:induction false} ReportKeeps(db: Db, track: nat, boxes: seq<Found>, source: Source)
    ensures var next := ProposalsPut(db, track, boxes, source);
            SameTables(db, next) && next.tracks == db.tracks && next.nextTrack == db.nextTrack
    decreases |boxes|
  {
    if boxes != [] {
      ReportKeeps(ProposalPut(db, Key(track, boxes[0].frame), boxes[0].rect, source), track, boxes[1..], source);
    }
  }

  // ---- Pre-labels on a track

  // The first box found on its frame, where the track has none yet.
  ghost predicate Placed(rows: seq<Row>, track: nat, boxes: seq<Found>, source: Source, r: Row, k: nat) {
    && k < |boxes| && r == Proposal(track, boxes[k].frame, boxes[k].rect, source) && !Holds(rows, r.key)
    && forall j :: 0 <= j < k ==> boxes[j].frame != boxes[k].frame
  }

  lemma PrelabelTells(db: Db, key: Key, rect: Rect, source: Source, r: Row)
    ensures r in PrelabelPut(db, key, rect, source).rows <==>
            r in db.rows || (r == Proposal(key.track, key.frame, rect, source) && !Holds(db.rows, key))
    ensures Holds(PrelabelPut(db, key, rect, source).rows, r.key) <==> Holds(db.rows, r.key) || r.key == key
  {
    HoldsIff(db.rows, key);
    var rows := PrelabelPut(db, key, rect, source).rows;
    if Holds(rows, r.key) {
      var q :| q in rows && q.key == r.key;
      assert q in db.rows || q.key == key;
    }
    if !HasRow(db.rows, key) {
      assert Proposal(key.track, key.frame, rect, source) in rows;
    }
    assert forall q :: q in db.rows ==> q in rows;
  }

  lemma PlacedStep(db: Db, next: Db, track: nat, boxes: seq<Found>, source: Source, r: Row)
    requires boxes != []
    requires next == PrelabelPut(db, Key(track, boxes[0].frame), boxes[0].rect, source)
    ensures (r in next.rows || exists k: nat :: Placed(next.rows, track, boxes[1..], source, r, k)) <==>
            (r in db.rows || exists k: nat :: Placed(db.rows, track, boxes, source, r, k))
  {
    PrelabelTells(db, Key(track, boxes[0].frame), boxes[0].rect, source, r);
    if r in next.rows && r !in db.rows {
      assert Placed(db.rows, track, boxes, source, r, 0);
    }
    if k: nat :| Placed(next.rows, track, boxes[1..], source, r, k) {
      var j: nat := k + 1;
      assert Placed(db.rows, track, boxes, source, r, j);
    }
    if k: nat :| Placed(db.rows, track, boxes, source, r, k) {
      if k > 0 {
        var j: nat := k - 1;
        assert boxes[0].frame != boxes[k].frame;
        assert Placed(next.rows, track, boxes[1..], source, r, j);
      }
    }
  }

  lemma {:induction false} PrelabelsTell(db: Db, track: nat, boxes: seq<Found>, source: Source, r: Row)
    ensures r in PrelabelsPut(db, track, boxes, source).rows <==>
            r in db.rows || exists k: nat :: Placed(db.rows, track, boxes, source, r, k)
    decreases |boxes|
  {
    if boxes != [] {
      var next := PrelabelPut(db, Key(track, boxes[0].frame), boxes[0].rect, source);
      PrelabelsTell(next, track, boxes[1..], source, r);
      PlacedStep(db, next, track, boxes, source, r);
    }
  }

  lemma {:induction false} PrelabelsKeep(db: Db, track: nat, boxes: seq<Found>, source: Source)
    ensures var next := PrelabelsPut(db, track, boxes, source);
            SameTables(db, next) && next.tracks == db.tracks && next.nextTrack == db.nextTrack
    decreases |boxes|
  {
    if boxes != [] {
      PrelabelsKeep(PrelabelPut(db, Key(track, boxes[0].frame), boxes[0].rect, source), track, boxes[1..], source);
    }
  }

  // ---- New tracks

  ghost predicate BelowNext(db: Db) {
    (forall t :: t in db.tracks ==> t < db.nextTrack) && (forall r :: r in db.rows ==> r.key.track < db.nextTrack)
  }

  // Tables in shape number their tracks so.
  lemma ShapedBelowNext(db: Db)
    requires Shaped(db)
    ensures BelowNext(db)
  {
    forall r | r in db.rows ensures r.key.track < db.nextTrack {
      assert InClip(db, r.key);
    }
  }

  function FoundAmong(frames: seq<nat>): Found -> bool {
    (b: Found) => b.frame in frames
  }

  // A track is one of those there were or the i-th found, numbered in order.
  ghost predicate TracksAdded(before: Db, db: Db, clip: nat, found: seq<FoundTrack>) {
    && db.nextTrack == before.nextTrack + |found|
    && (forall t :: t in db.tracks <==> t in before.tracks || before.nextTrack <= t < db.nextTrack)
    && (forall t :: t in before.tracks ==> t in db.tracks && db.tracks[t] == before.tracks[t])
    && (forall i :: 0 <= i < |found| ==>
          IsTrack(db, before.nextTrack + i, Track(clip, found[i].labelType, false, Some(found[i].labelType))))
  }

  ghost predicate IsTrack(db: Db, id: nat, track: Track) {
    id in db.tracks && db.tracks[id] == track
  }

  // One of a found track's boxes on these frames, the first on its own.
  ghost predicate OnNew(track: nat, locked: seq<nat>, found: FoundTrack, source: Source, r: Row) {
    exists k: nat :: Placed([], track, Filter(FoundAmong(locked), found.boxes), source, r, k)
  }

  lemma FirstFound(db: Db, clip: nat, locked: seq<nat>, found: seq<FoundTrack>, source: Source) returns (next: Db)
    requires found != [] && BelowNext(db)
    ensures TracksFound(db, clip, locked, found, source) == TracksFound(next, clip, locked, found[1..], source)
    ensures BelowNext(next) && SameTables(db, next) && next.nextTrack == db.nextTrack + 1
    ensures next.tracks == db.tracks[db.nextTrack := Track(clip, found[0].labelType, false, Some(found[0].labelType))]
    ensures forall r :: r in next.rows <==> r in db.rows || exists k ::
              Placed([], db.nextTrack, Filter(FoundAmong(locked), found[0].boxes), source, r, k)
  {
    var added := TrackAdded(db, Track(clip, found[0].labelType, false, Some(found[0].labelType)));
    var own := Filter(FoundOn(locked), found[0].boxes);
    FilterSame(FoundOn(locked), FoundAmong(locked), found[0].boxes);
    next := PrelabelsPut(added, db.nextTrack, own, source);
    PrelabelsKeep(added, db.nextTrack, own, source);
    forall r ensures r in next.rows <==> r in db.rows || OnNew(db.nextTrack, locked, found[0], source, r) {
      PrelabelsTell(added, db.nextTrack, own, source, r);
      assert forall k: nat :: Placed(db.rows, db.nextTrack, own, source, r, k) <==>
                         Placed([], db.nextTrack, own, source, r, k);
    }
  }

  ghost predicate FoundAt(first: nat, locked: seq<nat>, found: seq<FoundTrack>, source: Source, r: Row, i: nat) {
    i < |found| && OnNew(first + i, locked, found[i], source, r)
  }

  // A box of the i-th found track, on the i-th new one.
  ghost predicate AmongFound(first: nat, locked: seq<nat>, found: seq<FoundTrack>, source: Source, r: Row) {
    exists i: nat :: FoundAt(first, locked, found, source, r, i)
  }

  lemma FoundLater(first: nat, locked: seq<nat>, found: seq<FoundTrack>, source: Source, r: Row)
    requires found != []
    ensures AmongFound(first, locked, found, source, r) <==>
            OnNew(first, locked, found[0], source, r) || AmongFound(first + 1, locked, found[1..], source, r)
  {
    var second := first + 1;
    if AmongFound(second, locked, found[1..], source, r) {
      var i: nat :| FoundAt(second, locked, found[1..], source, r, i);
      var j: nat := i + 1;
      assert FoundAt(first, locked, found, source, r, j);
    }
    if OnNew(first, locked, found[0], source, r) {
      assert FoundAt(first, locked, found, source, r, 0);
    }
    if AmongFound(first, locked, found, source, r) {
      var i: nat :| FoundAt(first, locked, found, source, r, i);
      if i > 0 {
        var j: nat := i - 1;
        assert FoundAt(second, locked, found[1..], source, r, j);
      }
    }
  }

  lemma {:induction false} TracksFoundTell(db: Db, clip: nat, locked: seq<nat>, found: seq<FoundTrack>,
                                           source: Source, r: Row)
    requires BelowNext(db)
    ensures r in TracksFound(db, clip, locked, found, source).rows <==>
            r in db.rows || AmongFound(db.nextTrack, locked, found, source, r)
    decreases |found|
  {
    if found != [] {
      var next := FirstFound(db, clip, locked, found, source);
      TracksFoundTell(next, clip, locked, found[1..], source, r);
      FoundLater(db.nextTrack, locked, found, source, r);
    }
  }

  lemma {:induction false} TracksFoundKeep(db: Db, clip: nat, locked: seq<nat>, found: seq<FoundTrack>,
                                           source: Source)
    requires BelowNext(db)
    ensures var next := TracksFound(db, clip, locked, found, source);
            SameTables(db, next) && TracksAdded(db, next, clip, found)
    decreases |found|
  {
    if found != [] {
      var next := FirstFound(db, clip, locked, found, source);
      TracksFoundKeep(next, clip, locked, found[1..], source);
      TracksAddedStep(db, next, TracksFound(next, clip, locked, found[1..], source), clip, found);
    }
  }

  lemma TracksAddedStep(db: Db, next: Db, out: Db, clip: nat, found: seq<FoundTrack>)
    requires found != [] && BelowNext(db) && next.nextTrack == db.nextTrack + 1
    requires next.tracks == db.tracks[db.nextTrack := Track(clip, found[0].labelType, false, Some(found[0].labelType))]
    requires TracksAdded(next, out, clip, found[1..])
    ensures TracksAdded(db, out, clip, found)
  {
    forall i | 0 <= i < |found|
      ensures IsTrack(out, db.nextTrack + i, Track(clip, found[i].labelType, false, Some(found[i].labelType)))
    {
      if i > 0 {
        var j := i - 1;
        assert IsTrack(out, next.nextTrack + j,
                       Track(clip, found[1..][j].labelType, false, Some(found[1..][j].labelType)));
      }
    }
  }

  // ---- Proposals taken back

  // The open proposals of a kind are gone, and no other box.
  ghost predicate TakenBack(before: seq<Row>, rows: seq<Row>, gone: Row -> bool) {
    forall r :: r in rows <==> r in before && !(r.held.status == Proposed && gone(r))
  }

  lemma DropTells(db: Db, gone: Row -> bool)
    ensures TakenBack(db.rows, ProposalsDropped(db, gone).rows, gone)
  {
  }

  // Of some tracks those left without a box are gone, and no other.
  ghost predicate Emptied(before: map<nat, Track>, db: Db, ids: set<nat>) {
    && (forall t :: t in db.tracks <==>
          t in before && !(t in ids && forall r :: r in db.rows ==> r.key.track != t))
    && (forall t :: t in db.tracks ==> db.tracks[t] == before[t])
  }

  lemma EmptiedTells(db: Db, ids: seq<nat>)
    ensures Emptied(db.tracks, EmptyTracksDropped(db, ids), set t | t in ids)
  {
    forall t: nat ensures HasBoxes(db.rows, t) <==> exists r :: r in db.rows && r.key.track == t {
      HasBoxesIff(db.rows, t);
    }
  }

  // The tracks of the boxes of a kind that are taken back.
  ghost function TracksOfGone(rows: seq<Row>, gone: Row -> bool): set<nat> {
    set r | r in rows && r.held.status == Proposed && gone(r) :: r.key.track
  }

  lemma TracksOfGoneAre(rows: seq<Row>, gone: Row -> bool)
    ensures (set t | t in TracksOf(Map(KeyOf(), Filter(Gone(gone), rows)))) == TracksOfGone(rows, gone)
  {
    var own := Filter(Gone(gone), rows);
    var ids := TracksOf(Map(KeyOf(), own));
    forall t | t in ids ensures t in TracksOfGone(rows, gone) {
      var k :| 0 <= k < |ids| && ids[k] == t;
      assert own[k] in own;
    }
    forall t | t in TracksOfGone(rows, gone) ensures t in ids {
      var r :| r in rows && r.held.status == Proposed && gone(r) && r.key.track == t;
      assert Gone(gone)(r) && r in own;
      var k :| 0 <= k < |own| && own[k] == r;
      assert ids[k] == t;
    }
  }

  // ---- Objects found

  ghost predicate ObjectAt(first: nat, frame: nat, rects: seq<Rect>, r: Row, i: nat) {
    i < |rects| && r == Proposal(first + i, frame, rects[i], Sam)
  }

  ghost predicate AmongObjects(first: nat, frame: nat, rects: seq<Rect>, r: Row) {
    exists i: nat :: ObjectAt(first, frame, rects, r, i)
  }

  lemma ObjectsLater(first: nat, frame: nat, rects: seq<Rect>, r: Row)
    requires rects != []
    ensures AmongObjects(first, frame, rects, r) <==>
            r == Proposal(first, frame, rects[0], Sam) || AmongObjects(first + 1, frame, rects[1..], r)
  {
    var second := first + 1;
    if AmongObjects(second, frame, rects[1..], r) {
      var i: nat :| ObjectAt(second, frame, rects[1..], r, i);
      var j: nat := i + 1;
      assert ObjectAt(first, frame, rects, r, j);
    }
    if r == Proposal(first, frame, rects[0], Sam) {
      assert ObjectAt(first, frame, rects, r, 0);
    }
    if AmongObjects(first, frame, rects, r) {
      var i: nat :| ObjectAt(first, frame, rects, r, i);
      if i > 0 {
        var j: nat := i - 1;
        assert ObjectAt(second, frame, rects[1..], r, j);
      }
    }
  }

  lemma {:induction false} ObjectsTell(db: Db, like: Track, frame: nat, rects: seq<Rect>, r: Row)
    requires BelowNext(db)
    ensures r in ObjectsFound(db, like, frame, rects).rows <==>
            r in db.rows || AmongObjects(db.nextTrack, frame, rects, r)
    decreases |rects|
  {
    if rects != [] {
      var next := FirstObject(db, like, frame, rects);
      ObjectsTell(next, like, frame, rects[1..], r);
      ObjectsLater(db.nextTrack, frame, rects, r);
    }
  }

  lemma FirstObject(db: Db, like: Track, frame: nat, rects: seq<Rect>) returns (next: Db)
    requires BelowNext(db) && rects != []
    ensures ObjectsFound(db, like, frame, rects) == ObjectsFound(next, like, frame, rects[1..])
    ensures BelowNext(next) && SameTables(db, next) && next.nextTrack == db.nextTrack + 1
    ensures next.tracks == db.tracks[db.nextTrack := Track(like.clip, like.labelType, false, None)]
    ensures next.rows == db.rows + [Proposal(db.nextTrack, frame, rects[0], Sam)]
  {
    var added := TrackAdded(db, Track(like.clip, like.labelType, false, None));
    next := ProposalPut(added, Key(db.nextTrack, frame), rects[0], Sam);
    HoldsIff(db.rows, Key(db.nextTrack, frame));
  }

  // A track of its own for every object, of the class looked for.
  ghost predicate ObjectTracks(before: Db, db: Db, like: Track, count: nat) {
    && db.nextTrack == before.nextTrack + count
    && (forall t :: t in db.tracks <==> t in before.tracks || before.nextTrack <= t < db.nextTrack)
    && (forall t :: t in db.tracks ==>
          db.tracks[t] == if t in before.tracks then before.tracks[t]
                          else Track(like.clip, like.labelType, false, None))
  }

  lemma {:induction false} ObjectsKeep(db: Db, like: Track, frame: nat, rects: seq<Rect>)
    requires BelowNext(db)
    ensures var next := ObjectsFound(db, like, frame, rects);
            SameTables(db, next) && ObjectTracks(db, next, like, |rects|)
    decreases |rects|
  {
    if rects != [] {
      var next := FirstObject(db, like, frame, rects);
      ObjectsKeep(next, like, frame, rects[1..]);
    }
  }

  // ---- Every write

  // The frames of a clip, among some, that nobody has marked.
  ghost predicate Locked(db: Db, clip: nat, frames: seq<nat>, locked: seq<nat>) {
    forall f :: f in locked <==>
      f in frames && f in db.frames && db.frames[f].clip == clip && db.frames[f].status == Unlabeled
  }

  function StalePrelabel(db: Db, locked: seq<nat>, source: Source): Row -> bool {
    (r: Row) => r.key.frame in locked && r.held.source == source
                && r.key.track in db.tracks && !db.tracks[r.key.track].classEdited
  }

  function FromFrame(db: Db, track: nat, idx: nat): Row -> bool {
    (r: Row) => r.key.track == track && r.key.frame in db.frames && idx <= db.frames[r.key.frame].idx
  }

  function OnFrames(frames: seq<nat>): Row -> bool {
    (r: Row) => r.key.frame in frames && (r.held.source == Yolo || r.held.source == Cv)
  }

  // What is left of boxes and tracks when the pre-labels of a kind are taken
  // back.
  ghost predicate Cleared(before: Db, left: Db, gone: Row -> bool) {
    && TakenBack(before.rows, left.rows, gone) && Emptied(before.tracks, left, TracksOfGone(before.rows, gone))
    && SameTables(before, left) && left.nextTrack == before.nextTrack
  }

  lemma ClearTells(db: Db, kind: Row -> bool, gone: Row -> bool)
    requires forall r :: kind(r) == gone(r)
    ensures Cleared(db, EmptyTracksDropped(ProposalsDropped(db, kind),
                                           TracksOf(Map(KeyOf(), Filter(Gone(kind), db.rows)))), gone)
  {
    var dropped := ProposalsDropped(db, kind);
    var ids := TracksOf(Map(KeyOf(), Filter(Gone(kind), db.rows)));
    DropTells(db, kind);
    EmptiedTells(dropped, ids);
    TracksOfGoneAre(db.rows, kind);
    assert TracksOfGone(db.rows, kind) == TracksOfGone(db.rows, gone);
  }

  // Boxes on frames of the track's clip, and no frame twice.
  ghost predicate MayReport(db: Db, track: nat, boxes: seq<Found>) {
    && track in db.tracks
    && (forall b :: b in boxes ==> b.frame in db.frames && db.frames[b.frame].clip == db.tracks[track].clip)
    && (forall i, j :: 0 <= i < j < |boxes| ==> boxes[i].frame != boxes[j].frame)
  }

  lemma MayReportIff(db: Db, track: nat, boxes: seq<Found>)
    ensures Reportable(db, track, boxes) <==> MayReport(db, track, boxes)
  {
    if MayReport(db, track, boxes) {
      forall k | 0 <= k < |boxes| ensures InClip(db, Key(track, boxes[k].frame)) {
        assert boxes[k] in boxes;
      }
    }
    if Reportable(db, track, boxes) {
      forall b | b in boxes ensures InClip(db, Key(track, b.frame)) {
        var k :| 0 <= k < |boxes| && boxes[k] == b;
      }
    }
  }

  // Whether a write happens, and what it did if so.
  ghost predicate Wrote(before: Db, after: Option<Db>, w: ModelWrite) {
    match w
    case ReportBoxes(track, boxes, source) =>
      && (after.Some? <==> MayReport(before, track, boxes))
      && (after.Some? ==>
            && (forall r :: r in after.value.rows <==> InReport(before.rows, track, boxes, source, r))
            && SameTables(before, after.value) && after.value.tracks == before.tracks)
    case RestartTracking(track, idx) =>
      && after.Some? && TakenBack(before.rows, after.value.rows, FromFrame(before, track, idx))
      && SameTables(before, after.value) && after.value.tracks == before.tracks
    case DropEmptyTrack(track) =>
      && after.Some? && after.value.rows == before.rows && Emptied(before.tracks, after.value, {track})
      && SameTables(before, after.value)
    case SavePrelabels(clip, frames, source, found) =>
      after.Some? && exists locked, left ::
        && Locked(before, clip, frames, locked) && Cleared(before, left, StalePrelabel(before, locked, source))
        && PrelabelsSaved(left, after.value, clip, locked, found, source)
    case ClearPrelabels(frames) => after.Some? && Cleared(before, after.value, OnFrames(frames))
    case FindObjects(track, frame, rects) =>
      && (after.Some? <==> LiveTrack(before, track) && frame in before.frames
                           && before.frames[frame].clip == before.tracks[track].clip)
      && (after.Some? ==>
            && (forall r :: r in after.value.rows <==>
                  r in before.rows || AmongObjects(before.nextTrack, frame, rects, r))
            && ObjectTracks(before, after.value, before.tracks[track], |rects|) && SameTables(before, after.value))
  }

  ghost predicate PrelabelsSaved(left: Db, db: Db, clip: nat, locked: seq<nat>, found: seq<FoundTrack>, source: Source)
  {
    && (forall r :: r in db.rows <==> r in left.rows || AmongFound(left.nextTrack, locked, found, source, r))
    && TracksAdded(left, db, clip, found) && SameTables(left, db)
  }

  lemma SaveTells(db: Db, clip: nat, frames: seq<nat>, source: Source, found: seq<FoundTrack>)
    requires BelowNext(db)
    ensures Wrote(db, Write(db, SavePrelabels(clip, frames, source, found)), SavePrelabels(clip, frames, source, found))
  {
    var locked := Filter(Unmarked(db, clip), frames);
    var kind, gone := OpenPrelabel(db, locked, source), StalePrelabel(db, locked, source);
    var stale := Filter(Gone(kind), db.rows);
    var left := EmptyTracksDropped(ProposalsDropped(db, kind), TracksOf(Map(KeyOf(), stale)));
    ClearTells(db, kind, gone);
    var out := TracksFound(left, clip, locked, found, source);
    TracksFoundKeep(left, clip, locked, found, source);
    forall r ensures r in out.rows <==> r in left.rows || AmongFound(left.nextTrack, locked, found, source, r) {
      TracksFoundTell(left, clip, locked, found, source, r);
    }
    assert Locked(db, clip, frames, locked) && Cleared(db, left, gone)
           && PrelabelsSaved(left, out, clip, locked, found, source);
  }

  lemma ReportWrites(db: Db, track: nat, boxes: seq<Found>, source: Source)
    ensures Wrote(db, Write(db, ReportBoxes(track, boxes, source)), ReportBoxes(track, boxes, source))
  {
    MayReportIff(db, track, boxes);
    if Reportable(db, track, boxes) {
      ReportKeeps(db, track, boxes, source);
      forall r ensures r in ProposalsPut(db, track, boxes, source).rows <==>
                       InReport(db.rows, track, boxes, source, r) {
        ReportTells(db, track, boxes, source, r);
      }
    }
  }

  lemma FindWrites(db: Db, track: nat, frame: nat, rects: seq<Rect>)
    requires BelowNext(db)
    ensures Wrote(db, Write(db, FindObjects(track, frame, rects)), FindObjects(track, frame, rects))
  {
    if TrackLive(db, track) {
      var like := db.tracks[track];
      ObjectsKeep(db, like, frame, rects);
      forall r ensures r in ObjectsFound(db, like, frame, rects).rows <==>
                       r in db.rows || AmongObjects(db.nextTrack, frame, rects, r) {
        ObjectsTell(db, like, frame, rects, r);
      }
    }
  }

  // Every write puts the proposals it should where it may, takes back those
  // it should, and leaves every other box and track.
  lemma WriteTells(db: Db, w: ModelWrite)
    requires BelowNext(db)
    ensures Wrote(db, Write(db, w), w)
  {
    match w
    case ReportBoxes(track, boxes, source) => ReportWrites(db, track, boxes, source);
    case RestartTracking(track, idx) =>
      DropTells(db, FromIdx(db, track, idx));
      assert forall r :: FromIdx(db, track, idx)(r) == FromFrame(db, track, idx)(r);
    case DropEmptyTrack(track) =>
      EmptiedTells(db, [track]);
      assert (set t | t in [track]) == {track};
    case SavePrelabels(clip, frames, source, found) => SaveTells(db, clip, frames, source, found);
    case ClearPrelabels(frames) => ClearTells(db, AnyPrelabel(frames), OnFrames(frames));
    case FindObjects(track, frame, rects) => FindWrites(db, track, frame, rects);
  }
}
