// The tables labeling writes to, their statements, and every request as one
// change to them, or none when it fails.
module AnnotationTables {
  import opened Sequences
  import opened Geometry
  import opened BoxEvents

  datatype Frame = Frame(clip: nat, idx: nat, status: FrameStatus, markedBy: Option<nat>)

  datatype Track = Track(clip: nat, labelType: nat, classEdited: bool, proposedType: Option<nat>)

  datatype Row = Row(key: Key, held: Held)

  // proposed and withdrawn are not tables: they keep every proposal a model
  // ever made and every one a model took back.
  datatype Db = Db(live: set<nat>, frames: map<nat, Frame>, tracks: map<nat, Track>, nextTrack: nat, rows: seq<Row>,
                   events: seq<Event>, refusals: seq<Refusal>, proposed: seq<Key>, withdrawn: seq<Key>)

  // ---- Reading

  predicate FrameLive(db: Db, frame: nat) {
    frame in db.frames && db.frames[frame].clip in db.live
  }

  predicate TrackLive(db: Db, track: nat) {
    track in db.tracks && db.tracks[track].clip in db.live
  }

  // The track and the frame are of one clip.
  predicate InClip(db: Db, key: Key) {
    key.track in db.tracks && key.frame in db.frames && db.tracks[key.track].clip == db.frames[key.frame].clip
  }

  function BareState(db: Db, key: Key): State {
    if InClip(db, key) then
      var f, t := db.frames[key.frame], db.tracks[key.track];
      State(key, f.status, f.markedBy, t.labelType, t.classEdited, t.proposedType, None)
    else State(key, Unlabeled, None, 0, false, None, None)
  }

  function StateOf(db: Db): Row -> State {
    (r: Row) => BareState(db, r.key).(box := Some(r.held))
  }

  function Where(q: Key -> bool): Row -> bool {
    (r: Row) => q(r.key)
  }

  function Is(key: Key): Key -> bool {
    (k: Key) => k == key
  }

  function OnTrack(db: Db, track: nat): Key -> bool {
    (k: Key) => k.track == track && InClip(db, k)
  }

  // ListBoxStates for a whole track.
  function StatesOfTrack(db: Db, track: nat): seq<State> {
    Map(StateOf(db), Filter(Where(OnTrack(db, track)), db.rows))
  }

  // ListBoxStates for one frame: a frame without a box comes back bare.
  function StatesAt(db: Db, key: Key): seq<State> {
    if !InClip(db, key) then []
    else if Filter(Where(Is(key)), db.rows) == [] then [BareState(db, key)]
    else Map(StateOf(db), Filter(Where(Is(key)), db.rows))
  }

  // ---- Writing boxes

  function Recorded(db: Db, overlap: Overlap, e: Edit, states: seq<State>): Db {
    db.(events := db.events + EventsOf(e, states), refusals := db.refusals + RefusalsOf(overlap, e, states))
  }

  function Drawn(key: Key, rect: Rect): Row {
    Row(key, Held(rect, Human, Verified))
  }

  function DrawnOver(key: Key, rect: Rect): Row -> Row {
    (r: Row) => if r.key == key then Drawn(key, rect) else r
  }

  predicate HasRow(rows: seq<Row>, key: Key) {
    exists k :: 0 <= k < |rows| && rows[k].key == key
  }

  function Upserted(db: Db, key: Key, rect: Rect): Db {
    db.(rows := if HasRow(db.rows, key) then Map(DrawnOver(key, rect), db.rows) else db.rows + [Drawn(key, rect)])
  }

  function EmptyCleared(db: Db, frame: nat): Db {
    if frame in db.frames && db.frames[frame].status == Empty then
      db.(frames := db.frames[frame := db.frames[frame].(status := Unlabeled, markedBy := None)])
    else db
  }

  function Not(q: Key -> bool): Key -> bool {
    (k: Key) => !q(k)
  }

  function OfTrack(track: nat): Key -> bool {
    (k: Key) => k.track == track
  }

  // A deleted track takes its boxes along.
  function TrackDropped(db: Db, track: nat): Db {
    db.(tracks := db.tracks - {track}, rows := Filter(Where(Not(OfTrack(track))), db.rows))
  }

  predicate HasBoxes(rows: seq<Row>, track: nat) {
    exists k :: 0 <= k < |rows| && rows[k].key.track == track
  }

  // Deletes those of the tracks that have no box left.
  function EmptyTracksDropped(db: Db, ids: seq<nat>): Db {
    db.(tracks := map t | t in db.tracks && !(t in ids && !HasBoxes(db.rows, t)) :: db.tracks[t])
  }

  function TrackAdded(db: Db, track: Track): Db {
    db.(tracks := db.tracks[db.nextTrack := track], nextTrack := db.nextTrack + 1)
  }

  // The statements a saved box runs, in order.
  function BoxSaved(db: Db, overlap: Overlap, me: nat, key: Key, rect: Rect): Db {
    EmptyCleared(Upserted(Recorded(db, overlap, Edit(me, OpSet, rect), StatesAt(db, key)), key, rect), key.frame)
  }

  // ---- Labelers' requests

  // The smallest side kept after clamping.
  const MIN_SIDE: real := 0.001

  // Clips a box to the frame; none when too little is left.
  function ClampBox(box: Option<Rect>): Option<Rect> {
    if box.None? then None
    else
      var b := box.value;
      var x0, y0 := Max(0.0, b.x), Max(0.0, b.y);
      var x1, y1 := Min(1.0, b.x + b.w), Min(1.0, b.y + b.h);
      if x1 - x0 < MIN_SIDE || y1 - y0 < MIN_SIDE then None else Some(Rect(x0, y0, x1 - x0, y1 - y0))
  }

  datatype Prompt = AtPoint(x: real, y: real) | InBox(drawn: Rect) | NoPrompt

  datatype Request =
    | CreateTrack(clip: nat, frame: nat, labelType: nat, valuesOk: bool, box: Option<Rect>)
    | UpdateTrack(track: nat, labelType: nat, valuesOk: bool, valuesChange: bool)
    | DeleteTrack(track: nat)
    | SetBox(key: Key, box: Option<Rect>)
    | DeleteBox(key: Key)
    | CopyBoxes(from: nat, to: nat, only: seq<nat>)
    | SetFrameStatus(frame: nat, status: Option<FrameStatus>)
    | TrackObject(frame: nat, onto: Option<nat>, labelType: nat, valuesOk: bool, prompt: Prompt)

  function Create(db: Db, overlap: Overlap, me: nat, clip: nat, frame: nat, labelType: nat, valuesOk: bool,
                  box: Option<Rect>): Option<Db> {
    var rect := ClampBox(box);
    if rect.None? || !FrameLive(db, frame) || db.frames[frame].clip != clip || !valuesOk then None
    else
      Some(BoxSaved(TrackAdded(db, Track(clip, labelType, false, None)), overlap, me, Key(db.nextTrack, frame),
                    rect.value))
  }

  // The values are checked and encoded elsewhere; here they pass or not, and
  // differ from the old ones or not.
  function Update(db: Db, overlap: Overlap, me: nat, track: nat, labelType: nat, valuesOk: bool,
                  valuesChange: bool): Option<Db> {
    if !TrackLive(db, track) || !valuesOk then None
    else
      var t := db.tracks[track];
      var moves := labelType != t.labelType;
      var e := Edit(me, OpRelabel, Rect(0.0, 0.0, 0.0, 0.0));
      var noted := if moves then Recorded(db, overlap, e, StatesOfTrack(db, track)) else db;
      var edited := t.(labelType := labelType, classEdited := t.classEdited || moves || valuesChange);
      Some(noted.(tracks := db.tracks[track := edited]))
  }

  function Delete(db: Db, overlap: Overlap, me: nat, track: nat): Option<Db> {
    if !TrackLive(db, track) then None
    else
      var e := Edit(me, OpDelete, Rect(0.0, 0.0, 0.0, 0.0));
      Some(TrackDropped(Recorded(db, overlap, e, StatesOfTrack(db, track)), track))
  }

  function Set(db: Db, overlap: Overlap, me: nat, key: Key, box: Option<Rect>): Option<Db> {
    var rect := ClampBox(box);
    if rect.None? || !TrackLive(db, key.track) || !FrameLive(db, key.frame) || !InClip(db, key) then None
    else Some(BoxSaved(db, overlap, me, key, rect.value))
  }

  // Deleting a track's last box deletes the track.
  function RemoveBox(db: Db, overlap: Overlap, me: nat, key: Key): Option<Db> {
    if !HasRow(db.rows, key) || !TrackLive(db, key.track) then None
    else
      var noted := Recorded(db, overlap, Edit(me, OpDelete, Rect(0.0, 0.0, 0.0, 0.0)), StatesAt(db, key));
      var left := noted.(rows := Filter(Where(Not(Is(key))), db.rows));
      Some(if HasBoxes(left.rows, key.track) then left else TrackDropped(left, key.track))
  }

  // What CopyAnnotations copies: boxes of the source frame whose track has
  // none on the target yet.
  function Copies(rows: seq<Row>, from: nat, to: nat, only: seq<nat>): Row -> bool {
    (r: Row) => r.key.frame == from && r.held.status != Rejected && (only == [] || r.key.track in only)
      && !HasRow(rows, Key(r.key.track, to))
  }

  function CopyTo(to: nat): Row -> Row {
    (r: Row) => Drawn(Key(r.key.track, to), r.held.rect)
  }

  function Copied(db: Db, from: nat, to: nat, only: seq<nat>): seq<Row> {
    Map(CopyTo(to), Filter(Copies(db.rows, from, to, only), db.rows))
  }

  function Unboxed(): State -> State {
    (s: State) => s.(box := None)
  }

  // The copies' states, read back as if the boxes were not there yet.
  function CopyStates(db: Db, copied: seq<Row>): seq<State> {
    if copied == [] then []
    else
      var n := |copied| - 1;
      CopyStates(db, copied[..n]) + Map(Unboxed(), StatesAt(db, copied[n].key))
  }

  function CopyEdit(me: nat): Edit {
    Edit(me, OpSet, Rect(0.0, 0.0, 0.0, 0.0))
  }

  function CopiesRecorded(db: Db, overlap: Overlap, me: nat, to: Frame, copied: seq<Row>): Db {
    if to.status == Unlabeled || to.markedBy.None? || to.markedBy.value == me then db
    else Recorded(db, overlap, CopyEdit(me), CopyStates(db, copied))
  }

  function Copy(db: Db, overlap: Overlap, me: nat, from: nat, to: nat, only: seq<nat>): Option<Db> {
    if !FrameLive(db, from) || !FrameLive(db, to) || db.frames[from].clip != db.frames[to].clip then None
    else
      var copied := Copied(db, from, to, only);
      if copied == [] then Some(db)
      else Some(EmptyCleared(CopiesRecorded(db.(rows := db.rows + copied), overlap, me, db.frames[to], copied), to))
  }

  function OpenOn(frame: nat): Row -> bool {
    (r: Row) => r.key.frame == frame && r.held.status == Proposed
  }

  // What RecordAcceptedProposals writes for an open proposal.
  function Accepting(db: Db, me: nat): Row -> Event {
    (r: Row) =>
      var t := if r.key.track in db.tracks then db.tracks[r.key.track] else Track(0, 0, false, None);
      Event(if t.classEdited && OfModel(r.held.source) then WasEdited else WasAccepted,
            r.key, t.labelType, me, r.held.source, None)
  }

  function Accepted(frame: nat): Row -> Row {
    (r: Row) => if r.key.frame == frame && r.held.status == Proposed then r.(held := r.held.(status := Verified)) else r
  }

  function ProposalsAccepted(db: Db, me: nat, frame: nat): Db {
    db.(events := db.events + Map(Accepting(db, me), Filter(OpenOn(frame), db.rows)),
        rows := Map(Accepted(frame), db.rows))
  }

  predicate HasBox(rows: seq<Row>, frame: nat) {
    exists k :: 0 <= k < |rows| && rows[k].key.frame == frame && rows[k].held.status != Rejected
  }

  // Marking a frame again as it is already leaves the first marker's name on it.
  function Marked(f: Frame, me: nat, status: FrameStatus): Frame {
    f.(status := status,
       markedBy := if status == Unlabeled then None else if f.status == status then f.markedBy else Some(me))
  }

  function Mark(db: Db, me: nat, frame: nat, status: Option<FrameStatus>): Option<Db> {
    if status.None? || (status.value == Empty && HasBox(db.rows, frame)) || !FrameLive(db, frame) then None
    else
      var marked := db.(frames := db.frames[frame := Marked(db.frames[frame], me, status.value)]);
      Some(if status.value == Labeled then ProposalsAccepted(marked, me, frame) else marked)
  }

  predicate PromptOk(prompt: Prompt) {
    match prompt
    case AtPoint(x, y) => 0.0 <= x <= 1.0 && 0.0 <= y <= 1.0
    case InBox(drawn) => ClampBox(Some(drawn)).Some?
    case NoPrompt => false
  }

  // Starts tracking an object from a point or a box, on a track of its own
  // or one there already; the box is saved like any other.
  function Follow(db: Db, overlap: Overlap, me: nat, frame: nat, track: Option<nat>, labelType: nat, valuesOk: bool,
                  prompt: Prompt): Option<Db> {
    if !PromptOk(prompt) || !FrameLive(db, frame) then None
    else if track.None? && !valuesOk then None
    else if track.Some? && !(TrackLive(db, track.value) && InClip(db, Key(track.value, frame))) then None
    else
      var ready := if track.None? then TrackAdded(db, Track(db.frames[frame].clip, labelType, false, None)) else db;
      var key := Key(if track.None? then db.nextTrack else track.value, frame);
      Some(if prompt.InBox? then BoxSaved(ready, overlap, me, key, ClampBox(Some(prompt.drawn)).value) else ready)
  }

  function Handle(db: Db, overlap: Overlap, me: nat, r: Request): Option<Db> {
    match r
    case CreateTrack(clip, frame, labelType, ok, box) => Create(db, overlap, me, clip, frame, labelType, ok, box)
    case UpdateTrack(track, labelType, ok, change) => Update(db, overlap, me, track, labelType, ok, change)
    case DeleteTrack(track) => Delete(db, overlap, me, track)
    case SetBox(key, box) => Set(db, overlap, me, key, box)
    case DeleteBox(key) => RemoveBox(db, overlap, me, key)
    case CopyBoxes(from, to, only) => Copy(db, overlap, me, from, to, only)
    case SetFrameStatus(frame, status) => Mark(db, me, frame, status)
    case TrackObject(frame, onto, labelType, ok, prompt) => Follow(db, overlap, me, frame, onto, labelType, ok, prompt)
  }

  // ---- Models' writes

  datatype Found = Found(frame: nat, rect: Rect)

  datatype FoundTrack = FoundTrack(labelType: nat, boxes: seq<Found>)

  function Replaced(key: Key, rect: Rect, source: Source): Row -> Row {
    (r: Row) => if r.key == key && r.held.status == Proposed then Row(key, Held(rect, source, Proposed)) else r
  }

  predicate OpenRow(rows: seq<Row>, key: Key) {
    exists k :: 0 <= k < |rows| && rows[k].key == key && rows[k].held.status == Proposed
  }

  // UpsertProposals for one box: only a proposal is replaced.
  function ProposalPut(db: Db, key: Key, rect: Rect, source: Source): Db {
    if !HasRow(db.rows, key) then
      db.(rows := db.rows + [Row(key, Held(rect, source, Proposed))], proposed := db.proposed + [key])
    else if OpenRow(db.rows, key) then
      db.(rows := Map(Replaced(key, rect, source), db.rows),
          proposed := db.proposed + [key], withdrawn := db.withdrawn + [key])
    else db
  }

  function ProposalsPut(db: Db, track: nat, boxes: seq<Found>, source: Source): Db
    decreases |boxes|
  {
    if boxes == [] then db
    else ProposalsPut(ProposalPut(db, Key(track, boxes[0].frame), boxes[0].rect, source), track, boxes[1..], source)
  }

  // InsertPrelabels for one box: an existing box stays.
  function PrelabelPut(db: Db, key: Key, rect: Rect, source: Source): Db {
    if HasRow(db.rows, key) then db else ProposalPut(db, key, rect, source)
  }

  function PrelabelsPut(db: Db, track: nat, boxes: seq<Found>, source: Source): Db
    decreases |boxes|
  {
    if boxes == [] then db
    else PrelabelsPut(PrelabelPut(db, Key(track, boxes[0].frame), boxes[0].rect, source), track, boxes[1..], source)
  }

  function KeyOf(): Row -> Key {
    (r: Row) => r.key
  }

  function Kept(gone: Row -> bool): Row -> bool {
    (r: Row) => !(r.held.status == Proposed && gone(r))
  }

  function Gone(gone: Row -> bool): Row -> bool {
    (r: Row) => r.held.status == Proposed && gone(r)
  }

  // Deletes the open proposals among these boxes.
  function ProposalsDropped(db: Db, gone: Row -> bool): Db {
    db.(rows := Filter(Kept(gone), db.rows), withdrawn := db.withdrawn + Map(KeyOf(), Filter(Gone(gone), db.rows)))
  }

  function TracksOf(keys: seq<Key>): seq<nat> {
    seq(|keys|, i requires 0 <= i < |keys| => keys[i].track)
  }

  function FromIdx(db: Db, track: nat, idx: nat): Row -> bool {
    (r: Row) => r.key.track == track && r.key.frame in db.frames && db.frames[r.key.frame].idx >= idx
  }

  function OpenPrelabel(db: Db, frames: seq<nat>, source: Source): Row -> bool {
    (r: Row) => r.key.track in db.tracks && !db.tracks[r.key.track].classEdited && r.key.frame in frames
      && r.held.source == source
  }

  function AnyPrelabel(frames: seq<nat>): Row -> bool {
    (r: Row) => r.key.frame in frames && OfModel(r.held.source)
  }

  // The frames of a clip that nobody has marked.
  function Unmarked(db: Db, clip: nat): nat -> bool {
    (f: nat) => f in db.frames && db.frames[f].clip == clip && db.frames[f].status == Unlabeled
  }

  function FoundOn(frames: seq<nat>): Found -> bool {
    (b: Found) => b.frame in frames
  }

  function TracksFound(db: Db, clip: nat, locked: seq<nat>, found: seq<FoundTrack>, source: Source): Db
    decreases |found|
  {
    if found == [] then db
    else
      var added := TrackAdded(db, Track(clip, found[0].labelType, false, Some(found[0].labelType)));
      TracksFound(PrelabelsPut(added, db.nextTrack, Filter(FoundOn(locked), found[0].boxes), source), clip, locked,
                  found[1..], source)
  }

  // Objects found to look like one get a track each, with one proposal.
  function ObjectsFound(db: Db, like: Track, frame: nat, rects: seq<Rect>): Db
    decreases |rects|
  {
    if rects == [] then db
    else
      var added := TrackAdded(db, Track(like.clip, like.labelType, false, None));
      ObjectsFound(ProposalPut(added, Key(db.nextTrack, frame), rects[0], Sam), like, frame, rects[1..])
  }

  datatype ModelWrite =
    | ReportBoxes(track: nat, boxes: seq<Found>, source: Source)
    | RestartTracking(track: nat, idx: nat)
    | DropEmptyTrack(track: nat)
    | SavePrelabels(clip: nat, frames: seq<nat>, source: Source, found: seq<FoundTrack>)
    | ClearPrelabels(frames: seq<nat>)
    | FindObjects(track: nat, frame: nat, rects: seq<Rect>)

  // Every box is on a frame of the track's clip, and no frame comes twice.
  predicate Reportable(db: Db, track: nat, boxes: seq<Found>) {
    && track in db.tracks
    && (forall k :: 0 <= k < |boxes| ==> InClip(db, Key(track, boxes[k].frame)))
    && (forall i, j :: 0 <= i < j < |boxes| ==> boxes[i].frame != boxes[j].frame)
  }

  function Write(db: Db, w: ModelWrite): Option<Db> {
    match w
    case ReportBoxes(track, boxes, source) =>
      if Reportable(db, track, boxes) then Some(ProposalsPut(db, track, boxes, source)) else None
    case RestartTracking(track, idx) => Some(ProposalsDropped(db, FromIdx(db, track, idx)))
    case DropEmptyTrack(track) => Some(EmptyTracksDropped(db, [track]))
    case SavePrelabels(clip, frames, source, found) =>
      var locked := Filter(Unmarked(db, clip), frames);
      var stale := Filter(Gone(OpenPrelabel(db, locked, source)), db.rows);
      var left := EmptyTracksDropped(ProposalsDropped(db, OpenPrelabel(db, locked, source)),
                                     TracksOf(Map(KeyOf(), stale)));
      Some(TracksFound(left, clip, locked, found, source))
    case ClearPrelabels(frames) =>
      var gone := Filter(Gone(AnyPrelabel(frames)), db.rows);
      Some(EmptyTracksDropped(ProposalsDropped(db, AnyPrelabel(frames)), TracksOf(Map(KeyOf(), gone))))
    case FindObjects(track, frame, rects) =>
      if TrackLive(db, track) && InClip(db, Key(track, frame))
      then Some(ObjectsFound(db, db.tracks[track], frame, rects))
      else None
  }
}
