// What an edit to a track's boxes means for labeler stats: which proposals it
// decides, whose work it corrects, and which boxes it tells pre-labelers are
// not objects of a class.
module BoxEvents {
  import opened Sequences
  import opened Geometry

  datatype Source = Human | Sam | Yolo | Cv

  datatype BoxStatus = Proposed | Verified | Rejected

  datatype FrameStatus = Unlabeled | Labeled | Empty

  datatype Held = Held(rect: Rect, source: Source, status: BoxStatus)

  // Where a box is: its track and its frame.
  datatype Key = Key(track: nat, frame: nat)

  // A track's box on a frame, if it has one, with what is known of both.
  datatype State = State(key: Key, frameStatus: FrameStatus, statusBy: Option<nat>,
                         labelType: nat, classEdited: bool, proposedType: Option<nat>, box: Option<Held>)

  datatype BoxOp = OpSet | OpDelete | OpRelabel

  datatype Kind = WasAccepted | WasEdited | WasRejected | WasAdded | WasMoved | WasDeleted | WasRelabeled

  // Two coordinates this close are the same.
  const EPS: real := 0.000001

  // An edit: who makes it, what it does, and the new box when it sets one.
  datatype Edit = Edit(me: nat, op: BoxOp, to: Rect)

  predicate SameRect(a: Rect, b: Rect) {
    Abs(a.x - b.x) < EPS && Abs(a.y - b.y) < EPS && Abs(a.w - b.w) < EPS && Abs(a.h - b.h) < EPS
  }

  predicate Open(box: Option<Held>) {
    box.Some? && box.value.status == Proposed
  }

  predicate Exists(box: Option<Held>) {
    box.Some? && box.value.status != Rejected
  }

  predicate OfModel(source: Source) {
    source == Yolo || source == Cv
  }

  predicate ModelSource(s: State) {
    s.box.Some? && OfModel(s.box.value.source)
  }

  // The frame was marked done by someone else.
  predicate MarkedByOther(me: nat, s: State) {
    s.frameStatus != Unlabeled && s.statusBy.Some? && s.statusBy.value != me
  }

  function BoxEvent(e: Edit, s: State): Option<Kind> {
    if Open(s.box) then
      match e.op
      case OpSet =>
        if !SameRect(e.to, s.box.value.rect) || (s.classEdited && ModelSource(s)) then Some(WasEdited)
        else Some(WasAccepted)
      case OpDelete => Some(WasRejected)
      case OpRelabel => None
    else if !MarkedByOther(e.me, s) then None
    else
      match e.op
      case OpSet =>
        if !Exists(s.box) then Some(WasAdded) else if !SameRect(e.to, s.box.value.rect) then Some(WasMoved) else None
      case OpDelete => if Exists(s.box) then Some(WasDeleted) else None
      case OpRelabel => if Exists(s.box) then Some(WasRelabeled) else None
  }

  predicate IsCorrection(kind: Kind) {
    kind != WasAccepted && kind != WasEdited && kind != WasRejected
  }

  predicate RejectsPrelabel(overlap: Overlap, e: Edit, s: State) {
    Open(s.box) && ModelSource(s) &&
    match e.op
    case OpDelete => true
    case OpRelabel => s.proposedType == Some(s.labelType)
    case OpSet => overlap(e.to, s.box.value.rect) <= DUPLICATE_IOU
  }

  datatype Event = Event(kind: Kind, key: Key, labelType: nat, user: nat, source: Source, labeler: Option<nat>)

  datatype Refusal = Refusal(frame: nat, labelType: nat, rect: Rect)

  function SourceOf(s: State): Source {
    if s.box.Some? then s.box.value.source else Human
  }

  function Records(e: Edit): State -> bool {
    (s: State) => BoxEvent(e, s).Some?
  }

  function ToEvent(e: Edit): State -> Event {
    (s: State) =>
      var kind := if BoxEvent(e, s).Some? then BoxEvent(e, s).value else WasAdded;
      Event(kind, s.key, s.labelType, e.me, SourceOf(s), if IsCorrection(kind) then s.statusBy else None)
  }

  function Refuses(overlap: Overlap, e: Edit): State -> bool {
    (s: State) => RejectsPrelabel(overlap, e, s)
  }

  function ToRefusal(): State -> Refusal {
    (s: State) => Refusal(s.key.frame, s.labelType, if s.box.Some? then s.box.value.rect else Rect(0.0, 0.0, 0.0, 0.0))
  }

  // What an edit records about the boxes it touches.
  function EventsOf(e: Edit, states: seq<State>): seq<Event> {
    Map(ToEvent(e), Filter(Records(e), states))
  }

  function RefusalsOf(overlap: Overlap, e: Edit, states: seq<State>): seq<Refusal> {
    Map(ToRefusal(), Filter(Refuses(overlap, e), states))
  }

  lemma EventsSnoc(overlap: Overlap, e: Edit, states: seq<State>, i: nat)
    requires i < |states|
    ensures EventsOf(e, states[..i+1]) == EventsOf(e, states[..i])
            + (if Records(e)(states[i]) then [ToEvent(e)(states[i])] else [])
    ensures RefusalsOf(overlap, e, states[..i+1]) ==
            RefusalsOf(overlap, e, states[..i])
            + (if Refuses(overlap, e)(states[i]) then [ToRefusal()(states[i])] else [])
  {
    FilterSnoc(Refuses(overlap, e), states, i);
    FilterSnoc(Records(e), states, i);
    MapAppend(ToRefusal(), Filter(Refuses(overlap, e), states[..i]), [states[i]]);
    MapAppend(ToEvent(e), Filter(Records(e), states[..i]), [states[i]]);
  }

  method InsertBoxEvents(overlap: Overlap, e: Edit, states: seq<State>)
    returns (events: seq<Event>, refusals: seq<Refusal>)
    ensures events == EventsOf(e, states) && refusals == RefusalsOf(overlap, e, states)
    ensures forall ev :: ev in events <==> exists s :: s in states && Tells(e, s, ev)
  {
    forall ev ensures ev in EventsOf(e, states) <==> exists s :: s in states && Tells(e, s, ev) {
      EventsTell(e, states, ev);
    }
    events, refusals := [], [];
    for i := 0 to |states|
      invariant events == EventsOf(e, states[..i]) && refusals == RefusalsOf(overlap, e, states[..i])
    {
      var s := states[i];
      EventsSnoc(overlap, e, states, i);
      if RejectsPrelabel(overlap, e, s) {
        refusals := refusals + [Refusal(s.key.frame, s.labelType, s.box.value.rect)];
      }
      var kind := BoxEvent(e, s);
      if kind.None? {
        continue;
      }
      events := events + [Event(kind.value, s.key, s.labelType, e.me, SourceOf(s),
                                if IsCorrection(kind.value) then s.statusBy else None)];
    }
    assert states[..|states|] == states;
  }

  // ---- What is recorded

  // The event decides the proposal at a key.
  function Decides(key: Key): Event -> bool {
    (ev: Event) => ev.key == key && !IsCorrection(ev.kind)
  }

  function IsOpenAt(key: Key): State -> bool {
    (s: State) => s.key == key && Open(s.box)
  }

  function Decided(events: seq<Event>, key: Key): nat {
    |Filter(Decides(key), events)|
  }

  // Setting or deleting boxes decides each open proposal among them once, and
  // relabeling decides none.
  lemma {:induction false} EditDecides(e: Edit, states: seq<State>, key: Key)
    ensures Decided(EventsOf(e, states), key) == if e.op == OpRelabel then 0 else |Filter(IsOpenAt(key), states)|
  {
    if states != [] {
      var s, rest := states[0], states[1..];
      EditDecides(e, rest, key);
      EventsCons(e, states);
      OneDecides(e, s, key);
      FilterAppend(Decides(key), EventOf(e, s), EventsOf(e, rest));
    }
  }

  function EventOf(e: Edit, s: State): seq<Event> {
    if Records(e)(s) then [ToEvent(e)(s)] else []
  }

  lemma EventsCons(e: Edit, states: seq<State>)
    requires states != []
    ensures EventsOf(e, states) == EventOf(e, states[0]) + EventsOf(e, states[1..])
  {
    MapCons(ToEvent(e), states[0], Filter(Records(e), states[1..]));
  }

  lemma OneDecides(e: Edit, s: State, key: Key)
    ensures Decided(EventOf(e, s), key) == if e.op != OpRelabel && IsOpenAt(key)(s) then 1 else 0
  {
    if Records(e)(s) {
      assert EventOf(e, s)[1..] == [];
    }
  }

  // The table takes an event only if it names a labeler exactly when it is a
  // correction, and nobody corrects their own work.
  predicate WellFormed(ev: Event) {
    (!IsCorrection(ev.kind) <==> ev.labeler.None?) && ev.labeler != Some(ev.user)
  }

  lemma EventsWellFormed(e: Edit, states: seq<State>)
    ensures forall ev :: ev in EventsOf(e, states) ==> WellFormed(ev) && ev.user == e.me
  {
    var chosen := Filter(Records(e), states);
    forall ev | ev in EventsOf(e, states) ensures WellFormed(ev) && ev.user == e.me {
      var k :| 0 <= k < |chosen| && ToEvent(e)(chosen[k]) == ev;
      assert chosen[k] in chosen;
    }
  }

  // ---- When each kind is recorded

  predicate OnProposal(s: State) {
    s.box.Some? && s.box.value.status == Proposed
  }

  predicate OnBox(s: State) {
    s.box.Some? && s.box.value.status == Verified
  }

  // The frame is one somebody else marked labeled or empty.
  predicate OnTheirs(me: nat, s: State) {
    (s.frameStatus == Labeled || s.frameStatus == Empty) && s.statusBy.Some? && s.statusBy != Some(me)
  }

  // Some coordinate of the box becomes another.
  predicate Moves(to: Rect, at: Rect) {
    || to.x - at.x >= EPS || at.x - to.x >= EPS || to.y - at.y >= EPS || at.y - to.y >= EPS
    || to.w - at.w >= EPS || at.w - to.w >= EPS || to.h - at.h >= EPS || at.h - to.h >= EPS
  }

  // A model's box stays on a track whose class a labeler changed.
  predicate UnderNewClass(s: State) {
    s.classEdited && s.box.Some? && (s.box.value.source == Yolo || s.box.value.source == Cv)
  }

  // When an edit means an event of a kind.
  predicate Means(e: Edit, s: State, kind: Kind) {
    match kind
    case WasEdited => e.op == OpSet && OnProposal(s) && (Moves(e.to, s.box.value.rect) || UnderNewClass(s))
    case WasAccepted => e.op == OpSet && OnProposal(s) && !Moves(e.to, s.box.value.rect) && !UnderNewClass(s)
    case WasRejected => e.op == OpDelete && OnProposal(s)
    case WasAdded => e.op == OpSet && OnTheirs(e.me, s) && !OnProposal(s) && !OnBox(s)
    case WasMoved => e.op == OpSet && OnTheirs(e.me, s) && OnBox(s) && Moves(e.to, s.box.value.rect)
    case WasDeleted => e.op == OpDelete && OnTheirs(e.me, s) && OnBox(s)
    case WasRelabeled => e.op == OpRelabel && OnTheirs(e.me, s) && OnBox(s)
  }

  // The event an edit of a kind leaves: who made it, about which box and whose
  // work, and where the box came from.
  predicate Describes(e: Edit, s: State, ev: Event) {
    && ev.key == s.key && ev.labelType == s.labelType && ev.user == e.me
    && ev.source == (if s.box.Some? then s.box.value.source else Human)
    && ev.labeler == (if ev.kind == WasAccepted || ev.kind == WasEdited || ev.kind == WasRejected then None
                      else s.statusBy)
  }

  predicate Tells(e: Edit, s: State, ev: Event) {
    Means(e, s, ev.kind) && Describes(e, s, ev)
  }

  lemma MovesIff(to: Rect, at: Rect)
    ensures Moves(to, at) <==> !SameRect(to, at)
  {
  }

  lemma MeansOne(e: Edit, s: State, kind: Kind)
    ensures Means(e, s, kind) <==> BoxEvent(e, s) == Some(kind)
  {
    if s.box.Some? {
      MovesIff(e.to, s.box.value.rect);
    }
  }

  lemma TellsOne(e: Edit, s: State, ev: Event)
    ensures Tells(e, s, ev) <==> Records(e)(s) && ToEvent(e)(s) == ev
  {
    MeansOne(e, s, ev.kind);
  }

  // An event is recorded exactly when the edit means it for one of the boxes,
  // and tells of that box.
  lemma EventsTell(e: Edit, states: seq<State>, ev: Event)
    ensures ev in EventsOf(e, states) <==> exists s :: s in states && Tells(e, s, ev)
  {
    var chosen, out := Filter(Records(e), states), EventsOf(e, states);
    if ev in out {
      var k :| 0 <= k < |out| && out[k] == ev;
      assert chosen[k] in chosen;
      TellsOne(e, chosen[k], ev);
    }
    if s :| s in states && Tells(e, s, ev) {
      TellsOne(e, s, ev);
      var k :| 0 <= k < |chosen| && chosen[k] == s;
      assert out[k] == ev;
    }
  }

  // Box by box, each with at most one event and one refusal.
  lemma EventsInOrder(overlap: Overlap, e: Edit, states: seq<State>, more: seq<State>, s: State)
    ensures EventsOf(e, states + more) == EventsOf(e, states) + EventsOf(e, more)
    ensures RefusalsOf(overlap, e, states + more) == RefusalsOf(overlap, e, states) + RefusalsOf(overlap, e, more)
    ensures |EventsOf(e, [s])| <= 1 && |RefusalsOf(overlap, e, [s])| <= 1
  {
    FilterAppend(Records(e), states, more);
    MapAppend(ToEvent(e), Filter(Records(e), states), Filter(Records(e), more));
    FilterAppend(Refuses(overlap, e), states, more);
    MapAppend(ToRefusal(), Filter(Refuses(overlap, e), states), Filter(Refuses(overlap, e), more));
  }

  // ---- Refused proposals

  // What makes a pre-labeler's proposal no object of its track's class: it is
  // deleted, its track leaves the class it was given, or it moves so far that
  // at most half still overlaps.
  predicate TurnsDown(overlap: Overlap, e: Edit, s: State) {
    || e.op == OpDelete
    || (e.op == OpRelabel && s.proposedType == Some(s.labelType))
    || (e.op == OpSet && s.box.Some? && overlap(e.to, s.box.value.rect) <= DUPLICATE_IOU)
  }

  // A refusal is recorded for an open proposal of a pre-labeler that an edit
  // turns down, at the box's place before the edit, and for nothing else.
  lemma RefusalTells(overlap: Overlap, e: Edit, states: seq<State>, x: Refusal)
    ensures x in RefusalsOf(overlap, e, states) <==>
            exists s :: s in states && Open(s.box) && OfModel(s.box.value.source) && TurnsDown(overlap, e, s)
                        && x == Refusal(s.key.frame, s.labelType, s.box.value.rect)
  {
    var chosen, out := Filter(Refuses(overlap, e), states), RefusalsOf(overlap, e, states);
    if x in out {
      var k :| 0 <= k < |chosen| && ToRefusal()(chosen[k]) == x;
      assert chosen[k] in chosen;
    }
    if s :| s in states && Open(s.box) && OfModel(s.box.value.source) && TurnsDown(overlap, e, s)
            && x == Refusal(s.key.frame, s.labelType, s.box.value.rect) {
      assert Refuses(overlap, e)(s);
      var k :| 0 <= k < |chosen| && chosen[k] == s;
      assert out[k] == x;
    }
  }

  // Keeping a proposal where it is never refuses it.
  lemma KeptIsNotRefused(e: Edit, s: State)
    requires e.op == OpSet && s.box.Some? && e.to == s.box.value.rect && e.to.w > 0.0 && e.to.h > 0.0
    ensures !RejectsPrelabel(Iou, e, s)
  {
    IouComplete(e.to, e.to);
  }

  function WasModelRejection(): Event -> bool {
    (ev: Event) => ev.kind == WasRejected && OfModel(ev.source)
  }

  lemma RefusedIsRejected(overlap: Overlap, e: Edit, s: State)
    requires e.op == OpDelete
    ensures Refuses(overlap, e)(s) <==> Records(e)(s) && WasModelRejection()(ToEvent(e)(s))
  {
  }

  // Deleting boxes tells the pre-labelers about each of their proposals it
  // rejects.
  lemma {:induction false} DeletingRefuses(overlap: Overlap, e: Edit, states: seq<State>)
    requires e.op == OpDelete
    ensures |RefusalsOf(overlap, e, states)| == |Filter(WasModelRejection(), EventsOf(e, states))|
  {
    if states != [] {
      var s, rest := states[0], states[1..];
      DeletingRefuses(overlap, e, rest);
      RefusedIsRejected(overlap, e, s);
      MapCons(ToEvent(e), s, Filter(Records(e), rest));
      MapCons(ToRefusal(), s, Filter(Refuses(overlap, e), rest));
    }
  }
}
