// The clips of one video: their numbers among the live ones, what moving a
// clip to the trash and back does to them, and the video's frame count.
module ClipNumbers {
  import opened Sequences

  datatype Clip = Clip(id: nat, idx: int, start: int, count: int, trashed: bool)

  datatype Video = Video(clips: seq<Clip>, frames: int, trashed: bool)

  function IdOf(): Clip -> nat {
    (c: Clip) => c.id
  }

  function Live(): Clip -> bool {
    (c: Clip) => !c.trashed
  }

  // The order numbers follow: by first frame, then by id.
  predicate Precedes(a: Clip, b: Clip) {
    a.start < b.start || (a.start == b.start && a.id < b.id)
  }

  function LiveBefore(c: Clip): Clip -> bool {
    (x: Clip) => !x.trashed && Precedes(x, c)
  }

  // How many live clips come before one.
  function Rank(clips: seq<Clip>, c: Clip): nat {
    |Filter(LiveBefore(c), clips)|
  }

  function Ranked(clips: seq<Clip>): Clip -> Clip {
    (c: Clip) => if c.trashed then c else c.(idx := Rank(clips, c))
  }

  function Renumbered(clips: seq<Clip>): seq<Clip> {
    Map(Ranked(clips), clips)
  }

  function Marked(id: nat, trashed: bool): Clip -> Clip {
    (c: Clip) => if c.id == id then c.(trashed := trashed) else c
  }

  function Mark(clips: seq<Clip>, id: nat, trashed: bool): seq<Clip> {
    Map(Marked(id, trashed), clips)
  }

  function Frames(clips: seq<Clip>): int {
    if clips == [] then 0 else (if clips[0].trashed then 0 else clips[0].count) + Frames(clips[1..])
  }

  ghost predicate Unique(clips: seq<Clip>) {
    Distinct(Map(IdOf(), clips))
  }

  ghost predicate Numbered(clips: seq<Clip>) {
    forall k :: 0 <= k < |clips| && !clips[k].trashed ==> clips[k].idx == Rank(clips, clips[k])
  }

  // A ready video: its live clips are numbered and its frame count is theirs.
  ghost predicate Sound(v: Video) {
    Unique(v.clips) && Numbered(v.clips) && v.frames == Frames(v.clips)
  }

  // ---- Ranks

  lemma {:induction false} RankGrows(clips: seq<Clip>, a: Clip, b: Clip)
    requires Precedes(a, b)
    ensures Rank(clips, a) <= Rank(clips, b)
    ensures a in clips && !a.trashed ==> Rank(clips, a) < Rank(clips, b)
  {
    if clips != [] {
      RankGrows(clips[1..], a, b);
    }
  }

  lemma {:induction false} RankBelow(clips: seq<Clip>, c: Clip)
    ensures Rank(clips, c) <= |Filter(Live(), clips)|
    ensures c in clips && !c.trashed ==> Rank(clips, c) < |Filter(Live(), clips)|
  {
    if clips != [] {
      RankBelow(clips[1..], c);
    }
  }

  // What a rank depends on: not the numbers clips have now.
  ghost predicate SameButNumbers(a: seq<Clip>, b: seq<Clip>) {
    |a| == |b| && forall k :: 0 <= k < |a| ==> b[k] == a[k].(idx := b[k].idx)
  }

  lemma {:induction false} RankIgnoresNumbers(a: seq<Clip>, b: seq<Clip>, c: Clip, idx: int)
    requires SameButNumbers(a, b)
    ensures Rank(a, c) == Rank(b, c.(idx := idx))
  {
    if a != [] {
      assert SameButNumbers(a[1..], b[1..]);
      RankIgnoresNumbers(a[1..], b[1..], c, idx);
    }
  }

  lemma RenumberIgnoresNumbers(a: seq<Clip>, b: seq<Clip>)
    requires SameButNumbers(a, b)
    requires forall k :: 0 <= k < |a| && a[k].trashed ==> a[k] == b[k]
    ensures Renumbered(a) == Renumbered(b)
  {
    forall k | 0 <= k < |a| ensures Ranked(a)(a[k]) == Ranked(b)(b[k]) {
      RankIgnoresNumbers(a, b, a[k], b[k].idx);
    }
  }

  lemma RenumberedIsNumbered(clips: seq<Clip>)
    ensures Numbered(Renumbered(clips)) && SameButNumbers(clips, Renumbered(clips))
    ensures Unique(clips) ==> Unique(Renumbered(clips))
  {
    var out := Renumbered(clips);
    forall k | 0 <= k < |out| && !out[k].trashed ensures out[k].idx == Rank(out, out[k]) {
      RankIgnoresNumbers(clips, out, clips[k], out[k].idx);
    }
    assert Map(IdOf(), out) == Map(IdOf(), clips);
  }

  // Numbered clips are what renumbering gives them.
  lemma NumberedStays(clips: seq<Clip>)
    ensures Numbered(clips) <==> Renumbered(clips) == clips
  {
    if Numbered(clips) {
      assert forall k :: 0 <= k < |clips| ==> Ranked(clips)(clips[k]) == clips[k];
    } else {
      var k :| 0 <= k < |clips| && !clips[k].trashed && clips[k].idx != Rank(clips, clips[k]);
      assert Renumbered(clips)[k] != clips[k];
    }
  }

  // ---- The numbers are 0 to n-1 in start order

  function NatIdxOf(): Clip -> nat {
    (c: Clip) => if c.idx >= 0 then c.idx else 0
  }

  function LiveNumbers(clips: seq<Clip>): seq<nat> {
    Map(NatIdxOf(), Filter(Live(), clips))
  }

  // No two live clips share an index.
  ghost predicate NoClash(clips: seq<Clip>) {
    forall i, j :: 0 <= i < j < |clips| && !clips[i].trashed && !clips[j].trashed ==> clips[i].idx != clips[j].idx
  }

  lemma IdsDiffer(clips: seq<Clip>, i: nat, j: nat)
    requires Unique(clips) && i < j < |clips|
    ensures clips[i].id != clips[j].id
  {
    assert Map(IdOf(), clips)[i] != Map(IdOf(), clips)[j];
  }

  lemma RanksDiffer(clips: seq<Clip>, i: nat, j: nat)
    requires Unique(clips) && i < j < |clips| && !clips[i].trashed && !clips[j].trashed
    ensures Rank(clips, clips[i]) != Rank(clips, clips[j])
  {
    IdsDiffer(clips, i, j);
    if Precedes(clips[i], clips[j]) {
      RankGrows(clips, clips[i], clips[j]);
    } else {
      RankGrows(clips, clips[j], clips[i]);
    }
  }

  lemma NumberedNoClash(clips: seq<Clip>)
    requires Unique(clips) && Numbered(clips)
    ensures NoClash(clips)
    ensures forall k :: 0 <= k < |clips| && !clips[k].trashed ==> clips[k].idx >= 0
  {
    forall i, j | 0 <= i < j < |clips| && !clips[i].trashed && !clips[j].trashed ensures clips[i].idx != clips[j].idx {
      RanksDiffer(clips, i, j);
    }
  }

  lemma {:induction false} LiveNumbersDistinct(clips: seq<Clip>)
    requires NoClash(clips) && forall k :: 0 <= k < |clips| && !clips[k].trashed ==> clips[k].idx >= 0
    ensures Distinct(LiveNumbers(clips))
  {
    if clips != [] {
      var c, rest := clips[0], clips[1..];
      assert forall k :: 0 <= k < |rest| ==> rest[k] == clips[k+1];
      LiveNumbersDistinct(rest);
      if !c.trashed {
        MapCons(NatIdxOf(), c, Filter(Live(), rest));
        forall x | x in Filter(Live(), rest) ensures x.idx >= 0 && x.idx != c.idx {
          var k :| 0 <= k < |rest| && rest[k] == x;
        }
        FirstApart(Map(NatIdxOf(), Filter(Live(), rest)), c.idx, Filter(Live(), rest));
      }
    }
  }

  lemma FirstApart(numbers: seq<nat>, n: nat, clips: seq<Clip>)
    requires numbers == Map(NatIdxOf(), clips) && Distinct(numbers)
    requires forall x :: x in clips ==> x.idx >= 0 && x.idx != n
    ensures Distinct([n] + numbers)
  {
    forall k | 0 <= k < |numbers| ensures numbers[k] != n {
      assert clips[k] in clips;
    }
  }

  lemma Pigeonhole(s: seq<nat>, k: nat)
    requires Distinct(s) && (forall x :: x in s ==> x < |s|) && k < |s|
    ensures k in s
  {
    if k !in s {
      DistinctBounded(s + [k], |s|);
    }
  }

  // The live numbers are exactly 0 to n-1, each once, and follow the clips'
  // first frames.
  lemma NumberedIsGapless(clips: seq<Clip>)
    requires Unique(clips) && Numbered(clips)
    ensures Distinct(LiveNumbers(clips))
    ensures forall k: nat :: k in LiveNumbers(clips) <==> k < |Filter(Live(), clips)|
    ensures forall i, j :: 0 <= i < |clips| && 0 <= j < |clips| && !clips[i].trashed && !clips[j].trashed ==>
              (clips[i].start < clips[j].start ==> clips[i].idx < clips[j].idx)
  {
    var live := Filter(Live(), clips);
    var numbers := LiveNumbers(clips);
    NumberedNoClash(clips);
    LiveNumbersDistinct(clips);
    forall x | x in numbers ensures x < |live| {
      var i :| 0 <= i < |live| && NatIdxOf()(live[i]) == x;
      assert live[i] in clips;
      RankBelow(clips, live[i]);
    }
    forall k: nat | k < |live| ensures k in numbers {
      Pigeonhole(numbers, k);
    }
    forall i, j | 0 <= i < |clips| && 0 <= j < |clips| && !clips[i].trashed && !clips[j].trashed
      && clips[i].start < clips[j].start
      ensures clips[i].idx < clips[j].idx
    {
      RankGrows(clips, clips[i], clips[j]);
    }
  }

  // ---- Updating row by row

  function Parked(): Clip -> Clip {
    (c: Clip) => if c.trashed then c else c.(idx := -1 - c.idx)
  }

  // A statement part of the way through, whatever order it takes the rows in:
  // those already moved have their new value.
  function Partly(change: Clip -> Clip, moved: nat -> bool, clips: seq<Clip>): seq<Clip> {
    seq(|clips|, k requires 0 <= k < |clips| => if moved(k) then change(clips[k]) else clips[k])
  }

  ghost predicate FromZero(clips: seq<Clip>) {
    forall k :: 0 <= k < |clips| && !clips[k].trashed ==> clips[k].idx >= 0
  }

  ghost predicate BelowZero(clips: seq<Clip>) {
    forall k :: 0 <= k < |clips| && !clips[k].trashed ==> clips[k].idx < 0
  }

  // Parking never clashes, whichever rows it has done.
  lemma ParkingNeverClashes(clips: seq<Clip>, moved: nat -> bool)
    requires NoClash(clips) && FromZero(clips)
    ensures NoClash(Partly(Parked(), moved, clips))
  {
  }

  lemma ParkedIsBelow(clips: seq<Clip>)
    requires NoClash(clips) && FromZero(clips)
    ensures NoClash(Map(Parked(), clips)) && BelowZero(Map(Parked(), clips))
  {
  }

  // Numbering parked clips never clashes either.
  lemma NumberingParkedNeverClashes(clips: seq<Clip>, moved: nat -> bool)
    requires Unique(clips) && NoClash(clips) && BelowZero(clips)
    ensures NoClash(Partly(Ranked(clips), moved, clips))
  {
    forall i, j | 0 <= i < j < |clips| && !clips[i].trashed && !clips[j].trashed && moved(i) && moved(j)
      ensures Rank(clips, clips[i]) != Rank(clips, clips[j])
    {
      RanksDiffer(clips, i, j);
    }
  }

  // The i-th clip's new number is the j-th clip's present one.
  predicate Lands(clips: seq<Clip>, i: nat, j: nat) {
    && i < |clips| && j < |clips| && i != j
    && !clips[i].trashed && !clips[j].trashed
    && Rank(clips, clips[i]) == clips[j].idx
  }

  function Only(i: nat): nat -> bool {
    (k: nat) => k == i
  }

  // Numbering has two live clips share an index once these rows are done.
  ghost predicate ClashesAt(clips: seq<Clip>, moved: nat -> bool) {
    !NoClash(Partly(Ranked(clips), moved, clips))
  }

  lemma LandingClashes(clips: seq<Clip>, i: nat, j: nat)
    requires Lands(clips, i, j)
    ensures ClashesAt(clips, Only(i))
  {
    var half := Partly(Ranked(clips), Only(i), clips);
    assert half[i] == Ranked(clips)(clips[i]) && half[j] == clips[j];
    var lo, hi := if i < j then i else j, if i < j then j else i;
    assert half[lo].idx == half[hi].idx && !half[lo].trashed && !half[hi].trashed;
  }

  lemma ClashLands(clips: seq<Clip>, moved: nat -> bool)
    requires Unique(clips) && NoClash(clips) && ClashesAt(clips, moved)
    ensures exists i, j :: Lands(clips, i, j)
  {
    var half := Partly(Ranked(clips), moved, clips);
    var i, j :| 0 <= i < j < |half| && !half[i].trashed && !half[j].trashed && half[i].idx == half[j].idx;
    assert half[i] == if moved(i) then Ranked(clips)(clips[i]) else clips[i];
    assert half[j] == if moved(j) then Ranked(clips)(clips[j]) else clips[j];
    if moved(i) && !moved(j) {
      assert Lands(clips, i, j);
    } else if moved(j) && !moved(i) {
      assert Lands(clips, j, i);
    } else if moved(i) {
      RanksDiffer(clips, i, j);
    }
  }

  // Without parking, numbering clashes in some order exactly when one clip's
  // new number is another's present one.
  lemma NumberingClashes(clips: seq<Clip>)
    requires Unique(clips) && NoClash(clips)
    ensures (exists moved :: ClashesAt(clips, moved)) <==> exists i, j :: Lands(clips, i, j)
  {
    if i, j :| Lands(clips, i, j) {
      LandingClashes(clips, i, j);
    }
    if moved :| ClashesAt(clips, moved) {
      ClashLands(clips, moved);
    }
  }

  // That happens: two clips after a trashed one.
  lemma TrashingNeedsParking()
    ensures exists clips, id ::
              Sound(Video(clips, Frames(clips), false)) && exists i, j :: Lands(Mark(clips, id, true), i, j)
  {
    var clips := [Clip(1, 0, 0, 10, false), Clip(2, 1, 10, 10, false), Clip(3, 2, 20, 10, false)];
    assert clips[1..] == [clips[1], clips[2]] && clips[1..][1..] == [clips[2]] && clips[1..][1..][1..] == [];
    assert Rank(clips, clips[0]) == 0 && Rank(clips, clips[1]) == 1 && Rank(clips, clips[2]) == 2;
    assert Map(IdOf(), clips) == [1, 2, 3];
    var left := Mark(clips, 1, true);
    assert left == [Clip(1, 0, 0, 10, true), Clip(2, 1, 10, 10, false), Clip(3, 2, 20, 10, false)];
    assert left[1..] == [left[1], left[2]] && left[1..][1..] == [left[2]] && left[1..][1..][1..] == [];
    assert Lands(left, 2, 1);
  }

  // ---- Trashing and restoring

  predicate Has(clips: seq<Clip>, id: nat, trashed: bool) {
    exists k :: 0 <= k < |clips| && clips[k].id == id && clips[k].trashed == trashed
  }

  function CountOf(clips: seq<Clip>, id: nat): int {
    if clips == [] then 0 else if clips[0].id == id then clips[0].count else CountOf(clips[1..], id)
  }

  // Fails when the clip is not live or its video is in the trash.
  function TrashClip(v: Video, id: nat): Option<Video> {
    if v.trashed || !Has(v.clips, id, false) then None
    else Some(v.(clips := Renumbered(Mark(v.clips, id, true)), frames := v.frames - CountOf(v.clips, id)))
  }

  function RestoreClip(v: Video, id: nat): Option<Video> {
    if v.trashed || !Has(v.clips, id, true) then None
    else Some(v.(clips := Renumbered(Mark(v.clips, id, false)), frames := v.frames + CountOf(v.clips, id)))
  }

  // A refused request changes nothing.
  function OrElse(result: Option<Video>, v: Video): Video {
    match result
    case Some(w) => w
    case None => v
  }

  function Others(id: nat): Clip -> bool {
    (c: Clip) => c.id != id || !c.trashed
  }

  // Deletes a trashed clip for good.
  function PurgeClip(v: Video, id: nat): Option<Video> {
    if !Has(v.clips, id, true) then None else Some(v.(clips := Filter(Others(id), v.clips)))
  }

  lemma MarkKeepsUnique(clips: seq<Clip>, id: nat, trashed: bool)
    ensures Unique(clips) <==> Unique(Mark(clips, id, trashed))
  {
    assert Map(IdOf(), Mark(clips, id, trashed)) == Map(IdOf(), clips);
  }

  lemma {:induction false} FramesIgnoreNumbers(a: seq<Clip>, b: seq<Clip>)
    requires SameButNumbers(a, b)
    ensures Frames(a) == Frames(b)
  {
    if a != [] {
      assert SameButNumbers(a[1..], b[1..]);
      FramesIgnoreNumbers(a[1..], b[1..]);
    }
  }

  lemma {:induction false} MarkAbsent(clips: seq<Clip>, id: nat, trashed: bool)
    requires forall k :: 0 <= k < |clips| ==> clips[k].id != id
    ensures Mark(clips, id, trashed) == clips
  {
    assert forall k :: 0 <= k < |clips| ==> Marked(id, trashed)(clips[k]) == clips[k];
  }

  lemma UniqueRest(clips: seq<Clip>)
    requires Unique(clips) && clips != []
    ensures Unique(clips[1..]) && forall k :: 0 <= k < |clips[1..]| ==> clips[1..][k].id != clips[0].id
  {
    MapStep(IdOf(), clips);
    forall i, j | 0 <= i < j < |clips[1..]| ensures Map(IdOf(), clips[1..])[i] != Map(IdOf(), clips[1..])[j] {
      IdsDiffer(clips, i + 1, j + 1);
    }
    forall k | 0 <= k < |clips[1..]| ensures clips[1..][k].id != clips[0].id {
      IdsDiffer(clips, 0, k + 1);
    }
  }

  // Marking moves one clip's frames in or out of the sum.
  lemma {:induction false} MarkFrames(clips: seq<Clip>, id: nat, trashed: bool)
    requires Unique(clips) && Has(clips, id, !trashed)
    ensures Frames(Mark(clips, id, trashed)) == Frames(clips)
            + (if trashed then -CountOf(clips, id) else CountOf(clips, id))
  {
    UniqueRest(clips);
    MapStep(Marked(id, trashed), clips);
    if clips[0].id == id {
      MarkAbsent(clips[1..], id, trashed);
    } else {
      var k :| 0 <= k < |clips| && clips[k].id == id && clips[k].trashed == !trashed;
      assert clips[1..][k-1] == clips[k];
      MarkFrames(clips[1..], id, trashed);
    }
  }

  lemma RenumberKeepsSound(v: Video, clips: seq<Clip>, frames: int)
    requires Unique(clips) && frames == Frames(clips)
    ensures Sound(v.(clips := Renumbered(clips), frames := frames))
  {
    RenumberedIsNumbered(clips);
    FramesIgnoreNumbers(clips, Renumbered(clips));
  }

  lemma TrashKeepsSound(v: Video, id: nat)
    requires Sound(v)
    ensures TrashClip(v, id).Some? ==> Sound(TrashClip(v, id).value)
  {
    if TrashClip(v, id).Some? {
      MarkKeepsUnique(v.clips, id, true);
      MarkFrames(v.clips, id, true);
      RenumberKeepsSound(v, Mark(v.clips, id, true), v.frames - CountOf(v.clips, id));
    }
  }

  lemma RestoreKeepsSound(v: Video, id: nat)
    requires Sound(v)
    ensures RestoreClip(v, id).Some? ==> Sound(RestoreClip(v, id).value)
  {
    if RestoreClip(v, id).Some? {
      MarkKeepsUnique(v.clips, id, false);
      MarkFrames(v.clips, id, false);
      RenumberKeepsSound(v, Mark(v.clips, id, false), v.frames + CountOf(v.clips, id));
    }
  }

  lemma {:induction false} PurgeFrames(clips: seq<Clip>, id: nat)
    ensures Frames(Filter(Others(id), clips)) == Frames(clips)
  {
    if clips != [] {
      PurgeFrames(clips[1..], id);
    }
  }

  lemma PurgeRank(clips: seq<Clip>, id: nat, c: Clip)
    ensures Rank(Filter(Others(id), clips), c) == Rank(clips, c)
  {
    FilterTwice(LiveBefore(c), Others(id), LiveBefore(c), clips);
  }

  lemma {:induction false} PurgeUnique(clips: seq<Clip>, id: nat)
    requires Unique(clips)
    ensures Unique(Filter(Others(id), clips))
  {
    if clips != [] {
      UniqueRest(clips);
      PurgeUnique(clips[1..], id);
      var rest := Filter(Others(id), clips[1..]);
      if Others(id)(clips[0]) {
        MapCons(IdOf(), clips[0], rest);
        forall k | 0 <= k < |rest| ensures rest[k].id != clips[0].id {
          assert rest[k] in rest && rest[k] in clips[1..];
        }
      }
    }
  }

  lemma PurgeKeepsSound(v: Video, id: nat)
    requires Sound(v)
    ensures PurgeClip(v, id).Some? ==> Sound(PurgeClip(v, id).value)
  {
    var left := Filter(Others(id), v.clips);
    PurgeFrames(v.clips, id);
    PurgeUnique(v.clips, id);
    forall k | 0 <= k < |left| && !left[k].trashed ensures left[k].idx == Rank(left, left[k]) {
      assert left[k] in left && left[k] in v.clips;
      PurgeRank(v.clips, id, left[k]);
    }
  }

  // Trashing a clip and restoring it gives back the video as it was.
  lemma RestoreUndoesTrash(v: Video, id: nat)
    requires Sound(v) && TrashClip(v, id).Some?
    ensures RestoreClip(TrashClip(v, id).value, id) == Some(v)
  {
    TrashGives(v, id);
    TrashedHas(v.clips, id);
    TrashedCount(v.clips, id);
    ClipsComeBack(v.clips, id);
    RestoreGives(v, id, Renumbered(Mark(v.clips, id, true)));
  }

  lemma TrashGives(v: Video, id: nat)
    requires TrashClip(v, id).Some?
    ensures TrashClip(v, id).value ==
            v.(clips := Renumbered(Mark(v.clips, id, true)), frames := v.frames - CountOf(v.clips, id))
    ensures !v.trashed && Has(v.clips, id, false)
  {
  }

  lemma RestoreGives(v: Video, id: nat, left: seq<Clip>)
    requires !v.trashed && Has(left, id, true) && CountOf(left, id) == CountOf(v.clips, id)
    requires Renumbered(Mark(left, id, false)) == v.clips
    ensures RestoreClip(v.(clips := left, frames := v.frames - CountOf(v.clips, id)), id) == Some(v)
  {
  }

  lemma ClipsComeBack(clips: seq<Clip>, id: nat)
    requires Unique(clips) && Numbered(clips) && Has(clips, id, false)
    ensures Renumbered(Mark(Renumbered(Mark(clips, id, true)), id, false)) == clips
  {
    BackAgain(clips, id);
    NumberedStays(clips);
  }

  lemma TrashedHas(clips: seq<Clip>, id: nat)
    requires Has(clips, id, false)
    ensures Has(Renumbered(Mark(clips, id, true)), id, true)
  {
    var left := Renumbered(Mark(clips, id, true));
    var k :| 0 <= k < |clips| && clips[k].id == id && !clips[k].trashed;
    assert left[k].id == id && left[k].trashed;
  }

  lemma TrashedCount(clips: seq<Clip>, id: nat)
    ensures CountOf(Renumbered(Mark(clips, id, true)), id) == CountOf(clips, id)
  {
    CountStays(clips, Renumbered(Mark(clips, id, true)), id);
  }

  lemma {:induction false} CountStays(a: seq<Clip>, b: seq<Clip>, id: nat)
    requires |a| == |b| && forall k :: 0 <= k < |a| ==> a[k].id == b[k].id && a[k].count == b[k].count
    ensures CountOf(a, id) == CountOf(b, id)
  {
    if a != [] {
      CountStays(a[1..], b[1..], id);
    }
  }

  lemma BackAgain(clips: seq<Clip>, id: nat)
    requires Unique(clips) && Has(clips, id, false)
    ensures Renumbered(Mark(Renumbered(Mark(clips, id, true)), id, false)) == Renumbered(clips)
  {
    var back := Mark(Renumbered(Mark(clips, id, true)), id, false);
    var at :| 0 <= at < |clips| && clips[at].id == id && !clips[at].trashed;
    forall k | 0 <= k < |clips|
      ensures back[k] == clips[k].(idx := back[k].idx) && (clips[k].trashed ==> clips[k] == back[k])
    {
      MarkedTwice(clips, id, at, k);
    }
    RenumberIgnoresNumbers(clips, back);
  }

  // Only the number of the clip that went and came back may have changed, and
  // those of live ones.
  lemma MarkedTwice(clips: seq<Clip>, id: nat, at: nat, k: nat)
    requires Unique(clips) && at < |clips| && clips[at].id == id && !clips[at].trashed && k < |clips|
    ensures var back := Mark(Renumbered(Mark(clips, id, true)), id, false);
            back[k] == clips[k].(idx := back[k].idx) && (clips[k].trashed ==> clips[k] == back[k])
  {
    if k < at {
      IdsDiffer(clips, k, at);
    } else if at < k {
      IdsDiffer(clips, at, k);
    }
  }
}
