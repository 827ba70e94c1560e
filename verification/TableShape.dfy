// What the tables look like between requests, and that every change keeps it.
module TableShape {
  import opened Sequences
  import opened Geometry
  import opened BoxEvents
  import opened AnnotationTables
  import opened ProposalCounts

  // ---- The shape of the tables

  // No two boxes of a track on one frame.
  ghost predicate Keyed(rows: seq<Row>) {
    Distinct(Map(KeyOf(), rows))
  }

  // A frame marked empty holds no verified box.
  ghost predicate EmptyClean(db: Db) {
    forall r :: r in db.rows && r.held.status == Verified ==>
      r.key.frame in db.frames && db.frames[r.key.frame].status != Empty
  }

  ghost predicate Numbered(db: Db) {
    forall t :: t in db.tracks ==> t < db.nextTrack
  }

  ghost predicate Shaped(db: Db) {
    Keyed(db.rows) && Placed(db) && EmptyClean(db) && Numbered(db)
  }

  lemma {:induction false} KeyedFilter(rows: seq<Row>, p: Row -> bool)
    requires Keyed(rows)
    ensures Keyed(Filter(p, rows))
  {
    if rows != [] {
      var rest := Filter(p, rows[1..]);
      MapStep(KeyOf(), rows);
      KeyedRest(rows);
      KeyedFilter(rows[1..], p);
      if p(rows[0]) {
        MapCons(KeyOf(), rows[0], rest);
        forall k | 0 <= k < |rest| ensures rest[k].key != rows[0].key {
          assert rest[k] in rest;
        }
      }
    }
  }

  lemma KeyedRest(rows: seq<Row>)
    requires Keyed(rows) && rows != []
    ensures Keyed(rows[1..]) && forall r :: r in rows[1..] ==> r.key != rows[0].key
  {
    var keys := Map(KeyOf(), rows);
    forall i, j | 0 <= i < j < |rows| - 1 ensures Map(KeyOf(), rows[1..])[i] != Map(KeyOf(), rows[1..])[j] {
      assert keys[i+1] != keys[j+1];
    }
    forall r | r in rows[1..] ensures r.key != rows[0].key {
      var k :| 0 <= k < |rows[1..]| && rows[1..][k] == r;
      assert keys[0] != keys[k+1];
    }
  }

  lemma KeyedSnoc(rows: seq<Row>, r: Row)
    requires Keyed(rows) && !HasRow(rows, r.key)
    ensures Keyed(rows + [r])
  {
    MapAppend(KeyOf(), rows, [r]);
    forall k | 0 <= k < |rows| ensures Map(KeyOf(), rows)[k] != r.key {
      assert rows[k].key != r.key;
    }
  }

  // A change that keeps every row's key keeps keys unique.
  lemma KeyedMap(rows: seq<Row>, f: Row -> Row)
    requires Keyed(rows) && forall r :: r in rows ==> f(r).key == r.key
    ensures Keyed(Map(f, rows))
  {
    assert Map(KeyOf(), Map(f, rows)) == Map(KeyOf(), rows);
  }

  lemma FilterShaped(db: Db, p: Row -> bool)
    requires Shaped(db)
    ensures Shaped(db.(rows := Filter(p, db.rows)))
  {
    KeyedFilter(db.rows, p);
  }

  lemma UpsertShaped(db: Db, key: Key, rect: Rect)
    requires Shaped(db) && InClip(db, key)
    ensures Shaped(EmptyCleared(Upserted(db, key, rect), key.frame))
  {
    var rows := Upserted(db, key, rect).rows;
    forall r | r in rows ensures r == Drawn(key, rect) || r in db.rows {
      if HasRow(db.rows, key) {
        var k :| 0 <= k < |db.rows| && DrawnOver(key, rect)(db.rows[k]) == r;
      }
    }
    if HasRow(db.rows, key) {
      KeyedMap(db.rows, DrawnOver(key, rect));
    } else {
      KeyedSnoc(db.rows, Drawn(key, rect));
    }
  }

  lemma TrackDroppedShaped(db: Db, track: nat)
    requires Shaped(db)
    ensures Shaped(TrackDropped(db, track))
  {
    FilterShaped(db, Where(Not(OfTrack(track))));
    forall r | r in TrackDropped(db, track).rows ensures r.key.track != track && r in db.rows {
      assert Where(Not(OfTrack(track)))(r);
    }
  }

  lemma EmptyTracksShaped(db: Db, ids: seq<nat>)
    requires Shaped(db)
    ensures Shaped(EmptyTracksDropped(db, ids))
  {
    forall r | r in db.rows ensures HasBoxes(db.rows, r.key.track) {
      var k :| 0 <= k < |db.rows| && db.rows[k] == r;
    }
  }

  lemma TrackAddedShaped(db: Db, track: Track)
    requires Shaped(db)
    ensures Shaped(TrackAdded(db, track))
  {
  }

  lemma {:induction false} CopiedKeyed(rows: seq<Row>, from: nat, to: nat)
    requires Keyed(rows) && forall r :: r in rows ==> r.key.frame == from
    ensures Keyed(Map(CopyTo(to), rows))
  {
    if rows != [] {
      KeyedRest(rows);
      CopiedKeyed(rows[1..], from, to);
      MapStep(CopyTo(to), rows);
      MapStep(KeyOf(), Map(CopyTo(to), rows));
      var rest := Map(CopyTo(to), rows[1..]);
      forall k | 0 <= k < |rest| ensures rest[k].key != CopyTo(to)(rows[0]).key {
        assert rows[1..][k] in rows[1..] && rows[1..][k] in rows && rows[0] in rows;
      }
    }
  }

  lemma KeyedAppend(a: seq<Row>, b: seq<Row>)
    requires Keyed(a) && Keyed(b) && forall r :: r in b ==> !HasRow(a, r.key)
    ensures Keyed(a + b)
  {
    var ka, kb := Map(KeyOf(), a), Map(KeyOf(), b);
    MapAppend(KeyOf(), a, b);
    forall i, j | 0 <= i < |a| && 0 <= j < |b| ensures ka[i] != kb[j] {
      assert b[j] in b;
      assert a[i].key != b[j].key;
    }
  }

  lemma CopiedAre(db: Db, from: nat, to: nat, only: seq<nat>)
    ensures forall r :: r in Copied(db, from, to, only) ==>
              r.key.frame == to && !HasRow(db.rows, r.key) && r.held.status == Verified
              && exists s :: s in db.rows && s.key == Key(r.key.track, from)
  {
    var source := Filter(Copies(db.rows, from, to, only), db.rows);
    forall r | r in Copied(db, from, to, only)
      ensures r.key.frame == to && !HasRow(db.rows, r.key) && r.held.status == Verified
      ensures exists s :: s in db.rows && s.key == Key(r.key.track, from)
    {
      var k :| 0 <= k < |source| && CopyTo(to)(source[k]) == r;
      assert source[k] in source && source[k] in db.rows;
    }
  }

  lemma CopyKeyed(db: Db, from: nat, to: nat, only: seq<nat>)
    requires Keyed(db.rows)
    ensures Keyed(db.rows + Copied(db, from, to, only))
  {
    var source := Filter(Copies(db.rows, from, to, only), db.rows);
    KeyedFilter(db.rows, Copies(db.rows, from, to, only));
    CopiedKeyed(source, from, to);
    CopiedAre(db, from, to, only);
    KeyedAppend(db.rows, Copied(db, from, to, only));
  }

  lemma CopyPlaced(db: Db, from: nat, to: nat, only: seq<nat>)
    requires Placed(db) && from in db.frames && to in db.frames && db.frames[from].clip == db.frames[to].clip
    ensures Placed(db.(rows := db.rows + Copied(db, from, to, only)))
  {
    CopiedAre(db, from, to, only);
    forall r | r in Copied(db, from, to, only) ensures InClip(db, r.key) {
      var s :| s in db.rows && s.key == Key(r.key.track, from);
      assert InClip(db, s.key);
    }
  }

  // Clearing a frame's empty mark makes room for verified boxes on it.
  lemma ClearedShaped(db: Db, frame: nat)
    requires Keyed(db.rows) && Placed(db) && Numbered(db) && frame in db.frames
    requires forall r :: r in db.rows && r.held.status == Verified && r.key.frame != frame ==>
               r.key.frame in db.frames && db.frames[r.key.frame].status != Empty
    ensures Shaped(EmptyCleared(db, frame))
  {
    var next := EmptyCleared(db, frame);
    forall r | r in db.rows ensures InClip(next, r.key) {
      assert InClip(db, r.key);
    }
  }

  lemma CopyShaped(db: Db, overlap: Overlap, me: nat, from: nat, to: nat, only: seq<nat>)
    requires Shaped(db)
    ensures var next := Copy(db, overlap, me, from, to, only);
            next.Some? ==> Shaped(next.value)
  {
    var copied := Copied(db, from, to, only);
    if Copy(db, overlap, me, from, to, only).Some? && copied != [] {
      var all := db.(rows := db.rows + copied);
      var noted := CopiesRecorded(all, overlap, me, db.frames[to], copied);
      CopyKeyed(db, from, to, only);
      CopyPlaced(db, from, to, only);
      CopiedAre(db, from, to, only);
      NotedPlaced(all, noted);
      ClearedShaped(noted, to);
    }
  }

  lemma NotedPlaced(db: Db, noted: Db)
    requires Placed(db) && noted.rows == db.rows && noted.tracks == db.tracks && noted.frames == db.frames
    ensures Placed(noted)
  {
    forall r | r in noted.rows ensures InClip(noted, r.key) {
      assert InClip(db, r.key);
    }
  }

  lemma MarkShaped(db: Db, me: nat, frame: nat, status: Option<FrameStatus>)
    requires Shaped(db)
    ensures var next := Mark(db, me, frame, status);
            next.Some? ==> Shaped(next.value)
  {
    if Mark(db, me, frame, status).Some? {
      var next := Mark(db, me, frame, status).value;
      KeyedMap(db.rows, Accepted(frame));
      forall r | r in next.rows
        ensures InClip(db, r.key)
        ensures r.held.status == Verified && r.key.frame == frame ==> status.value != Empty
        ensures r.held.status == Verified && r.key.frame != frame ==> r in db.rows
      {
        if status.value == Labeled {
          var k :| 0 <= k < |db.rows| && Accepted(frame)(db.rows[k]) == r;
          assert db.rows[k] in db.rows;
        } else {
          var k :| 0 <= k < |db.rows| && db.rows[k] == r;
        }
      }
    }
  }

  lemma PutShaped(db: Db, key: Key, rect: Rect, source: Source)
    requires Shaped(db) && InClip(db, key)
    ensures Shaped(ProposalPut(db, key, rect, source))
  {
    if !HasRow(db.rows, key) {
      KeyedSnoc(db.rows, Row(key, Held(rect, source, Proposed)));
    } else if OpenRow(db.rows, key) {
      KeyedMap(db.rows, Replaced(key, rect, source));
      forall r | r in Map(Replaced(key, rect, source), db.rows)
        ensures InClip(db, r.key) && (r.held.status == Verified ==> r in db.rows)
      {
        var k :| 0 <= k < |db.rows| && Replaced(key, rect, source)(db.rows[k]) == r;
        assert db.rows[k] in db.rows;
      }
    }
  }
}
