/** The bookkeeping `ObjectTracker` does around the external ByteTrack association step:
    centres, the append-only trajectory store keyed by track id, and the tracked-object list. */
module Tracker {
  import opened Wrappers
  import opened Geometry

  /** One detector result: box, confidence, class id and class name. */
  datatype Detection = Detection(box: Box, confidence: real, classId: int, className: string)

  /** What ByteTrack hands back for one update, in the column layout of its result record:
      one tracker id (possibly missing) and one box per row, and class ids and confidences
      that are either given for every row or missing as a whole. */
  datatype Association = Association(
    trackerIds: seq<Option<int>>,
    xyxy: seq<Box>,
    classIds: Option<seq<int>>,
    confidences: Option<seq<real>>)
  {
    predicate WellFormed() {
      && |xyxy| == |trackerIds|
      && (classIds.Some? ==> |classIds.value| == |trackerIds|)
      && (confidences.Some? ==> |confidences.value| == |trackerIds|)
    }
  }

  /** The trajectory store: track id to its centres, oldest first. */
  type Trajectories = map<int, seq<Point>>

  datatype TrackedObject = TrackedObject(
    id: int,
    box: Box,
    centre: Point,
    classId: int,
    confidence: real,
    trajectory: seq<Point>)

  /** The list stored for `id`, where a missing key reads as the empty list (a defaultdict). */
  function History(store: Trajectories, id: int): seq<Point> {
    if id in store then store[id] else []
  }

  /** The store after recording association row `k`: its centre goes at the end of its id's list. */
  function RecordRow(store: Trajectories, a: Association, k: nat): Trajectories
    requires a.WellFormed() && k < |a.trackerIds|
  {
    match a.trackerIds[k]
    case None => store
    case Some(id) => store[id := History(store, id) + [Centre(a.xyxy[k])]]
  }

  /** The store after the first `k` association rows have been recorded, in row order. */
  function StoreAfter(store: Trajectories, a: Association, k: nat): Trajectories
    requires a.WellFormed() && k <= |a.trackerIds|
  {
    if k == 0 then store else RecordRow(StoreAfter(store, a, k - 1), a, k - 1)
  }

  /** The tracked object built for row `k` with the given trajectory snapshot. */
  function ObjectFor(a: Association, k: nat, trajectory: seq<Point>): TrackedObject
    requires a.WellFormed() && k < |a.trackerIds| && a.trackerIds[k].Some?
  {
    TrackedObject(
      a.trackerIds[k].value,
      a.xyxy[k],
      Centre(a.xyxy[k]),
      if a.classIds.Some? then a.classIds.value[k] else 0,
      if a.confidences.Some? then a.confidences.value[k] else 1.0,
      trajectory)
  }

  /** The tracked objects built from the first `k` rows: rows without an id are skipped, and
      each object's trajectory is a copy of its id's list right after that row's append. */
  function ObjectsAfter(store: Trajectories, a: Association, k: nat): seq<TrackedObject>
    requires a.WellFormed() && k <= |a.trackerIds|
  {
    if k == 0 then []
    else
      ObjectsAfter(store, a, k - 1) +
      match a.trackerIds[k - 1]
      case None => []
      case Some(id) => [ObjectFor(a, k - 1, History(StoreAfter(store, a, k), id))]
  }

  /** One `update`: nothing happens for an empty detection list; otherwise every row of the
      association is recorded. Returns the tracked objects and the new store. */
  function Track(store: Trajectories, detections: seq<Detection>, a: Association): (seq<TrackedObject>, Trajectories)
    requires a.WellFormed()
  {
    if detections == [] then ([], store)
    else (ObjectsAfter(store, a, |a.trackerIds|), StoreAfter(store, a, |a.trackerIds|))
  }

  // ---------------------------------------------------------------------------------------
  // Reference views, independent of the row-by-row fold

  /** The ids that occur in a column of tracker ids. */
  function IdsIn(ids: seq<Option<int>>): set<int> {
    set j | 0 <= j < |ids| && ids[j].Some? :: ids[j].value
  }

  /** The present ids of a column, in row order. */
  function PresentIds(ids: seq<Option<int>>): seq<int> {
    if ids == [] then []
    else PresentIds(ids[..|ids| - 1]) + match ids[|ids| - 1] case None => [] case Some(id) => [id]
  }

  /** The centres of the rows among the first `k` whose id is `id`, in row order. */
  function CentresFor(a: Association, id: int, k: nat): seq<Point>
    requires a.WellFormed() && k <= |a.trackerIds|
  {
    if k == 0 then []
    else CentresFor(a, id, k - 1) + if a.trackerIds[k - 1] == Some(id) then [Centre(a.xyxy[k - 1])] else []
  }

  function Ids(objects: seq<TrackedObject>): seq<int> {
    seq(|objects|, j requires 0 <= j < |objects| => objects[j].id)
  }

  // ---------------------------------------------------------------------------------------
  // Properties of the fold

  /** The key set after recording is the old key set plus every id that occurs: keys are never removed. */
  lemma {:induction false} StoreKeys(store: Trajectories, a: Association, k: nat)
    requires a.WellFormed() && k <= |a.trackerIds|
    ensures StoreAfter(store, a, k).Keys == store.Keys + IdsIn(a.trackerIds[..k])
  {
    if k > 0 {
      StoreKeys(store, a, k - 1);
      var before := a.trackerIds[..k - 1];
      assert a.trackerIds[..k] == before + [a.trackerIds[k - 1]];
      match a.trackerIds[k - 1]
      case None =>
        assert IdsIn(a.trackerIds[..k]) == IdsIn(before);
      case Some(id) =>
        assert IdsIn(a.trackerIds[..k]) == IdsIn(before) + {id};
    }
  }

  /** Each id's list is its old list followed by the centres of its rows, in row order. */
  lemma {:induction false} StoreHistory(store: Trajectories, a: Association, k: nat, id: int)
    requires a.WellFormed() && k <= |a.trackerIds|
    ensures History(StoreAfter(store, a, k), id) == History(store, id) + CentresFor(a, id, k)
  {
    if k > 0 {
      StoreHistory(store, a, k - 1, id);
    }
  }

  /** An id that does not occur in the rows keeps its list, and keeps being present or absent. */
  lemma {:induction false} UnseenIdUnchanged(store: Trajectories, a: Association, k: nat, id: int)
    requires a.WellFormed() && k <= |a.trackerIds|
    requires Some(id) !in a.trackerIds[..k]
    ensures (id in StoreAfter(store, a, k)) == (id in store)
    ensures History(StoreAfter(store, a, k), id) == History(store, id)
  {
    if k > 0 {
      assert a.trackerIds[..k - 1] == a.trackerIds[..k][..k - 1];
      UnseenIdUnchanged(store, a, k - 1, id);
      assert a.trackerIds[k - 1] == a.trackerIds[..k][k - 1];
    }
  }

  /** Recording more rows only extends each list: earlier points keep their place and order. */
  lemma {:induction false} HistoryGrows(store: Trajectories, a: Association, j: nat, k: nat, id: int)
    requires a.WellFormed() && j <= k <= |a.trackerIds|
    ensures History(StoreAfter(store, a, j), id) <= History(StoreAfter(store, a, k), id)
    decreases k
  {
    if j < k {
      HistoryGrows(store, a, j, k - 1, id);
    }
  }

  /** The objects follow the tracker's row order with the rows lacking an id skipped, so
      there are never more objects than rows. */
  lemma {:induction false} ObjectsFollowRowOrder(store: Trajectories, a: Association, k: nat)
    requires a.WellFormed() && k <= |a.trackerIds|
    ensures Ids(ObjectsAfter(store, a, k)) == PresentIds(a.trackerIds[..k])
    ensures |ObjectsAfter(store, a, k)| <= k
  {
    if k > 0 {
      ObjectsFollowRowOrder(store, a, k - 1);
      assert a.trackerIds[..k][..k - 1] == a.trackerIds[..k - 1];
    }
  }

  /** Every object's centre is the centre of its box; its trajectory is the snapshot of its
      id's list right after the append: it extends the id's old list, ends at the centre,
      and is a prefix of the id's list at the end of the update. */
  lemma {:induction false} ObjectsAreSnapshots(store: Trajectories, a: Association, k: nat)
    requires a.WellFormed() && k <= |a.trackerIds|
    ensures forall o :: o in ObjectsAfter(store, a, k) ==>
      && o.centre == Centre(o.box)
      && History(store, o.id) < o.trajectory
      && o.trajectory[|o.trajectory| - 1] == o.centre
      && o.trajectory <= History(StoreAfter(store, a, k), o.id)
  {
    if k > 0 {
      ObjectsAreSnapshots(store, a, k - 1);
      forall o | o in ObjectsAfter(store, a, k)
        ensures History(store, o.id) < o.trajectory
        ensures o.trajectory <= History(StoreAfter(store, a, k), o.id)
        ensures o.trajectory[|o.trajectory| - 1] == o.centre
      {
        HistoryGrows(store, a, k - 1, k, o.id);
        if o !in ObjectsAfter(store, a, k - 1) {
          var id := a.trackerIds[k - 1].value;
          assert o == ObjectFor(a, k - 1, History(StoreAfter(store, a, k), id));
          HistoryGrows(store, a, 0, k - 1, id);
        }
      }
    }
  }

  /** A missing class-id column gives class id 0, a missing confidence column confidence 1.0. */
  lemma {:induction false} MissingColumnsDefault(store: Trajectories, a: Association, k: nat)
    requires a.WellFormed() && k <= |a.trackerIds|
    ensures a.classIds.None? ==> forall o :: o in ObjectsAfter(store, a, k) ==> o.classId == 0
    ensures a.confidences.None? ==> forall o :: o in ObjectsAfter(store, a, k) ==> o.confidence == 1.0
  {
    if k > 0 {
      MissingColumnsDefault(store, a, k - 1);
    }
  }

  /** `update` with no detections returns no objects and leaves the store as it was; with
      detections, keys only grow. */
  lemma TrackKeys(store: Trajectories, detections: seq<Detection>, a: Association)
    requires a.WellFormed()
    ensures detections == [] ==> Track(store, detections, a) == ([], store)
    ensures Track(store, detections, a).1.Keys ==
      if detections == [] then store.Keys else store.Keys + IdsIn(a.trackerIds)
  {
    StoreKeys(store, a, |a.trackerIds|);
    assert a.trackerIds[..|a.trackerIds|] == a.trackerIds;
  }

  /** The example of the tracker's unit test: ids 1 and 2 with boxes (100,100,200,200) and
      (300,300,400,400) give objects 1 and 2 centred at (150,150) and (350,350). */
  lemma TrackExample()
    ensures var a := Association([Some(1), Some(2)], [Box(100, 100, 200, 200), Box(300, 300, 400, 400)],
                                 Some([0, 0]), Some([0.9, 0.8]));
            var d := Detection(Box(0, 0, 1, 1), 0.9, 0, "person");
            var objects := Track(map[], [d, d], a).0;
            && |objects| == 2
            && objects[0].id == 1 && objects[0].centre == Point(150, 150)
            && objects[1].id == 2 && objects[1].centre == Point(350, 350)
  {
  }

  // ---------------------------------------------------------------------------------------

  /** `ObjectTracker`: the ByteTrack instance is external; what remains is the store. */
  class ObjectTracker {
    var tracks: Trajectories

    constructor ()
      ensures tracks == map[]
    {
      tracks := map[];
    }

    /** `update(detections, frame_shape)`, given ByteTrack's answer for this call. */
    method Update(detections: seq<Detection>, frameShape: (int, int), association: Association)
      returns (trackedObjects: seq<TrackedObject>)
      requires association.WellFormed()
      modifies this
      ensures (trackedObjects, tracks) == Track(old(tracks), detections, association)
      ensures old(tracks).Keys <= tracks.Keys
    {
      if detections == [] {
        return [];
      }
      trackedObjects := [];
      var i := 0;
      while i < |association.trackerIds|
        invariant 0 <= i <= |association.trackerIds|
        invariant tracks == StoreAfter(old(tracks), association, i)
        invariant trackedObjects == ObjectsAfter(old(tracks), association, i)
      {
        if association.trackerIds[i].Some? {
          var trackId := association.trackerIds[i].value;
          var box := association.xyxy[i];
          var centreX := TruncDiv(box.x1 + box.x2, 2);
          var centreY := TruncDiv(box.y1 + box.y2, 2);
          tracks := tracks[trackId := History(tracks, trackId) + [Point(centreX, centreY)]];
          var trackedObject := TrackedObject(
            trackId,
            box,
            Point(centreX, centreY),
            if association.classIds.Some? then association.classIds.value[i] else 0,
            if association.confidences.Some? then association.confidences.value[i] else 1.0,
            tracks[trackId]);
          trackedObjects := trackedObjects + [trackedObject];
        }
        i := i + 1;
      }
      TrackKeys(old(tracks), detections, association);
    }

    /** `get_all_trajectories()`: every id with its list of centres. */
    method GetAllTrajectories() returns (all: Trajectories)
      ensures all.Keys == tracks.Keys
      ensures forall id :: id in all ==> all[id] == tracks[id]
    {
      all := map id | id in tracks :: tracks[id];
    }
  }
}
