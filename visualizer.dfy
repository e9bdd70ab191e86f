/** `TrajectoryVisualizer`: the palette and the drawing plan of `draw_frame`. OpenCV's drawing
    calls are replaced by the list of draw commands they would execute, with their integer
    parameters; what they do to pixels is not modelled. */
module Visualizer {
  import opened Geometry
  import opened Tracker
  import opened PyText

  /** Number of palette entries the visualizer generates. */
  const PaletteSize: int := 100

  /** A colour: a palette entry is the BGR equivalent of an HSV triple (kept here as that
      triple); fixed colours are given in BGR directly. */
  datatype Colour = Hsv(hue: int, saturation: int, value: int) | Bgr(b: int, g: int, r: int)

  /** One OpenCV drawing call. Thickness -1 means filled. */
  datatype DrawCommand =
    | Rectangle(pt1: Point, pt2: Point, colour: Colour, thickness: int)
    | PutText(text: string, org: Point, fontScale: real, colour: Colour, thickness: int)
    | Line(pt1: Point, pt2: Point, colour: Colour, thickness: int)
    | Circle(center: Point, radius: int, colour: Colour, thickness: int)

  /** An image: its size, a value standing for the captured pixel content, and the draw
      commands applied on top of that content, oldest first. */
  datatype Frame = Frame(height: nat, width: nat, capture: int, marks: seq<DrawCommand>)

  // ---------------------------------------------------------------------------------------
  // Palette

  /** Hue of palette entry `i` of `n`: `int(180 * i / n)`. */
  function Hue(i: int, n: int): int
    requires 0 <= i && 0 < n
  {
    TruncDiv(180 * i, n)
  }

  /** Multiplying by a non-negative factor keeps order. */
  lemma MulMonotone(x: int, y: int, n: int)
    requires 0 <= n
    ensures x <= y ==> x * n <= y * n && n * x <= n * y
  {
    if x <= y {
      assert y * n - x * n == (y - x) * n;
    }
  }

  lemma HueInRange(i: int, n: int)
    requires 0 <= i < n
    ensures 0 <= Hue(i, n) <= 179
  {
    MulMonotone(180, Hue(i, n), n);
  }

  lemma HueMonotone(i: int, j: int, n: int)
    requires 0 <= i <= j && 0 < n
    ensures Hue(i, n) <= Hue(j, n)
  {
    QuotientMonotone(180 * i, 180 * j, n);
  }

  lemma QuotientMonotone(a: int, b: int, n: int)
    requires 0 <= a <= b && 0 < n
    ensures TruncDiv(a, n) <= TruncDiv(b, n)
  {
    var p, q := TruncDiv(a, n), TruncDiv(b, n);
    MulMonotone(q + 1, p, n);
    assert (q + 1) * n == q * n + n;
  }

  /** `_generate_colors(n)`: n palette entries at full saturation and value, hue rising with the index. */
  method GenerateColours(n: int) returns (colours: seq<Colour>)
    ensures |colours| == if n < 0 then 0 else n
    ensures forall i :: 0 <= i < |colours| ==> colours[i] == Hsv(Hue(i, n), 255, 255)
    ensures forall i :: 0 <= i < |colours| ==> 0 <= colours[i].hue <= 179
    ensures forall i, j :: 0 <= i <= j < |colours| ==> colours[i].hue <= colours[j].hue
  {
    colours := [];
    var i := 0;
    while i < n
      invariant 0 <= i <= if n < 0 then 0 else n
      invariant |colours| == i
      invariant forall k :: 0 <= k < i ==> colours[k] == Hsv(Hue(k, n), 255, 255)
    {
      var hue := TruncDiv(180 * i, n);
      colours := colours + [Hsv(hue, 255, 255)];
      i := i + 1;
    }
    forall i | 0 <= i < |colours| ensures 0 <= colours[i].hue <= 179 {
      HueInRange(i, n);
    }
    forall i, j | 0 <= i <= j < |colours| ensures colours[i].hue <= colours[j].hue {
      HueMonotone(i, j, n);
    }
  }

  /** Palette slot of a track id: `id % len(colors)` with the 100-entry palette. Python's `%`
      with a positive divisor is never negative, so the slot is always a valid index, and it
      is the one slot congruent to the id. */
  function ColourIndex(id: int): (k: int)
    ensures 0 <= k < PaletteSize
    ensures (id - k) % PaletteSize == 0
  {
    id % PaletteSize
  }

  /** Ids a multiple of 100 apart share a palette slot. */
  lemma IdsApartShareColour(id: int, m: int)
    ensures ColourIndex(id + m * PaletteSize) == ColourIndex(id)
  {
  }

  // ---------------------------------------------------------------------------------------
  // Configuration

  datatype TrajectoryVisualizer = TrajectoryVisualizer(
    trajectoryLength: int,
    trajectoryColour: Colour,
    trajectoryThickness: int,
    showBbox: bool,
    showId: bool,
    showTrajectory: bool,
    colours: seq<Colour>)
  {
    /** The palette always has its 100 entries. */
    predicate Valid() {
      |colours| == PaletteSize
    }
  }

  /** `TrajectoryVisualizer(...)`: stores the settings and generates a 100-entry palette. */
  method NewVisualizer(
    trajectoryLength: int, trajectoryColour: Colour, trajectoryThickness: int,
    showBbox: bool, showId: bool, showTrajectory: bool)
    returns (v: TrajectoryVisualizer)
    ensures v.trajectoryLength == trajectoryLength && v.trajectoryColour == trajectoryColour
    ensures v.trajectoryThickness == trajectoryThickness
    ensures v.showBbox == showBbox && v.showId == showId && v.showTrajectory == showTrajectory
    ensures v.Valid()
    ensures forall i :: 0 <= i < PaletteSize ==> v.colours[i] == Hsv(Hue(i, PaletteSize), 255, 255)
  {
    var colours := GenerateColours(PaletteSize);
    v := TrajectoryVisualizer(trajectoryLength, trajectoryColour, trajectoryThickness,
                              showBbox, showId, showTrajectory, colours);
  }

  function ColourOf(v: TrajectoryVisualizer, id: int): Colour
    requires v.Valid()
  {
    v.colours[ColourIndex(id)]
  }

  // ---------------------------------------------------------------------------------------
  // Trajectory drawing rules

  /** `trajectory[-length:]`: for a positive length the last `length` points (all of them
      when there are fewer); `-0` is `0`, so a zero length keeps every point; a negative
      length drops the first `-length` points. */
  function RecentPoints(trajectory: seq<Point>, length: int): (w: seq<Point>)
    ensures |w| <= |trajectory| && w == trajectory[|trajectory| - |w|..]
    ensures length > 0 ==> |w| == if length < |trajectory| then length else |trajectory|
    ensures length == 0 ==> w == trajectory
    ensures length < 0 ==> |w| == if -length < |trajectory| then |trajectory| + length else 0
  {
    var start :=
      if length > 0 then (if length < |trajectory| then |trajectory| - length else 0)
      else if length == 0 then 0
      else (if -length < |trajectory| then -length else |trajectory|);
    trajectory[start..]
  }

  function Max1(x: int): int {
    if x < 1 then 1 else x
  }

  /** Thickness of segment `i` of a window of `n` points: `max(1, int(T * (i / n)))`. */
  function SegmentThickness(t: int, i: int, n: int): int
    requires 0 <= i && 0 < n
  {
    Max1(TruncDiv(t * i, n))
  }

  /** Segment thickness is at least 1 and never exceeds `max(1, T - 1)`. */
  lemma ThicknessBounds(t: int, i: int, n: int)
    requires 1 <= i < n
    ensures 1 <= SegmentThickness(t, i, n) <= Max1(t - 1)
  {
    var q := TruncDiv(t * i, n);
    MulMonotone(t, 0, i);
    if t > 0 {
      MulMonotone(i, n - 1, t);
      assert (n - 1) * t == n * t - t;
      MulMonotone(t, q, n);
    }
  }

  /** Later segments are never thinner than earlier ones. */
  lemma ThicknessMonotone(t: int, i: int, j: int, n: int)
    requires 0 <= i <= j && 0 < n
    ensures SegmentThickness(t, i, n) <= SegmentThickness(t, j, n)
  {
    MulMonotone(t, 0, i);
    MulMonotone(t, 0, j);
    if t >= 0 {
      MulMonotone(i, j, t);
      QuotientMonotone(t * i, t * j, n);
    }
  }

  /** Radius of dot `j` (its index among the sampled points) for a window of `n` points. */
  function DotRadius(j: int, n: int): int
    requires 0 <= j && 0 < n
  {
    Max1(TruncDiv(3 * j, n))
  }

  /** Every fifth point, starting with the first: `trajectory[::5]`. */
  function EveryFifth(w: seq<Point>): (s: seq<Point>)
    ensures |s| == (|w| + 4) / 5
    ensures forall j :: 0 <= j < |s| ==> 5 * j < |w| && s[j] == w[5 * j]
  {
    seq((|w| + 4) / 5, j requires 0 <= j < (|w| + 4) / 5 => w[5 * j])
  }

  function SegmentCount(w: seq<Point>): nat {
    if |w| < 2 then 0 else |w| - 1
  }

  function DotCount(w: seq<Point>): nat {
    (|w| + 4) / 5
  }

  /** Command `k` of the trail drawn for a window: the segments come first, segment `k`
      joining points `k` and `k + 1`, then one filled dot per point of `trajectory[::5]`. */
  function TrailAt(w: seq<Point>, colour: Colour, t: int, k: nat): DrawCommand
    requires k < SegmentCount(w) + DotCount(w)
  {
    if k < SegmentCount(w) then Line(w[k], w[k + 1], colour, SegmentThickness(t, k + 1, |w|))
    else
      var j := k - SegmentCount(w);
      Circle(w[5 * j], DotRadius(j, |w|), colour, -1)
  }

  /** The first `m` commands of the trail drawn for a window. */
  function TrailUpTo(w: seq<Point>, colour: Colour, t: int, m: nat): (r: seq<DrawCommand>)
    requires m <= SegmentCount(w) + DotCount(w)
    ensures |r| == m
  {
    if m == 0 then [] else TrailUpTo(w, colour, t, m - 1) + [TrailAt(w, colour, t, m - 1)]
  }

  /** The whole trail drawn for a window: segments, then dots. */
  function Trail(w: seq<Point>, colour: Colour, t: int): seq<DrawCommand> {
    TrailUpTo(w, colour, t, SegmentCount(w) + DotCount(w))
  }

  lemma {:induction false} TrailUpToShape(w: seq<Point>, colour: Colour, t: int, m: nat)
    requires m <= SegmentCount(w) + DotCount(w)
    ensures |TrailUpTo(w, colour, t, m)| == m
    ensures forall k :: 0 <= k < m ==> TrailUpTo(w, colour, t, m)[k] == TrailAt(w, colour, t, k)
  {
    if m > 0 {
      TrailUpToShape(w, colour, t, m - 1);
    }
  }

  /** A window of `n` points gets `n - 1` segments first; segment `i` (counted from 1) joins
      points `i - 1` and `i`, so consecutive segments meet, and its thickness lies in
      `[1, max(1, T - 1)]`. */
  lemma SegmentsShape(w: seq<Point>, colour: Colour, t: int)
    ensures |Trail(w, colour, t)| == SegmentCount(w) + DotCount(w)
    ensures SegmentCount(w) == if |w| < 2 then 0 else |w| - 1
    ensures forall i :: 1 <= i < |w| ==>
      Trail(w, colour, t)[i - 1] == Line(w[i - 1], w[i], colour, SegmentThickness(t, i, |w|))
    ensures forall i :: 1 <= i < |w| ==> 1 <= SegmentThickness(t, i, |w|) <= Max1(t - 1)
  {
    TrailUpToShape(w, colour, t, SegmentCount(w) + DotCount(w));
    var trail := Trail(w, colour, t);
    forall i | 1 <= i < |w|
      ensures trail[i - 1] == Line(w[i - 1], w[i], colour, SegmentThickness(t, i, |w|))
      ensures 1 <= SegmentThickness(t, i, |w|) <= Max1(t - 1)
    {
      assert trail[i - 1] == TrailAt(w, colour, t, i - 1);
      ThicknessBounds(t, i, |w|);
    }
  }

  /** Segments never get thinner towards the newest point. */
  lemma SegmentsThicken(w: seq<Point>, colour: Colour, t: int)
    ensures forall i, j :: 0 <= i <= j < SegmentCount(w) ==>
      Trail(w, colour, t)[i].thickness <= Trail(w, colour, t)[j].thickness
  {
    var trail := Trail(w, colour, t);
    SegmentsShape(w, colour, t);
    forall i, j | 0 <= i <= j < SegmentCount(w) ensures trail[i].thickness <= trail[j].thickness {
      assert trail[(i + 1) - 1].thickness == SegmentThickness(t, i + 1, |w|);
      assert trail[(j + 1) - 1].thickness == SegmentThickness(t, j + 1, |w|);
      ThicknessMonotone(t, i + 1, j + 1, |w|);
    }
  }

  /** After the segments come ceil(n / 5) dots on window points 0, 5, 10, ..., all filled;
      because the radius is computed from the index among the sampled points, every dot has
      radius exactly 1. */
  lemma DotsShape(w: seq<Point>, colour: Colour, t: int)
    ensures DotCount(w) == |EveryFifth(w)|
    ensures forall j :: 0 <= j < DotCount(w) ==>
      5 * j < |w| && Trail(w, colour, t)[SegmentCount(w) + j] == Circle(w[5 * j], 1, colour, -1)
  {
    TrailUpToShape(w, colour, t, SegmentCount(w) + DotCount(w));
    var trail := Trail(w, colour, t);
    forall j | 0 <= j < DotCount(w)
      ensures 5 * j < |w| && trail[SegmentCount(w) + j] == Circle(w[5 * j], 1, colour, -1)
    {
      var n := |w|;
      assert trail[SegmentCount(w) + j] == TrailAt(w, colour, t, SegmentCount(w) + j);
      assert 5 * j <= n - 1;
      MulMonotone(1, TruncDiv(3 * j, n), n);
    }
  }

  // ---------------------------------------------------------------------------------------
  // The drawing plan of draw_frame

  function BoxCommand(o: TrackedObject, colour: Colour): DrawCommand {
    Rectangle(Point(o.box.x1, o.box.y1), Point(o.box.x2, o.box.y2), colour, 2)
  }

  function LabelCommand(o: TrackedObject, colour: Colour): DrawCommand {
    PutText("ID: " + Str(o.id), Point(o.centre.x - 20, o.centre.y - 10), 0.5, colour, 2)
  }

  /** Whether the object's trail is drawn: trails are on and it has more than one point. */
  predicate DrawsTrail(v: TrajectoryVisualizer, o: TrackedObject) {
    v.showTrajectory && |o.trajectory| > 1
  }

  /** The commands drawn for one object: box, label, then trail, each when enabled. */
  function ObjectPlan(v: TrajectoryVisualizer, o: TrackedObject): seq<DrawCommand>
    requires v.Valid()
  {
    var colour := ColourOf(v, o.id);
    BoxPart(v, o, colour) + LabelPart(v, o, colour) + TrailPart(v, o, colour)
  }

  function BoxPart(v: TrajectoryVisualizer, o: TrackedObject, colour: Colour): seq<DrawCommand> {
    if v.showBbox then [BoxCommand(o, colour)] else []
  }

  function LabelPart(v: TrajectoryVisualizer, o: TrackedObject, colour: Colour): seq<DrawCommand> {
    if v.showId then [LabelCommand(o, colour)] else []
  }

  function TrailPart(v: TrajectoryVisualizer, o: TrackedObject, colour: Colour): seq<DrawCommand> {
    if DrawsTrail(v, o) then Trail(RecentPoints(o.trajectory, v.trajectoryLength), colour, v.trajectoryThickness) else []
  }

  /** The commands drawn for the first `k` objects of a list, object by object. */
  function PlanUpTo(v: TrajectoryVisualizer, objects: seq<TrackedObject>, k: nat): seq<DrawCommand>
    requires v.Valid() && k <= |objects|
  {
    if k == 0 then [] else PlanUpTo(v, objects, k - 1) + ObjectPlan(v, objects[k - 1])
  }

  /** The commands drawn for a list of objects. */
  function Plan(v: TrajectoryVisualizer, objects: seq<TrackedObject>): seq<DrawCommand>
    requires v.Valid()
  {
    PlanUpTo(v, objects, |objects|)
  }

  /** The frame `draw_frame` returns: a copy of the input with the plan drawn on top. */
  function Render(v: TrajectoryVisualizer, frame: Frame, objects: seq<TrackedObject>): Frame
    requires v.Valid()
  {
    frame.(marks := frame.marks + Plan(v, objects))
  }

  /** What a trail command may be: a segment in range, or a dot of radius 1, in the given colour. */
  predicate TrailCommand(c: DrawCommand, colour: Colour, t: int) {
    || (c.Line? && c.colour == colour && 1 <= c.thickness <= Max1(t - 1))
    || (c.Circle? && c.colour == colour && c.radius == 1)
  }

  lemma TrailAtShape(w: seq<Point>, colour: Colour, t: int, k: nat)
    requires k < SegmentCount(w) + DotCount(w)
    ensures TrailCommand(TrailAt(w, colour, t, k), colour, t)
  {
    if k < SegmentCount(w) {
      ThicknessBounds(t, k + 1, |w|);
    } else {
      var j, n := k - SegmentCount(w), |w|;
      assert 5 * j <= n - 1;
      MulMonotone(1, TruncDiv(3 * j, n), n);
    }
  }

  lemma TrailShape(w: seq<Point>, colour: Colour, t: int)
    ensures forall c :: c in Trail(w, colour, t) ==> TrailCommand(c, colour, t)
  {
    var m := SegmentCount(w) + DotCount(w);
    TrailUpToShape(w, colour, t, m);
    var trail := Trail(w, colour, t);
    forall c | c in trail ensures TrailCommand(c, colour, t) {
      var k :| 0 <= k < |trail| && trail[k] == c;
      TrailAtShape(w, colour, t, k);
    }
  }

  /** A box with thickness 2 from the bbox corners is drawn iff boxes are on, and the label
      "ID: <id>" at (cx - 20, cy - 10) iff labels are on. */
  lemma ObjectPlanShape(v: TrajectoryVisualizer, o: TrackedObject)
    requires v.Valid()
    ensures var p := ObjectPlan(v, o);
      && ((exists c :: c in p && c.Rectangle?) <==> v.showBbox)
      && (forall c :: c in p && c.Rectangle? ==> c == BoxCommand(o, ColourOf(v, o.id)))
      && ((exists c :: c in p && c.PutText?) <==> v.showId)
      && (forall c :: c in p && c.PutText? ==>
            c.text == "ID: " + Str(o.id) && c.org == Point(o.centre.x - 20, o.centre.y - 10))
  {
    var colour := ColourOf(v, o.id);
    var trail := TrailPart(v, o, colour);
    assert forall c :: c in trail ==> c.Line? || c.Circle? by {
      TrailShape(RecentPoints(o.trajectory, v.trajectoryLength), colour, v.trajectoryThickness);
    }
    var boxes := BoxPart(v, o, colour);
    var labels := LabelPart(v, o, colour);
    assert ObjectPlan(v, o) == boxes + labels + trail;
    if v.showBbox {
      assert BoxCommand(o, colour) in ObjectPlan(v, o);
    }
    if v.showId {
      assert LabelCommand(o, colour) in ObjectPlan(v, o);
    }
  }

  /** Segments and dots are drawn only when the trail is, segments no thinner than 1 and no
      thicker than `max(1, T - 1)` and dots of radius 1; every command of an object uses the
      palette colour of its id. */
  lemma ObjectPlanColours(v: TrajectoryVisualizer, o: TrackedObject)
    requires v.Valid()
    ensures var p := ObjectPlan(v, o);
      && (forall c :: c in p && (c.Line? || c.Circle?) ==>
            DrawsTrail(v, o) && TrailCommand(c, ColourOf(v, o.id), v.trajectoryThickness))
      && (forall c :: c in p ==> c.colour == ColourOf(v, o.id))
  {
    var colour := ColourOf(v, o.id);
    TrailShape(RecentPoints(o.trajectory, v.trajectoryLength), colour, v.trajectoryThickness);
    assert ObjectPlan(v, o) == BoxPart(v, o, colour) + LabelPart(v, o, colour) + TrailPart(v, o, colour);
  }

  /** Over a whole frame: every dot has radius 1, and every segment's thickness lies in
      `[1, max(1, T - 1)]`. */
  lemma {:induction false} PlanDotsAndSegments(v: TrajectoryVisualizer, objects: seq<TrackedObject>, k: nat)
    requires v.Valid() && k <= |objects|
    ensures forall c :: c in PlanUpTo(v, objects, k) && c.Circle? ==> c.radius == 1
    ensures forall c :: c in PlanUpTo(v, objects, k) && c.Line? ==>
      1 <= c.thickness <= Max1(v.trajectoryThickness - 1)
  {
    if k > 0 {
      PlanDotsAndSegments(v, objects, k - 1);
      ObjectPlanColours(v, objects[k - 1]);
      var earlier, last := PlanUpTo(v, objects, k - 1), ObjectPlan(v, objects[k - 1]);
      assert forall c :: c in PlanUpTo(v, objects, k) ==> c in earlier || c in last;
    }
  }

  /** Nothing is drawn for an empty object list, and drawing never changes the frame's size
      or what was already on it. */
  lemma RenderKeepsFrame(v: TrajectoryVisualizer, frame: Frame, objects: seq<TrackedObject>)
    requires v.Valid()
    ensures var r := Render(v, frame, objects);
      && r.height == frame.height && r.width == frame.width && r.capture == frame.capture
      && frame.marks <= r.marks
      && (objects == [] ==> r == frame)
  {
  }

  /** Concatenation is associative. The verifier does not regroup long concatenations by
      itself, so the loops that extend a command list here, and the event logs of the
      pipeline and command-line loops, call this to regroup `(log + a) + b` as
      `log + (a + b)` at the one step that needs it. */
  lemma AppendAssoc<T>(a: seq<T>, b: seq<T>, c: seq<T>)
    ensures (a + b) + c == a + (b + c)
  {
  }

  /** The segment loop of `draw_frame`: draws the first `SegmentCount` trail commands. */
  method DrawSegments(visFrame: Frame, trajectory: seq<Point>, colour: Colour, t: int) returns (out: Frame)
    ensures out == visFrame.(marks := visFrame.marks + TrailUpTo(trajectory, colour, t, SegmentCount(trajectory)))
  {
    out := visFrame;
    var n := |trajectory|;
    var i := 1;
    while i < n
      invariant 1 <= i <= if n < 1 then 1 else n
      invariant out == visFrame.(marks := visFrame.marks + TrailUpTo(trajectory, colour, t, i - 1))
    {
      var thickness := TruncDiv(t * i, n);
      out := out.(marks := out.marks + [Line(trajectory[i - 1], trajectory[i], colour, Max1(thickness))]);
      i := i + 1;
    }
  }

  /** The dot loop of `draw_frame`, over `trajectory[::5]`: completes a trail whose segments
      are already drawn. */
  method DrawDots(visFrame: Frame, trajectory: seq<Point>, colour: Colour, t: int, before: seq<DrawCommand>)
    returns (out: Frame)
    requires visFrame.marks == before + TrailUpTo(trajectory, colour, t, SegmentCount(trajectory))
    ensures out == visFrame.(marks := before + Trail(trajectory, colour, t))
  {
    out := visFrame;
    var n := |trajectory|;
    var sampled := EveryFifth(trajectory);
    var j := 0;
    while j < |sampled|
      invariant 0 <= j <= |sampled|
      invariant out == visFrame.(marks := before + TrailUpTo(trajectory, colour, t, SegmentCount(trajectory) + j))
    {
      var radius := TruncDiv(3 * j, n);
      out := out.(marks := out.marks + [Circle(sampled[j], Max1(radius), colour, -1)]);
      j := j + 1;
    }
  }

  /** The trajectory part of one iteration of the object loop of `draw_frame`. */
  method DrawTrail(v: TrajectoryVisualizer, visFrame: Frame, o: TrackedObject, colour: Colour) returns (out: Frame)
    ensures out.height == visFrame.height && out.width == visFrame.width && out.capture == visFrame.capture
    ensures out.marks == visFrame.marks + TrailPart(v, o, colour)
  {
    out := visFrame;
    if v.showTrajectory && |o.trajectory| > 1 {
      var trajectory := RecentPoints(o.trajectory, v.trajectoryLength);
      out := DrawSegments(out, trajectory, colour, v.trajectoryThickness);
      out := DrawDots(out, trajectory, colour, v.trajectoryThickness, visFrame.marks);
    }
  }

  /** One iteration of the object loop of `draw_frame`. */
  method DrawObject(v: TrajectoryVisualizer, visFrame: Frame, o: TrackedObject) returns (out: Frame)
    requires v.Valid()
    ensures out.height == visFrame.height && out.width == visFrame.width && out.capture == visFrame.capture
    ensures out.marks == visFrame.marks + ObjectPlan(v, o)
  {
    var colour := v.colours[o.id % |v.colours|];
    assert colour == ColourOf(v, o.id);
    out := visFrame;
    if v.showBbox {
      out := out.(marks := out.marks + [Rectangle(Point(o.box.x1, o.box.y1), Point(o.box.x2, o.box.y2), colour, 2)]);
    }
    if v.showId {
      out := out.(marks := out.marks + [PutText("ID: " + Str(o.id), Point(o.centre.x - 20, o.centre.y - 10), 0.5, colour, 2)]);
    }
    assert out.marks == visFrame.marks + (BoxPart(v, o, colour) + LabelPart(v, o, colour));
    out := DrawTrail(v, out, o, colour);
    AppendAssoc(visFrame.marks, BoxPart(v, o, colour) + LabelPart(v, o, colour), TrailPart(v, o, colour));
  }

  /** `draw_frame(frame, tracked_objects)`: draws onto a copy, object by object. */
  method DrawFrame(v: TrajectoryVisualizer, frame: Frame, trackedObjects: seq<TrackedObject>)
    returns (visFrame: Frame)
    requires v.Valid()
    ensures visFrame == Render(v, frame, trackedObjects)
  {
    visFrame := frame;
    var k := 0;
    while k < |trackedObjects|
      invariant 0 <= k <= |trackedObjects|
      invariant visFrame.height == frame.height && visFrame.width == frame.width && visFrame.capture == frame.capture
      invariant visFrame.marks == frame.marks + PlanUpTo(v, trackedObjects, k)
    {
      var o := trackedObjects[k];
      visFrame := DrawObject(v, visFrame, o);
      AppendAssoc(frame.marks, PlanUpTo(v, trackedObjects, k), ObjectPlan(v, o));
      k := k + 1;
    }
  }
}
