/** The tracking pipeline: a detector, the trajectory store, the visualizer and any number of
    post-processors run frame by frame over a video source. The OpenCV side effects of
    `process_video` (video writer, preview window, progress callback) are recorded as events. */
module Pipeline {
  import opened Wrappers
  import opened Geometry
  import opened Tracker
  import opened Visualizer

  /** `source.get_properties()`; `frame_count` may be missing. */
  datatype Properties = Properties(width: int, height: int, fps: real, frameCount: Option<int>)

  /** `props.get('frame_count', -1)`. */
  function TotalFrames(props: Properties): int {
    props.frameCount.GetOr(-1)
  }

  /** The metadata dictionary of a frame: both keys optional, `{}` having neither. */
  datatype Metadata = Metadata(frameNumber: Option<int>, sourceProperties: Option<Properties>)

  const EmptyMetadata: Metadata := Metadata(None, None)

  /** The dictionary every post-processor receives next to the frame. */
  datatype Context = Context(detections: seq<Detection>, trackedObjects: seq<TrackedObject>, metadata: Metadata)

  /** A post-processor: takes the frame and the context and returns the next frame. */
  type Processor = (Frame, Context) -> Frame

  /** The detector, an external model: a frame in, its detections out. */
  type Detector = Frame -> seq<Detection>

  /** The dictionary `process_frame` returns. */
  datatype FrameResult = FrameResult(frame: Frame, detections: seq<Detection>, trackedObjects: seq<TrackedObject>, metadata: Metadata)

  /** The pure parts of a pipeline: its detector, visualizer and registered processors. */
  datatype Stages = Stages(detect: Detector, visualizer: TrajectoryVisualizer, processors: seq<Processor>) {
    predicate Valid() {
      visualizer.Valid()
    }
  }

  /** The processors applied one after the other, in registration order. */
  function ApplyProcessors(ps: seq<Processor>, frame: Frame, ctx: Context): Frame {
    if ps == [] then frame else ps[|ps| - 1](ApplyProcessors(ps[..|ps| - 1], frame, ctx), ctx)
  }

  /** Running two groups of processors is running the first group, then the second on its output. */
  lemma {:induction false} ApplyProcessorsAppend(ps: seq<Processor>, qs: seq<Processor>, frame: Frame, ctx: Context)
    ensures ApplyProcessors(ps + qs, frame, ctx) == ApplyProcessors(qs, ApplyProcessors(ps, frame, ctx), ctx)
  {
    if qs == [] {
      assert ps + qs == ps;
    } else {
      assert (ps + qs)[..|ps + qs| - 1] == ps + qs[..|qs| - 1];
      ApplyProcessorsAppend(ps, qs[..|qs| - 1], frame, ctx);
    }
  }

  /** The first registered processor is the one that sees the visualizer's frame. */
  lemma ApplyProcessorsFirst(p: Processor, ps: seq<Processor>, frame: Frame, ctx: Context)
    ensures ApplyProcessors([p] + ps, frame, ctx) == ApplyProcessors(ps, p(frame, ctx), ctx)
  {
    ApplyProcessorsAppend([p], ps, frame, ctx);
    assert [p][..0] == [];
  }

  /** One call of `process_frame`: the result and the trajectory store afterwards. */
  function FrameStep(s: Stages, store: Trajectories, frame: Frame, metadata: Option<Metadata>, a: Association)
    : (FrameResult, Trajectories)
    requires s.Valid() && a.WellFormed()
  {
    var meta := metadata.GetOr(EmptyMetadata);
    var detections := s.detect(frame);
    var tracked := Track(store, detections, a);
    var drawn := Render(s.visualizer, frame, tracked.0);
    (FrameResult(ApplyProcessors(s.processors, drawn, Context(detections, tracked.0, meta)),
                 detections, tracked.0, meta),
     tracked.1)
  }

  /** Registering one more processor only post-composes it: everything else in the result
      stays the same, and the new processor sees the previous result's frame and context. */
  lemma FrameStepRegistration(s: Stages, p: Processor, store: Trajectories, frame: Frame,
                              metadata: Option<Metadata>, a: Association)
    requires s.Valid() && a.WellFormed()
    ensures var before := FrameStep(s, store, frame, metadata, a);
      var after := FrameStep(s.(processors := s.processors + [p]), store, frame, metadata, a);
      && after.1 == before.1
      && after.0.detections == before.0.detections
      && after.0.trackedObjects == before.0.trackedObjects
      && after.0.metadata == before.0.metadata
      && after.0.frame == p(before.0.frame, Context(before.0.detections, before.0.trackedObjects, before.0.metadata))
  {
    var r := FrameStep(s, store, frame, metadata, a).0;
    var ctx := Context(r.detections, r.trackedObjects, r.metadata);
    var drawn := Render(s.visualizer, frame, r.trackedObjects);
    ApplyProcessorsAppend(s.processors, [p], drawn, ctx);
    assert [p][..0] == [];
  }

  /** Without processors the frame is the visualizer's output: the input frame's size and
      marks, followed by the drawing plan of the tracked objects; with no detections nothing
      is tracked, the store is untouched and, without processors, the frame comes back as it was. */
  lemma FrameStepPlain(s: Stages, store: Trajectories, frame: Frame, metadata: Option<Metadata>, a: Association)
    requires s.Valid() && a.WellFormed() && s.processors == []
    ensures var r := FrameStep(s, store, frame, metadata, a);
      && r.0.frame.height == frame.height && r.0.frame.width == frame.width
      && r.0.frame.marks == frame.marks + Plan(s.visualizer, r.0.trackedObjects)
      && (s.detect(frame) == [] ==> r.0.trackedObjects == [] && r.1 == store && r.0.frame == frame)
  {
  }

  // ---------------------------------------------------------------------------------------
  // The video loop

  /** One `source.read()`, with what happened during that iteration: the key `waitKey`
      returned and ByteTrack's association for the frame. Reading past the last capture
      yields `(False, None)`. */
  datatype Capture = Capture(ok: bool, frame: Option<Frame>, key: int, association: Association, stamp: string)

  /** A video source: its properties and the successive results of `read()`. */
  datatype Video = Video(properties: Properties, captures: seq<Capture>)

  /** What an image written to disk holds: a rendered frame, or the heatmap that
      `create_heatmap` computes for a frame shape and a set of trajectories. */
  datatype Image = FrameImage(frame: Frame) | HeatmapImage(shape: (int, int), trajectories: Trajectories)

  /** The externally visible effects of the loop, in order. */
  datatype Event =
    | WriterOpened(path: string, fourcc: string, fps: real, width: int, height: int)
    | FrameWritten(frame: Frame)
    | Shown(window: string, frame: Frame)
    | ProgressReported(current: int, total: int)
    | ImageWritten(path: string, image: Image)
    | WriterReleased
    | WindowsDestroyed

  /** The dictionary `process_video` returns. */
  datatype Summary = Summary(framesProcessed: nat, totalObjectsTracked: nat, trajectories: Trajectories,
                             sourceProperties: Properties)

  /** Whether the iteration reading capture `j` gets a frame to process. */
  predicate Delivers(captures: seq<Capture>, j: nat) {
    j < |captures| && captures[j].ok && captures[j].frame.Some?
  }

  /** `waitKey(...) & 0xFF == ord(c)`. */
  predicate IsKey(key: int, c: char) {
    key % 256 == c as int
  }

  predicate AllWellFormed(captures: seq<Capture>) {
    forall j :: 0 <= j < |captures| ==> captures[j].association.WellFormed()
  }

  /** `output_path` is truthy: given and not empty. */
  predicate HasOutput(outputPath: Option<string>) {
    outputPath.Some? && outputPath.value != ""
  }

  /** The loop's switches: preview window, video writer, progress callback. */
  datatype Options = Options(preview: bool, writing: bool, reporting: bool)

  /** Whether the iteration reading capture `j` ends the loop with the preview quit key. */
  predicate Quits(captures: seq<Capture>, opts: Options, j: nat) {
    Delivers(captures, j) && opts.preview && IsKey(captures[j].key, 'q')
  }

  /** The state the loop leaves: the frame counter, the store, and the events so far. */
  datatype Run = Run(framesProcessed: nat, store: Trajectories, log: seq<Event>)

  /** The events of one processed frame before the quit check: written, then shown. */
  function FrameOut(opts: Options, visFrame: Frame): seq<Event> {
    (if opts.writing then [FrameWritten(visFrame)] else []) + (if opts.preview then [Shown("Tracking", visFrame)] else [])
  }

  /** The read loop of `process_video` from read number `i` on, with the store it starts from. */
  function RunFrom(s: Stages, props: Properties, captures: seq<Capture>, opts: Options, store: Trajectories, i: nat): Run
    requires s.Valid() && AllWellFormed(captures)
    decreases |captures| - i
  {
    if !Delivers(captures, i) then Run(i, store, [])
    else
      var step := FrameStep(s, store, captures[i].frame.value, Some(Metadata(Some(i), Some(props))), captures[i].association);
      var shown := FrameOut(opts, step.0.frame);
      if Quits(captures, opts, i) then Run(i, step.1, shown)
      else
        var rest := RunFrom(s, props, captures, opts, step.1, i + 1);
        var progress := if opts.reporting then [ProgressReported(i, TotalFrames(props))] else [];
        rest.(log := shown + progress + rest.log)
  }

  /** One iteration of the video loop, in terms of the step that `process_frame` takes. */
  lemma RunFromNext(s: Stages, props: Properties, captures: seq<Capture>, opts: Options, store: Trajectories, i: nat,
                    result: FrameResult, after: Trajectories)
    requires s.Valid() && AllWellFormed(captures) && Delivers(captures, i)
    requires (result, after) == FrameStep(s, store, captures[i].frame.value, Some(Metadata(Some(i), Some(props))), captures[i].association)
    ensures var rest := RunFrom(s, props, captures, opts, after, i + 1);
      RunFrom(s, props, captures, opts, store, i)
      == if Quits(captures, opts, i) then Run(i, after, FrameOut(opts, result.frame))
         else rest.(log := FrameOut(opts, result.frame) + (if opts.reporting then [ProgressReported(i, TotalFrames(props))] else []) + rest.log)
  {
  }

  /** The loop stops at the first read that yields no frame, or at the first frame on which
      the preview quit key is pressed; every read before it is counted. */
  lemma {:induction false} RunStops(s: Stages, props: Properties, captures: seq<Capture>, opts: Options,
                                    store: Trajectories, i: nat)
    requires s.Valid() && AllWellFormed(captures)
    ensures var n := RunFrom(s, props, captures, opts, store, i).framesProcessed;
      && i <= n
      && (forall j :: i <= j < n ==> Delivers(captures, j) && !Quits(captures, opts, j))
      && (!Delivers(captures, n) || Quits(captures, opts, n))
    decreases |captures| - i
  {
    if Delivers(captures, i) && !Quits(captures, opts, i) {
      var step := FrameStep(s, store, captures[i].frame.value, Some(Metadata(Some(i), Some(props))), captures[i].association);
      RunStops(s, props, captures, opts, step.1, i + 1);
    }
  }

  /** The progress calls of a log, in order. */
  function Progress(log: seq<Event>): seq<Event> {
    if log == [] then []
    else Progress(log[..|log| - 1]) + (if log[|log| - 1].ProgressReported? then [log[|log| - 1]] else [])
  }

  /** The frames a log writes to the output video, in order. */
  function Writes(log: seq<Event>): seq<Event> {
    if log == [] then []
    else Writes(log[..|log| - 1]) + (if log[|log| - 1].FrameWritten? then [log[|log| - 1]] else [])
  }

  /** The frames a log shows in the preview window, in order. */
  function Shows(log: seq<Event>): seq<Event> {
    if log == [] then []
    else Shows(log[..|log| - 1]) + (if log[|log| - 1].Shown? then [log[|log| - 1]] else [])
  }

  lemma {:induction false} FiltersAppend(a: seq<Event>, b: seq<Event>)
    ensures Progress(a + b) == Progress(a) + Progress(b)
    ensures Writes(a + b) == Writes(a) + Writes(b)
    ensures Shows(a + b) == Shows(a) + Shows(b)
    decreases |b|
  {
    if b == [] {
      assert a + b == a;
    } else {
      assert (a + b)[..|a + b| - 1] == a + b[..|b| - 1];
      FiltersAppend(a, b[..|b| - 1]);
    }
  }

  /** `ProgressReported(j, total)` for `j` from `i` up to `n - 1`. */
  function Counted(i: nat, n: nat, total: int): seq<Event>
    decreases n - i
  {
    if n <= i then [] else [ProgressReported(i, total)] + Counted(i + 1, n, total)
  }

  /** The number of frames the loop handles from read `i` on: the counted ones, plus the
      frame on which it quits, if it does. */
  function Handled(captures: seq<Capture>, opts: Options, i: nat, n: nat): nat
    requires i <= n
  {
    n - i + (if Quits(captures, opts, n) then 1 else 0)
  }

  /** The frames of a list, each written to the output video, in order. */
  function Written(frames: seq<Frame>): seq<Event> {
    if frames == [] then [] else [FrameWritten(frames[0])] + Written(frames[1..])
  }

  /** The frames of a list, each shown in window `window`, in order. */
  function Displayed(window: string, frames: seq<Frame>): seq<Event> {
    if frames == [] then [] else [Shown(window, frames[0])] + Displayed(window, frames[1..])
  }

  /** Putting one frame in front of a list. */
  lemma WrittenCons(window: string, f: Frame, frames: seq<Frame>)
    ensures Written([f] + frames) == [FrameWritten(f)] + Written(frames)
    ensures Displayed(window, [f] + frames) == [Shown(window, f)] + Displayed(window, frames)
  {
    assert ([f] + frames)[1..] == frames;
  }

  /** A single frame. */
  lemma WrittenOne(window: string, f: Frame)
    ensures Written([f]) == [FrameWritten(f)] && Displayed(window, [f]) == [Shown(window, f)]
  {
    assert [f][1..] == [];
  }

  /** Entry `k` of the written and of the shown list is frame `k`. */
  lemma {:induction false} WrittenIndex(window: string, frames: seq<Frame>)
    ensures |Written(frames)| == |frames| && |Displayed(window, frames)| == |frames|
    ensures forall k :: 0 <= k < |frames| ==> Written(frames)[k] == FrameWritten(frames[k])
    ensures forall k :: 0 <= k < |frames| ==> Displayed(window, frames)[k] == Shown(window, frames[k])
    decreases |frames|
  {
    if frames != [] {
      WrittenIndex(window, frames[1..]);
    }
  }

  /** What one processed frame contributes before the quit check: no progress call, the frame
      written when writing and the frame shown when previewing. */
  lemma FrameOutFilters(opts: Options, visFrame: Frame)
    ensures Progress(FrameOut(opts, visFrame)) == []
    ensures Writes(FrameOut(opts, visFrame)) == if opts.writing then [FrameWritten(visFrame)] else []
    ensures Shows(FrameOut(opts, visFrame)) == if opts.preview then [Shown("Tracking", visFrame)] else []
  {
    var w := if opts.writing then [FrameWritten(visFrame)] else [];
    var p := if opts.preview then [Shown("Tracking", visFrame)] else [];
    FiltersAppend(w, p);
    assert Progress(w) == [] && Progress(p) == [];
    assert Writes(p) == [] && Shows(w) == [];
  }

  /** What one counted frame contributes after the quit check: its progress call, if any. */
  lemma ProgressFilters(opts: Options, i: int, total: int)
    ensures var progress := if opts.reporting then [ProgressReported(i, total)] else [];
      Progress(progress) == progress && Writes(progress) == [] && Shows(progress) == []
  {
  }

  /** The progress callback receives `0, 1, 2, ...` once per counted frame, always with the
      source's total, and is never called for the frame on which the loop quits. */
  lemma {:induction false} RunProgress(s: Stages, props: Properties, captures: seq<Capture>, opts: Options,
                                       store: Trajectories, i: nat)
    requires s.Valid() && AllWellFormed(captures)
    ensures var r := RunFrom(s, props, captures, opts, store, i);
      && i <= r.framesProcessed
      && Progress(r.log) == (if opts.reporting then Counted(i, r.framesProcessed, TotalFrames(props)) else [])
    decreases |captures| - i
  {
    RunStops(s, props, captures, opts, store, i);
    if Delivers(captures, i) {
      var step := FrameStep(s, store, captures[i].frame.value, Some(Metadata(Some(i), Some(props))), captures[i].association);
      var shown := FrameOut(opts, step.0.frame);
      RunFromNext(s, props, captures, opts, store, i, step.0, step.1);
      FrameOutFilters(opts, step.0.frame);
      if !Quits(captures, opts, i) {
        var progress := if opts.reporting then [ProgressReported(i, TotalFrames(props))] else [];
        var rest := RunFrom(s, props, captures, opts, step.1, i + 1);
        RunProgress(s, props, captures, opts, step.1, i + 1);
        ProgressFilters(opts, i, TotalFrames(props));
        FiltersAppend(shown, progress);
        FiltersAppend(shown + progress, rest.log);
      }
    }
  }

  /** The frames `process_frame` returns over the loop from read `i` on, in order: one per
      handled frame, the one on which the loop quits included. */
  function LoopFrames(s: Stages, props: Properties, captures: seq<Capture>, opts: Options, store: Trajectories, i: nat)
    : seq<Frame>
    requires s.Valid() && AllWellFormed(captures)
    decreases |captures| - i
  {
    if !Delivers(captures, i) then []
    else
      var step := FrameStep(s, store, captures[i].frame.value, Some(Metadata(Some(i), Some(props))), captures[i].association);
      if Quits(captures, opts, i) then [step.0.frame]
      else [step.0.frame] + LoopFrames(s, props, captures, opts, step.1, i + 1)
  }

  /** The frames the loop writes, and the frames it shows, are the frames `process_frame`
      returned, one per handled frame, in order. */
  lemma {:induction false} RunFrames(s: Stages, props: Properties, captures: seq<Capture>, opts: Options,
                                     store: Trajectories, i: nat)
    requires s.Valid() && AllWellFormed(captures)
    ensures var r := RunFrom(s, props, captures, opts, store, i);
      var frames := LoopFrames(s, props, captures, opts, store, i);
      && i <= r.framesProcessed
      && |frames| == Handled(captures, opts, i, r.framesProcessed)
      && Writes(r.log) == (if opts.writing then Written(frames) else [])
      && Shows(r.log) == (if opts.preview then Displayed("Tracking", frames) else [])
    decreases |captures| - i
  {
    var r := RunFrom(s, props, captures, opts, store, i);
    RunStops(s, props, captures, opts, store, i);
    if Delivers(captures, i) {
      var step := FrameStep(s, store, captures[i].frame.value, Some(Metadata(Some(i), Some(props))), captures[i].association);
      var f := step.0.frame;
      RunFromNext(s, props, captures, opts, store, i, step.0, step.1);
      if Quits(captures, opts, i) {
        assert r.log == FrameOut(opts, f) && LoopFrames(s, props, captures, opts, store, i) == [f];
        FrameOutFilters(opts, f);
        WrittenOne("Tracking", f);
      } else {
        var progress := if opts.reporting then [ProgressReported(i, TotalFrames(props))] else [];
        var rest := RunFrom(s, props, captures, opts, step.1, i + 1);
        var frames := LoopFrames(s, props, captures, opts, step.1, i + 1);
        assert r.log == FrameOut(opts, f) + progress + rest.log && r.framesProcessed == rest.framesProcessed;
        assert LoopFrames(s, props, captures, opts, store, i) == [f] + frames;
        RunFrames(s, props, captures, opts, step.1, i + 1);
        ProgressFilters(opts, i, TotalFrames(props));
        CountedFrameLog(opts, f, progress, rest.log, frames);
      }
    }
  }

  /** A middle part that writes and shows nothing drops out of the written and shown frames. */
  lemma SkipMiddle(head: seq<Event>, middle: seq<Event>, rest: seq<Event>)
    requires Writes(middle) == [] && Shows(middle) == []
    ensures Writes(head + middle + rest) == Writes(head) + Writes(rest)
    ensures Shows(head + middle + rest) == Shows(head) + Shows(rest)
  {
    var front := head + middle;
    FiltersAppend(head, middle);
    assert Writes(front) == Writes(head) && Shows(front) == Shows(head);
    FiltersAppend(front, rest);
  }

  /** A counted frame puts its own frame in front of what the rest of the loop writes and shows. */
  lemma CountedFrameLog(opts: Options, f: Frame, progress: seq<Event>, rest: seq<Event>, frames: seq<Frame>)
    requires Writes(progress) == [] && Shows(progress) == []
    requires Writes(rest) == (if opts.writing then Written(frames) else [])
    requires Shows(rest) == (if opts.preview then Displayed("Tracking", frames) else [])
    ensures Writes(FrameOut(opts, f) + progress + rest) == (if opts.writing then Written([f] + frames) else [])
    ensures Shows(FrameOut(opts, f) + progress + rest) == (if opts.preview then Displayed("Tracking", [f] + frames) else [])
  {
    SkipMiddle(FrameOut(opts, f), progress, rest);
    FrameOutFilters(opts, f);
    WrittenCons("Tracking", f, frames);
  }

  /** Every handled frame, the one on which the loop quits included, is written to the output
      when writing, in the order `process_frame` returned them; nothing is written otherwise. */
  lemma RunWrites(s: Stages, props: Properties, captures: seq<Capture>, opts: Options,
                  store: Trajectories, i: nat)
    requires s.Valid() && AllWellFormed(captures)
    ensures var r := RunFrom(s, props, captures, opts, store, i);
      var frames := LoopFrames(s, props, captures, opts, store, i);
      && i <= r.framesProcessed
      && |frames| == Handled(captures, opts, i, r.framesProcessed)
      && |Writes(r.log)| == (if opts.writing then |frames| else 0)
      && forall k :: 0 <= k < |Writes(r.log)| ==> Writes(r.log)[k] == FrameWritten(frames[k])
  {
    RunFrames(s, props, captures, opts, store, i);
    WrittenIndex("Tracking", LoopFrames(s, props, captures, opts, store, i));
  }

  /** Every handled frame, the one on which the loop quits included, is shown in the preview
      window when previewing, in the order `process_frame` returned them; none otherwise. */
  lemma RunShows(s: Stages, props: Properties, captures: seq<Capture>, opts: Options,
                 store: Trajectories, i: nat)
    requires s.Valid() && AllWellFormed(captures)
    ensures var r := RunFrom(s, props, captures, opts, store, i);
      var frames := LoopFrames(s, props, captures, opts, store, i);
      && i <= r.framesProcessed
      && |frames| == Handled(captures, opts, i, r.framesProcessed)
      && |Shows(r.log)| == (if opts.preview then |frames| else 0)
      && forall k :: 0 <= k < |Shows(r.log)| ==> Shows(r.log)[k] == Shown("Tracking", frames[k])
  {
    RunFrames(s, props, captures, opts, store, i);
    WrittenIndex("Tracking", LoopFrames(s, props, captures, opts, store, i));
  }

  /** With both the writer and the preview on, the output video holds exactly the frames shown,
      in the same order. */
  lemma RunWritesWhatItShows(s: Stages, props: Properties, captures: seq<Capture>, opts: Options,
                             store: Trajectories, i: nat)
    requires s.Valid() && AllWellFormed(captures)
    requires opts.writing && opts.preview
    ensures var log := RunFrom(s, props, captures, opts, store, i).log;
      && |Writes(log)| == |Shows(log)|
      && forall k :: 0 <= k < |Writes(log)| ==>
           Writes(log)[k].FrameWritten? && Shows(log)[k].Shown? && Writes(log)[k].frame == Shows(log)[k].frame
  {
    RunWrites(s, props, captures, opts, store, i);
    RunShows(s, props, captures, opts, store, i);
  }

  /** Ids are never dropped from the store over the whole loop. */
  lemma {:induction false} RunKeepsIds(s: Stages, props: Properties, captures: seq<Capture>, opts: Options,
                                       store: Trajectories, i: nat)
    requires s.Valid() && AllWellFormed(captures)
    ensures store.Keys <= RunFrom(s, props, captures, opts, store, i).store.Keys
    decreases |captures| - i
  {
    if Delivers(captures, i) {
      var frame, a := captures[i].frame.value, captures[i].association;
      var step := FrameStep(s, store, frame, Some(Metadata(Some(i), Some(props))), a);
      TrackKeys(store, s.detect(frame), a);
      if !Quits(captures, opts, i) {
        RunKeepsIds(s, props, captures, opts, step.1, i + 1);
      }
    }
  }

  /** Everything `process_video` emits: the writer opened first when there is an output path,
      the loop's events, then the `finally` block's release and window teardown. */
  function VideoEvents(props: Properties, outputPath: Option<string>, opts: Options, log: seq<Event>): seq<Event>
    requires opts.writing == HasOutput(outputPath)
  {
    (if opts.writing then [WriterOpened(outputPath.value, "mp4v", props.fps, props.width, props.height)] else [])
    + log
    + (if opts.writing then [WriterReleased] else [])
    + (if opts.preview then [WindowsDestroyed] else [])
  }

  /** A loop log holds only written frames, shown frames and progress calls. */
  predicate LoopEvent(e: Event) {
    e.FrameWritten? || e.Shown? || e.ProgressReported?
  }

  lemma {:induction false} RunLogKinds(s: Stages, props: Properties, captures: seq<Capture>, opts: Options,
                                       store: Trajectories, i: nat)
    requires s.Valid() && AllWellFormed(captures)
    ensures forall e :: e in RunFrom(s, props, captures, opts, store, i).log ==> LoopEvent(e)
    decreases |captures| - i
  {
    if Delivers(captures, i) && !Quits(captures, opts, i) {
      var step := FrameStep(s, store, captures[i].frame.value, Some(Metadata(Some(i), Some(props))), captures[i].association);
      RunLogKinds(s, props, captures, opts, step.1, i + 1);
    }
  }

  /** A writer is opened iff there is an output path; then it is opened exactly once, as the
      very first event, it is released exactly once, after every written frame, and nothing is
      written outside it. */
  lemma WriterBracketsFrames(props: Properties, outputPath: Option<string>, opts: Options, log: seq<Event>)
    requires opts.writing == HasOutput(outputPath)
    requires forall e :: e in log ==> LoopEvent(e)
    ensures var ev := VideoEvents(props, outputPath, opts, log);
      && ((exists k :: 0 <= k < |ev| && ev[k].WriterOpened?) <==> HasOutput(outputPath))
      && ((exists k :: 0 <= k < |ev| && ev[k].WriterReleased?) <==> HasOutput(outputPath))
      && (HasOutput(outputPath) ==> ev[0] == WriterOpened(outputPath.value, "mp4v", props.fps, props.width, props.height))
      && (forall j, k :: 0 <= j < |ev| && 0 <= k < |ev| && ev[j].FrameWritten? && ev[k].WriterReleased? ==> j < k)
      && (forall j, k :: 0 <= j < |ev| && 0 <= k < |ev| && ev[j].FrameWritten? && ev[k].WriterOpened? ==> k < j)
      && (forall j, k :: 0 <= j < |ev| && 0 <= k < |ev| && ev[j].WriterOpened? && ev[k].WriterOpened? ==> j == k)
      && (forall j, k :: 0 <= j < |ev| && 0 <= k < |ev| && ev[j].WriterReleased? && ev[k].WriterReleased? ==> j == k)
  {
    var ev := VideoEvents(props, outputPath, opts, log);
    var opening := if opts.writing then [WriterOpened(outputPath.value, "mp4v", props.fps, props.width, props.height)] else [];
    var release := if opts.writing then [WriterReleased] else [];
    var teardown := if opts.preview then [WindowsDestroyed] else [];
    assert ev == opening + log + release + teardown;
    var m, r := |opening| + |log|, |opening| + |log| + |release|;
    assert forall k :: 0 <= k < |opening| ==> ev[k] == opening[k];
    assert forall k :: |opening| <= k < m ==> ev[k] == log[k - |opening|] && LoopEvent(ev[k]);
    assert forall k :: m <= k < r ==> ev[k] == release[k - m];
    assert forall k :: r <= k < |ev| ==> ev[k] == teardown[k - r];
    if opts.writing {
      assert ev[0].WriterOpened? && ev[|opening| + |log|].WriterReleased?;
    }
  }

  // ---------------------------------------------------------------------------------------

  /** `TrackingPipeline`: the detector and visualizer it was built with, the tracker (which the
      webcam loop may replace) and the post-processors registered so far. */
  class TrackingPipeline {
    const detector: Detector
    var tracker: ObjectTracker
    const visualizer: TrajectoryVisualizer
    var frameProcessors: seq<Processor>

    /** The stages a call of `process_frame` runs now. */
    function Setup(): Stages
      reads this
    {
      Stages(detector, visualizer, frameProcessors)
    }

    constructor (detector: Detector, tracker: ObjectTracker, visualizer: TrajectoryVisualizer)
      ensures this.detector == detector && this.tracker == tracker && this.visualizer == visualizer
      ensures frameProcessors == []
    {
      this.detector := detector;
      this.tracker := tracker;
      this.visualizer := visualizer;
      frameProcessors := [];
    }

    /** `add_frame_processor(processor)`: appends to the processor list. */
    method AddFrameProcessor(processor: Processor)
      modifies this
      ensures frameProcessors == old(frameProcessors) + [processor]
      ensures tracker == old(tracker)
    {
      frameProcessors := frameProcessors + [processor];
    }

    /** `process_frame(frame, metadata)`, given ByteTrack's association for this frame. */
    method ProcessFrame(frame: Frame, metadata: Option<Metadata>, association: Association)
      returns (result: FrameResult)
      requires visualizer.Valid() && association.WellFormed()
      modifies tracker
      ensures (result, tracker.tracks) == FrameStep(Setup(), old(tracker.tracks), frame, metadata, association)
    {
      var meta := if metadata.Some? then metadata.value else EmptyMetadata;
      var detections := detector(frame);
      var trackedObjects := tracker.Update(detections, (frame.height, frame.width), association);
      var visFrame := DrawFrame(visualizer, frame, trackedObjects);
      ghost var drawn := visFrame;
      var ctx := Context(detections, trackedObjects, meta);
      var i := 0;
      while i < |frameProcessors|
        invariant 0 <= i <= |frameProcessors|
        invariant visFrame == ApplyProcessors(frameProcessors[..i], drawn, ctx)
      {
        visFrame := frameProcessors[i](visFrame, ctx);
        assert frameProcessors[..i + 1][..i] == frameProcessors[..i];
        i := i + 1;
      }
      assert frameProcessors[..i] == frameProcessors;
      result := FrameResult(visFrame, detections, trackedObjects, meta);
    }

    /** The `while True` loop of `process_video`: reads until a read fails (or, with a preview,
        until the quit key), processing, writing, showing and reporting each frame in turn. */
    method ReadFrames(video: Video, opts: Options) returns (frameCount: nat, log: seq<Event>)
      requires visualizer.Valid() && AllWellFormed(video.captures)
      modifies tracker
      ensures var r := RunFrom(Setup(), video.properties, video.captures, opts, old(tracker.tracks), 0);
        && frameCount == r.framesProcessed && tracker.tracks == r.store && log == r.log
    {
      var props := video.properties;
      ghost var setup := Setup();
      ghost var total := RunFrom(setup, props, video.captures, opts, tracker.tracks, 0);
      log := [];
      frameCount := 0;
      while true
        invariant frameCount <= |video.captures|
        invariant Setup() == setup
        invariant log + RunFrom(setup, props, video.captures, opts, tracker.tracks, frameCount).log == total.log
        invariant RunFrom(setup, props, video.captures, opts, tracker.tracks, frameCount).store == total.store
        invariant RunFrom(setup, props, video.captures, opts, tracker.tracks, frameCount).framesProcessed == total.framesProcessed
        decreases |video.captures| - frameCount
      {
        if frameCount >= |video.captures| {
          break;
        }
        var capture := video.captures[frameCount];
        if !capture.ok || capture.frame.None? {
          break;
        }
        ghost var before := tracker.tracks;
        var result := ProcessFrame(capture.frame.value, Some(Metadata(Some(frameCount), Some(props))), capture.association);
        RunFromNext(setup, props, video.captures, opts, before, frameCount, result, tracker.tracks);
        var visFrame := result.frame;
        ghost var written: seq<Event> := if opts.writing then [FrameWritten(visFrame)] else [];
        ghost var shown: seq<Event> := if opts.preview then [Shown("Tracking", visFrame)] else [];
        ghost var logBefore := log;
        if opts.writing {
          log := log + [FrameWritten(visFrame)];
        }
        assert log == logBefore + written;
        if opts.preview {
          log := log + [Shown("Tracking", visFrame)];
        }
        assert log == logBefore + written + shown;
        AppendAssoc(logBefore, written, shown);
        if opts.preview && IsKey(capture.key, 'q') {
          break;
        }
        if opts.reporting {
          log := log + [ProgressReported(frameCount, TotalFrames(props))];
        }
        ghost var progress: seq<Event> := if opts.reporting then [ProgressReported(frameCount, TotalFrames(props))] else [];
        assert log == logBefore + (written + shown) + progress;
        AppendAssoc(logBefore, written + shown, progress);
        ghost var rest := RunFrom(setup, props, video.captures, opts, tracker.tracks, frameCount + 1);
        AppendAssoc(logBefore, written + shown + progress, rest.log);
        frameCount := frameCount + 1;
      }
    }

    /** `process_video(source, output_path, show_preview, progress_callback)`; `reporting`
        says whether a progress callback is given. Opens the writer when an output path is
        given, runs the read loop, then releases the writer and closes the preview windows,
        and returns the statistics with the events. */
    method ProcessVideo(video: Video, outputPath: Option<string>, showPreview: bool, reporting: bool)
      returns (summary: Summary, events: seq<Event>)
      requires visualizer.Valid() && AllWellFormed(video.captures)
      modifies tracker
      ensures var opts := Options(showPreview, HasOutput(outputPath), reporting);
        var r := RunFrom(Setup(), video.properties, video.captures, opts, old(tracker.tracks), 0);
        && summary == Summary(r.framesProcessed, |r.store|, r.store, video.properties)
        && tracker.tracks == r.store
        && events == VideoEvents(video.properties, outputPath, opts, r.log)
    {
      var props := video.properties;
      var opts := Options(showPreview, HasOutput(outputPath), reporting);
      var opening := [];
      if outputPath.Some? && outputPath.value != "" {
        opening := [WriterOpened(outputPath.value, "mp4v", props.fps, props.width, props.height)];
      }
      var frameCount, log := ReadFrames(video, opts);
      var closing := [];
      if opts.writing {
        closing := [WriterReleased];
      }
      if showPreview {
        closing := closing + [WindowsDestroyed];
      }
      ghost var released: seq<Event> := if opts.writing then [WriterReleased] else [];
      ghost var destroyed: seq<Event> := if opts.preview then [WindowsDestroyed] else [];
      assert closing == released + destroyed;
      events := opening + log + closing;
      AppendAssoc(opening + log, released, destroyed);
      var all := tracker.GetAllTrajectories();
      assert all.Keys == tracker.tracks.Keys;
      assert forall id :: id in all ==> all[id] == tracker.tracks[id];
      assert forall id :: id in all <==> id in tracker.tracks;
      assert all == tracker.tracks;
      summary := Summary(frameCount, |all|, all, props);
    }

    /** `generate_heatmap(frame_shape)`: hands every trajectory of the store to `create_heatmap`. */
    method GenerateHeatmap(frameShape: (int, int)) returns (heatmap: Image)
      ensures heatmap.HeatmapImage? && heatmap.shape == frameShape && heatmap.trajectories == tracker.tracks
    {
      var trajectories := tracker.GetAllTrajectories();
      assert trajectories.Keys == tracker.tracks.Keys;
      assert forall id :: id in trajectories ==> trajectories[id] == tracker.tracks[id];
      assert forall id :: id in trajectories <==> id in tracker.tracks;
      assert trajectories == tracker.tracks;
      heatmap := HeatmapImage(frameShape, trajectories);
    }
  }
}
