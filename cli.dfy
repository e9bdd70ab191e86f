/** The command line: the output and heatmap file names of `process_file`, its progress
    printing rule, the status overlay, and the two entry points `process_file` and
    `process_webcam` over the pipeline. Console output, argument parsing, configuration
    loading and directory creation are not modelled; keys and timestamps are inputs. */
module Cli {
  import opened Wrappers
  import opened Geometry
  import opened PyText
  import opened PathNames
  import opened Tracker
  import opened Visualizer
  import opened Pipeline

  // ---------------------------------------------------------------------------------------
  // File names

  /** The name of the default output file: the input's stem, `_tracked`, then its suffix. */
  function TrackedName(name: string): string {
    Stem(name) + "_tracked" + Suffix(name)
  }

  /** `str(input_path.parent / f"{input_path.stem}_tracked{input_path.suffix}")`. */
  function DefaultOutput(input: string): string {
    var p := Parse(input);
    Format(Div(Parent(p), TrackedName(Name(p))))
  }

  /** The output path `process_file` uses: the one given, unchanged, or the default. */
  function OutputPath(input: string, output: Option<string>): (path: string)
    ensures output.Some? ==> path == output.value
  {
    if output.None? then DefaultOutput(input) else output.value
  }

  /** The tracked name is a valid path component. */
  lemma TrackedNameValid(name: string)
    requires '/' !in name
    ensures ValidPart(TrackedName(name))
  {
    StemSuffix(name);
    assert '/' !in Stem(name) && '/' !in Suffix(name);
    assert '/' !in "_tracked";
  }

  /** The default output is the input's parent directory with the tracked name appended. */
  lemma DefaultOutputParts(input: string)
    ensures var inp := Parse(input);
      var q := PurePath(inp.absolute, Parent(inp).parts + [TrackedName(Name(inp))]);
      ValidPath(q) && DefaultOutput(input) == Format(q)
  {
    var inp := Parse(input);
    var name := TrackedName(Name(inp));
    assert ValidPart(name) by {
      if inp.parts != [] {
        assert Name(inp) in inp.parts;
      }
      TrackedNameValid(Name(inp));
    }
    assert ValidPath(Parent(inp)) by {
      assert forall k :: 0 <= k < |Parent(inp).parts| ==> Parent(inp).parts[k] == inp.parts[k];
    }
    DivPart(Parent(inp), name);
  }

  /** The default output sits next to the input: same root, same parent directory, and its
      name is the input's stem with `_tracked` appended, followed by the input's suffix. */
  lemma DefaultOutputShape(input: string)
    ensures var inp, out := Parse(input), Parse(DefaultOutput(input));
      && out.absolute == inp.absolute
      && Parent(out) == Parent(inp)
      && Name(out) == Stem(Name(inp)) + "_tracked" + Suffix(Name(inp))
  {
    var inp := Parse(input);
    var q := PurePath(inp.absolute, Parent(inp).parts + [TrackedName(Name(inp))]);
    DefaultOutputParts(input);
    ParseFormat(q);
    assert q.parts[..|q.parts| - 1] == Parent(inp).parts;
  }

  /** When the input has a suffix, the default output keeps it, and its stem is the input's
      stem followed by `_tracked`. */
  lemma TrackedKeepsSuffix(name: string)
    requires Suffix(name) != ""
    ensures Suffix(TrackedName(name)) == Suffix(name)
    ensures Stem(TrackedName(name)) == Stem(name) + "_tracked"
  {
    StemSuffix(name);
    var stem, suffix := Stem(name), Suffix(name);
    var t := TrackedName(name);
    var i := |stem| + 8;
    assert t[i..] == suffix;
    assert t[..i] == stem + "_tracked";
    assert t[i] == '.';
    forall j | i < j < |t|
      ensures t[j] != '.'
    {
      assert t[j] == suffix[j - i];
      assert suffix[j - i] == suffix[1..][j - i - 1];
    }
    assert RFind(t, '.') == i;
  }

  /** A non-empty stem, a dot, then an extension without dots: the suffix is the dot and the
      extension. */
  lemma DottedName(stem: string, ext: string)
    requires stem != "" && ext != "" && '.' !in ext
    ensures Suffix(stem + "." + ext) == "." + ext
    ensures Stem(stem + "." + ext) == stem
  {
    var n := stem + "." + ext;
    var i := |stem|;
    assert n[i] == '.';
    forall j | i < j < |n|
      ensures n[j] != '.'
    {
      assert n[j] == ext[j - i - 1];
    }
    assert RFind(n, '.') == i;
    assert n[i..] == "." + ext;
    assert n[..i] == stem;
  }

  /** A file name made of a stem, a dot and an extension, none of them holding a separator or
      a further dot, is a valid component. */
  lemma DottedNameValid(stem: string, ext: string)
    requires stem != "" && ext != "" && '.' !in ext && '/' !in stem && '/' !in ext
    ensures ValidPart(stem + "." + ext)
  {
    assert |stem + "." + ext| >= 3;
    assert '/' !in ".";
  }

  /** `dir/stem.ext` is read as the two components `dir` and `stem.ext`. */
  lemma ParseFileInDir(dir: string, file: string)
    requires ValidPart(dir) && ValidPart(file)
    ensures Parse(dir + "/" + file) == PurePath(false, [dir, file])
    ensures Format(PurePath(false, [dir, file])) == dir + "/" + file
  {
    var parts := [dir, file];
    assert parts[..1] == [dir];
    assert Join(parts, '/') == dir + "/" + file;
    ParseJoined(parts);
  }

  /** `dir/stem.ext` is read as `dir` followed by `stem.ext`. */
  lemma ParseDotted(dir: string, stem: string, ext: string)
    requires ValidPart(dir) && stem != "" && ext != "" && '.' !in ext && '/' !in stem && '/' !in ext
    ensures Parse(dir + "/" + stem + "." + ext) == PurePath(false, [dir, stem + "." + ext])
  {
    DottedNameValid(stem, ext);
    ParseFileInDir(dir, stem + "." + ext);
    assert dir + "/" + stem + "." + ext == dir + "/" + (stem + "." + ext);
  }

  /** Joining a valid component onto the relative path `dir` and writing it out gives `dir/file`. */
  lemma DivInDir(dir: string, file: string)
    requires ValidPart(dir) && ValidPart(file)
    ensures Format(Div(PurePath(false, [dir]), file)) == dir + "/" + file
  {
    DivPart(PurePath(false, [dir]), file);
    assert [dir] + [file] == [dir, file];
    ParseFileInDir(dir, file);
  }

  /** The rule behind `clips/a.mp4` becoming `clips/a_tracked.mp4`: a file `stem.ext` in a
      directory `dir` is written to `dir/stem_tracked.ext`. */
  lemma DefaultOutputInDir(dir: string, stem: string, ext: string)
    requires ValidPart(dir) && stem != "" && ext != "" && '.' !in ext && '/' !in stem && '/' !in ext
    ensures DefaultOutput(dir + "/" + stem + "." + ext) == dir + "/" + stem + "_tracked" + "." + ext
  {
    var file := stem + "." + ext;
    var tracked := stem + "_tracked" + "." + ext;
    var p := Parse(dir + "/" + stem + "." + ext);
    ParseDotted(dir, stem, ext);
    assert Name(p) == file;
    assert Parent(p) == PurePath(false, [dir]) by {
      assert [dir, file][..1] == [dir];
    }
    DottedName(stem, ext);
    assert TrackedName(file) == tracked;
    DottedNameValid(stem + "_tracked", ext);
    DivInDir(dir, tracked);
    assert dir + "/" + tracked == dir + "/" + stem + "_tracked" + "." + ext;
  }

  /** The rule behind `a_tracked.mp4` giving `a_tracked.heatmap.png`: the heatmap of an output
      `dir/stem.ext` is `dir/stem.heatmap.png`. */
  lemma HeatmapPathInDir(dir: string, stem: string, ext: string)
    requires ValidPart(dir) && stem != "" && ext != "" && '.' !in ext && '/' !in stem && '/' !in ext
    ensures HeatmapPath(dir + "/" + stem + "." + ext) == Success(dir + "/" + stem + ".heatmap.png")
  {
    var file := stem + "." + ext;
    var p := Parse(dir + "/" + stem + "." + ext);
    ParseDotted(dir, stem, ext);
    assert Name(p) == file;
    assert ValidSuffix(".heatmap.png");
    DottedName(stem, ext);
    var q := WithSuffix(p, ".heatmap.png").value;
    assert q == PurePath(false, [dir, stem + ".heatmap.png"]) by {
      assert p.parts[..1] == [dir];
    }
    assert ValidPart(stem + ".heatmap.png") by {
      assert '/' !in ".heatmap.png";
    }
    ParseFileInDir(dir, stem + ".heatmap.png");
    assert dir + "/" + (stem + ".heatmap.png") == dir + "/" + stem + ".heatmap.png";
  }

  /** `Path(output).with_suffix('.heatmap.png')`, as a string, or the `ValueError` it raises. */
  function HeatmapPath(output: string): (r: Result<string, string>)
  {
    match WithSuffix(Parse(output), ".heatmap.png")
    case Success(p) => Success(Format(p))
    case Failure(e) => Failure(e)
  }

  /** A name ending in `.heatmap.png` has the suffix `.png`. */
  lemma HeatmapNameSuffix(stem: string)
    requires stem != ""
    ensures Suffix(stem + ".heatmap.png") == ".png"
    ensures Stem(stem + ".heatmap.png") == stem + ".heatmap"
  {
    var n := stem + ".heatmap.png";
    var i := |n| - 4;
    assert n[i..] == ".png";
    assert n[..i] == stem + ".heatmap";
    assert n[i] == '.' && n[i + 1] != '.' && n[i + 2] != '.' && n[i + 3] != '.';
    assert RFind(n, '.') == i;
  }

  /** The heatmap path exists exactly when the output path has a final component; it then
      sits in the same directory and its name is the output's stem followed by
      `.heatmap.png`, so its own suffix is `.png`. */
  lemma HeatmapPathShape(output: string)
    ensures HeatmapPath(output).Success? <==> Name(Parse(output)) != ""
    ensures HeatmapPath(output).Success? ==>
      var out, heat := Parse(output), Parse(HeatmapPath(output).value);
      && heat.absolute == out.absolute
      && Parent(heat) == Parent(out)
      && Name(heat) == Stem(Name(out)) + ".heatmap.png"
      && Suffix(Name(heat)) == ".png"
  {
    var out := Parse(output);
    assert ValidSuffix(".heatmap.png");
    if Name(out) != "" {
      var q := WithSuffix(out, ".heatmap.png").value;
      WithSuffixValid(out, ".heatmap.png");
      ParseFormat(q);
      StemSuffix(Name(out));
      HeatmapNameSuffix(Stem(Name(out)));
    }
  }

  // ---------------------------------------------------------------------------------------
  // Progress printing

  /** `show_progress(current, total)` prints a line exactly when this holds. */
  predicate ShowProgress(current: int, total: int) {
    total > 0 && current % 30 == 0
  }

  /** The frame numbers `show_progress` prints for a sequence of callback calls, in order. */
  function Printed(calls: seq<Event>): seq<int> {
    if calls == [] then []
    else
      var c := calls[0];
      (if c.ProgressReported? && ShowProgress(c.current, c.total) then [c.current] else []) + Printed(calls[1..])
  }

  /** For the callback calls `i, i+1, ..., n-1` with one total, the printed frame numbers are
      the multiples of 30 in that range, in increasing order, and none at all when the total
      is not positive, as for a live source reporting -1. */
  lemma {:induction false} PrintedCounted(i: nat, n: nat, total: int)
    ensures forall j :: j in Printed(Counted(i, n, total)) <==> total > 0 && i <= j < n && j % 30 == 0
    ensures forall a, b :: 0 <= a < b < |Printed(Counted(i, n, total))| ==>
      Printed(Counted(i, n, total))[a] < Printed(Counted(i, n, total))[b]
    decreases n - i
  {
    if i < n {
      var calls := Counted(i, n, total);
      var head := if total > 0 && i % 30 == 0 then [i] else [];
      var rest := Printed(Counted(i + 1, n, total));
      assert Printed(calls) == head + rest by {
        assert calls[0] == ProgressReported(i, total);
        assert calls[1..] == Counted(i + 1, n, total);
      }
      PrintedCounted(i + 1, n, total);
      assert forall j :: j in head + rest <==> j in head || j in rest;
      IncreasingCons(i, head, rest);
    }
  }

  /** Putting a smaller number in front of an increasing list keeps it increasing. */
  lemma IncreasingCons(i: int, head: seq<int>, rest: seq<int>)
    requires head == [] || head == [i]
    requires forall j :: j in rest ==> i < j
    requires forall a, b :: 0 <= a < b < |rest| ==> rest[a] < rest[b]
    ensures forall a, b :: 0 <= a < b < |head + rest| ==> (head + rest)[a] < (head + rest)[b]
  {
    var p := head + rest;
    forall a, b | 0 <= a < b < |p|
      ensures p[a] < p[b]
    {
      assert p[b] == rest[b - |head|];
      assert rest[b - |head|] in rest;
      if a >= |head| {
        assert p[a] == rest[a - |head|];
      } else {
        assert p[a] == i;
      }
    }
  }

  // ---------------------------------------------------------------------------------------
  // Status overlay

  /** `f"Frame: {frame_number} | Objects: {len(tracked_objects)}"`, the frame number
      defaulting to 0. */
  function StatusText(ctx: Context): string {
    "Frame: " + Str(ctx.metadata.frameNumber.GetOr(0)) + " | Objects: " + Str(|ctx.trackedObjects|)
  }

  /** `add_status_overlay`: puts the status text at (10, 30), scale 0.7, green, thickness 2. */
  function AddStatusOverlay(frame: Frame, ctx: Context): Frame {
    frame.(marks := frame.marks + [PutText(StatusText(ctx), Point(10, 30), 0.7, Bgr(0, 255, 0), 2)])
  }

  /** Two strings without spaces, each followed by text that starts with a space, can only be
      equal as wholes if they are equal. */
  lemma UpToSpace(a: string, t: string, b: string, u: string)
    requires ' ' !in a && ' ' !in b
    requires |t| > 0 && t[0] == ' ' && |u| > 0 && u[0] == ' '
    requires a + t == b + u
    ensures a == b && t == u
  {
    assert (a + t)[|a|] == ' ';
    assert (b + u)[|b|] == ' ';
    assert |a| == |b|;
    assert a == (a + t)[..|a|] && b == (b + u)[..|b|];
    assert t == (a + t)[|a|..] && u == (b + u)[|b|..];
  }

  /** The status line of frame `f` with `c` objects determines both numbers. */
  lemma StatusLineInjective(f: int, c: int, g: int, d: int)
    requires "Frame: " + Str(f) + " | Objects: " + Str(c) == "Frame: " + Str(g) + " | Objects: " + Str(d)
    ensures f == g && c == d
  {
    var head, mid := "Frame: ", " | Objects: ";
    var fa, fb, ca, cb := Str(f), Str(g), Str(c), Str(d);
    var x, y := fa + (mid + ca), fb + (mid + cb);
    assert head + fa + mid + ca == head + x;
    assert head + fb + mid + cb == head + y;
    assert x == (head + x)[7..] && y == (head + y)[7..];
    assert ' ' !in fa && ' ' !in fb;
    UpToSpace(fa, mid + ca, fb, mid + cb);
    assert ca == (mid + ca)[12..] && cb == (mid + cb)[12..];
    StrInjective(f, g);
    StrInjective(c, d);
  }

  /** The status text tells the frame number and the object count apart: two contexts give
      the same text exactly when they agree on both. */
  lemma StatusTextDecides(a: Context, b: Context)
    ensures StatusText(a) == StatusText(b)
        <==> a.metadata.frameNumber.GetOr(0) == b.metadata.frameNumber.GetOr(0)
             && |a.trackedObjects| == |b.trackedObjects|
  {
    if StatusText(a) == StatusText(b) {
      StatusLineInjective(a.metadata.frameNumber.GetOr(0), |a.trackedObjects|,
                          b.metadata.frameNumber.GetOr(0), |b.trackedObjects|);
    }
  }

  /** The post-processors `process_file` registers: the overlay with `--show-status` only. */
  function FileProcessors(showStatus: bool): (ps: seq<Processor>)
    ensures |ps| == if showStatus then 1 else 0
    ensures forall k :: 0 <= k < |ps| ==> ps[k] == AddStatusOverlay
  {
    if showStatus then [AddStatusOverlay] else []
  }

  /** With the overlay registered, the frame `process_frame` returns is the visualizer's
      output with the status text of this very frame drawn last on top. */
  lemma OverlayDrawnLast(detect: Detector, v: TrajectoryVisualizer, store: Trajectories, frame: Frame,
                         metadata: Option<Metadata>, a: Association)
    requires v.Valid() && a.WellFormed()
    ensures var r := FrameStep(Stages(detect, v, [AddStatusOverlay]), store, frame, metadata, a).0;
      var drawn := Render(v, frame, r.trackedObjects);
      && r.frame.marks == drawn.marks + [PutText(StatusText(Context(r.detections, r.trackedObjects, r.metadata)),
                                                 Point(10, 30), 0.7, Bgr(0, 255, 0), 2)]
      && r.frame.height == frame.height && r.frame.width == frame.width
  {
    FrameStepRegistration(Stages(detect, v, []), AddStatusOverlay, store, frame, metadata, a);
    assert [] + [AddStatusOverlay] == [AddStatusOverlay];
    FrameStepPlain(Stages(detect, v, []), store, frame, metadata, a);
  }

  /** Every frame `process_file` produces is the visualizer's output, with the status text of
      that frame drawn last on top exactly when `--show-status` is given. */
  lemma FileFrameStatus(showStatus: bool, detect: Detector, v: TrajectoryVisualizer, store: Trajectories,
                        frame: Frame, metadata: Option<Metadata>, a: Association)
    requires v.Valid() && a.WellFormed()
    ensures var r := FrameStep(Stages(detect, v, FileProcessors(showStatus)), store, frame, metadata, a).0;
      var drawn := Render(v, frame, r.trackedObjects);
      && r.frame.height == frame.height && r.frame.width == frame.width
      && r.frame.marks == drawn.marks
           + (if showStatus
              then [PutText(StatusText(Context(r.detections, r.trackedObjects, r.metadata)),
                            Point(10, 30), 0.7, Bgr(0, 255, 0), 2)]
              else [])
  {
    if showStatus {
      OverlayDrawnLast(detect, v, store, frame, metadata, a);
    } else {
      FrameStepPlain(Stages(detect, v, []), store, frame, metadata, a);
      RenderKeepsFrame(v, frame, FrameStep(Stages(detect, v, []), store, frame, metadata, a).0.trackedObjects);
    }
  }

  /** The output path of `process_file` without `-o` is never empty, so the annotated video is
      always written then. */
  lemma DefaultOutputWritten(input: string)
    ensures DefaultOutput(input) != ""
  {
    var inp := Parse(input);
    var q := PurePath(inp.absolute, Parent(inp).parts + [TrackedName(Name(inp))]);
    DefaultOutputParts(input);
    assert ValidPart(q.parts[0]);
    JoinStartsWithFirst(q.parts, '/');
  }

  // ---------------------------------------------------------------------------------------
  // process_file

  /** The arguments of the `file` command that the model uses. */
  datatype FileArgs = FileArgs(input: string, output: Option<string>, showStatus: bool, noPreview: bool,
                               quiet: bool, heatmap: bool)

  /** How a command ends: with its return code, or with an exception that escapes it. */
  datatype Outcome = Exited(code: int) | Raised(error: string)

  /** The switches `process_file` hands to `process_video`. */
  function FileOptions(args: FileArgs): Options {
    Options(!args.noPreview, HasOutput(Some(OutputPath(args.input, args.output))), !args.quiet)
  }

  /** The read loop of `process_file`, from a fresh tracker. */
  function FileRun(args: FileArgs, detect: Detector, v: TrajectoryVisualizer, video: Video): Run
    requires v.Valid() && AllWellFormed(video.captures)
  {
    RunFrom(Stages(detect, v, FileProcessors(args.showStatus)), video.properties, video.captures,
            FileOptions(args), map[], 0)
  }

  /** `process_file(args)`, given what opening the input yields (`None` when `VideoFileSource`
      raises): how it ends and what it emits. */
  function FileCommand(args: FileArgs, detect: Detector, v: TrajectoryVisualizer, source: Option<Video>)
    : (Outcome, seq<Event>)
    requires v.Valid() && (source.Some? ==> AllWellFormed(source.value.captures))
  {
    if source.None? then (Exited(1), [])
    else
      var video := source.value;
      var output := OutputPath(args.input, args.output);
      var r := FileRun(args, detect, v, video);
      var events := VideoEvents(video.properties, Some(output), FileOptions(args), r.log);
      if !args.heatmap then (Exited(0), events)
      else match HeatmapPath(output)
        case Failure(e) => (Raised(e), events)
        case Success(path) =>
          (Exited(0), events + [ImageWritten(path, HeatmapImage((video.properties.height, video.properties.width), r.store))])
  }

  /** `process_file` returns 1 exactly when the input cannot be opened, and then emits nothing;
      the only exception that escapes it is `with_suffix` refusing an output path without a
      name when a heatmap is asked for; otherwise it emits the video's events followed, with
      `--heatmap`, by the heatmap of every trajectory tracked, written next to the output. */
  lemma FileCommandOutcome(args: FileArgs, detect: Detector, v: TrajectoryVisualizer, source: Option<Video>)
    requires v.Valid() && (source.Some? ==> AllWellFormed(source.value.captures))
    ensures var c := FileCommand(args, detect, v, source);
      && (c.0 == Exited(1) <==> source.None?)
      && (source.None? ==> c.1 == [])
    ensures source.Some? ==>
      var c := FileCommand(args, detect, v, source);
      var output := OutputPath(args.input, args.output);
      var r := FileRun(args, detect, v, source.value);
      var props := source.value.properties;
      && (c.0.Raised? <==> args.heatmap && Name(Parse(output)) == "")
      && (!c.0.Raised? ==> c.0 == Exited(0))
      && c.1 == VideoEvents(props, Some(output), FileOptions(args), r.log)
                + (if args.heatmap && Name(Parse(output)) != ""
                   then [ImageWritten(HeatmapPath(output).value, HeatmapImage((props.height, props.width), r.store))]
                   else [])
  {
    if source.Some? {
      HeatmapPathShape(OutputPath(args.input, args.output));
    }
  }

  /** What `show_progress` prints over a whole file: with `--quiet` nothing; otherwise the
      frame numbers below the number of frames processed that are multiples of 30, in
      increasing order, and nothing at all when the source does not know its frame count. */
  lemma FileProgressPrinted(args: FileArgs, detect: Detector, v: TrajectoryVisualizer, video: Video)
    requires v.Valid() && AllWellFormed(video.captures)
    ensures var r := FileRun(args, detect, v, video);
      && (args.quiet ==> Printed(Progress(r.log)) == [])
      && (forall j :: j in Printed(Progress(r.log)) <==>
            !args.quiet && TotalFrames(video.properties) > 0 && 0 <= j < r.framesProcessed && j % 30 == 0)
      && (forall a, b :: 0 <= a < b < |Printed(Progress(r.log))| ==>
            Printed(Progress(r.log))[a] < Printed(Progress(r.log))[b])
  {
    var r := FileRun(args, detect, v, video);
    RunProgress(Stages(detect, v, FileProcessors(args.showStatus)), video.properties, video.captures,
                FileOptions(args), map[], 0);
    PrintedCounted(0, r.framesProcessed, TotalFrames(video.properties));
  }

  /** `process_file(args)`. Builds the pipeline, registering the status overlay with
      `--show-status`, picks the output path, runs the video, and with `--heatmap` writes the
      heatmap of the final store next to the output. */
  method ProcessFile(args: FileArgs, detect: Detector, visualizer: TrajectoryVisualizer, source: Option<Video>)
    returns (outcome: Outcome, events: seq<Event>)
    requires visualizer.Valid() && (source.Some? ==> AllWellFormed(source.value.captures))
    ensures (outcome, events) == FileCommand(args, detect, visualizer, source)
  {
    var tracker := new ObjectTracker();
    var pipeline := new TrackingPipeline(detect, tracker, visualizer);
    if args.showStatus {
      pipeline.AddFrameProcessor(AddStatusOverlay);
    }
    assert pipeline.Setup() == Stages(detect, visualizer, FileProcessors(args.showStatus));
    var output := if args.output.None? then DefaultOutput(args.input) else args.output.value;
    if source.None? {
      return Exited(1), [];
    }
    var summary;
    summary, events := pipeline.ProcessVideo(source.value, Some(output), !args.noPreview, !args.quiet);
    outcome := Exited(0);
    if args.heatmap {
      var props := summary.sourceProperties;
      var heatmap := pipeline.GenerateHeatmap((props.height, props.width));
      var path := HeatmapPath(output);
      if path.Failure? {
        outcome := Raised(path.error);
      } else {
        events := events + [ImageWritten(path.value, heatmap)];
      }
    }
  }

  // ---------------------------------------------------------------------------------------
  // process_webcam

  /** The arguments of the `webcam` command that the model uses: `--save` and the output
      directory. */
  datatype WebcamArgs = WebcamArgs(save: bool, output: string)

  /** `str(Path(directory) / file)`. */
  function InDirectory(directory: string, file: string): string {
    Format(Div(Parse(directory), file))
  }

  /** Where `--save` records: `webcam_<timestamp>.mp4` in the output directory. */
  function RecordingPath(output: string, stamp: string): string {
    InDirectory(output, "webcam_" + stamp + ".mp4")
  }

  /** Where `s` saves the frame: `screenshot_<timestamp>.png` in the output directory. */
  function ScreenshotPath(output: string, stamp: string): string {
    InDirectory(output, "screenshot_" + stamp + ".png")
  }

  /** Where `h` saves the heatmap: `heatmap_<timestamp>.png` in the output directory. */
  function SnapshotHeatmapPath(output: string, stamp: string): string {
    InDirectory(output, "heatmap_" + stamp + ".png")
  }

  /** A file named by a single component lands directly inside the directory. */
  lemma InDirectoryShape(directory: string, file: string)
    requires ValidPart(file)
    ensures Parse(InDirectory(directory, file)) == PurePath(Parse(directory).absolute, Parse(directory).parts + [file])
    ensures Name(Parse(InDirectory(directory, file))) == file
    ensures Parent(Parse(InDirectory(directory, file))) == Parse(directory)
  {
    var q := Div(Parse(directory), file);
    DivPart(Parse(directory), file);
    assert q.parts[..|q.parts| - 1] == Parse(directory).parts;
    ParseFormat(q);
  }

  /** With a timestamp free of separators, the recording, the screenshots and the heatmaps are
      all files directly inside the output directory, under their stamped names. */
  lemma StampedFilesInDirectory(output: string, stamp: string)
    requires '/' !in stamp
    ensures Parse(RecordingPath(output, stamp)) == PurePath(Parse(output).absolute, Parse(output).parts + ["webcam_" + stamp + ".mp4"])
    ensures Parse(ScreenshotPath(output, stamp)) == PurePath(Parse(output).absolute, Parse(output).parts + ["screenshot_" + stamp + ".png"])
    ensures Parse(SnapshotHeatmapPath(output, stamp)) == PurePath(Parse(output).absolute, Parse(output).parts + ["heatmap_" + stamp + ".png"])
  {
    assert '/' !in "webcam_" && '/' !in ".mp4" && '/' !in "screenshot_" && '/' !in "heatmap_" && '/' !in ".png";
    assert ("webcam_" + stamp + ".mp4")[0] == 'w';
    assert ("screenshot_" + stamp + ".png")[0] == 's';
    assert ("heatmap_" + stamp + ".png")[0] == 'h';
    InDirectoryShape(output, "webcam_" + stamp + ".mp4");
    InDirectoryShape(output, "screenshot_" + stamp + ".png");
    InDirectoryShape(output, "heatmap_" + stamp + ".png");
  }

  /** The state the webcam loop leaves: the frame counter, the store of the tracker in use, the
      events, and whether it ended in an exception (a read reporting success without a frame,
      which `process_frame` cannot handle). */
  datatype Session = Session(frameCount: nat, store: Trajectories, log: seq<Event>, failed: bool)

  /** The events of one processed frame before the key is looked at: written when recording,
      then shown. */
  function WebcamOut(save: bool, visFrame: Frame): seq<Event> {
    (if save then [FrameWritten(visFrame)] else []) + [Shown("Webcam Tracking", visFrame)]
  }

  /** The file a key writes: the frame for `s`, the heatmap of the current store for `h`. */
  function Saved(output: string, props: Properties, c: Capture, visFrame: Frame, store: Trajectories): seq<Event> {
    if IsKey(c.key, 's') then [ImageWritten(ScreenshotPath(output, c.stamp), FrameImage(visFrame))]
    else if IsKey(c.key, 'h') then
      [ImageWritten(SnapshotHeatmapPath(output, c.stamp), HeatmapImage((props.height, props.width), store))]
    else []
  }

  /** The store the next frame starts from: a fresh tracker's after `r`. */
  function NextStore(key: int, store: Trajectories): Trajectories {
    if IsKey(key, 'r') then map[] else store
  }

  /** The loop of `process_webcam` from read number `i` on, with the store it starts from. */
  function WebcamFrom(s: Stages, props: Properties, captures: seq<Capture>, args: WebcamArgs,
                      store: Trajectories, i: nat): Session
    requires s.Valid() && AllWellFormed(captures)
    decreases |captures| - i
  {
    if i >= |captures| || !captures[i].ok then Session(i, store, [], false)
    else if captures[i].frame.None? then Session(i, store, [], true)
    else
      var c := captures[i];
      var step := FrameStep(s, store, c.frame.value, Some(Metadata(Some(i), Some(props))), c.association);
      var out := WebcamOut(args.save, step.0.frame);
      if IsKey(c.key, 'q') then Session(i, step.1, out, false)
      else
        var rest := WebcamFrom(s, props, captures, args, NextStore(c.key, step.1), i + 1);
        rest.(log := out + Saved(args.output, props, c, step.0.frame, step.1) + rest.log)
  }

  /** One iteration of the webcam loop, in terms of the step that `process_frame` takes. */
  lemma WebcamFromNext(s: Stages, props: Properties, captures: seq<Capture>, args: WebcamArgs,
                       store: Trajectories, i: nat, result: FrameResult, after: Trajectories)
    requires s.Valid() && AllWellFormed(captures) && Delivers(captures, i)
    requires (result, after) == FrameStep(s, store, captures[i].frame.value, Some(Metadata(Some(i), Some(props))), captures[i].association)
    ensures var c := captures[i];
      var rest := WebcamFrom(s, props, captures, args, NextStore(c.key, after), i + 1);
      WebcamFrom(s, props, captures, args, store, i)
      == if IsKey(c.key, 'q') then Session(i, after, WebcamOut(args.save, result.frame), false)
         else rest.(log := WebcamOut(args.save, result.frame) + Saved(args.output, props, c, result.frame, after) + rest.log)
  {
  }

  /** The session `process_webcam` runs on an opened camera: a fresh tracker, the status
      overlay registered. */
  function WebcamSession(args: WebcamArgs, detect: Detector, v: TrajectoryVisualizer, camera: Video): Session
    requires v.Valid() && AllWellFormed(camera.captures)
  {
    WebcamFrom(Stages(detect, v, [AddStatusOverlay]), camera.properties, camera.captures, args, map[], 0)
  }

  /** Everything an opened camera session emits: the recorder opened with `--save`, the loop's
      events, then the `finally` block's release and window teardown. */
  function WebcamEvents(args: WebcamArgs, props: Properties, startStamp: string, log: seq<Event>): seq<Event> {
    (if args.save then [WriterOpened(RecordingPath(args.output, startStamp), "mp4v", props.fps, props.width, props.height)] else [])
    + log
    + (if args.save then [WriterReleased] else [])
    + [WindowsDestroyed]
  }

  /** Whether read `j` is processed and then quits with `q`. */
  predicate WebcamQuits(captures: seq<Capture>, j: nat) {
    Delivers(captures, j) && IsKey(captures[j].key, 'q')
  }

  /** The webcam loop stops at the first failed read, at the first read without a frame (then
      in an exception), or at the first frame on which `q` is pressed; the frame counter is
      the number of frames processed before that one, so the `q` frame is not counted. */
  lemma {:induction false} WebcamStops(s: Stages, props: Properties, captures: seq<Capture>, args: WebcamArgs,
                                       store: Trajectories, i: nat)
    requires s.Valid() && AllWellFormed(captures)
    ensures var w := WebcamFrom(s, props, captures, args, store, i);
      && i <= w.frameCount
      && (forall j :: i <= j < w.frameCount ==> Delivers(captures, j) && !IsKey(captures[j].key, 'q'))
      && (w.failed <==> w.frameCount < |captures| && captures[w.frameCount].ok && captures[w.frameCount].frame.None?)
      && (!Delivers(captures, w.frameCount) || WebcamQuits(captures, w.frameCount))
    decreases |captures| - i
  {
    var w := WebcamFrom(s, props, captures, args, store, i);
    if i >= |captures| || !captures[i].ok {
      assert w == Session(i, store, [], false);
    } else if captures[i].frame.None? {
      assert w == Session(i, store, [], true);
    } else {
      var c := captures[i];
      var step := FrameStep(s, store, c.frame.value, Some(Metadata(Some(i), Some(props))), c.association);
      WebcamFromNext(s, props, captures, args, store, i, step.0, step.1);
      if IsKey(c.key, 'q') {
        assert w.frameCount == i && !w.failed;
      } else {
        var rest := WebcamFrom(s, props, captures, args, NextStore(c.key, step.1), i + 1);
        assert w.frameCount == rest.frameCount && w.failed == rest.failed;
        WebcamStops(s, props, captures, args, NextStore(c.key, step.1), i + 1);
      }
    }
  }

  /** A key press writes no frame to the recording and shows nothing. */
  lemma SavedFilters(output: string, props: Properties, c: Capture, visFrame: Frame, store: Trajectories)
    ensures Writes(Saved(output, props, c, visFrame, store)) == []
    ensures Shows(Saved(output, props, c, visFrame, store)) == []
  {
  }

  /** One processed frame is shown, and written first when recording. */
  lemma WebcamOutFilters(save: bool, visFrame: Frame)
    ensures Shows(WebcamOut(save, visFrame)) == [Shown("Webcam Tracking", visFrame)]
    ensures Writes(WebcamOut(save, visFrame)) == if save then [FrameWritten(visFrame)] else []
  {
    var w := if save then [FrameWritten(visFrame)] else [];
    FiltersAppend(w, [Shown("Webcam Tracking", visFrame)]);
    assert Shows(w) == [];
  }

  /** The frames `process_frame` returns over the webcam loop from read `i` on, in order: one
      per processed frame, the one on which `q` is pressed included. */
  function WebcamFrames(s: Stages, props: Properties, captures: seq<Capture>, store: Trajectories, i: nat): seq<Frame>
    requires s.Valid() && AllWellFormed(captures)
    decreases |captures| - i
  {
    if !Delivers(captures, i) then []
    else
      var c := captures[i];
      var step := FrameStep(s, store, c.frame.value, Some(Metadata(Some(i), Some(props))), c.association);
      if IsKey(c.key, 'q') then [step.0.frame]
      else [step.0.frame] + WebcamFrames(s, props, captures, NextStore(c.key, step.1), i + 1)
  }

  /** A counted frame puts its own frame in front of what the rest of the session shows and
      records. */
  lemma CountedFrameFilters(save: bool, visFrame: Frame, saved: seq<Event>, rest: seq<Event>, frames: seq<Frame>)
    requires Writes(saved) == [] && Shows(saved) == []
    requires Shows(rest) == Displayed("Webcam Tracking", frames)
    requires Writes(rest) == if save then Written(frames) else []
    ensures Shows(WebcamOut(save, visFrame) + saved + rest) == Displayed("Webcam Tracking", [visFrame] + frames)
    ensures Writes(WebcamOut(save, visFrame) + saved + rest) == if save then Written([visFrame] + frames) else []
  {
    SkipMiddle(WebcamOut(save, visFrame), saved, rest);
    WebcamOutFilters(save, visFrame);
    WrittenCons("Webcam Tracking", visFrame, frames);
  }

  /** There is one frame per processed read: the counted ones and the one on which `q` is
      pressed. */
  lemma {:induction false} WebcamFramesCount(s: Stages, props: Properties, captures: seq<Capture>, args: WebcamArgs,
                                             store: Trajectories, i: nat)
    requires s.Valid() && AllWellFormed(captures)
    ensures var w := WebcamFrom(s, props, captures, args, store, i);
      && i <= w.frameCount
      && |WebcamFrames(s, props, captures, store, i)| == w.frameCount - i + (if WebcamQuits(captures, w.frameCount) then 1 else 0)
    decreases |captures| - i
  {
    if Delivers(captures, i) {
      var c := captures[i];
      var step := FrameStep(s, store, c.frame.value, Some(Metadata(Some(i), Some(props))), c.association);
      WebcamFromNext(s, props, captures, args, store, i, step.0, step.1);
      if !IsKey(c.key, 'q') {
        WebcamFramesCount(s, props, captures, args, NextStore(c.key, step.1), i + 1);
      }
    }
  }

  /** The webcam log shows every processed frame, in the order `process_frame` returned them,
      and with `--save` records the same frames in the same order. */
  lemma {:induction false} WebcamFramesLogged(s: Stages, props: Properties, captures: seq<Capture>, args: WebcamArgs,
                                              store: Trajectories, i: nat)
    requires s.Valid() && AllWellFormed(captures)
    ensures var w := WebcamFrom(s, props, captures, args, store, i);
      var frames := WebcamFrames(s, props, captures, store, i);
      && Shows(w.log) == Displayed("Webcam Tracking", frames)
      && Writes(w.log) == if args.save then Written(frames) else []
    decreases |captures| - i
  {
    var w := WebcamFrom(s, props, captures, args, store, i);
    if !Delivers(captures, i) {
      assert w.log == [];
    } else {
      var c := captures[i];
      var step := FrameStep(s, store, c.frame.value, Some(Metadata(Some(i), Some(props))), c.association);
      var f := step.0.frame;
      WebcamFromNext(s, props, captures, args, store, i, step.0, step.1);
      if IsKey(c.key, 'q') {
        assert w.log == WebcamOut(args.save, f);
        assert WebcamFrames(s, props, captures, store, i) == [f];
        WebcamOutFilters(args.save, f);
        WrittenOne("Webcam Tracking", f);
      } else {
        var saved := Saved(args.output, props, c, f, step.1);
        var rest := WebcamFrom(s, props, captures, args, NextStore(c.key, step.1), i + 1);
        var frames := WebcamFrames(s, props, captures, NextStore(c.key, step.1), i + 1);
        assert w.log == WebcamOut(args.save, f) + saved + rest.log;
        assert WebcamFrames(s, props, captures, store, i) == [f] + frames;
        WebcamFramesLogged(s, props, captures, args, NextStore(c.key, step.1), i + 1);
        SavedFilters(args.output, props, c, f, step.1);
        CountedFrameFilters(args.save, f, saved, rest.log, frames);
      }
    }
  }

  /** Every processed frame is shown once and, with `--save`, recorded once, in the order
      `process_frame` returned them: the counted ones and the one on which `q` is pressed; so
      the frame counter is the number of frames shown, less one after `q`. */
  lemma WebcamShows(s: Stages, props: Properties, captures: seq<Capture>, args: WebcamArgs,
                    store: Trajectories, i: nat)
    requires s.Valid() && AllWellFormed(captures)
    ensures var w := WebcamFrom(s, props, captures, args, store, i);
      var frames := WebcamFrames(s, props, captures, store, i);
      && i <= w.frameCount
      && |Shows(w.log)| == |frames| == w.frameCount - i + (if WebcamQuits(captures, w.frameCount) then 1 else 0)
      && (forall k :: 0 <= k < |frames| ==> Shows(w.log)[k] == Shown("Webcam Tracking", frames[k]))
      && |Writes(w.log)| == (if args.save then |frames| else 0)
      && (forall k :: 0 <= k < |Writes(w.log)| ==> Writes(w.log)[k] == FrameWritten(frames[k]))
  {
    WebcamFramesCount(s, props, captures, args, store, i);
    WebcamFramesLogged(s, props, captures, args, store, i);
    WrittenIndex("Webcam Tracking", WebcamFrames(s, props, captures, store, i));
  }

  /** `r` forgets everything tracked so far: from the frame on which it is pressed, whatever
      store the session had, the rest of the session is the same, and only that frame's own
      events (drawn from the old trajectories) can differ. */
  lemma ResetForgets(s: Stages, props: Properties, captures: seq<Capture>, args: WebcamArgs,
                     store1: Trajectories, store2: Trajectories, i: nat)
    requires s.Valid() && AllWellFormed(captures)
    requires Delivers(captures, i) && IsKey(captures[i].key, 'r')
    ensures var a, b := WebcamFrom(s, props, captures, args, store1, i), WebcamFrom(s, props, captures, args, store2, i);
      var k := if args.save then 2 else 1;
      && a.frameCount == b.frameCount && a.store == b.store && a.failed == b.failed
      && |a.log| == |b.log| && k <= |a.log| && a.log[k..] == b.log[k..]
  {
    var c := captures[i];
    var meta := Some(Metadata(Some(i), Some(props)));
    var step1 := FrameStep(s, store1, c.frame.value, meta, c.association);
    var step2 := FrameStep(s, store2, c.frame.value, meta, c.association);
    WebcamFromNext(s, props, captures, args, store1, i, step1.0, step1.1);
    WebcamFromNext(s, props, captures, args, store2, i, step2.0, step2.1);
    var rest := WebcamFrom(s, props, captures, args, map[], i + 1);
    var out1, out2 := WebcamOut(args.save, step1.0.frame), WebcamOut(args.save, step2.0.frame);
    assert Saved(args.output, props, c, step1.0.frame, step1.1) == [];
    assert Saved(args.output, props, c, step2.0.frame, step2.1) == [];
    assert (out1 + [] + rest.log)[|out1|..] == rest.log;
    assert (out2 + [] + rest.log)[|out2|..] == rest.log;
  }

  /** The `elif` chain on the key of a frame that did not quit: `s` saves the frame, `h` the
      heatmap of the current store, `r` puts a fresh tracker into the pipeline. */
  method HandleKey(pipeline: TrackingPipeline, props: Properties, args: WebcamArgs, capture: Capture, visFrame: Frame)
    returns (saved: seq<Event>)
    modifies pipeline
    ensures pipeline.Setup() == old(pipeline.Setup())
    ensures pipeline.tracker == old(pipeline.tracker) || fresh(pipeline.tracker)
    ensures saved == Saved(args.output, props, capture, visFrame, old(pipeline.tracker.tracks))
    ensures pipeline.tracker.tracks == NextStore(capture.key, old(pipeline.tracker.tracks))
  {
    saved := [];
    if IsKey(capture.key, 's') {
      saved := [ImageWritten(ScreenshotPath(args.output, capture.stamp), FrameImage(visFrame))];
    } else if IsKey(capture.key, 'h') {
      var heatmap := pipeline.GenerateHeatmap((props.height, props.width));
      saved := [ImageWritten(SnapshotHeatmapPath(args.output, capture.stamp), heatmap)];
    } else if IsKey(capture.key, 'r') {
      pipeline.tracker := new ObjectTracker();
    }
  }

  /** The `while True` loop of `process_webcam` over an opened camera: processes each frame,
      records and shows it, then acts on the key; `r` puts a fresh tracker into the pipeline. */
  method WebcamLoop(pipeline: TrackingPipeline, props: Properties, captures: seq<Capture>, args: WebcamArgs)
    returns (frameCount: nat, log: seq<Event>, failed: bool)
    requires pipeline.visualizer.Valid() && AllWellFormed(captures)
    modifies pipeline, pipeline.tracker
    ensures pipeline.Setup() == old(pipeline.Setup())
    ensures var w := WebcamFrom(old(pipeline.Setup()), props, captures, args, old(pipeline.tracker.tracks), 0);
      && frameCount == w.frameCount && log == w.log && failed == w.failed && pipeline.tracker.tracks == w.store
  {
    ghost var setup := pipeline.Setup();
    ghost var total := WebcamFrom(setup, props, captures, args, pipeline.tracker.tracks, 0);
    frameCount, log, failed := 0, [], false;
    while true
      invariant frameCount <= |captures|
      invariant pipeline.Setup() == setup
      invariant pipeline.tracker == old(pipeline.tracker) || fresh(pipeline.tracker)
      invariant log + WebcamFrom(setup, props, captures, args, pipeline.tracker.tracks, frameCount).log == total.log
      invariant WebcamFrom(setup, props, captures, args, pipeline.tracker.tracks, frameCount).store == total.store
      invariant WebcamFrom(setup, props, captures, args, pipeline.tracker.tracks, frameCount).frameCount == total.frameCount
      invariant WebcamFrom(setup, props, captures, args, pipeline.tracker.tracks, frameCount).failed == total.failed
      invariant !failed
      decreases |captures| - frameCount
    {
      if frameCount >= |captures| || !captures[frameCount].ok {
        break;
      }
      var capture := captures[frameCount];
      if capture.frame.None? {
        failed := true;
        break;
      }
      ghost var before := pipeline.tracker.tracks;
      var result := pipeline.ProcessFrame(capture.frame.value, Some(Metadata(Some(frameCount), Some(props))), capture.association);
      ghost var after := pipeline.tracker.tracks;
      WebcamFromNext(setup, props, captures, args, before, frameCount, result, after);
      var visFrame := result.frame;
      ghost var logBefore := log;
      ghost var out := WebcamOut(args.save, visFrame);
      if args.save {
        log := log + [FrameWritten(visFrame)];
      }
      log := log + [Shown("Webcam Tracking", visFrame)];
      assert log == logBefore + out;
      if IsKey(capture.key, 'q') {
        break;
      }
      var saved := HandleKey(pipeline, props, args, capture, visFrame);
      log := log + saved;
      assert log == logBefore + out + saved;
      AppendAssoc(logBefore, out, saved);
      ghost var rest := WebcamFrom(setup, props, captures, args, pipeline.tracker.tracks, frameCount + 1);
      AppendAssoc(logBefore, out + saved, rest.log);
      frameCount := frameCount + 1;
    }
  }

  /** `process_webcam(args)`, given what opening the camera yields (`None` when `WebcamSource`
      raises) and the timestamp taken when recording starts. Builds the pipeline with the status
      overlay, opens the recorder with `--save`, runs the loop, and always releases the recorder
      and closes the windows; returns the code, the final frame counter and the events. */
  method ProcessWebcam(args: WebcamArgs, detect: Detector, visualizer: TrajectoryVisualizer, camera: Option<Video>,
                       startStamp: string)
    returns (outcome: Outcome, frames: nat, events: seq<Event>)
    requires visualizer.Valid() && (camera.Some? ==> AllWellFormed(camera.value.captures))
    ensures camera.None? ==> outcome == Exited(1) && frames == 0 && events == [WindowsDestroyed]
    ensures camera.Some? ==>
      var w := WebcamSession(args, detect, visualizer, camera.value);
      && outcome == (if w.failed then Exited(1) else Exited(0))
      && frames == w.frameCount
      && events == WebcamEvents(args, camera.value.properties, startStamp, w.log)
  {
    var tracker := new ObjectTracker();
    var pipeline := new TrackingPipeline(detect, tracker, visualizer);
    pipeline.AddFrameProcessor(AddStatusOverlay);
    assert pipeline.Setup() == Stages(detect, visualizer, [AddStatusOverlay]);
    if camera.None? {
      return Exited(1), 0, [WindowsDestroyed];
    }
    var props := camera.value.properties;
    var opening := [];
    if args.save {
      opening := [WriterOpened(RecordingPath(args.output, startStamp), "mp4v", props.fps, props.width, props.height)];
    }
    var log, failed;
    frames, log, failed := WebcamLoop(pipeline, props, camera.value.captures, args);
    var closing := [];
    if args.save {
      closing := [WriterReleased];
    }
    closing := closing + [WindowsDestroyed];
    ghost var released: seq<Event> := if args.save then [WriterReleased] else [];
    assert closing == released + [WindowsDestroyed];
    events := opening + log + closing;
    AppendAssoc(opening + log, released, [WindowsDestroyed]);
    outcome := if failed then Exited(1) else Exited(0);
  }
}
