# Trajector, modelled in Dafny

Trajector is a Python tool. It runs an object detector (YOLO) and a multi-object tracker
(ByteTrack) over a video file or a webcam stream, and draws each object's box, its id and
its recent trajectory on the frames. It can write the annotated video and save a heatmap of
all trajectories. This project models the part of it that the repository itself decides,
and proves properties of that model:

- **Trajectory store** (`Tracker`). `ObjectTracker` is a class whose `tracks` map (track id
  to its list of centre points) is updated in place by `Update`. ByteTrack's association for
  the call is an input: per row, an optional id, a box, and optional class-id and confidence
  columns.
- **Drawing plan** (`Visualizer`). Drawing is a list of draw commands on a `Frame` value:
  rectangle, text, line and circle with their integer parameters. `DrawFrame` builds the list
  with loops that mirror the source's object, segment and dot loops, and is proved equal to
  the specification `Render`. The same holds for the palette loop `GenerateColours`.
- **Pipeline** (`Pipeline`). `TrackingPipeline` is a class holding the tracker, the
  visualizer and the post-processors.
  - `ProcessFrame` runs them in order.
  - `ProcessVideo` runs the `while True` read loop. A video source is a list of read results.
    Each result carries the key `waitKey` returned and ByteTrack's association for that
    frame.
  - The writer, preview window and progress callback are recorded as a list of `Event`s.
- **Command line** (`Cli`, with `PathNames` for the `pathlib` operations it uses):
  - the default output name and the heatmap name;
  - the progress-print rule and the status overlay;
  - `process_file`, and `process_webcam` with its `q`/`s`/`h`/`r` keys and its frame counter.

Each state-changing method is proved against a pure function of the old state and the
inputs (`Track`, `Render`, `FrameStep`, `RunFrom`, `WebcamFrom`, `FileCommand`). Lemmas then
prove the properties of those functions.

## Model

| member | source | states |
|---|---|---|
| Geometry.TruncDiv | src/core/tracker.py:40-41 | Python's `int()` of a quotient truncates toward zero: for a non-negative numerator the result is the floor, for a negative one it rounds up |
| Geometry.Centre | src/core/tracker.py:40-41 | each centre coordinate lies between the box's two corner coordinates; it is their midpoint truncated toward zero: rounded down for a non-negative sum, rounded up for a negative one |
| Geometry.CentreExample | tests/unit/test_tracker.py:46-50 | boxes (100,100,200,200) and (300,300,400,400) have centres (150,150) and (350,350) |
| Tracker.StoreKeys | src/core/tracker.py:15 | recording rows adds every id that occurs to the key set and removes no key |
| Tracker.StoreHistory | src/core/tracker.py:38-44 | each id's list becomes its old list followed by the centres of its rows, in row order |
| Tracker.UnseenIdUnchanged | src/core/tracker.py:38-44 | an id not present in the rows keeps its list and its presence in the store |
| Tracker.HistoryGrows | src/core/tracker.py:44 | recording more rows only extends lists: earlier points keep their place and order |
| Tracker.ObjectsFollowRowOrder | src/core/tracker.py:37-55 | the returned objects' ids are the present ids of the rows in row order, with rows without an id skipped; there are no more objects than rows |
| Tracker.ObjectsAreSnapshots | src/core/tracker.py:40-52 | each object's centre is its box's centre; its trajectory extends its id's list from before the call, ends with its centre, and is a prefix of the list after the call |
| Tracker.MissingColumnsDefault | src/core/tracker.py:50-51 | a missing class-id column gives class id 0, and a missing confidence column gives confidence 1.0 |
| Tracker.TrackKeys | src/core/tracker.py:19-20 | an empty detection list returns no objects and leaves the store unchanged; otherwise the keys become the old keys plus the ids that occur |
| Tracker.TrackExample | tests/unit/test_tracker.py:22-50 | the unit test's two rows give objects 1 and 2 centred at (150,150) and (350,350) |
| Tracker.ObjectTracker.constructor | src/core/tracker.py:15 | a new tracker has an empty store |
| Tracker.ObjectTracker.Update | src/core/tracker.py:18-56 | the objects returned and the new store are those of `Track` on the old store; the key set only grows |
| Tracker.ObjectTracker.GetAllTrajectories | src/core/tracker.py:58-59 | returns a map with exactly the store's keys and the same point list for every key |
| Visualizer.HueInRange | src/core/visualizer.py:28-29 | the hue of entry i of n lies in [0, 179] |
| Visualizer.HueMonotone | src/core/visualizer.py:28-29 | the hue is non-decreasing in the index |
| Visualizer.GenerateColours | src/core/visualizer.py:26-32 | returns n entries (none for negative n); entry i is HSV (int(180*i/n), 255, 255); hues lie in [0, 179] and never decrease |
| Visualizer.NewVisualizer | src/core/visualizer.py:8-24 | keeps every setting; the palette has exactly 100 entries following the hue rule |
| Visualizer.ColourIndex | src/core/visualizer.py:39 | `id % 100` is always a valid palette index and is congruent to the id modulo 100, negative ids included |
| Visualizer.IdsApartShareColour | src/core/visualizer.py:39 | ids that differ by a multiple of 100 get the same palette entry |
| Visualizer.RecentPoints | src/core/visualizer.py:62 | `trajectory[-length:]` is a suffix of the trajectory: the last `length` points for a positive length, all of them for 0, all but the first `-length` points for a negative length |
| Visualizer.ThicknessBounds | src/core/visualizer.py:65-70 | each segment's thickness `max(1, int(T*i/n))` lies in [1, max(1, T-1)] |
| Visualizer.ThicknessMonotone | src/core/visualizer.py:65-70 | a later segment is never thinner than an earlier one |
| Visualizer.EveryFifth | src/core/visualizer.py:73 | `trajectory[::5]` holds ceil(n/5) points; point j is window point 5j |
| Visualizer.SegmentsShape | src/core/visualizer.py:63-70 | a window of n points gives n-1 segments first; segment i joins points i-1 and i, with its thickness in [1, max(1, T-1)] |
| Visualizer.SegmentsThicken | src/core/visualizer.py:63-70 | segment thickness never decreases towards the newest point |
| Visualizer.DotsShape | src/core/visualizer.py:73-75 | after the segments come ceil(n/5) filled dots on window points 0, 5, 10, …, each of radius exactly 1 |
| Visualizer.ObjectPlanShape | src/core/visualizer.py:42-58 | a box with thickness 2 from the bbox corners is drawn iff `show_bbox`; the label "ID: <id>" at (cx-20, cy-10) iff `show_id` |
| Visualizer.ObjectPlanColours | src/core/visualizer.py:39-75 | lines and dots appear only when the trail is drawn (trails on, more than one point); every command of an object uses its id's palette colour |
| Visualizer.PlanDotsAndSegments | src/core/visualizer.py:37-75 | over a whole frame, every dot has radius 1 and every segment's thickness lies in [1, max(1, T-1)] |
| Visualizer.RenderKeepsFrame | src/core/visualizer.py:35 | drawing goes onto a copy: size and content stay, the earlier marks stay a prefix, and no objects means the frame comes back unchanged |
| Visualizer.DrawSegments | src/core/visualizer.py:63-70 | the segment loop appends exactly the trail's segment commands |
| Visualizer.DrawDots | src/core/visualizer.py:73-75 | the dot loop completes the trail with its dot commands |
| Visualizer.DrawTrail | src/core/visualizer.py:61-75 | keeps the frame's size and content and appends the object's trail when it is drawn |
| Visualizer.DrawObject | src/core/visualizer.py:37-75 | one object-loop iteration appends exactly that object's plan |
| Visualizer.DrawFrame | src/core/visualizer.py:34-77 | the returned frame equals `Render`: the input with every object's plan appended, in list order |
| Pipeline.ApplyProcessorsAppend | src/processors/pipeline.py:65-70 | applying two groups of processors is applying the first group, then the second to its output |
| Pipeline.ApplyProcessorsFirst | src/processors/pipeline.py:65-70 | the first registered processor sees the visualizer's frame |
| Pipeline.FrameStepRegistration | src/processors/pipeline.py:29-35 | registering one more processor changes only the frame, which becomes that processor applied to the earlier result with its context |
| Pipeline.FrameStepPlain | src/processors/pipeline.py:55-62 | without processors the frame is the visualizer's output; with no detections nothing is tracked, the store is unchanged and the frame comes back as it was |
| Pipeline.RunFromNext | src/processors/pipeline.py:109-136 | one loop iteration: its written/shown events, then a stop on the quit key, or the progress call and the rest of the loop |
| Pipeline.RunStops | src/processors/pipeline.py:109-136 | the loop stops at the first read without a frame or the first frame quit with `q`; every read before that is counted, and the quit frame is not |
| Pipeline.RunProgress | src/processors/pipeline.py:133-134 | the callback receives 0, 1, 2, … once per counted frame, always with the source's total (-1 when unknown), and never for the quit frame |
| Pipeline.RunFrames | src/processors/pipeline.py:109-136 | over a run, the frames written and the frames shown are exactly the frames `process_frame` returned, one per handled frame (the quit frame included), in order; none are written without a writer and none shown without preview |
| Pipeline.RunWrites | src/processors/pipeline.py:123-124 | when a writer exists, written frame k is the k-th frame `process_frame` returned, for every handled frame, the quit frame included; nothing is written otherwise |
| Pipeline.RunShows | src/processors/pipeline.py:127-128 | when previewing, shown frame k in window "Tracking" is the k-th frame `process_frame` returned, for every handled frame, the quit frame included; nothing is shown otherwise |
| Pipeline.RunWritesWhatItShows | src/processors/pipeline.py:123-128 | with writer and preview both on, the output video holds exactly the frames shown, in the same order |
| Pipeline.RunKeepsIds | src/processors/pipeline.py:109-118 | no track id is lost over a run |
| Pipeline.RunLogKinds | src/processors/pipeline.py:109-136 | the loop only writes frames, shows frames and reports progress |
| Pipeline.WriterBracketsFrames | src/processors/pipeline.py:101-142 | a writer is opened iff an output path is given and not empty; it is then opened exactly once, as the first event, released exactly once, and every written frame lies between the opening and the release |
| Pipeline.TrackingPipeline.constructor | src/processors/pipeline.py:13-27 | keeps the detector, tracker and visualizer, with no processors |
| Pipeline.TrackingPipeline.AddFrameProcessor | src/processors/pipeline.py:29-35 | appends the processor at the end and keeps the tracker |
| Pipeline.TrackingPipeline.ProcessFrame | src/processors/pipeline.py:37-77 | the result and the new store are `FrameStep`: detect, track with the detections, draw, then fold the processors in order; missing metadata becomes empty |
| Pipeline.TrackingPipeline.ReadFrames | src/processors/pipeline.py:106-136 | the counter, the store and the loop's events are those of `RunFrom` from read 0 |
| Pipeline.TrackingPipeline.ProcessVideo | src/processors/pipeline.py:79-152 | the summary holds the frames processed, the number of ids in the final store, that store and the properties; the events are the writer opening, the loop's events, the release and the window teardown |
| Pipeline.TrackingPipeline.GenerateHeatmap | src/processors/pipeline.py:154-164 | hands the frame shape and every trajectory of the store to the heatmap renderer |
| PyText.Str | src/cli.py:50 | `str(n)` is non-empty, starts with '-' exactly for negative n, and otherwise holds only digits |
| PyText.StrInjective | src/cli.py:50 | two ints with the same text are equal |
| PathNames.Parse | src/cli.py:67 | a parsed path has only valid components (non-empty, not ".", no '/'), and is absolute iff the string starts with '/' |
| PathNames.ParseFormat | src/cli.py:68 | writing a valid path out and parsing it again gives the same path |
| PathNames.StemSuffix | src/cli.py:68 | a name is its stem followed by its suffix; the suffix is empty or a dot and at least one more character with no further dot; a non-empty name has a non-empty stem |
| PathNames.DivPart | src/cli.py:68 | joining a single valid component appends it to the path |
| PathNames.WithSuffix | src/cli.py:100 | succeeds iff the suffix is valid and the path has a name; then the root and parent stay, and the name becomes the stem followed by the suffix |
| Cli.OutputPath | src/cli.py:66-68 | a user-supplied output path is used unchanged |
| Cli.DefaultOutputShape | src/cli.py:66-68 | the default output has the input's root and parent directory, and the name stem + "_tracked" + suffix |
| Cli.DefaultOutputInDir | src/cli.py:66-68 | `dir/stem.ext` gives `dir/stem_tracked.ext` (so `clips/a.mp4` gives `clips/a_tracked.mp4`) |
| Cli.DefaultOutputWritten | src/cli.py:66-68 | the default output path is never empty, so without `-o` the video is always written |
| Cli.TrackedKeepsSuffix | src/cli.py:68 | when the input name has a suffix, the default output keeps it and its stem is the input's stem + "_tracked" |
| Cli.HeatmapPathShape | src/cli.py:100 | the heatmap path exists iff the output path has a name; it has the output's root and parent, the name stem + ".heatmap.png", and so the suffix ".png" |
| Cli.HeatmapPathInDir | src/cli.py:100 | `dir/stem.ext` gives `dir/stem.heatmap.png` (so `a_tracked.mp4` gives `a_tracked.heatmap.png`) |
| Cli.PrintedCounted | src/cli.py:74-77 | for callback calls i..n-1 with one total, the printed frame numbers are the multiples of 30 in that range in increasing order, and none when the total is not positive |
| Cli.StatusLineInjective | src/cli.py:50 | the status line determines both the frame number and the object count |
| Cli.StatusTextDecides | src/cli.py:45-50 | two contexts give the same status text iff they agree on the frame number (0 when absent) and on the object count |
| Cli.FileProcessors | src/cli.py:62-63 | `process_file` registers exactly the status overlay with `--show-status`, and no processor without |
| Cli.FileFrameStatus | src/cli.py:45-63 | every frame of a file run is the visualizer's output, followed by that frame's status text at (10, 30), scale 0.7, green, thickness 2 exactly when `--show-status` is given |
| Cli.OverlayDrawnLast | src/cli.py:45-53 | with the overlay registered, the frame is the visualizer's output with the status text of that frame at (10, 30), scale 0.7, green, thickness 2 drawn last |
| Cli.FileCommandOutcome | src/cli.py:80-104 | returns 1 iff the input cannot be opened, and then emits nothing; the only escaping error is `with_suffix` on an output without a name when a heatmap is asked for; otherwise the video's events, then with `--heatmap` the heatmap of the final store next to the output |
| Cli.FileProgressPrinted | src/cli.py:74-87 | over a whole file, progress is printed for exactly the multiples of 30 below the frames processed, in order; never with `--quiet` or when the frame count is unknown |
| Cli.ProcessFile | src/cli.py:56-104 | the outcome and the events are those of `FileCommand`: overlay registration, output choice, the video run, the heatmap |
| Cli.InDirectoryShape | src/cli.py:174-182 | a single-component file name joined to a directory lands directly inside it |
| Cli.StampedFilesInDirectory | src/cli.py:136-182 | the recording, screenshots and heatmaps are files directly in the output directory, named `webcam_<ts>.mp4`, `screenshot_<ts>.png` and `heatmap_<ts>.png` |
| Cli.WebcamFromNext | src/cli.py:146-193 | one webcam iteration: the frame written and shown, then a stop on `q`, or the key's saved file and the rest of the loop from the next store |
| Cli.WebcamStops | src/cli.py:146-193 | the webcam loop stops at the first failed read, at a read without a frame (then in an error), or at a `q` frame; the counter counts every frame before that, and not the `q` frame |
| Cli.WebcamFramesCount | src/cli.py:145-193 | one frame is processed per read until the loop stops: the counted frames and the `q` frame |
| Cli.WebcamFramesLogged | src/cli.py:160-164 | the frames shown in "Webcam Tracking" are exactly the frames `process_frame` returned, in order, and with `--save` the recording holds the same frames in the same order |
| Cli.WebcamShows | src/cli.py:160-193 | shown frame k, and with `--save` recorded frame k, is the k-th frame `process_frame` returned, for every processed frame, the `q` frame included; the counter equals the frames shown, less one after `q` |
| Cli.ResetForgets | src/cli.py:185-191 | after `r`, whatever was tracked before, the rest of the session is the same: only that frame's own events can differ |
| Cli.HandleKey | src/cli.py:171-191 | `s` saves the frame, `h` the heatmap of the current store, `r` installs a fresh tracker so the store becomes empty; other keys do nothing |
| Cli.WebcamLoop | src/cli.py:145-193 | the frame counter, the events, the error flag and the final store are those of `WebcamFrom` from read 0 |
| Cli.ProcessWebcam | src/cli.py:107-204 | with the overlay always registered, the code is 1 iff the camera cannot be opened or a read reports success without a frame; the frame counter is the session's; the events are the recorder opening with `--save`, the loop's events, the release and the window teardown |

## Left out

- YOLO inference is an uninterpreted function `Detector` from frame to detections.
- ByteTrack's association and its construction are not modelled. Their result for each call is an input.
- `create_heatmap` is not modelled: it is floating-point image processing. The heatmap is represented by its inputs, the frame shape and the trajectories.
- The HSV to BGR conversion of palette colours is not modelled. A palette entry is kept as its HSV triple.
- Pixel effects of the OpenCV drawing calls are not modelled. Only the commands and their integer parameters are.
- `int(180*i/n)`, `int(T*(i/n))` and `int(3*(i/n))` are evaluated in floating point by the source. The model uses exact integer arithmetic on non-negative values, which idealises any float rounding.
- Boxes are integer boxes. ByteTrack's float coordinates and the `astype(int)` of the drawn box are not modelled.
- `get_all_trajectories` returns a shallow copy whose lists are shared with the store. Aliasing is not modelled: values are compared.
- `frame_shape` is passed to `update` but never used by it. The model accepts it and ignores it as well.
- The unit test that expects `process_frame` to pass all trajectories to `draw_frame` disagrees with the code, which passes two arguments. The model follows the code.
- Video and webcam sources are lists of read results. `VideoFileSource` and `WebcamSource` are not modelled beyond opening failing (`None`) or succeeding.
- Exceptions from external calls (writer, `imwrite`, detector) are not modelled. The exceptions that are modelled:
  - a source that cannot be opened;
  - a webcam read that reports success without a frame;
  - `with_suffix` refusing a path without a name.
- Console printing, argparse, YAML configuration loading and `mkdir` are not modelled. Neither are the float percentage in progress lines and `main`.
- The progress callback is modelled as a flag: the calls it receives are events, and `Printed` says which of them `show_progress` prints.
- Timestamps from `datetime.now()` are inputs: one per captured frame, one for the recording.
- Keys from `waitKey` are inputs, one per frame.
- `src/web_app.py` is not part of this model.
- PathNames follows the `pathlib` rules of Python 3.8–3.11. It does not model:
  - a leading `//`;
  - the stricter suffix checks of later versions.
- Cli.TrackedKeepsSuffix: stated only for names that have a suffix. A name such as `a.` has none, yet its tracked name `a._tracked` acquires the suffix `._tracked`. The general `DefaultOutputShape` covers every name.
- PathNames.WithSuffixValid: stated only for a non-empty suffix. `with_suffix("")` on a name such as `..x` leaves the component `.`.
- Cli.DefaultOutputInDir: stated for a one-level relative directory and a stem and extension without separators. `DefaultOutputShape` covers every path.
- Cli.HeatmapPathInDir: stated for the same shape of path. `HeatmapPathShape` covers every path.
