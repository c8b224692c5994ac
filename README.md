# Video annotator: the draft state machine, in Dafny

This project models the core of the `VideoAnnotator` React component
(video-annotator.tsx). A user drags a rectangle over a playing video, the drag
stamps a start time, releasing the pointer pauses the video and opens a comment
box, the user slides an end time and types a comment, and "Post" logs one
annotation record and clears the draft. The parts modelled are:

- **Timestamp** (`timestamp.dfy`): `formatTimeStamp`, which renders a playback time
  as `M:SS:CC`, and the inline reading `parseFloat(f[0]) * 60 + parseFloat(f[1])` of
  such a text. The reading is used by the progress marker and the end-time slider.
  JavaScript's `toString`, `padStart(2, "0")`, `split(":")` and `parseFloat` are
  modelled as far as these two need them. Time is a whole number of centiseconds.
- **Geometry** (`geometry.dfy`): the drag rectangle and the box the overlay draws
  for it (`Math.min` of the corners, `Math.abs` of the differences).
- **Lifecycle** (`lifecycle.dfy`): the component state as a value, one transition
  function per event handler, and the invariant every transition keeps. It also
  gives the state reached after any sequence of events, and lemmas about single
  transitions and about sequences of them.
- **Annotator** (`annotator.dfy`): the component itself as a class. Its fields are
  the state hooks and its methods are the handlers, which update the fields in
  place. Each handler is proved to reach exactly the state the matching Lifecycle
  transition gives, and to keep the invariant. `SaveTwiceLogsOnce` is a client
  that uses only the class's contracts.
- **AnnotationTypes** (`annotation_types.dfy`): the `Rectangle` and `Annotation`
  records of types/annotation.ts. **Wrappers** (`wrappers.dfy`) holds the `Option`
  used for the nullable hooks.

Two things leave the component besides its state. `emitted` is the sequence of
annotations the save handler logs, and `commands` is the sequence of `play()` and
`pause()` calls made on the video element. Both are fields of the class and of the
state value. Whether the video element and the overlay are mounted is the constant
`refs`. Every handler that checks `videoRef.current` or `overlayRef.current` takes
the same branch on it.

The invariant (`Lifecycle.Valid`) has five parts:

1. A rectangle exists exactly when a start time has been taken.
2. The comment box is shown only while a rectangle exists.
3. The stored start and end times are texts `formatTimeStamp` can produce.
4. Every logged annotation has a non-empty comment.
5. Every logged annotation has a valid timestamp at both ends.

It follows that, in every reachable state, Post logs an annotation exactly when a
rectangle exists and a comment has been typed (`SaveCommitsIffReady`).

Behaviour of the code a reader might not expect:

- A new press does not clear the end time or the comment left by an earlier draft
  that was not saved. A later Post logs them with the new rectangle
  (`StaleCommentCarriesOver`).
- There is no store of committed annotations and no filtering of annotations by
  playback time. Post logs one record and resets the draft.
- A text without two readable `:` fields reads back as NaN (`None` here). Nothing
  raises an error.
- The reading keeps whole seconds and drops the centiseconds
  (`DecodeIgnoresCentiseconds`).
- The pause issued on release does not update `isPlaying`. After a drag during
  playback the flag still says "playing", and the next click on the button sends a
  second pause instead of a play (`PlayingFlagLagsAfterDrag`).

## Model

| member | source | states |
|---|---|---|
| `Timestamp.NatToString` | video-annotator.tsx:39 | `toString` of a whole number: a non-empty digit run denoting the number, with no leading zero; one digit exactly below 10, at most two exactly below 100 |
| `Timestamp.PadTwo` | video-annotator.tsx:39 | `padStart(2, "0")` on a text; no contract of its own, its meaning is stated by `PadTwoPads` |
| `Timestamp.PadTwoPads` | video-annotator.tsx:39 | padding gives exactly two characters to a shorter text and leaves a longer one alone; the text stays as the suffix and only zeros are added in front |
| `Timestamp.Two` | video-annotator.tsx:39 | `padStart(2, "0")` of a number below 100 is exactly two digits denoting it |
| `Timestamp.Split` | video-annotator.tsx:161 | `split(":")` gives at least one field, no field holds the separator, and the fields joined with the separator give the text back |
| `Timestamp.SplitJoin` | video-annotator.tsx:161 | splitting undoes joining when no field holds the separator |
| `Timestamp.SplitCount` | video-annotator.tsx:161 | splitting gives exactly one more field than there are separators |
| `Timestamp.DigitPrefix` | video-annotator.tsx:161 | what `parseFloat` reads: the longest leading run of digits (a prefix, all digits, followed by a non-digit or the end) |
| `Timestamp.ParseLeading` | video-annotator.tsx:161 | `parseFloat` of a digit-only field is the number it denotes; of a missing field (`undefined`) it is NaN |
| `Timestamp.Decode` | video-annotator.tsx:186 | reading a text with no `:` gives NaN |
| `Timestamp.Format` | video-annotator.tsx:35-40 | `formatTimeStamp`; no contract of its own, its meaning is stated by `FormatFields`, `DecodeFormat` and `FormatInjective` |
| `Timestamp.FormatFields` | video-annotator.tsx:35-40 | a timestamp holds exactly two `:`; its fields are the minutes (digits, no leading zero), the seconds within the minute (exactly two digits) and the centiseconds within the second (exactly two digits) |
| `Timestamp.DecodeFormat` | video-annotator.tsx:161 | reading back a formatted time of `c` centiseconds gives `c / 100` whole seconds |
| `Timestamp.DecodeIgnoresCentiseconds` | video-annotator.tsx:193 | two times read back alike if and only if they share their whole second |
| `Timestamp.FormatInjective` | video-annotator.tsx:35-40 | distinct times give distinct timestamps: the text itself loses no centisecond |
| `Timestamp.TimestampNonEmpty` | video-annotator.tsx:84 | a formatted time is never the empty string, so `!startTime` only holds for null |
| `Geometry.Begin` | video-annotator.tsx:50-55 | a press starts a rectangle whose drawn box is the zero-area box at the pointer |
| `Geometry.Extend` | video-annotator.tsx:66-70 | a move keeps the start corner and puts the end corner at the pointer |
| `Geometry.Normalize` | video-annotator.tsx:140-143 | the drawn box has non-negative width and height; its left/top edge is the smaller corner coordinate and its right/bottom edge the larger, on each axis |
| `Geometry.NormalizeSymmetric` | video-annotator.tsx:140-143 | dragging from A to B draws the same box as dragging from B to A |
| `Lifecycle.MouseDown` | video-annotator.tsx:42-57 | keeps the invariant; with the overlay mounted the start time reads back as the press time in whole seconds; without the overlay nothing changes |
| `Lifecycle.MouseMove` | video-annotator.tsx:59-71 | keeps the invariant |
| `Lifecycle.MouseUp` | video-annotator.tsx:73-81 | keeps the invariant |
| `Lifecycle.Save` | video-annotator.tsx:83-102 | keeps the invariant; the log only grows, by at most one record, and keeps its old records in front |
| `Lifecycle.TogglePlayPause` | video-annotator.tsx:105-114 | keeps the invariant; changes only the playing flag and the commands; without a video element nothing changes |
| `Lifecycle.SlideEndTime` | video-annotator.tsx:196 | keeps the invariant; changes only the end time, which becomes the timestamp of the slider value and reads back as that value in whole seconds |
| `Lifecycle.EditComment` | video-annotator.tsx:206 | keeps the invariant; changes only the comment, which becomes the typed text |
| `Lifecycle.Step` | video-annotator.tsx:131-134 | the handler each event is wired to (press, move, release, leave → release, the play button at line 170, the slider at 196, the comment field at 206, Post at 210); no contract of its own |
| `Lifecycle.Run` | video-annotator.tsx:131-134 | the events handled one at a time, in order; no contract of its own, its meaning is stated by `RunAppend`, `RunValid` and `RunLogsAtMostOnePerPost` |
| `Lifecycle.RunAppend` | video-annotator.tsx:131-134 | handling `a + b` is handling `a`, then `b` from the state `a` left |
| `Lifecycle.StepLogsOnlyOnPost` | video-annotator.tsx:83-102 | only a save event can log, and then at most one annotation, behind the old ones |
| `Lifecycle.MouseDownKeepsPending` | video-annotator.tsx:42-57 | a press starts a zero-area rectangle at the pointer, turns drawing on and stamps the start time; end time, comment, comment box, playing flag, log and commands are untouched |
| `Lifecycle.MouseMoveOnlyWhileDrawing` | video-annotator.tsx:59-71 | a move changes nothing unless drawing an existing rectangle with the overlay mounted, and then only the end corner, which goes to the pointer |
| `Lifecycle.MouseUpPausesOnce` | video-annotator.tsx:73-81 | release or leave during a drag ends drawing, shows the comment box and issues exactly one pause (none without a video element); otherwise nothing changes and no pause is issued; the playing flag is never touched |
| `Lifecycle.SaveRefused` | video-annotator.tsx:84 | without a rectangle, a truthy start time or a comment, save changes nothing and logs nothing |
| `Lifecycle.SaveCommits` | video-annotator.tsx:86-101 | otherwise it logs exactly one record of the draft, with the end time defaulting to the current time when unset; it clears rectangle, times, comment and comment box, and keeps the drawing and playing flags and the commands |
| `Lifecycle.SaveTwice` | video-annotator.tsx:96-101 | a second save straight after a first does nothing |
| `Lifecycle.SaveCommitsIffReady` | video-annotator.tsx:84 | in a valid state, save logs a record if and only if a rectangle exists and the comment is non-empty |
| `Lifecycle.TogglePlayPauseFlips` | video-annotator.tsx:105-114 | with a video element, the toggle sends pause when the flag is on and play when it is off, then flips the flag, and changes nothing else; two toggles restore the flag |
| `Lifecycle.RunValid` | video-annotator.tsx:42-114 | every sequence of events keeps the invariant |
| `Lifecycle.RunLogsAtMostOnePerPost` | video-annotator.tsx:83-102 | over any sequence of events the log only grows, by at most one record per save event |
| `Lifecycle.MovesTrackLastPoint` | video-annotator.tsx:59-71 | while drawing, any run of moves keeps the start corner and leaves the end corner at the last pointer position, changing nothing else |
| `Lifecycle.DragNormalizes` | video-annotator.tsx:49-70 | a press at (x0,y0) and moves ending at (x1,y1) leave the rectangle (x0,y0,x1,y1), drawn at (min x, min y) with extents abs(x1-x0) and abs(y1-y0) |
| `Lifecycle.DrawScrubPostScenario` | video-annotator.tsx:42-102 | drag, release, slide, type, post: one record from the press time to the slider time, shape in capture order; its end reads back in whole seconds; one pause was sent |
| `Lifecycle.PlayingFlagLagsAfterDrag` | video-annotator.tsx:73-114 | after play and a drag, the flag still says playing, and the next toggle sends a second pause |
| `Lifecycle.StaleCommentCarriesOver` | video-annotator.tsx:42-102 | the comment and end time of an abandoned draft are logged with the next rectangle |
| `Annotator.VideoAnnotator.constructor` | video-annotator.tsx:10-18 | all hooks at their initial values, nothing logged, no command sent, invariant established |
| `Annotator.VideoAnnotator.HandleMouseDown` | video-annotator.tsx:42-57 | updates the fields exactly as `Lifecycle.MouseDown`, keeping the invariant |
| `Annotator.VideoAnnotator.HandleMouseMove` | video-annotator.tsx:59-71 | updates the fields exactly as `Lifecycle.MouseMove`, keeping the invariant |
| `Annotator.VideoAnnotator.HandleMouseUp` | video-annotator.tsx:73-81 | updates the fields exactly as `Lifecycle.MouseUp`, keeping the invariant (wired to mouse up and mouse leave, line 134) |
| `Annotator.VideoAnnotator.HandleSave` | video-annotator.tsx:83-102 | updates the fields and the log exactly as `Lifecycle.Save`, keeping the invariant |
| `Annotator.VideoAnnotator.TogglePlayPause` | video-annotator.tsx:105-114 | updates the flag and the commands exactly as `Lifecycle.TogglePlayPause`, keeping the invariant |
| `Annotator.VideoAnnotator.SlideEndTime` | video-annotator.tsx:196 | sets the end time exactly as `Lifecycle.SlideEndTime`, keeping the invariant |
| `Annotator.VideoAnnotator.EditComment` | video-annotator.tsx:206 | sets the comment exactly as `Lifecycle.EditComment`, keeping the invariant |
| `Annotator.VideoAnnotator.OverlayBox` | video-annotator.tsx:136-145 | the overlay box is drawn exactly while a rectangle exists, and it is that rectangle's normalised box |

## Left out

- Format: time is a whole number of centiseconds. The floating-point behaviour of `time % 60` and `(time % 1) * 100` is not modelled; rounding there can make the centiseconds one lower. Negative, infinite or NaN times are not modelled either; the player reports times of zero or more.
- ParseLeading: reads only a leading run of decimal digits. The leading whitespace, sign, decimal point, exponent and `Infinity` that `parseFloat` also accepts are not modelled, because the code only reads fields that `formatTimeStamp` wrote, and those are digit runs.
- Decode: gives whole seconds as a natural number instead of a floating-point value, for the same reason.
- The id `Date.now().toString()` is a parameter of the save handler, because the clock is nondeterministic.
- `JSON.stringify` and `console.log` are modelled only as appending the record to `emitted`.
- Coordinates are whole numbers. In the source, `e.clientX - rect.left` is a fractional pixel value; only its ordering and differences matter to the box, and those are modelled on integers.
- `getBoundingClientRect` and the conversion from client to overlay coordinates are DOM input. The handlers take overlay coordinates `(x, y)` directly.
- The video element is external. `handleTimeUpdate` and `handleLoadedMetadata` are left out; the playback time is a parameter of the handlers that read it. Mounting and unmounting of the refs are not modelled: they are fixed at construction.
- The progress-bar and start-marker percentages (lines 154 and 161) are floating-point division for rendering. Only the reading of the timestamp they use is modelled.
- The slider's `min`, `max` and `step` (lines 184-190) are enforced by the browser widget. The slider's `onChange` is modelled as receiving any time.
- Rendering and React scheduling are not modelled. The Post button, the slider and the comment field exist only while `showCommentInput` holds (line 175), but the model lets their handlers fire at any time. Each handler is taken to see the state left by the previous event, as React's handling of discrete events provides.
- types/annotation.ts declares types only. It appears as the two datatypes of `AnnotationTypes`.
