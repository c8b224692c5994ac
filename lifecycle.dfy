/** The annotator's draft state machine as values: the component state of
    video-annotator.tsx, one transition per event handler, the invariant every
    transition keeps, and what the transitions promise alone and in sequence.
    The imperative component in module Annotator is proved against these functions. */
module Lifecycle {
  import opened Wrappers
  import opened AnnotationTypes
  import opened Timestamp
  import opened Geometry

  /** A command sent to the video element. */
  datatype Command = Play | Pause

  /** Whether the `<video>` and the overlay `<div>` refs are attached; every handler
      that touches one of them does nothing to it (or nothing at all) when it is not. */
  datatype Refs = Refs(video: bool, overlay: bool)

  /** The component state, plus what it sends out: `emitted` is what the save handler
      logs, `commands` the play/pause calls made on the video element, in order. */
  datatype State = State(
    isDrawing: bool,
    currentRectangle: Option<Rectangle>,
    startTime: Option<string>,
    endTime: Option<string>,
    comment: string,
    showCommentInput: bool,
    isPlaying: bool,
    emitted: seq<Annotation>,
    commands: seq<Command>)

  /** The state right after mounting: the initial values of the `useState` hooks. */
  const Initial := State(false, None, None, None, "", false, false, [], [])

  /** JavaScript truthiness of a `string | null`: neither null nor empty. */
  predicate Truthy(t: Option<string>) {
    t.Some? && t.value != ""
  }

  /** What a logged annotation always carries. */
  ghost predicate WellFormed(a: Annotation) {
    a.comment != "" && IsTimestamp(a.startTime) && IsTimestamp(a.endTime)
  }

  /** The invariant of the draft: a rectangle exists exactly when a start time was taken,
      the comment box only shows for an existing rectangle, stored times are timestamps,
      and every logged annotation is well formed. */
  ghost predicate Valid(s: State) {
    && (s.currentRectangle.Some? <==> s.startTime.Some?)
    && (s.showCommentInput ==> s.currentRectangle.Some?)
    && (s.startTime.Some? ==> IsTimestamp(s.startTime.value))
    && (s.endTime.Some? ==> IsTimestamp(s.endTime.value))
    && (forall i :: 0 <= i < |s.emitted| ==> WellFormed(s.emitted[i]))
  }

  /** `handleMouseDown` at playback time `now` (centiseconds): a new zero-area rectangle
      at the pointer, drawing on, start time stamped. End time, comment and the comment
      box are left as they were. */
  function MouseDown(refs: Refs, s: State, x: int, y: int, now: nat): (r: State)
    ensures Valid(s) ==> Valid(r)
    ensures refs.overlay ==> r.startTime.Some? && Decode(r.startTime.value) == Some(now / 100)
    ensures !refs.overlay ==> r == s
  {
    if !refs.overlay then s
    else
      DecodeFormat(now);
      s.(isDrawing := true, currentRectangle := Some(Begin(x, y)), startTime := Some(Format(now)))
  }

  /** `handleMouseMove`: drags the end corner, only while drawing a rectangle. */
  function MouseMove(refs: Refs, s: State, x: int, y: int): (r: State)
    ensures Valid(s) ==> Valid(r)
  {
    if !s.isDrawing || !refs.overlay || s.currentRectangle.None? then s
    else s.(currentRectangle := Some(Extend(s.currentRectangle.value, x, y)))
  }

  /** `handleMouseUp`, also wired to mouse leave: ends the drag, shows the comment box
      and pauses the video. */
  function MouseUp(refs: Refs, s: State): (r: State)
    ensures Valid(s) ==> Valid(r)
  {
    if s.isDrawing && s.currentRectangle.Some? then
      s.(isDrawing := false, showCommentInput := true,
         commands := if refs.video then s.commands + [Pause] else s.commands)
    else s
  }

  /** `handleSave` at playback time `now` with the fresh id `id`: logs the draft as an
      annotation, its end time defaulting to `now`, and clears the draft. */
  function Save(s: State, id: string, now: nat): (r: State)
    ensures Valid(s) ==> Valid(r)
    ensures |s.emitted| <= |r.emitted| <= |s.emitted| + 1 && r.emitted[..|s.emitted|] == s.emitted
  {
    if s.currentRectangle.None? || !Truthy(s.startTime) || s.comment == "" then s
    else
      var a := Annotation(
        id,
        s.startTime.value,
        if Truthy(s.endTime) then s.endTime.value else Format(now),
        s.currentRectangle.value,
        s.comment);
      var r := s.(emitted := s.emitted + [a],
         currentRectangle := None, startTime := None, endTime := None,
         comment := "", showCommentInput := false);
      assert Valid(s) ==> Valid(r) by {
        if Valid(s) {
          FormatIsTimestamp(now);
          assert WellFormed(a);
          LogKeepsWellFormed(s.emitted, a);
        }
      }
      r
  }

  lemma LogKeepsWellFormed(log: seq<Annotation>, a: Annotation)
    requires forall i :: 0 <= i < |log| ==> WellFormed(log[i])
    requires WellFormed(a)
    ensures forall i :: 0 <= i < |log + [a]| ==> WellFormed((log + [a])[i])
  {
  }

  lemma FormatIsTimestamp(c: nat)
    ensures IsTimestamp(Format(c))
  {
  }

  /** `togglePlayPause`: sends the command opposite to the flag, then flips the flag. */
  function TogglePlayPause(refs: Refs, s: State): (r: State)
    ensures Valid(s) ==> Valid(r)
    ensures r == s.(isPlaying := r.isPlaying, commands := r.commands)
    ensures !refs.video ==> r == s
  {
    if !refs.video then s
    else s.(commands := s.commands + [if s.isPlaying then Pause else Play], isPlaying := !s.isPlaying)
  }

  /** The end-time slider's `onChange` with the chosen time `t` (centiseconds). */
  function SlideEndTime(s: State, t: nat): (r: State)
    ensures Valid(s) ==> Valid(r)
    ensures r.endTime == Some(Format(t)) && Decode(r.endTime.value) == Some(t / 100)
    ensures r == s.(endTime := r.endTime)
  {
    DecodeFormat(t);
    s.(endTime := Some(Format(t)))
  }

  /** The comment field's `onChange`. */
  function EditComment(s: State, text: string): (r: State)
    ensures Valid(s) ==> Valid(r)
    ensures r.comment == text && r == s.(comment := r.comment)
  {
    s.(comment := text)
  }

  /** The events the component reacts to, in the order the browser delivers them. */
  datatype Event =
    | Down(x: int, y: int, now: nat)
    | Move(x: int, y: int)
    | Up
    | Leave
    | Post(id: string, now: nat)
    | PlayPause
    | Slide(t: nat)
    | Type(text: string)

  /** The handler an event is wired to; leaving the overlay ends a drag like a release. */
  function Step(refs: Refs, s: State, e: Event): State {
    match e
    case Down(x, y, now) => MouseDown(refs, s, x, y, now)
    case Move(x, y) => MouseMove(refs, s, x, y)
    case Up => MouseUp(refs, s)
    case Leave => MouseUp(refs, s)
    case Post(id, now) => Save(s, id, now)
    case PlayPause => TogglePlayPause(refs, s)
    case Slide(t) => SlideEndTime(s, t)
    case Type(text) => EditComment(s, text)
  }

  /** Each handler runs to completion before the next event. */
  function Run(refs: Refs, s: State, events: seq<Event>): State
    decreases |events|
  {
    if events == [] then s else Run(refs, Step(refs, s, events[0]), events[1..])
  }

  function Posts(events: seq<Event>): nat {
    if events == [] then 0 else (if events[0].Post? then 1 else 0) + Posts(events[1..])
  }

  function Moves(points: seq<(int, int)>): seq<Event> {
    if points == [] then [] else [Move(points[0].0, points[0].1)] + Moves(points[1..])
  }

  // ---------------------------------------------------------------------------
  // Single transitions

  /** A press does not clear what the previous draft left behind: a scrubbed end time,
      a typed comment and an open comment box all survive it. */
  lemma MouseDownKeepsPending(refs: Refs, s: State, x: int, y: int, now: nat)
    requires refs.overlay
    ensures var r := MouseDown(refs, s, x, y, now);
      && r.isDrawing
      && r.currentRectangle == Some(Rectangle(x, y, x, y))
      && Normalize(r.currentRectangle.value) == Box(x, y, 0, 0)
      && r.startTime == Some(Format(now))
      && r.endTime == s.endTime && r.comment == s.comment && r.showCommentInput == s.showCommentInput
      && r.isPlaying == s.isPlaying && r.emitted == s.emitted && r.commands == s.commands
  {
  }

  /** A move changes state only while drawing an existing rectangle, and then only the
      rectangle's end corner. */
  lemma MouseMoveOnlyWhileDrawing(refs: Refs, s: State, x: int, y: int)
    ensures var r := MouseMove(refs, s, x, y);
      && r == s.(currentRectangle := r.currentRectangle)
      && (s.isDrawing && refs.overlay && s.currentRectangle.Some? ==>
            var o := s.currentRectangle.value;
            r.currentRectangle == Some(Rectangle(o.startX, o.startY, x, y)))
      && (!s.isDrawing || !refs.overlay || s.currentRectangle.None? ==> r == s)
  {
  }

  /** Releasing (or leaving) ends a drag and issues exactly one pause; with no drag under
      way it changes nothing and issues none. The playing flag is not touched either way. */
  lemma MouseUpPausesOnce(refs: Refs, s: State)
    ensures var r := MouseUp(refs, s);
      && r.isPlaying == s.isPlaying
      && (s.isDrawing && s.currentRectangle.Some? ==>
            && !r.isDrawing && r.showCommentInput
            && r.commands == s.commands + (if refs.video then [Pause] else [])
            && r == s.(isDrawing := false, showCommentInput := true, commands := r.commands))
      && (!(s.isDrawing && s.currentRectangle.Some?) ==> r == s)
  {
  }

  /** Save refuses without a rectangle, a start time or a comment: nothing is logged
      and no field changes. */
  lemma SaveRefused(s: State, id: string, now: nat)
    requires s.currentRectangle.None? || !Truthy(s.startTime) || s.comment == ""
    ensures Save(s, id, now) == s
  {
  }

  /** A successful save logs exactly one annotation built from the draft, with the end
      time defaulting to `now`, then clears the draft; drawing and playing flags and the
      video commands stay as they were. */
  lemma SaveCommits(s: State, id: string, now: nat)
    requires s.currentRectangle.Some? && Truthy(s.startTime) && s.comment != ""
    ensures var r := Save(s, id, now);
      && r.emitted == s.emitted + [Annotation(
           id, s.startTime.value,
           if Truthy(s.endTime) then s.endTime.value else Format(now),
           s.currentRectangle.value, s.comment)]
      && r.currentRectangle.None? && r.startTime.None? && r.endTime.None?
      && r.comment == "" && !r.showCommentInput
      && r.isDrawing == s.isDrawing && r.isPlaying == s.isPlaying && r.commands == s.commands
  {
  }

  /** A second save straight after the first finds no draft and does nothing. */
  lemma SaveTwice(s: State, id1: string, now1: nat, id2: string, now2: nat)
    ensures Save(Save(s, id1, now1), id2, now2) == Save(s, id1, now1)
  {
  }

  /** In every reachable state, the save button commits exactly when a rectangle exists
      and a comment was typed: the start time can never be what blocks it. */
  lemma {:induction false} SaveCommitsIffReady(s: State, id: string, now: nat)
    requires Valid(s)
    ensures |Save(s, id, now).emitted| == |s.emitted| + 1
            <==> s.currentRectangle.Some? && s.comment != ""
  {
    if s.currentRectangle.Some? {
      TimestampNonEmpty(s.startTime.value);
    }
  }

  /** The toggle always sends the command opposite to the flag and flips the flag,
      changing nothing else; twice in a row restores the flag. */
  lemma TogglePlayPauseFlips(refs: Refs, s: State)
    requires refs.video
    ensures var r := TogglePlayPause(refs, s);
      && r.isPlaying == !s.isPlaying
      && r.commands == s.commands + [if s.isPlaying then Pause else Play]
      && r == s.(isPlaying := r.isPlaying, commands := r.commands)
      && TogglePlayPause(refs, r).isPlaying == s.isPlaying
      && TogglePlayPause(refs, r).commands == s.commands + (if s.isPlaying then [Pause, Play] else [Play, Pause])
  {
  }

  // ---------------------------------------------------------------------------
  // Sequences of events

  lemma {:induction false} RunAppend(refs: Refs, s: State, a: seq<Event>, b: seq<Event>)
    ensures Run(refs, s, a + b) == Run(refs, Run(refs, s, a), b)
    decreases |a|
  {
    if a == [] {
      assert a + b == b;
    } else {
      assert (a + b)[1..] == a[1..] + b;
      RunAppend(refs, Step(refs, s, a[0]), a[1..], b);
    }
  }

  /** The invariant holds after any sequence of events from the initial state. */
  lemma {:induction false} RunValid(refs: Refs, s: State, events: seq<Event>)
    requires Valid(s)
    ensures Valid(Run(refs, s, events))
    decreases |events|
  {
    if events != [] {
      RunValid(refs, Step(refs, s, events[0]), events[1..]);
    }
  }

  /** The log only grows, and by at most one annotation per save event. */
  lemma {:induction false} RunLogsAtMostOnePerPost(refs: Refs, s: State, events: seq<Event>)
    ensures var r := Run(refs, s, events);
      && |s.emitted| <= |r.emitted| <= |s.emitted| + Posts(events)
      && r.emitted[..|s.emitted|] == s.emitted
    decreases |events|
  {
    if events != [] {
      var t := Step(refs, s, events[0]);
      StepLogsOnlyOnPost(refs, s, events[0]);
      RunLogsAtMostOnePerPost(refs, t, events[1..]);
      var r := Run(refs, s, events);
      assert r.emitted[..|s.emitted|] == r.emitted[..|t.emitted|][..|s.emitted|];
    }
  }

  /** Only a save event can log, and then at most one annotation behind the old ones. */
  lemma StepLogsOnlyOnPost(refs: Refs, s: State, e: Event)
    ensures var t := Step(refs, s, e);
      && |s.emitted| <= |t.emitted| <= |s.emitted| + (if e.Post? then 1 else 0)
      && t.emitted[..|s.emitted|] == s.emitted
  {
  }

  /** While drawing, a run of moves keeps the start corner and leaves the end corner at the
      last point (or where it was, for no moves); nothing else changes. */
  lemma {:induction false} MovesTrackLastPoint(refs: Refs, s: State, points: seq<(int, int)>)
    requires refs.overlay && s.isDrawing && s.currentRectangle.Some?
    ensures var r := Run(refs, s, Moves(points));
      var o := s.currentRectangle.value;
      && r == s.(currentRectangle := r.currentRectangle)
      && r.currentRectangle == Some(
           if points == [] then o
           else Rectangle(o.startX, o.startY, points[|points| - 1].0, points[|points| - 1].1))
    decreases |points|
  {
    if points != [] {
      var t := MouseMove(refs, s, points[0].0, points[0].1);
      assert Moves(points)[1..] == Moves(points[1..]);
      MovesTrackLastPoint(refs, t, points[1..]);
    }
  }

  /** A press at `(x0, y0)` followed by moves ending at `(x1, y1)` draws the box with
      corner `(min x, min y)` and extents `|x1 - x0|`, `|y1 - y0|`. */
  lemma DragNormalizes(refs: Refs, s: State, x0: int, y0: int, now: nat, points: seq<(int, int)>)
    requires refs.overlay && points != []
    ensures var r := Run(refs, s, [Down(x0, y0, now)] + Moves(points));
      var (x1, y1) := points[|points| - 1];
      && r.isDrawing
      && r.currentRectangle == Some(Rectangle(x0, y0, x1, y1))
      && Normalize(r.currentRectangle.value) == Box(Min(x0, x1), Min(y0, y1), Abs(x1 - x0), Abs(y1 - y0))
  {
    var d := MouseDown(refs, s, x0, y0, now);
    RunAppend(refs, s, [Down(x0, y0, now)], Moves(points));
    MovesTrackLastPoint(refs, d, points);
  }

  // ---------------------------------------------------------------------------
  // Scenarios

  /** The whole gesture: press at `(x0, y0)` at time `t0`, drag to `(x1, y1)`, release,
      slide the end to `t1`, type a comment, post at `t2`. Exactly one annotation is logged,
      spanning `t0` to the slider's `t1` (not the posting time), with the shape in capture
      order; its end reads back as whole seconds; the release paused the video once.
      With (10,10), (50,40), 5.00 s, 8.25 s and "ball out", that is "0:05:00" to "0:08:25",
      read back as 8 s. */
  lemma DrawScrubPostScenario(refs: Refs, x0: int, y0: int, x1: int, y1: int,
                              t0: nat, t1: nat, t2: nat, text: string, id: string)
    requires refs.video && refs.overlay && text != ""
    ensures var pressed := MouseMove(refs, MouseDown(refs, Initial, x0, y0, t0), x1, y1);
      var r := Save(EditComment(SlideEndTime(MouseUp(refs, pressed), t1), text), id, t2);
      && r.emitted == [Annotation(id, Format(t0), Format(t1), Rectangle(x0, y0, x1, y1), text)]
      && Decode(r.emitted[0].endTime) == Some(t1 / 100)
      && r.commands == [Pause]
      && r.currentRectangle.None? && r.comment == "" && !r.showCommentInput
  {
    TimestampNonEmpty(Format(t0));
    TimestampNonEmpty(Format(t1));
    DecodeFormat(t1);
  }

  /** The playing flag is not updated by the pause a release issues: after play, a drag
      leaves the flag on, and the next toggle sends a second pause instead of a play. */
  lemma PlayingFlagLagsAfterDrag(refs: Refs, x: int, y: int, now: nat)
    requires refs.video && refs.overlay
    ensures var playing := TogglePlayPause(refs, Initial);
      var released := MouseUp(refs, MouseDown(refs, playing, x, y, now));
      && playing.isPlaying && released.isPlaying && released.commands == [Play, Pause]
      && TogglePlayPause(refs, released).commands == [Play, Pause, Pause]
      && !TogglePlayPause(refs, released).isPlaying
  {
  }

  /** A press does not clear a comment typed for an earlier, unsaved draft, nor the end
      time slid for it: posting after a new drag logs them with the new rectangle. */
  lemma StaleCommentCarriesOver(refs: Refs, t0: nat, t1: nat, t2: nat, t3: nat,
                                x: int, y: int, text: string, id: string)
    requires refs.overlay && text != ""
    ensures var abandoned := EditComment(SlideEndTime(MouseUp(refs, MouseDown(refs, Initial, 0, 0, t0)), t1), text);
      var r := Save(MouseUp(refs, MouseDown(refs, abandoned, x, y, t2)), id, t3);
      && r.emitted == [Annotation(id, Format(t2), Format(t1), Rectangle(x, y, x, y), text)]
  {
    TimestampNonEmpty(Format(t2));
    TimestampNonEmpty(Format(t1));
  }
}
