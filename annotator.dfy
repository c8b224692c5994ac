/** The `VideoAnnotator` component of video-annotator.tsx: its state hooks are the
    fields of a class, its event handlers are methods that update those fields in place.
    Each handler is proved to move the component exactly as the matching transition of
    module Lifecycle does, and to keep the draft invariant. */
module Annotator {
  import opened Wrappers
  import opened AnnotationTypes
  import opened Timestamp
  import opened Geometry
  import L = Lifecycle

  class VideoAnnotator {
    /** Whether the video element and the overlay are mounted. */
    const refs: L.Refs

    var isDrawing: bool
    var currentRectangle: Option<Rectangle>
    var startTime: Option<string>
    var endTime: Option<string>
    var comment: string
    var showCommentInput: bool
    var isPlaying: bool
    /** Every annotation the save handler has logged, oldest first. */
    var emitted: seq<Annotation>
    /** Every play/pause call made on the video element, oldest first. */
    var commands: seq<L.Command>

    ghost function State(): L.State
      reads this
    {
      L.State(isDrawing, currentRectangle, startTime, endTime, comment,
              showCommentInput, isPlaying, emitted, commands)
    }

    ghost predicate Valid()
      reads this
    {
      L.Valid(State())
    }

    /** Mounting: every hook at its initial value, nothing logged, no command sent. */
    constructor (refs: L.Refs)
      ensures this.refs == refs && State() == L.Initial && Valid()
    {
      this.refs := refs;
      isDrawing := false;
      currentRectangle := None;
      startTime := None;
      endTime := None;
      comment := "";
      showCommentInput := false;
      isPlaying := false;
      emitted := [];
      commands := [];
    }

    method HandleMouseDown(x: int, y: int, now: nat)
      requires Valid()
      modifies this
      ensures Valid()
      ensures State() == L.MouseDown(refs, old(State()), x, y, now)
    {
      if !refs.overlay {
        return;
      }
      isDrawing := true;
      currentRectangle := Some(Rectangle(x, y, x, y));
      startTime := Some(Format(now));
    }

    method HandleMouseMove(x: int, y: int)
      requires Valid()
      modifies this
      ensures Valid()
      ensures State() == L.MouseMove(refs, old(State()), x, y)
    {
      if !isDrawing || !refs.overlay || currentRectangle.None? {
        return;
      }
      currentRectangle := Some(currentRectangle.value.(endX := x, endY := y));
    }

    /** Wired to both mouse up and mouse leave. */
    method HandleMouseUp()
      requires Valid()
      modifies this
      ensures Valid()
      ensures State() == L.MouseUp(refs, old(State()))
    {
      if isDrawing && currentRectangle.Some? {
        isDrawing := false;
        showCommentInput := true;
        if refs.video {
          commands := commands + [L.Pause];
        }
      }
    }

    /** `id` stands for `Date.now().toString()`, `now` for the playback time. */
    method HandleSave(id: string, now: nat)
      requires Valid()
      modifies this
      ensures Valid()
      ensures State() == L.Save(old(State()), id, now)
    {
      ghost var next := L.Save(State(), id, now);
      if currentRectangle.None? || !L.Truthy(startTime) || comment == "" {
        return;
      }
      var annotation := Annotation(
        id,
        startTime.value,
        if L.Truthy(endTime) then endTime.value else Format(now),
        currentRectangle.value,
        comment);
      assert next.emitted == emitted + [annotation];
      assert next == State().(emitted := emitted + [annotation], currentRectangle := None,
        startTime := None, endTime := None, comment := "", showCommentInput := false);
      emitted := emitted + [annotation];

      currentRectangle := None;
      startTime := None;
      endTime := None;
      comment := "";
      showCommentInput := false;
      assert State() == next;
    }

    method TogglePlayPause()
      requires Valid()
      modifies this
      ensures Valid()
      ensures State() == L.TogglePlayPause(refs, old(State()))
    {
      if refs.video {
        if isPlaying {
          commands := commands + [L.Pause];
        } else {
          commands := commands + [L.Play];
        }
        isPlaying := !isPlaying;
      }
    }

    /** The end-time slider's `onChange`, with the slider value in centiseconds. */
    method SlideEndTime(t: nat)
      requires Valid()
      modifies this
      ensures Valid()
      ensures State() == L.SlideEndTime(old(State()), t)
    {
      endTime := Some(Format(t));
    }

    /** The comment field's `onChange`. */
    method EditComment(text: string)
      requires Valid()
      modifies this
      ensures Valid()
      ensures State() == L.EditComment(old(State()), text)
    {
      comment := text;
    }

    /** The orange box drawn over the video: present exactly while a rectangle exists,
        and then the rectangle's normalised box. */
    method OverlayBox() returns (b: Option<Box>)
      ensures b.Some? <==> currentRectangle.Some?
      ensures b.Some? ==> b.value == Normalize(currentRectangle.value)
    {
      if currentRectangle.Some? {
        b := Some(Normalize(currentRectangle.value));
      } else {
        b := None;
      }
    }
  }

  /** A client of the component alone: a drag, a comment and two clicks on the save
      button log exactly one annotation and leave no draft behind. */
  method SaveTwiceLogsOnce(refs: L.Refs, x0: int, y0: int, x1: int, y1: int, t: nat,
                           id1: string, id2: string, now: nat)
    requires refs.overlay && refs.video
  {
    var c := new VideoAnnotator(refs);
    c.HandleMouseDown(x0, y0, t);
    c.HandleMouseMove(x1, y1);
    c.HandleMouseUp();
    c.EditComment("ball out");
    TimestampNonEmpty(Format(t));
    c.HandleSave(id1, now);
    c.HandleSave(id2, now);
    assert |c.emitted| == 1 && c.emitted[0].comment == "ball out";
    assert c.emitted[0].shape == Rectangle(x0, y0, x1, y1) && c.emitted[0].startTime == Format(t);
    assert c.currentRectangle.None? && !c.showCommentInput && c.commands == [L.Pause];
  }
}
