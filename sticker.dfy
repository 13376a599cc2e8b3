/** The editing state of the sticker editor as a value, and one function per
    UI event saying what that event does to it. The class in module
    StickerEditor performs the same updates in place; the functions here let
    lemmas speak about whole runs of events. */
module Sticker {
  import opened Wrappers
  import opened Raster
  import opened Brush
  import History

  /** The phases a long-press gesture recognizer reports. */
  datatype Gesture = Possible | Began | Changed | Ended | Cancelled | Failed

  /** Everything an event can read or change:
      - undoStack: the undo history, oldest first;
      - display: the image shown in the image view;
      - persisted: the in-progress sticker kept under the saved-sticker key;
      - lastPoint: where the previous drag event was;
      - leftVisible, rightVisible: whether each magnifier is faded in;
      - preview: the image both magnifiers hold;
      - slider: the size slider's value. */
  datatype Session = Session(
    undoStack: seq<Image>,
    display: Option<Image>,
    persisted: Option<Image>,
    lastPoint: Option<Point>,
    leftVisible: bool,
    rightVisible: bool,
    preview: Option<Image>,
    slider: real)

  /** What every event keeps true: the history is bounded, its newest entry
      is what is persisted, and the slider stays in its range. */
  predicate Valid(s: Session) {
    && |s.undoStack| <= History.Capacity
    && (s.undoStack != [] ==> s.persisted == Some(s.undoStack[|s.undoStack| - 1]))
    && SliderMin <= s.slider <= SliderMax
  }

  /** The controller once its outlets are set, before it appears: empty
      history, nothing shown, both magnifiers transparent, slider at its
      starting value, and whatever a previous session persisted. */
  function Start(saved: Option<Image>): (s: Session)
    ensures Valid(s)
    ensures s.undoStack == [] && s.display == None && s.persisted == saved
    ensures !s.leftVisible && !s.rightVisible
  {
    Session([], None, saved, None, false, false, None, SliderStart)
  }

  /** `addToUndoStack`: a missing image is ignored; otherwise it is persisted
      and pushed onto the bounded history. */
  function AddToUndoStack(s: Session, image: Option<Image>): (r: Session)
    ensures image.None? ==> r == s
    ensures image.Some? ==> r == s.(undoStack := History.Push(s.undoStack, image.value), persisted := image)
    ensures image.Some? ==> r.undoStack[|r.undoStack| - 1] == image.value
    ensures Valid(s) ==> Valid(r)
  {
    match image
    case None => s
    case Some(img) => s.(persisted := image, undoStack := History.Push(s.undoStack, img))
  }

  /** `undo`: drop the newest entry if there is one, show the entry now on
      top (or nothing), and persist what is shown. */
  function Undo(s: Session): (r: Session)
    ensures r.undoStack == History.Pop(s.undoStack)
    ensures r.display == History.Top(r.undoStack) && r.persisted == r.display
    ensures r == s.(undoStack := r.undoStack, display := r.display, persisted := r.persisted)
    ensures s.undoStack == [] ==> r == s.(display := None, persisted := None)
    ensures Valid(s) ==> Valid(r)
  {
    var stack := History.Pop(s.undoStack);
    var shown := History.Top(stack);
    s.(undoStack := stack, display := shown, persisted := shown)
  }

  /** `setUnderFingerView`: both magnifiers get the square of the displayed
      image around `p`, sized from the brush; exactly one of them is faded
      in, the right one when `p` is in the top-left corner. */
  function SetUnderFingerView(s: Session, p: Point): (r: Session)
    ensures r.rightVisible <==> ShowRight(p)
    ensures r.leftVisible <==> !r.rightVisible
    ensures r.preview.Some? <==> s.display.Some?
    ensures r.preview.Some? ==>
              && r.preview.value.Crop?
              && r.preview.value.source == s.display.value
              && r.preview.value.center == p
              && r.preview.value.side == PreviewSize(BrushSize(s.slider))
    ensures r == s.(leftVisible := r.leftVisible, rightVisible := r.rightVisible, preview := r.preview)
    ensures Valid(s) ==> Valid(r)
  {
    var side := PreviewSize(BrushSize(s.slider));
    var cropped := match s.display
      case None => None
      case Some(img) => Some(Crop(img, p, side));
    s.(preview := cropped, rightVisible := ShowRight(p), leftVisible := !ShowRight(p))
  }

  /** `handleDrag`: update the magnifiers, then act on the gesture phase. */
  function HandleDrag(s: Session, g: Gesture, p: Point): (r: Session)
    ensures Valid(s) ==> Valid(r)
    // only the end of a gesture touches the history and the persisted sticker
    ensures g != Ended ==> r.undoStack == s.undoStack && r.persisted == s.persisted
    ensures g == Ended ==>
              && r.undoStack == (if s.display.Some? then History.Push(s.undoStack, s.display.value) else s.undoStack)
              && r.persisted == (if s.display.Some? then s.display else s.persisted)
    // only a move changes the image, by one erase stroke from the previous point
    ensures g != Changed ==> r.display == s.display
    ensures g == Changed ==> r.display == Some(Erase(s.display, s.lastPoint, p, BrushSize(s.slider)))
    // the start and each move record the point; nothing else does
    ensures g == Began || g == Changed ==> r.lastPoint == Some(p)
    ensures g != Began && g != Changed ==> r.lastPoint == s.lastPoint
    // the end hides both magnifiers; every other phase leaves exactly one shown
    ensures g == Ended ==> !r.leftVisible && !r.rightVisible
    ensures g != Ended ==> (r.rightVisible <==> ShowRight(p)) && (r.leftVisible <==> !ShowRight(p))
    // the magnifiers show the displayed image as it was before this event
    ensures r.preview == SetUnderFingerView(s, p).preview
    ensures r.slider == s.slider
  {
    var t := SetUnderFingerView(s, p);
    match g
    case Began => t.(lastPoint := Some(p))
    case Changed =>
      t.(display := Some(Erase(t.display, t.lastPoint, p, BrushSize(t.slider))), lastPoint := Some(p))
    case Ended => AddToUndoStack(t.(leftVisible := false, rightVisible := false), t.display)
    case _ => t
  }

  /** The photo picker's completion: a delivered photo is drawn into the
      image view and pushed as one history entry; otherwise nothing changes. */
  function PickPhoto(s: Session, picked: Option<PhotoId>): (r: Session)
    ensures picked.None? ==> r == s
    ensures picked.Some? ==> r.display == Some(Drawn(picked.value)) && r.persisted == r.display
    ensures picked.Some? ==> r.undoStack == History.Push(s.undoStack, Drawn(picked.value))
    ensures picked.Some? ==> r == s.(undoStack := r.undoStack, display := r.display, persisted := r.persisted)
    ensures Valid(s) ==> Valid(r)
  {
    match picked
    case None => s
    case Some(id) =>
      var drawn := Some(Drawn(id));
      AddToUndoStack(s.(display := drawn), drawn)
  }

  /** `viewDidAppear`: a persisted in-progress sticker is shown again. */
  function Appear(s: Session): (r: Session)
    ensures s.persisted.Some? ==> r.display == s.persisted
    ensures s.persisted.None? ==> r == s
    ensures r == s.(display := r.display)
    ensures Valid(s) ==> Valid(r)
  {
    if s.persisted.Some? then s.(display := s.persisted) else s
  }

  /** One event on the editor's single stream of UI callbacks. */
  datatype Event =
    | Drag(phase: Gesture, at: Point)
    | UndoTapped
    | PhotoPicked(picked: Option<PhotoId>)
    | Appeared
    | SliderMoved(value: real)

  /** The slider only reports values within its range. */
  predicate WellFormed(e: Event) {
    e.SliderMoved? ==> SliderMin <= e.value <= SliderMax
  }

  function Step(s: Session, e: Event): (r: Session)
    ensures Valid(s) && WellFormed(e) ==> Valid(r)
  {
    match e
    case Drag(g, p) => HandleDrag(s, g, p)
    case UndoTapped => Undo(s)
    case PhotoPicked(picked) => PickPhoto(s, picked)
    case Appeared => Appear(s)
    case SliderMoved(v) => s.(slider := v)
  }

  /** The events `es`, first to last. */
  function Run(s: Session, es: seq<Event>): Session
    decreases |es|
  {
    if es == [] then s else Run(Step(s, es[0]), es[1..])
  }

  /** Starting from a valid state, which the controller's initial state is,
      no run of events breaks the invariant: in particular the history
      never holds more than `History.Capacity` entries. */
  lemma {:induction false} RunKeepsValid(s: Session, es: seq<Event>)
    requires Valid(s)
    requires forall i :: 0 <= i < |es| ==> WellFormed(es[i])
    ensures Valid(Run(s, es))
    ensures |Run(s, es).undoStack| <= History.Capacity
    decreases |es|
  {
    if es != [] {
      RunKeepsValid(Step(s, es[0]), es[1..]);
    }
  }

  lemma {:induction false} RunAppend(s: Session, a: seq<Event>, b: seq<Event>)
    ensures Run(s, a + b) == Run(Run(s, a), b)
    decreases |a|
  {
    if a == [] {
      assert a + b == b;
    } else {
      assert (a + b)[0] == a[0];
      assert (a + b)[1..] == a[1..] + b;
      RunAppend(Step(s, a[0]), a[1..], b);
    }
  }

  /** The move events of a drag through the points `ps`. */
  function Moves(ps: seq<Point>): (es: seq<Event>)
    ensures |es| == |ps|
    decreases |ps|
  {
    if ps == [] then [] else [Drag(Changed, ps[0])] + Moves(ps[1..])
  }

  /** Reference definition of a drag's effect on the image: one erase
      stroke per point, each starting where the previous one ended. */
  function Traced(canvas: Option<Image>, from: Option<Point>, ps: seq<Point>, width: real): Option<Image>
    decreases |ps|
  {
    if ps == [] then canvas
    else Traced(Some(Erase(canvas, from, ps[0], width)), Some(ps[0]), ps[1..], width)
  }

  /** A drag that has at least one point always leaves an image. */
  lemma {:induction false} TracedSome(canvas: Option<Image>, from: Option<Point>, ps: seq<Point>, width: real)
    requires ps != [] || canvas.Some?
    ensures Traced(canvas, from, ps, width).Some?
    decreases |ps|
  {
    if ps != [] {
      TracedSome(Some(Erase(canvas, from, ps[0], width)), Some(ps[0]), ps[1..], width);
    }
  }

  /** A run of moves erases along the path and leaves the history, the
      persisted sticker and the slider alone. */
  lemma {:induction false} MovesKeepHistory(s: Session, ps: seq<Point>)
    ensures Run(s, Moves(ps)).undoStack == s.undoStack
    ensures Run(s, Moves(ps)).persisted == s.persisted
    ensures Run(s, Moves(ps)).slider == s.slider
    ensures Run(s, Moves(ps)).display == Traced(s.display, s.lastPoint, ps, BrushSize(s.slider))
    ensures Run(s, Moves(ps)).lastPoint == if ps == [] then s.lastPoint else Some(ps[|ps| - 1])
    decreases |ps|
  {
    if ps != [] {
      var t := Step(s, Drag(Changed, ps[0]));
      assert Moves(ps)[0] == Drag(Changed, ps[0]);
      assert Moves(ps)[1..] == Moves(ps[1..]);
      MovesKeepHistory(t, ps[1..]);
      assert ps[1..] != [] ==> ps[1..][|ps[1..]| - 1] == ps[|ps| - 1];
    }
  }

  /** A whole gesture (began, any number of moves, ended) adds exactly one
      history entry, the image with every stroke applied, and hides both
      magnifiers; when nothing was ever shown and there were no moves, the
      history is unchanged. */
  lemma StrokeCommitsOnce(s: Session, start: Point, ps: seq<Point>, end: Point)
    ensures var r := Run(s, [Drag(Began, start)] + Moves(ps) + [Drag(Ended, end)]);
            var d := Traced(s.display, Some(start), ps, BrushSize(s.slider));
            && r.display == d
            && r.undoStack == (if d.Some? then History.Push(s.undoStack, d.value) else s.undoStack)
            && r.persisted == (if d.Some? then d else s.persisted)
            && !r.leftVisible && !r.rightVisible
    ensures ps != [] || s.display.Some? ==>
      Traced(s.display, Some(start), ps, BrushSize(s.slider)).Some?
  {
    var began := Step(s, Drag(Began, start));
    RunAppend(s, [Drag(Began, start)] + Moves(ps), [Drag(Ended, end)]);
    RunAppend(s, [Drag(Began, start)], Moves(ps));
    assert Run(s, [Drag(Began, start)]) == began;
    MovesKeepHistory(began, ps);
    var moved := Run(began, Moves(ps));
    assert Run(moved, [Drag(Ended, end)]) == Step(moved, Drag(Ended, end));
    if ps != [] || s.display.Some? {
      TracedSome(s.display, Some(start), ps, BrushSize(s.slider));
    }
  }

  /** Pressing at (50,50), moving to (60,50) and (70,50), and lifting commits
      a single entry that holds both strokes. */
  lemma TwoMovesOneCommit(s: Session)
    ensures var r := Run(s, [Drag(Began, Point(50.0, 50.0)), Drag(Changed, Point(60.0, 50.0)),
                             Drag(Changed, Point(70.0, 50.0)), Drag(Ended, Point(70.0, 50.0))]);
            var w := BrushSize(s.slider);
            var first := Erase(s.display, Some(Point(50.0, 50.0)), Point(60.0, 50.0), w);
            r.undoStack == History.Push(s.undoStack, Erase(Some(first), Some(Point(60.0, 50.0)), Point(70.0, 50.0), w))
  {
    var ps := [Point(60.0, 50.0), Point(70.0, 50.0)];
    assert Moves(ps) == [Drag(Changed, Point(60.0, 50.0)), Drag(Changed, Point(70.0, 50.0))];
    assert [Drag(Began, Point(50.0, 50.0))] + Moves(ps) + [Drag(Ended, Point(70.0, 50.0))]
      == [Drag(Began, Point(50.0, 50.0)), Drag(Changed, Point(60.0, 50.0)),
          Drag(Changed, Point(70.0, 50.0)), Drag(Ended, Point(70.0, 50.0))];
    StrokeCommitsOnce(s, Point(50.0, 50.0), ps, Point(70.0, 50.0));
  }

  /** A tap (press and release with no move) pushes another copy of the
      shown image; on a full history that evicts the oldest entry. */
  lemma TapCommitsAgain(s: Session, start: Point, end: Point)
    requires |s.undoStack| == History.Capacity
    requires s.display.Some?
    ensures var r := Run(s, [Drag(Began, start), Drag(Ended, end)]);
            r.undoStack == s.undoStack[1..] + [s.display.value]
  {
    StrokeCommitsOnce(s, start, [], end);
    assert Moves([]) == [];
    assert [Drag(Began, start)] + Moves([]) + [Drag(Ended, end)] == [Drag(Began, start), Drag(Ended, end)];
  }

  /** `viewDidAppear` shows the restored sticker without pushing it onto the
      history, so one stroke followed by one undo loses it: nothing is shown,
      nothing is persisted and the history is empty. */
  lemma RestoredStickerLostByUndo(img: Image, a: Point, b: Point, c: Point)
    ensures var r := Run(Start(Some(img)), [Appeared, Drag(Began, a), Drag(Changed, b), Drag(Ended, c), UndoTapped]);
            r.display == None && r.persisted == None && r.undoStack == []
  {
    var s := Start(Some(img));
    var shown := Appear(s);
    assert shown.display == Some(img) && shown.undoStack == [];
    var es := [Appeared, Drag(Began, a), Drag(Changed, b), Drag(Ended, c), UndoTapped];
    RunAppend(s, [Appeared] + [Drag(Began, a)] + Moves([b]) + [Drag(Ended, c)], [UndoTapped]);
    RunAppend(s, [Appeared], [Drag(Began, a)] + Moves([b]) + [Drag(Ended, c)]);
    assert Moves([b]) == [Drag(Changed, b)];
    assert [Appeared] + [Drag(Began, a)] + Moves([b]) + [Drag(Ended, c)] + [UndoTapped] == es;
    assert [Appeared] + ([Drag(Began, a)] + Moves([b]) + [Drag(Ended, c)])
      == [Appeared] + [Drag(Began, a)] + Moves([b]) + [Drag(Ended, c)];
    assert Run(s, [Appeared]) == shown;
    StrokeCommitsOnce(shown, a, [b], c);
    TracedSome(shown.display, Some(a), [b], BrushSize(shown.slider));
  }

  /** Undo right after a push shows the previous entry again, unless the
      history was full, in which case its oldest entry is gone for good. */
  lemma UndoAfterPush(s: Session, img: Image)
    requires Valid(s)
    ensures var r := Undo(AddToUndoStack(s, Some(img)));
            r.undoStack == (if |s.undoStack| < History.Capacity then s.undoStack else s.undoStack[1..])
            && r.display == History.Top(r.undoStack)
  {
    History.PopAfterPush(s.undoStack, img);
  }

  /** With at most one entry, a second undo changes nothing more. */
  lemma UndoSettles(s: Session)
    requires |s.undoStack| <= 1
    ensures Undo(s).undoStack == []
    ensures Undo(Undo(s)) == Undo(s)
  {
  }

  /** What a push persists is what `viewDidAppear` shows again. */
  lemma PersistedIsRestored(s: Session, img: Image)
    ensures Appear(AddToUndoStack(s, Some(img))).display == Some(img)
  {
  }
}
