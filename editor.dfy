/** The create-sticker view controller's editing state, updated in place by
    its UI callbacks. Each method is proved to do to `View()` what the
    matching function of module Sticker does to a session value. */
module StickerEditor {
  import opened Wrappers
  import opened Raster
  import opened Brush
  import History
  import Sticker

  class Editor {
    var undoStack: seq<Image>
    var display: Option<Image>
    var persisted: Option<Image>
    var lastPoint: Option<Point>
    var leftVisible: bool
    var rightVisible: bool
    var preview: Option<Image>
    var slider: real

    /** The fields as a session value. */
    function View(): Sticker.Session
      reads this
    {
      Sticker.Session(undoStack, display, persisted, lastPoint, leftVisible, rightVisible, preview, slider)
    }

    ghost predicate Valid()
      reads this
    {
      Sticker.Valid(View())
    }

    /** The controller with its outlets set; `saved` is what the key-value
        store holds under the saved-sticker key. */
    constructor (saved: Option<Image>)
      ensures Valid()
      ensures View() == Sticker.Start(saved)
    {
      undoStack := [];
      display := None;
      persisted := saved;
      lastPoint := None;
      leftVisible, rightVisible := false, false;
      preview := None;
      slider := SliderStart;
    }

    method AddToUndoStack(image: Option<Image>)
      requires Valid()
      modifies this
      ensures Valid()
      ensures View() == Sticker.AddToUndoStack(old(View()), image)
    {
      if image.None? {
        return;
      }
      persisted := image;
      if |undoStack| <= History.AppendLimit {
        undoStack := undoStack + [image.value];
      } else {
        undoStack := undoStack[1..];
        undoStack := undoStack + [image.value];
      }
    }

    method Undo()
      requires Valid()
      modifies this
      ensures Valid()
      ensures View() == Sticker.Undo(old(View()))
    {
      if undoStack != [] {
        undoStack := undoStack[..|undoStack| - 1];
      }
      display := if undoStack == [] then None else Some(undoStack[|undoStack| - 1]);
      persisted := display;
    }

    method SetUnderFingerView(p: Point)
      requires Valid()
      modifies this
      ensures Valid()
      ensures View() == Sticker.SetUnderFingerView(old(View()), p)
    {
      var side := PreviewSize(BrushSize(slider));
      preview := if display.Some? then Some(Crop(display.value, p, side)) else None;
      if ShowRight(p) {
        rightVisible := true;
        leftVisible := false;
      } else {
        leftVisible := true;
        rightVisible := false;
      }
    }

    method HandleDrag(g: Sticker.Gesture, p: Point)
      requires Valid()
      modifies this
      ensures Valid()
      ensures View() == Sticker.HandleDrag(old(View()), g, p)
    {
      SetUnderFingerView(p);
      match g {
        case Began =>
          lastPoint := Some(p);
        case Changed =>
          display := Some(Erase(display, lastPoint, p, BrushSize(slider)));
          lastPoint := Some(p);
        case Ended =>
          rightVisible := false;
          leftVisible := false;
          AddToUndoStack(display);
        case _ =>
      }
    }

    method PickPhoto(picked: Option<PhotoId>)
      requires Valid()
      modifies this
      ensures Valid()
      ensures View() == Sticker.PickPhoto(old(View()), picked)
    {
      if picked.Some? {
        display := Some(Drawn(picked.value));
        AddToUndoStack(display);
      }
    }

    method Appear()
      requires Valid()
      modifies this
      ensures Valid()
      ensures View() == Sticker.Appear(old(View()))
    {
      if persisted.Some? {
        display := persisted;
      }
    }

    /** The user moves the size slider, which reports values in its range. */
    method MoveSlider(v: real)
      requires Valid()
      requires SliderMin <= v <= SliderMax
      modifies this
      ensures Valid()
      ensures View() == Sticker.Step(old(View()), Sticker.SliderMoved(v))
    {
      slider := v;
    }
  }
}
