# StickPics sticker editor: a Dafny model

StickPics is an iMessage extension in which the user picks a photo, erases
its background with a finger and saves the result as a sticker. This project
models the editing state of its create-sticker screen
(`CreateStickPicController`): the bounded undo history, the drag-to-erase
gesture handler, the brush-width and magnifier-size arithmetic, the choice of
which under-finger magnifier to show, loading a picked photo, and restoring a
persisted in-progress sticker when the screen appears.

Files:

- `wrappers.dfy` — `Option`.
- `raster.dfy` — `Point` and `Image`. Images are terms (`Drawn`, `Erase`,
  `Crop`) that record how the graphics context produced them; no pixel is
  modelled.
- `brush.dfy` — `BrushSize` (slider value squared), `PreviewSize` (the
  three-branch magnifier size) and `ShowRight` (the corner test), with their
  lemmas.
- `history.dfy` — the undo history as a sequence: `Push` (drop the oldest
  entry when more than 20 are held, then append), `Pop`, `Top`, and the
  reference definition `Latest` (the newest 21 entries).
- `sticker.dfy` — the controller's state as a `Session` value, one function
  per UI event, the invariant `Valid`, runs of events and the lemmas about
  whole gestures.
- `editor.dfy` — class `Editor`, whose fields the UI callbacks update in
  place; every method is proved to have the effect of the matching
  `Sticker` function on `View()` and to keep `Valid()`.

The invariant kept by every modelled event: the history holds at most 21
entries; when it is not empty, its newest entry is the persisted
in-progress sticker; the slider stays within 2 to 10. Saving a sticker is
not modelled and does not keep the second part (see "## Left out").

Behaviour of the code that the model keeps as written:

- The magnifier size divides by 80, not by 80 - 10. At brush size 80 it is
  375, and for any brush size above 80 it is 400: a jump of 25
  (`PreviewSizeLandmarks`, `PreviewSizeJumpAboveCeiling`).
- `lastPoint` is not cleared when a gesture ends. A cancelled or failed
  gesture only updates the magnifiers: strokes already applied stay on the
  displayed image, nothing is committed, nothing is rolled back.
- A move with no image shown still yields an image, because the stroke is
  drawn into a fresh context. A move before any press strokes from no
  previous point (`Erase(_, None, _, _)`).
- A tap (press and release with no move) pushes another copy of the shown
  image; on a full history that pushes out the oldest entry
  (`TapCommitsAgain`).
- Appearing shows the restored sticker but does not push it onto the
  history, so one stroke followed by one undo leaves nothing shown, nothing
  persisted and an empty history: the restored sticker is lost
  (`RestoredStickerLostByUndo`).
- `undo` on an empty history is not a pure no-op: it clears both the shown
  image and the persisted sticker.

## Model

| member | source | states |
|---|---|---|
| `Brush.BrushSize` | MessagesExtension/CreateStickPicController.swift:57-59 | the brush width is never negative, and lies in [4,100] when the slider value lies in [2,10] |
| `Brush.SquareInSliderRange` | MessagesExtension/CreateStickPicController.swift:146-151 | every value of the slider's range [2,10] squares to a width in [4,100] |
| `Brush.BrushSizeIncreasing` | MessagesExtension/CreateStickPicController.swift:57-59 | a larger non-negative slider value gives a strictly wider brush |
| `Brush.PreviewSize` | MessagesExtension/CreateStickPicController.swift:230-243 | the magnifier side lies in [200,400]; it is 400 exactly when the brush is above 80, and 200 exactly when the brush is at most 10 |
| `Brush.PreviewSizeMonotone` | MessagesExtension/CreateStickPicController.swift:236-243 | a wider brush never gets a smaller magnifier |
| `Brush.PreviewSizeLandmarks` | MessagesExtension/CreateStickPicController.swift:236-243 | the size is 200 at 10, 287.5 at 45 and 375 at 80 |
| `Brush.PreviewSizeJumpAboveCeiling` | MessagesExtension/CreateStickPicController.swift:236-243 | every brush above 80 gets a size 25 more than brush 80 gets, so the mapping jumps at 80 |
| `Brush.PreviewGrowsWithSlider` | MessagesExtension/CreateStickPicController.swift:236-243 | moving the slider up never shrinks the magnifier |
| `Brush.ShowRight` | MessagesExtension/CreateStickPicController.swift:249 | definition: the corner test `x < 150 && y < 150` |
| `Brush.ShowRightTowardsCorner` | MessagesExtension/CreateStickPicController.swift:249 | moving a point up or left never switches from the right magnifier to the left one |
| `History.Latest` | MessagesExtension/CreateStickPicController.swift:203-208 | definition, the independent partner of `Push`: the newest 21 entries of the sequence in order, or the whole sequence when it is shorter |
| `History.Push` | MessagesExtension/CreateStickPicController.swift:203-208 | the pushed image ends up last, and on a history of at most 21 entries the result is the newest 21 of the old entries plus the image |
| `History.Pop` | MessagesExtension/CreateStickPicController.swift:141 | an empty history stays empty; otherwise the result plus the old last entry is the old history |
| `History.Top` | MessagesExtension/CreateStickPicController.swift:142 | definition: Swift's `last`, none for an empty history |
| `History.PushAllKeepsLatest` | MessagesExtension/CreateStickPicController.swift:203-208 | after any number of pushes onto a history of at most 21 entries, it holds exactly the newest 21 of the old entries and the pushed images, in push order, so never more than 21 |
| `History.PopAfterPush` | MessagesExtension/CreateStickPicController.swift:140-142 | undo after a push restores the old history if it was not full, and the old history minus its oldest entry if it was; the pushed image is on top after the push |
| `Sticker.Start` | MessagesExtension/CreateStickPicController.swift:25-61 | the initial state is valid: empty history, nothing shown, both magnifiers hidden, the previously persisted sticker kept |
| `Sticker.AddToUndoStack` | MessagesExtension/CreateStickPicController.swift:200-209 | a missing image changes nothing; an image is persisted and pushed, ends up last, and nothing else changes; the invariant is kept |
| `Sticker.Undo` | MessagesExtension/CreateStickPicController.swift:140-144 | the newest entry is dropped; the shown and the persisted image both become the new newest entry or none; on an empty history only the shown and persisted image change, to none; the invariant is kept |
| `Sticker.SetUnderFingerView` | MessagesExtension/CreateStickPicController.swift:226-256 | exactly one magnifier is shown, the right one iff the point is in the 150 by 150 corner; the preview is a crop of the shown image centred on the point whose side is `PreviewSize(BrushSize(slider))`, so in [200,400], or none when nothing is shown |
| `Sticker.HandleDrag` | MessagesExtension/CreateStickPicController.swift:155-198 | only the end of a gesture touches the history (one push of the shown image) and hides both magnifiers; only a move changes the image, by one erase stroke from the previous point at the current brush width; the press and each move record the point; other phases leave exactly one magnifier shown and change nothing else; the magnifiers always hold the crop of the image as it was before the event; the invariant is kept |
| `Sticker.PickPhoto` | MessagesExtension/CreateStickPicController.swift:261-268 | a delivered photo is shown, persisted and pushed as exactly one history entry; no photo changes nothing |
| `Sticker.Appear` | MessagesExtension/CreateStickPicController.swift:77-82 | a persisted sticker becomes the shown image; nothing else changes |
| `Sticker.Step` | MessagesExtension/CreateStickPicController.swift:146-152 | every event, slider moves within its range included, keeps the invariant |
| `Sticker.RunKeepsValid` | MessagesExtension/CreateStickPicController.swift:200-209 | from a valid state, which the initial state is, no run of events breaks the invariant, so the history never exceeds 21 entries |
| `Sticker.TracedSome` | MessagesExtension/CreateStickPicController.swift:164-189 | a drag with at least one move always leaves an image shown |
| `Sticker.MovesKeepHistory` | MessagesExtension/CreateStickPicController.swift:164-189 | a run of moves erases along the path point after point and leaves the history, the persisted sticker and the slider unchanged |
| `Sticker.StrokeCommitsOnce` | MessagesExtension/CreateStickPicController.swift:161-197 | press, any number of moves, release: exactly one push onto the history, of the image with every stroke applied (none only when no image was ever shown and there were no moves), and both magnifiers are hidden |
| `Sticker.TwoMovesOneCommit` | MessagesExtension/CreateStickPicController.swift:161-197 | press at (50,50), moves to (60,50) and (70,50), release: a single commit holding both strokes |
| `Sticker.TapCommitsAgain` | MessagesExtension/CreateStickPicController.swift:161-197 | on a full history, press and release with no move push another copy of the shown image and evict the oldest entry |
| `Sticker.RestoredStickerLostByUndo` | MessagesExtension/CreateStickPicController.swift:80-81 | after appearing with a persisted sticker, one stroke and one undo leave nothing shown, nothing persisted and an empty history |
| `Sticker.UndoAfterPush` | MessagesExtension/CreateStickPicController.swift:140-144 | undo right after a commit shows the previous entry again, except that a full history has lost its oldest entry |
| `Sticker.UndoSettles` | MessagesExtension/CreateStickPicController.swift:140-144 | on a history of at most one entry undo empties it, and a second undo changes nothing more |
| `Sticker.PersistedIsRestored` | MessagesExtension/CreateStickPicController.swift:80-82 | what a commit persists is what appearing shows again |
| `StickerEditor.Editor.constructor` | MessagesExtension/CreateStickPicController.swift:25-61 | the fields start as `Sticker.Start` says and the invariant holds |
| `StickerEditor.Editor.AddToUndoStack` | MessagesExtension/CreateStickPicController.swift:200-209 | the guard, persisting, and append or remove-first-then-append in place, with the effect of `Sticker.AddToUndoStack`; the invariant is kept |
| `StickerEditor.Editor.Undo` | MessagesExtension/CreateStickPicController.swift:140-144 | pop-last, show the new last, persist it, in place, with the effect of `Sticker.Undo` |
| `StickerEditor.Editor.SetUnderFingerView` | MessagesExtension/CreateStickPicController.swift:226-256 | crop for both magnifiers and show one, hide the other, with the effect of `Sticker.SetUnderFingerView` |
| `StickerEditor.Editor.HandleDrag` | MessagesExtension/CreateStickPicController.swift:155-198 | the gesture callback step by step, with the effect of `Sticker.HandleDrag`; the invariant is kept |
| `StickerEditor.Editor.PickPhoto` | MessagesExtension/CreateStickPicController.swift:261-268 | draw the photo, show it and push it, with the effect of `Sticker.PickPhoto` |
| `StickerEditor.Editor.Appear` | MessagesExtension/CreateStickPicController.swift:77-82 | show the persisted sticker, with the effect of `Sticker.Appear` |
| `StickerEditor.Editor.MoveSlider` | MessagesExtension/CreateStickPicController.swift:146-152 | a slider value within [2,10] becomes the brush input; the invariant is kept |

## Left out

- Pixels: drawing, clear-mode stroking, scaling a photo into the view and
  cropping (`draw`, `strokePath`, `cropToSquare`) are CoreGraphics and UIKit
  calls. `Erase`, `Drawn` and `Crop` are uninterpreted image terms, so the
  model says which strokes an image holds, not which pixels it clears.
- The saved-sticker key: `toBase64` and `fromBase64` are not part of this
  model. The persisted slot holds the image itself, so a failed decode on
  restore (which would clear the shown image) is not modelled.
- `save(_:)`: the confirmation alert, PNG encoding, UUID file names, writing
  into the app-group container, the sticker history store and the delegate
  callback are all I/O or foreign calls. After a successful write it also
  sets the saved-sticker key to nil while leaving the undo history as it
  is, which would break the invariant's "newest entry is persisted" part;
  and the delegate callback then switches the extension to compact style,
  which replaces this controller. Neither effect is modelled, so the
  invariant is promised for the modelled events only.
- The first-launch welcome alert in `viewDidAppear`: presentation only.
- `addPhoto` and the picker's child-controller embedding and removal,
  `imagePickerControllerDidCancel`, and the outlets' styling: UIKit
  plumbing. A cancelled pick is the `None` case of `PickPhoto`.
- `hide` and `show` are half-second alpha animations; the model keeps only
  the target visibility of each magnifier.
- `CGFloat` rounding: all arithmetic is over `real`.
- The gesture recognizer's location for a given touch is an input point;
  the `.changed` branch reads it a second time, which gives the same point.
- MessagesViewController.swift and TableViewController.swift: presentation
  switching, and a table over saved stickers; deleting one goes through a
  confirmation alert and the sticker store (`StickPicHistory`, which is not
  part of this model).
