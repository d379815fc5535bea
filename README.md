# A verified model of four small Python desktop tools

This project is a Dafny model of the core logic of four programs from one repository. It proves properties of that model.

- **Image viewer** (`ImageViewerApp_v2.5.py`). The `ImageWidget` keeps a zoom factor, a "user zoomed" flag, a drag-pan state and a pan offset. The model holds these as fields of a Dafny class. It covers zoom clamping and the 1e-4 "no visible change" threshold, fit-to-window, pan clamping, the resize rule, the wheel and the mouse drag. `ImageViewerApp` keeps the folder's sorted image list and the current index. The model covers scanning a folder, opening a file, previous/next with wrap-around, deletion with index repair, and still versus animated loading.
- **Image converter** (`ImageConverterApp_v1.2.py`). The model covers:
  - the file queue and the listbox kept beside it;
  - the 200-character filename filter;
  - deletion of a multi-selection in reverse order;
  - the format table;
  - the five prompting branches of `convert_image`, with the eight "apply to all" flags and remembered answers. A `CloseRule` parameter selects what closing a popup does: `KeepsLastChoice` is the program's callbacks (the previous answer stays), `ClearsChoice` the docstring's reading (the file is skipped);
  - output paths and the saved colour mode;
  - the end-of-batch reset.
- **ICO maker** (`IcoMaker_V1.1.py`). The model covers the PNG 512×512 filter, the drag/drop counters and status text, and `.ico` naming with `pathlib` suffix rules. It also covers the `name (n).ico` conflict loop, proved to return the first free name.
- **PHQ-9 / GAD-7 screening**, as five programs: two Tk GUIs, a function-based script and two copies of a procedural script. All five share one scoring module: severity bands, sums and the re-prompting input filter. Each GUI is a class whose answer fields are the radio-button variables. Each script is a method that consumes a sequence of typed lines.

Modelling conventions:
- Zoom and pan are exact `real`s. Widget and image sizes are `nat`.
- File-system existence is a finite set of `(parent, name)` paths, compared exactly. Windows' `exists()` ignores case, so for two PNG files dropped together as "cat.png" and "Cat.jpeg", the model names the second icon "Cat.ico" where the program gives "Cat (1).ico".
- Windows paths follow `ntpath`: `basename`, `splitext`, `join` with `\`.
- Dialog answers, directory listings, Pillow probes and Qt decodings are method parameters.
- Terminal input is a `seq<string>`. Running out of input is an explicit outcome.

## Model

| member | source | states |
|---|---|---|
| Text.RemoveAt | projects/python/image_viewer/ImageViewerApp_v2.5.py:812-813 | `del list[i]`: the result is one shorter, keeps the elements before `i`, and shifts the elements after `i` down by one |
| Text.RemoveAtMultiset | projects/python/image_viewer/ImageViewerApp_v2.5.py:812-813 | deleting one entry removes exactly that element: the new multiset plus the removed element is the old multiset |
| Text.Lower | projects/python/image_viewer/ImageViewerApp_v2.5.py:679 | `str.lower` on ASCII letters: same length, and each character is lowered independently |
| Text.NatToString | projects/python/ico_maker/IcoMaker_V1.1.py:273 | decimal rendering of a count: non-empty and made only of digits |
| Text.NatToStringInjective | projects/python/ico_maker/IcoMaker_V1.1.py:273 | different counts render as different decimal strings |
| Paths.Basename | projects/python/image_converter/ImageConverterApp_v1.2.py:232 | `os.path.basename`: a suffix of the path with no separator in it, preceded by a separator whenever it is not the whole path |
| Paths.SplitExt | projects/python/image_converter/ImageConverterApp_v1.2.py:234-236 | `os.path.splitext`: root + extension is the name; a non-empty extension starts with its only dot |
| Paths.SplitExtRule | projects/python/image_converter/ImageConverterApp_v1.2.py:234-236 | the extension is non-empty exactly when some non-dot character comes before the last dot (leading dots do not count) |
| Paths.Join | projects/python/image_viewer/ImageViewerApp_v2.5.py:677 | `os.path.join`: the directory is a prefix, the name a suffix, with at most one separator inserted between them |
| Scoring.PhqBandOf | projects/python/phq_gad/phq_gad_oop_gui.py:220-238 | each of the five PHQ-9 bands holds exactly on its score range (≥20, 15-19, 10-14, 5-9, ≤4), in both directions |
| Scoring.GadBandOf | projects/python/phq_gad/phq_gad_oop_gui.py:239-251 | each of the four GAD-7 bands holds exactly on its score range (≥15, 10-14, 5-9, ≤4), in both directions |
| Scoring.PhqBandMonotone | projects/python/phq_gad/phq_gad_oop_gui.py:26-34 | a higher PHQ-9 score never gives a milder band |
| Scoring.GadBandMonotone | projects/python/phq_gad/phq_gad_oop_gui.py:26-34 | a higher GAD-7 score never gives a milder band |
| Scoring.SumBounds | projects/python/phq_gad/phq_gad_oop_gui.py:209-216 | a sum of item scores (each 0-3) lies between 0 and 3 per item, so PHQ-9 ≤ 27 and GAD-7 ≤ 21 |
| Scoring.SumAppend | projects/python/phq_gad/phq_gad_procedural.py:63-106 | the running total over two runs of answers is the sum of both totals |
| Scoring.ChoiceValue | projects/python/phq_gad/phq_gad_function.py:7 | each accepted text ("0".."3") maps to the item score it spells |
| Scoring.Accepted | projects/python/phq_gad/phq_gad_function.py:75-79 | the answers a re-prompting input loop accepts: never more than the lines typed, each an item score |
| Scoring.AcceptedConcat | projects/python/phq_gad/phq_gad_function.py:75-79 | the filter distributes over concatenation of input runs |
| Scoring.AcceptedPrefix | projects/python/phq_gad/phq_gad_function.py:75-79 | answers accepted from a prefix of the input are a prefix of those accepted from all of it |
| Scoring.AcceptedStep | projects/python/phq_gad/phq_gad_function.py:75-79 | one more line adds its score when it is a valid choice and nothing otherwise |
| Scoring.AcceptedSkipsInvalid | projects/python/phq_gad/phq_gad_function.py:76-79 | an invalid line anywhere in the input changes nothing that is accepted |
| Scoring.ScreeningReport | projects/python/phq_gad/phq_gad_oop_gui.py:209-218 | with 9 and 7 item scores: totals are the sums, within 0-27 and 0-21, and labelled by their bands |
| Scoring.ReadChoice | projects/python/phq_gad/phq_gad_function.py:75-79 | the re-prompt loop stops at the first valid line and consumes exactly the accepted answer; it reports end of input only when no valid line remains |
| PhqGadGui.PatientHealthQuestionnaire.constructor | projects/python/phq_gad/phq_gad_oop_gui.py:135-173 | every PHQ-9 and GAD-7 answer starts as UNANSWERED (-1) |
| PhqGadGui.PatientHealthQuestionnaire.SelectPhq | projects/python/phq_gad/phq_gad_oop_gui.py:135-147 | clicking a PHQ-9 radio button sets that item only |
| PhqGadGui.PatientHealthQuestionnaire.SelectGad | projects/python/phq_gad/phq_gad_oop_gui.py:161-173 | clicking a GAD-7 radio button sets that item only |
| PhqGadGui.PatientHealthQuestionnaire.CalculateScores | projects/python/phq_gad/phq_gad_oop_gui.py:196-218 | no result exactly when some item is still UNANSWERED; otherwise both totals and both labels of the screening report |
| PhqGadGui.PatientHealthQuestionnaire.CalculateSeverity | projects/python/phq_gad/phq_gad_oop_gui.py:220-251 | the two labels are those of the PHQ-9 band and the GAD-7 band of the totals |
| PhqGadGui.PatientHealthQuestionnaire.ResetForm | projects/python/phq_gad/phq_gad_oop_gui.py:334-340 | after a confirmed reset every answer is UNANSWERED; a declined reset changes nothing |
| PhqGadGui.FreshFormIsIncomplete | projects/python/phq_gad/phq_gad_oop_gui.py:203-206 | a form whose PHQ-9 items are all UNANSWERED is always reported as incomplete |
| Phq9Gui.PatientHealthQuestionnaire.constructor | projects/python/phq_gad/phq9_opp_gui.py:76-88 | all nine answers start as UNANSWERED |
| Phq9Gui.PatientHealthQuestionnaire.Select | projects/python/phq_gad/phq9_opp_gui.py:76-88 | a radio-button click sets that item only |
| Phq9Gui.PatientHealthQuestionnaire.CalculateScores | projects/python/phq_gad/phq9_opp_gui.py:107-124 | no result exactly when an item is UNANSWERED; otherwise the total (0-27) and its band label |
| Phq9Gui.PatientHealthQuestionnaire.CalculateSeverity | projects/python/phq_gad/phq9_opp_gui.py:126-142 | the label is that of the PHQ-9 band of the total |
| Phq9Gui.PatientHealthQuestionnaire.ResetForm | projects/python/phq_gad/phq9_opp_gui.py:196-199 | every answer becomes UNANSWERED again (this GUI does not ask for confirmation) |
| PhqGadFunction.AskQuestions | projects/python/phq_gad/phq_gad_function.py:62-83 | it answers all questions exactly when the input holds that many valid lines; the score is the sum of the first accepted answers (0 to 3 per question), and the lines consumed end at the last accepted one; with no questions nothing is read and the score is 0 |
| PhqGadFunction.PhqResults | projects/python/phq_gad/phq_gad_function.py:86-101 | the PHQ-9 band label of the score |
| PhqGadFunction.GadResults | projects/python/phq_gad/phq_gad_function.py:104-115 | the GAD-7 band label of the score |
| PhqGadFunction.RunQuestionnaire | projects/python/phq_gad/phq_gad_function.py:128-147 | a report exists exactly when 16 valid answers were typed; its PHQ-9 part covers the first 9 and its GAD-7 part the next 7 |
| PhqGadProcedural.RunScript | projects/python/phq_gad/phq_gad_procedural.py:63-135 | the same as the function version: a report exactly when 16 valid answers exist, built from the first 9 and the next 7 |
| ImageView.ClampZoom | projects/python/image_viewer/ImageViewerApp_v2.5.py:378 | the zoom is clamped into [0.05, 10]; values inside are kept; values outside go to the nearer bound |
| ImageView.ZoomAfter | projects/python/image_viewer/ImageViewerApp_v2.5.py:367-387 | the new zoom is either the old one or the clamped request, and within 1e-4 of the clamped request, and stays in range |
| ImageView.ZoomAfterIdempotent | projects/python/image_viewer/ImageViewerApp_v2.5.py:377-381 | requesting the same zoom a second time changes nothing: the threshold rule is idempotent |
| ImageView.ZoomInOutRoundTrip | projects/python/image_viewer/ImageViewerApp_v2.5.py:331-339 | away from the limits, zoom-in then zoom-out returns to the original zoom |
| ImageView.ZoomOutInRoundTrip | projects/python/image_viewer/ImageViewerApp_v2.5.py:331-339 | away from the limits, zoom-out then zoom-in returns to the original zoom |
| ImageView.ZoomSaturates | projects/python/image_viewer/ImageViewerApp_v2.5.py:209-210 | zooming in at the maximum, or out at the minimum, leaves the zoom where it is |
| ImageView.FitsIffAtMostIdeal | projects/python/image_viewer/ImageViewerApp_v2.5.py:350-365 | the scaled image fits the widget exactly when the zoom is at most the fit-to-window ratio |
| ImageView.IdealZoomTouches | projects/python/image_viewer/ImageViewerApp_v2.5.py:350-365 | at the fit-to-window ratio the image fills the widget along at least one axis |
| ImageView.FitToWindowFits | projects/python/image_viewer/ImageViewerApp_v2.5.py:350-387 | when fit-to-window takes effect the image fits and touches one side |
| ImageView.InitialZoom | projects/python/image_viewer/ImageViewerApp_v2.5.py:298-329 | a new frame opens at 1.0 when it is null or the widget is empty; otherwise at the largest zoom up to 1.0 that fits, or at the minimum zoom when even that is too large |
| ImageView.InitialZoomIsLargestFit | projects/python/image_viewer/ImageViewerApp_v2.5.py:298-329 | every zoom up to 1.0 that fits is at most the opening zoom |
| ImageView.ClampAxis | projects/python/image_viewer/ImageViewerApp_v2.5.py:249-283 | the clamped offset along one axis lies in the allowed range (0 when the image fits that axis), and an offset already allowed is kept |
| ImageView.ClampAxisNearest | projects/python/image_viewer/ImageViewerApp_v2.5.py:249-283 | the clamped offset is the allowed offset nearest to the requested one |
| ImageView.ClampedPan | projects/python/image_viewer/ImageViewerApp_v2.5.py:249-283 | the clamped pan is in bounds, and a pan in bounds is left unchanged |
| ImageView.ClampedPanIdempotent | projects/python/image_viewer/ImageViewerApp_v2.5.py:249-283 | clamping twice equals clamping once |
| ImageView.CentredInBounds | projects/python/image_viewer/ImageViewerApp_v2.5.py:298-329 | the centred pan (0, 0) is in bounds at every zoom |
| ImageView.TargetRect | projects/python/image_viewer/ImageViewerApp_v2.5.py:408-420 | the drawn rectangle has the scaled image size, with its centre at the widget centre plus the pan offset |
| ImageView.TargetRectOnScreen | projects/python/image_viewer/ImageViewerApp_v2.5.py:408-420 | with an in-bounds pan, a fitting image stays inside the widget, and a larger one covers it on that axis |
| ImageView.ImageWidget.constructor | projects/python/image_viewer/ImageViewerApp_v2.5.py:195-217 | no pixmap, zoom 1.0, not user-zoomed, no drag, pan (0, 0) |
| ImageView.ImageWidget.SetAnimationFrame | projects/python/image_viewer/ImageViewerApp_v2.5.py:223-237 | a non-null frame replaces the pixmap and zoom, pan and flags are kept; a null frame changes nothing |
| ImageView.ImageWidget.ClampPanToBounds | projects/python/image_viewer/ImageViewerApp_v2.5.py:239-283 | the pan becomes the clamped pan of the old one, and nothing else changes |
| ImageView.ImageWidget.SetPixmap | projects/python/image_viewer/ImageViewerApp_v2.5.py:285-329 | the new frame is shown at its opening zoom, centred, with the user-zoom flag cleared |
| ImageView.ImageWidget.SetZoom | projects/python/image_viewer/ImageViewerApp_v2.5.py:367-387 | below the 1e-4 threshold nothing changes; otherwise the zoom becomes the clamped request and the pan is re-clamped, keeping an in-bounds pan in bounds |
| ImageView.ImageWidget.ZoomIn | projects/python/image_viewer/ImageViewerApp_v2.5.py:331-334 | sets the user-zoom flag and requests zoom × 1.25, which never lowers the zoom |
| ImageView.ImageWidget.ZoomOut | projects/python/image_viewer/ImageViewerApp_v2.5.py:336-339 | sets the user-zoom flag and requests zoom / 1.25, which never raises the zoom |
| ImageView.ImageWidget.ResetZoom | projects/python/image_viewer/ImageViewerApp_v2.5.py:341-348 | clears the user-zoom flag and leaves the zoom within 1e-4 of 1.0 |
| ImageView.ImageWidget.FitToWindow | projects/python/image_viewer/ImageViewerApp_v2.5.py:350-365 | without a frame or with an empty widget nothing changes; otherwise the fit-to-window ratio is requested |
| ImageView.ImageWidget.ResizeEventAsWritten | projects/python/image_viewer/ImageViewerApp_v2.5.py:430-448 | as written: the new size is stored; zoom is kept and the pan re-clamped when user-zoomed; otherwise fit-to-window is requested, which may skip the pan clamp |
| ImageView.ImageWidget.ResizeEvent | projects/python/image_viewer/ImageViewerApp_v2.5.py:430-448 | corrected: the same zoom outcome as written; with an image shown the pan is the old pan clamped to the new bounds, otherwise it is kept, so it always ends in bounds |
| ImageView.ImageWidget.WheelEvent | projects/python/image_viewer/ImageViewerApp_v2.5.py:450-460 | scrolling up zooms in, scrolling down zooms out, a zero delta changes nothing |
| ImageView.ImageWidget.MousePressEvent | projects/python/image_viewer/ImageViewerApp_v2.5.py:462-482 | a left press starts a drag at the pointer exactly when a frame is shown that does not fit |
| ImageView.ImageWidget.MouseMoveEvent | projects/python/image_viewer/ImageViewerApp_v2.5.py:484-503 | during a drag the pan moves by the pointer delta and is clamped, and the drag origin moves to the pointer; otherwise nothing changes |
| ImageView.ImageWidget.MouseReleaseEvent | projects/python/image_viewer/ImageViewerApp_v2.5.py:505-511 | releasing the left button ends the drag; nothing else changes |
| ImageView.ResizeLeavesPanOutOfBounds | projects/python/image_viewer/ImageViewerApp_v2.5.py:440-446 | a concrete sequence (100000² frame, drag, then enlarge the widget) after which the image fits but the pan is 2000, out of bounds |
| ImageView.ResizeRecentres | projects/python/image_viewer/ImageViewerApp_v2.5.py:440-446 | the same sequence with the corrected resize leaves the pan at 0, in bounds |
| ImageViewer.Listed | projects/python/image_viewer/ImageViewerApp_v2.5.py:676-680 | the folder's paths are exactly the joined names with a supported (case-insensitive) extension |
| ImageViewer.LexLeTotal | projects/python/image_viewer/ImageViewerApp_v2.5.py:683 | string order is total, so any two names can be sorted |
| ImageViewer.Insert | projects/python/image_viewer/ImageViewerApp_v2.5.py:683 | inserting into a list sorted by lower-cased key keeps it sorted and adds exactly that element |
| ImageViewer.SortByLower | projects/python/image_viewer/ImageViewerApp_v2.5.py:683 | `sort(key=str.lower)`: the output is sorted by lower-cased key and a permutation of the input |
| ImageViewer.ScanFolder | projects/python/image_viewer/ImageViewerApp_v2.5.py:676-683 | the image list is sorted and a permutation of the listed supported files |
| ImageViewer.JoinInjective | projects/python/image_viewer/ImageViewerApp_v2.5.py:677 | joining one folder with two different names gives two different paths |
| ImageViewer.ScanFolderMembers | projects/python/image_viewer/ImageViewerApp_v2.5.py:676-683 | a file's path is in the image list exactly when its name is in the folder with a supported extension |
| ImageViewer.FirstIndex | projects/python/image_viewer/ImageViewerApp_v2.5.py:687 | `list.index`: the first position holding the element |
| ImageViewer.NextIndex | projects/python/image_viewer/ImageViewerApp_v2.5.py:754-758 | from any index from -1 on, a valid position: within the list the next one, wrapping from the last to 0; an index left past the end also goes to 0 |
| ImageViewer.PreviousIndex | projects/python/image_viewer/ImageViewerApp_v2.5.py:738-741 | within the list the previous position, wrapping from 0 to the last; -1 goes to the last; an index left past the end is only decremented, and the result is a valid position exactly when the start was at most the length |
| ImageViewer.NextPreviousInverse | projects/python/image_viewer/ImageViewerApp_v2.5.py:729-762 | Next then Previous, and Previous then Next, return to the starting image |
| ImageViewer.IndexAfterDelete | projects/python/image_viewer/ImageViewerApp_v2.5.py:811-839 | -1 when nothing remains; otherwise the deleted position when entries follow it (so -1, Python's last entry, stays -1), and the new last position when it was at or past the end; from a non-negative position the result is a valid position not after it |
| ImageViewer.ListPosition | projects/python/image_viewer/ImageViewerApp_v2.5.py:743 | the entry that Python indexing `image_list[i]` reaches for -n ≤ i < n: always a valid position, `i` counted from the end when negative |
| ImageViewer.LoadPixmap | projects/python/image_viewer/ImageViewerApp_v2.5.py:115-183 | the result is never null: the decoded image when there is one, otherwise an 800×600 placeholder |
| ImageViewer.ExtensionOf | projects/python/image_viewer/ImageViewerApp_v2.5.py:870 | the lower-cased extension is a suffix of the lower-cased path and is empty or starts with a dot |
| ImageViewer.ImageViewerApp.constructor | projects/python/image_viewer/ImageViewerApp_v2.5.py:523-564 | an empty list, index 0, no movie, the bare window title, an empty widget |
| ImageViewer.ImageViewerApp.LoadImage | projects/python/image_viewer/ImageViewerApp_v2.5.py:845-922 | from any reachable state, a stale index included, and keeping it reachable: the title names the file; a movie plays exactly for a .gif/.webp with more than one valid frame, otherwise the still (or placeholder) is shown at its opening zoom with zero pan and the user-zoom flag cleared (`Shows`); a movie leaves the widget untouched until its first frame |
| ImageViewer.ImageViewerApp.OnFrameChanged | projects/python/image_viewer/ImageViewerApp_v2.5.py:894-907 | from any reachable state, a stale index included: a null frame is ignored; the first frame resets zoom and pan; later frames keep them |
| ImageViewer.ImageViewerApp.PreviousImage | projects/python/image_viewer/ImageViewerApp_v2.5.py:729-745 | from any reachable state: with no images nothing happens; otherwise the index becomes `PreviousIndex`; an IndexError is raised exactly when that index is still past the end, and then the widget, title and movie are unchanged; otherwise the window `Shows` the new current image (title, movie iff animated, else its still at the opening zoom) and the state is consistent |
| ImageViewer.ImageViewerApp.NextImage | projects/python/image_viewer/ImageViewerApp_v2.5.py:746-762 | from any reachable state, a stale index included: with no images nothing happens; otherwise the index moves forward with wrap-around (a stale index goes to 0), the window `Shows` that image (title, movie iff animated, else its still at the opening zoom), and the state is consistent |
| ImageViewer.ImageViewerApp.DeleteImage | projects/python/image_viewer/ImageViewerApp_v2.5.py:763-844 | from any reachable state: an index past the end raises IndexError and changes nothing; otherwise the list changes exactly when an image is shown, its file exists, the user confirms and the file is gone; then the entry Python indexing reaches (-1 is the last) is removed, the index repaired by `IndexAfterDelete`, and the window `Shows` the image now at the index (title, movie iff animated, else its still at the opening zoom), or the viewer is cleared with no movie and a null pixmap; a consistent state stays consistent |
| ImageViewer.ImageViewerApp.ShowFolder | projects/python/image_viewer/ImageViewerApp_v2.5.py:673-690 | from any reachable state: the list is the scanned folder; a listed file is selected at its index and the window `Shows` it (title, movie iff animated, else its still at the opening zoom), otherwise index 0 and the window `Shows` the first image, if any |
| ImageViewer.ImageViewerApp.OpenImageAsWritten | projects/python/image_viewer/ImageViewerApp_v2.5.py:646-691 | as written: a cancelled dialog changes nothing; an opened file is selected and shown (`Shows`); an unlisted file replaces the list but keeps the old index, the widget, the title and the movie state; the state stays reachable |
| ImageViewer.ImageViewerApp.OpenImage | projects/python/image_viewer/ImageViewerApp_v2.5.py:646-691 | corrected: from any reachable state; a cancelled dialog changes nothing; otherwise the list is the scanned folder, the file is selected and shown when listed, else index 0 with the first image shown, and the state is consistent |
| ImageViewer.ImageViewerApp.OpenImageFromPath | projects/python/image_viewer/ImageViewerApp_v2.5.py:692-728 | from any reachable state: an empty path or a non-file changes nothing; otherwise the folder is scanned, the file selected and shown when listed, else index 0 with the first image shown, and the state is consistent |
| ImageViewer.OpenUnlistedLeavesStaleIndex | projects/python/image_viewer/ImageViewerApp_v2.5.py:686-687 | opening an unsupported file into a shorter list leaves an index outside the list |
| ImageViewer.OpenUnlistedSelectsFirst | projects/python/image_viewer/ImageViewerApp_v2.5.py:719-724 | the corrected open falls back to the first image and keeps the index valid |
| ImageConverter.Code | projects/python/image_converter/ImageConverterApp_v1.2.py:69-81 | each output format has one of the five extension codes |
| ImageConverter.ConvertsToRgb | projects/python/image_converter/ImageConverterApp_v1.2.py:255 | the formats that lose transparency are exactly those whose code is jpg/jpeg/tiff/tif |
| ImageConverter.ShortNamed | projects/python/image_converter/ImageConverterApp_v1.2.py:153-177 | the filter never adds a path |
| ImageConverter.Positions | projects/python/image_converter/ImageConverterApp_v1.2.py:159-177 | the increasing positions of exactly the elements that pass a test (here, queued paths whose names are short enough) |
| ImageConverter.ShortNamedAtPositions | projects/python/image_converter/ImageConverterApp_v1.2.py:159-177 | the kept paths are exactly the queued paths at the short-enough positions, in their original order |
| ImageConverter.ShortNamedMembers | projects/python/image_converter/ImageConverterApp_v1.2.py:159-177 | a path survives exactly when it was selected and its base name is at most 200 characters |
| ImageConverter.Names | projects/python/image_converter/ImageConverterApp_v1.2.py:130-138 | one listbox entry per queued path |
| ImageConverter.NamesAt | projects/python/image_converter/ImageConverterApp_v1.2.py:130-138 | each listbox entry is the basename of the path at the same position |
| ImageConverter.Kept | projects/python/image_converter/ImageConverterApp_v1.2.py:187-195 | removing the selected positions never lengthens the list |
| ImageConverter.KeptNothing | projects/python/image_converter/ImageConverterApp_v1.2.py:187-195 | with nothing selected inside the list, the list is unchanged |
| ImageConverter.KeptAll | projects/python/image_converter/ImageConverterApp_v1.2.py:187-195 | selecting every position empties the list |
| ImageConverter.KeptPrefix | projects/python/image_converter/ImageConverterApp_v1.2.py:187-195 | entries before the lowest selected position are untouched |
| ImageConverter.KeptPop | projects/python/image_converter/ImageConverterApp_v1.2.py:190-195 | popping a lower position after all higher ones were removed is the same as also selecting it |
| ImageConverter.KeptNames | projects/python/image_converter/ImageConverterApp_v1.2.py:187-195 | deleting from the listbox and deleting from the queue keep the two in step |
| ImageConverter.Popped | projects/python/image_converter/ImageConverterApp_v1.2.py:190-195 | popping the selection in reverse order removes as many entries as are selected |
| ImageConverter.PoppedIsKept | projects/python/image_converter/ImageConverterApp_v1.2.py:190-195 | reverse-order popping equals removing the selected positions at once |
| ImageConverter.PoppedNames | projects/python/image_converter/ImageConverterApp_v1.2.py:187-195 | after the reverse-order pops of both lists, each equals removing the selected positions at once, and names popped in step with paths stay the basenames of the remaining paths |
| ImageConverter.PopOnce | projects/python/image_converter/ImageConverterApp_v1.2.py:191-193 | one `pop` of the k-th selected position (from the highest down) is in range and turns the k-pop state into the (k-1)-pop state |
| ImageConverter.PopSelected | projects/python/image_converter/ImageConverterApp_v1.2.py:187-195 | the loop popping the selection in reverse order from the listbox and the path copy leaves both equal to the lists without the selected positions, still in step |
| ImageConverter.FormatOfLabel | projects/python/image_converter/ImageConverterApp_v1.2.py:69-81 | a dropdown label maps to a format exactly when it is one of the five labels |
| ImageConverter.FormatOfLabelTable | projects/python/image_converter/ImageConverterApp_v1.2.py:21-25 | each label gives the format with the matching code, and different labels give different formats |
| ImageConverter.Route | projects/python/image_converter/ImageConverterApp_v1.2.py:249-325 | each of the five cases (animation + transparency or GIF output, animation, transparency, WebP → GIF, none) holds exactly under its code condition, in both directions |
| ImageConverter.SavedMode | projects/python/image_converter/ImageConverterApp_v1.2.py:261-335 | RGB for jpg/tiff output and after flattening; a palette image saved as WebP becomes RGBA; otherwise the mode is kept |
| ImageConverter.DisplayName | projects/python/image_converter/ImageConverterApp_v1.2.py:233 | the popup text is at most 53 characters; it is exactly 53 long iff the name was longer than 50, and then ends in "..."; a name of at most 50 keeps its length; the first min(len, 50) characters are the name's own |
| ImageConverter.OutputPath | projects/python/image_converter/ImageConverterApp_v1.2.py:327 | the output is in the chosen folder and ends with the base name, a dot and the format code |
| ImageConverter.PopupEffectAsWritten | projects/python/image_converter/ImageConverterApp_v1.2.py:386-396 | as written: Yes/No record the answer and the checkbox; closing the window records nothing |
| ImageConverter.PopupEffect | projects/python/image_converter/ImageConverterApp_v1.2.py:354-396 | corrected (docstring): the choice is "proceed" exactly on Yes; closing clears the choice |
| ImageConverter.Ask | projects/python/image_converter/ImageConverterApp_v1.2.py:256-258 | once "apply to all" is recorded, no popup is shown and the decision is kept |
| ImageConverter.WithDecision | projects/python/image_converter/ImageConverterApp_v1.2.py:40-50 | recording one prompt's decision sets that pair of flags and leaves the other three pairs alone |
| ImageConverter.Step | projects/python/image_converter/ImageConverterApp_v1.2.py:231-338 | an unreadable file is reported and leaves the flags alone; a file needing no prompt is saved; a file needing a prompt is saved exactly when the choice stored for that prompt after consulting is Yes, and otherwise skipped; a saved file goes to its output path in its saved mode |
| ImageConverter.Batch | projects/python/image_converter/ImageConverterApp_v1.2.py:231-338 | one result per queued file |
| ImageConverter.Raised | projects/python/image_converter/ImageConverterApp_v1.2.py:255-325 | one flag per queued file |
| ImageConverter.RaisedAt | projects/python/image_converter/ImageConverterApp_v1.2.py:255-325 | the flag at each position is set exactly when that file is readable and needs the given prompt |
| ImageConverter.StepKeepsAppliedDecision | projects/python/image_converter/ImageConverterApp_v1.2.py:255-325 | an "apply to all" decision survives a file, and decides that file's fate when it needs the same prompt |
| ImageConverter.BatchSnoc | projects/python/image_converter/ImageConverterApp_v1.2.py:231 | the batch processes files left to right, threading the flags |
| ImageConverter.AppliedDecisionPersists | projects/python/image_converter/ImageConverterApp_v1.2.py:255-325 | an "apply to all" decision holds for the rest of the batch: every later file needing that prompt is saved exactly when the decision was Yes |
| ImageConverter.NoPromptAlwaysSaved | projects/python/image_converter/ImageConverterApp_v1.2.py:327-338 | a readable file that needs no prompt is always saved, to its output path |
| ImageConverter.ClosedPopupReusesChoice | projects/python/image_converter/ImageConverterApp_v1.2.py:386-396 | answer Yes for one animated file, then close the popup for the next: as written the second one is still converted; with the corrected rule it is skipped |
| ImageConverter.ImageConverterApp.constructor | projects/python/image_converter/ImageConverterApp_v1.2.py:27-50 | PNG output, an empty queue and an empty listbox |
| ImageConverter.ImageConverterApp.OnSelect | projects/python/image_converter/ImageConverterApp_v1.2.py:69-81 | a known label sets the output format; anything else leaves it; queue, listbox, folder and prompt flags are unchanged |
| ImageConverter.ImageConverterApp.ProcessFiles | projects/python/image_converter/ImageConverterApp_v1.2.py:153-177 | the queue becomes the short-named paths and the listbox shows exactly their basenames |
| ImageConverter.ImageConverterApp.ReceiveFilesAsWritten | projects/python/image_converter/ImageConverterApp_v1.2.py:130-151 | as written: a selection is filtered into queue and listbox; an empty one clears the queue but not the listbox; the reachable-state invariant (fresh flags, and queue and listbox in step unless the queue is empty) is kept |
| ImageConverter.ImageConverterApp.ReceiveFiles | projects/python/image_converter/ImageConverterApp_v1.2.py:130-151 | corrected: an empty selection keeps queue and listbox; queue and listbox always match |
| ImageConverter.ImageConverterApp.DeleteListboxItem | projects/python/image_converter/ImageConverterApp_v1.2.py:179-195 | with queue and listbox in step, the selected positions disappear from both; after a cancelled Browse (empty queue, stale listbox) a non-empty selection removes the highest selected row and then fails on the empty queue (`IndexError`), an empty one changes nothing; the reachable-state invariant is kept |
| ImageConverter.ImageConverterApp.PopRows | projects/python/image_converter/ImageConverterApp_v1.2.py:187-195 | with queue and listbox in step, the reverse-order pops leave both without the selected positions and still in step |
| ImageConverter.ImageConverterApp.ResetSelections | projects/python/image_converter/ImageConverterApp_v1.2.py:197-206 | queue and listbox become empty |
| ImageConverter.ImageConverterApp.Consult | projects/python/image_converter/ImageConverterApp_v1.2.py:255-325 | checks "apply to all" or asks, applying the popup answer under the given close rule; the flags become exactly that prompt's new decision with the other prompts untouched |
| ImageConverter.ImageConverterApp.ConvertOne | projects/python/image_converter/ImageConverterApp_v1.2.py:231-338 | processing one file is one step of the batch specification under the given close rule (`KeepsLastChoice` is the program as written) |
| ImageConverter.ImageConverterApp.ConvertQueue | projects/python/image_converter/ImageConverterApp_v1.2.py:231-338 | the loop over the queue computes the batch specification under the given close rule |
| ImageConverter.ImageConverterApp.ConvertImage | projects/python/image_converter/ImageConverterApp_v1.2.py:208-352 | from any reachable state, including a stale listbox: an empty queue is an error and changes nothing; otherwise the batch runs from fresh flags under the given close rule, then queue and listbox are cleared and in step |
| ImageConverter.CancelledBrowseDesynchronises | projects/python/image_converter/ImageConverterApp_v1.2.py:140-151 | a cancelled Browse with files listed leaves the listbox and queue out of step |
| ImageConverter.CancelledBrowseKeepsQueue | projects/python/image_converter/ImageConverterApp_v1.2.py:140-151 | the corrected receive keeps them in step and the listbox unchanged |
| IcoMaker.ParsePath | projects/python/ico_maker/IcoMaker_V1.1.py:226 | a path splits into parent + name, with the name being the basename |
| IcoMaker.Suffix | projects/python/ico_maker/IcoMaker_V1.1.py:254 | `PurePath.suffix`: empty or a dot with no further dots, neither the first nor the last character of the name |
| IcoMaker.SuffixRule | projects/python/ico_maker/IcoMaker_V1.1.py:254 | `PurePath.suffix` is non-empty exactly when the last dot is neither the first nor the last character, and then it is the name from that dot on |
| IcoMaker.Stem | projects/python/ico_maker/IcoMaker_V1.1.py:253 | `PurePath.stem`: stem + suffix is the name, and a non-empty name has a non-empty stem |
| IcoMaker.WithSuffix | projects/python/ico_maker/IcoMaker_V1.1.py:226 | `with_suffix` fails exactly on an empty name, and keeps the parent |
| IcoMaker.IcoPathOf | projects/python/ico_maker/IcoMaker_V1.1.py:226 | the `.ico` path: absent only for an empty name; same folder, suffix `.ico`, same stem |
| IcoMaker.IcoSuffixed | projects/python/ico_maker/IcoMaker_V1.1.py:226 | stem + ".ico" has suffix ".ico" and gives back the stem |
| IcoMaker.Candidate | projects/python/ico_maker/IcoMaker_V1.1.py:255-261 | `stem (n)suffix` is in the same folder, three characters plus the digits longer |
| IcoMaker.CandidateInjective | projects/python/ico_maker/IcoMaker_V1.1.py:255-261 | different counters give different candidate names |
| IcoMaker.CandidateDiffers | projects/python/ico_maker/IcoMaker_V1.1.py:255-261 | no candidate equals the requested name |
| IcoMaker.ResolvesUnique | projects/python/ico_maker/IcoMaker_V1.1.py:235-261 | the conflict rule determines one answer |
| IcoMaker.NotTriedYet | projects/python/ico_maker/IcoMaker_V1.1.py:255-261 | candidates at or past the counter were not tried before |
| IcoMaker.TryStep | projects/python/ico_maker/IcoMaker_V1.1.py:255-261 | each conflicting candidate grows the tried set by that one name, which stays inside the existing files, so the loop terminates |
| IcoMaker.ResolveIcoNameConflict | projects/python/ico_maker/IcoMaker_V1.1.py:235-261 | the free requested name, or else the candidate with the smallest counter from 1 that does not exist |
| IcoMaker.Supported | projects/python/ico_maker/IcoMaker_V1.1.py:349-382 | the filter never adds paths and keeps only non-empty ones |
| IcoMaker.PassingPositions | projects/python/ico_maker/IcoMaker_V1.1.py:368-382 | the positions of the PNG 512×512 files, increasing, and all of them |
| IcoMaker.SupportedAtPositions | projects/python/ico_maker/IcoMaker_V1.1.py:368-382 | the kept paths are exactly the passing files, in order |
| IcoMaker.StatusTextInjective | projects/python/ico_maker/IcoMaker_V1.1.py:273 | different counts give different status texts |
| IcoMaker.Targets | projects/python/ico_maker/IcoMaker_V1.1.py:224-232 | the paths written, in order |
| IcoMaker.WriteIcons | projects/python/ico_maker/IcoMaker_V1.1.py:224-231 | the loop of `process_image`: the icons written are a prefix of the sources, each at its free name; it raises exactly at the first source with no name or whose conversion fails, and otherwise writes an icon for every source |
| IcoMaker.StoppedAtFailure | projects/python/ico_maker/IcoMaker_V1.1.py:224-232 | where the loop stopped decides the outcome: every source converts exactly when it wrote an icon for each |
| IcoMaker.IcoMakerWindow.constructor | projects/python/ico_maker/IcoMaker_V1.1.py:130-141 | the welcome status and both counters at 0 |
| IcoMaker.IcoMakerWindow.UpdateStatusMessage | projects/python/ico_maker/IcoMaker_V1.1.py:264-274 | the status shows "converted of dropped"; counters unchanged |
| IcoMaker.IcoMakerWindow.SupportedImages | projects/python/ico_maker/IcoMaker_V1.1.py:349-382 | returns the passing files, counting the dropped and the passing ones |
| IcoMaker.IcoMakerWindow.GetImagesFromEvent | projects/python/ico_maker/IcoMaker_V1.1.py:327-343 | without URLs nothing and no change; otherwise the supported files, with counters updated |
| IcoMaker.IcoMakerWindow.DragEvent | projects/python/ico_maker/IcoMaker_V1.1.py:280-301 | the drag is accepted exactly when some dropped file is supported |
| IcoMaker.IcoMakerWindow.ProcessImage | projects/python/ico_maker/IcoMaker_V1.1.py:204-232 | each file gets a five-size icon at its resolved free name, in order; the first file with no name, or whose open, convert or save fails, raises and ends the loop before the status update; the status is updated exactly when every file converts |
| IcoMaker.IcoMakerWindow.DropEvent | projects/python/ico_maker/IcoMaker_V1.1.py:304-324 | without URLs or supported files nothing is written and the drop is ignored; otherwise the drop is accepted exactly when every supported file has an `.ico` name and converts without error, in which case every supported file is converted and the status updated; a drop left unaccepted has written a prefix of the targets and stopped at the first file that does not convert |
| IcoMaker.WrittenAreFresh | projects/python/ico_maker/IcoMaker_V1.1.py:224-261 | no icon overwrites an existing file, and no two icons of a drop share a path |

## Left out

- Drawing, widgets, layout, fonts, tooltips, icons, dialogs' appearance and the About/exit windows of all four programs: they only display state.
- Pixel data: Qt and Pillow decoding, flattening onto a white background, and ICO encoding. The model keeps only the facts the logic branches on: null or not, size, mode, transparency, animation, format.
- Floating point: zoom, pan and scaling are exact reals, and the 1e-4 threshold is compared exactly. So `zoom * 1.25 / 1.25` returns exactly to `zoom`.
- Timing and concurrency: QMovie playback, `QTimer.singleShot`, and event ordering beyond one handler at a time.
- File-system calls: `os.listdir`, `isfile`, `exists`, `send2trash` and `startfile`. Their results are parameters. For the ICO maker, the set of sources whose open, convert or save raises is a parameter too. The converter's saves are taken to succeed (see `ConvertImage` below).
- Path normalisation: `os.path.normpath`, drive-relative paths and trailing separators are not modelled. The chosen file arrives as a folder and a name.
- `get_real_pictures_folder`, `resource_path` and the info-icon offsets: platform look-ups and cosmetic positions.
- The initial ICO status text uses "×" (U+00D7) while the updated text uses ASCII "x". The model keeps both literally.
- The procedural PHQ/GAD scripts exist twice with the same logic. `PhqGadProcedural.RunScript` models both. The final `input("\nPress Enter to exit...")` of one copy runs after the results and is not modelled.
- `PhqGadProcedural.RunScript`, `PhqGadFunction.RunQuestionnaire`, `PhqGadFunction.AskQuestions`: an exhausted terminal, which would raise EOFError, is a missing result instead.
- `ImageConverter.ImageConverterApp.ConvertImage`: every `img.save` (line 338) is taken to succeed. In the program a failing save raises outside any `try`, so lines 340-349 never run. The queue, the listbox and this batch's remembered answers then stay, and a later batch skips the prompts whose "apply to all" was ticked. `Reachable` describes the states reached while saves succeed.
- `ImageConverter.ImageConverterApp.ConvertImage`: a cancelled folder dialog gives an empty folder string, which the model passes on as given. The folder dialog is an input.
- `IcoMaker.IcoMakerWindow.ProcessImage`, `IcoMaker.IcoMakerWindow.DropEvent`: which sources fail to convert is given, not derived from their contents, and the exception itself is not modelled. The class docstring (line 103) calls errors quiet; that holds for validation (lines 373-379), but a failing conversion raises out of `dropEvent`, and the model follows the code.
- `Text.Lower`: only ASCII letters are lowered. Python's `str.lower` also lowers non-ASCII letters, so names such as "Äb.png" and "äa.png" may sort differently in the model.
- `ImageViewer.SortByLower`: sorted by the ASCII-lowered key and a permutation, as above. Stability (equal keys keep their input order, as Python's sort does) is not proved.
- `ImageConverter.Route`: the GIF branch's condition at line 278 tests `img_animation` twice. The model follows the code, so every animated image exported as GIF gets the animation-and-transparency prompt even without transparency.

## Findings

| source | as written | input that shows it | evidently intended | confidence | as-written member | corrected member |
|---|---|---|---|---|---|---|
| projects/python/image_viewer/ImageViewerApp_v2.5.py:440-446 | on resize without a user zoom, `fit_to_window` calls `set_zoom`, which returns early when the zoom does not change (e.g. already clamped at 0.05), so the pan is never re-clamped | a 100000×100000 frame in a 1000×1000 widget (zoom 0.05), dragged to pan 2000, then the widget grows to 5000×5000 | the pan is clamped after every resize, so a fitting image is centred | not executed | ImageView.ResizeLeavesPanOutOfBounds | ImageView.ResizeRecentres |
| projects/python/image_converter/ImageConverterApp_v1.2.py:386-396 | closing a prompt window leaves the previous file's Yes/No in place | answer Yes for an animated file, then close the popup for the next animated file: it is converted | per the docstring at line 365, a closed window means None, so the file is skipped | not executed | ImageConverter.ClosedPopupReusesChoice | ImageConverter.PopupEffect (the class runs either rule through its `CloseRule` parameter) |
| projects/python/image_converter/ImageConverterApp_v1.2.py:140-151 | a cancelled Browse (or an empty drop) sets the queue to `()` but keeps the listbox entries | list some files, then press Browse and cancel | queue and listbox stay in step (either both kept or both cleared) | not executed | ImageConverter.CancelledBrowseDesynchronises | ImageConverter.CancelledBrowseKeepsQueue |
| projects/python/image_viewer/ImageViewerApp_v2.5.py:686-687 | `image_list` is replaced before `index` raises ValueError for a file not in the scanned list, leaving the old index | view image 5 of a folder, then open a file with an unsupported extension from a folder holding two images | fall back to the first image, as `open_image_from_path` does at lines 719-724 | not executed | ImageViewer.OpenUnlistedLeavesStaleIndex | ImageViewer.OpenUnlistedSelectsFirst |
