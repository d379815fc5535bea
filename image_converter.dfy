/** The image converter's batch rules: which files enter the queue, how the queue and the
    list the user sees are edited together, which question (if any) each file raises before
    conversion, how an "Apply to all" answer is remembered for the rest of the batch, and
    where each result is written. What an image is (its mode, whether it is animated) and
    what the user answers are inputs. */
module ImageConverter {
  import opened Text
  import opened Paths

  const MAX_FILENAME_LENGTH: nat := 200

  /** The combobox labels and the format each selects, position by position. */
  const FORMATS: seq<string> := ["PNG (*.png)", "JPEG (*.jpg)", "WebP (*.webp)", "GIF (*.gif)", "TIFF (*.tiff)"]
  const FORMAT_CODES: seq<string> := ["png", "jpg", "webp", "gif", "tiff"]

  /** The five output formats the combobox offers. */
  datatype Format = Png | Jpg | Webp | Gif | Tiff

  /** The format code, which is also the output file's extension. */
  function Code(f: Format): (code: string)
    ensures code in FORMAT_CODES
  {
    match f
    case Png => "png"
    case Jpg => "jpg"
    case Webp => "webp"
    case Gif => "gif"
    case Tiff => "tiff"
  }

  /** Targets without an alpha channel: the image is saved as RGB. */
  const RGB_FORMATS: seq<string> := ["jpg", "jpeg", "tiff", "tif"]

  /** `self.new_format in ("jpg", "jpeg", "tiff", "tif")`: among the selectable formats,
      JPEG and TIFF. */
  predicate ConvertsToRgb(f: Format)
    ensures ConvertsToRgb(f) <==> Code(f) in RGB_FORMATS
  {
    f == Jpg || f == Tiff
  }

  /** Display names longer than this are cut and marked with "...". */
  const DISPLAY_LENGTH: nat := 50

  // ---- the queue ----

  /** A path whose file name, extension stripped, is at most 200 characters. */
  predicate ShortEnough(path: string) {
    |SplitExt(Basename(path)).0| <= MAX_FILENAME_LENGTH
  }

  /** The paths `process_files` keeps, in their original order. */
  function ShortNamed(paths: seq<string>): (kept: seq<string>)
    ensures |kept| <= |paths|
  {
    if paths == [] then []
    else
      var last := paths[|paths| - 1];
      ShortNamed(paths[..|paths| - 1]) + (if ShortEnough(last) then [last] else [])
  }

  /** `process_files` keeps exactly the queued paths whose names are short enough. */
  lemma {:induction false} ShortNamedMembers(paths: seq<string>, p: string)
    ensures p in ShortNamed(paths) <==> p in paths && ShortEnough(p)
  {
    if paths != [] {
      var n := |paths| - 1;
      var last := paths[n];
      ShortNamedMembers(paths[..n], p);
      InLast(paths, p);
      assert ShortNamed(paths) == ShortNamed(paths[..n]) + (if ShortEnough(last) then [last] else []);
    }
  }

  /** The positions of the elements of `s` that satisfy `keep`, in increasing order. */
  function Positions<T>(s: seq<T>, keep: T -> bool): (idx: seq<nat>)
    ensures forall j, k :: 0 <= j < k < |idx| ==> idx[j] < idx[k]
    ensures forall j :: 0 <= j < |idx| ==> idx[j] < |s| && keep(s[idx[j]])
    ensures forall i :: 0 <= i < |s| && keep(s[i]) ==> i in idx
  {
    if s == [] then []
    else
      var n := |s| - 1;
      Positions(s[..n], keep) + (if keep(s[n]) then [n] else [])
  }

  /** `process_files` keeps the queued paths at the positions whose names are short
      enough, in their original order: an order-preserving selection that skips every
      over-long name. */
  lemma {:induction false} ShortNamedAtPositions(paths: seq<string>)
    ensures var idx := Positions(paths, ShortEnough);
            && |ShortNamed(paths)| == |idx|
            && forall j :: 0 <= j < |idx| ==> ShortNamed(paths)[j] == paths[idx[j]]
  {
    if paths != [] {
      var n := |paths| - 1;
      ShortNamedAtPositions(paths[..n]);
      var idx0 := Positions(paths[..n], ShortEnough);
      var kept0 := ShortNamed(paths[..n]);
      var short := ShortEnough(paths[n]);
      assert ShortNamed(paths) == kept0 + (if short then [paths[n]] else []);
      assert Positions(paths, ShortEnough) == idx0 + (if short then [n] else []);
      forall j | 0 <= j < |idx0|
        ensures ShortNamed(paths)[j] == paths[idx0[j]]
      {
        assert ShortNamed(paths)[j] == kept0[j] == paths[..n][idx0[j]];
      }
    }
  }

  /** One more path is kept exactly when its name is short enough. */
  lemma ShortNamedSnoc(paths: seq<string>, i: nat)
    requires i < |paths|
    ensures ShortNamed(paths[..i + 1]) == ShortNamed(paths[..i]) + (if ShortEnough(paths[i]) then [paths[i]] else [])
  {
    assert paths[..i + 1][..i] == paths[..i];
  }

  /** The file names the listbox shows for a queue. */
  function Names(paths: seq<string>): (names: seq<string>)
    ensures |names| == |paths|
  {
    if paths == [] then [] else Names(paths[..|paths| - 1]) + [Basename(paths[|paths| - 1])]
  }

  /** Appending a path to the queue appends its name to the listbox. */
  lemma NamesSnoc(paths: seq<string>, p: string)
    ensures Names(paths + [p]) == Names(paths) + [Basename(p)]
  {
    assert (paths + [p])[..|paths|] == paths;
  }

  /** Position by position, the listbox shows each queued file's name. */
  lemma {:induction false} NamesAt(paths: seq<string>, i: nat)
    requires i < |paths|
    ensures Names(paths)[i] == Basename(paths[i])
  {
    if i < |paths| - 1 {
      NamesAt(paths[..|paths| - 1], i);
    }
  }

  /** The elements of `s` whose positions are not in `selected`, in order. */
  function Kept<T>(s: seq<T>, selected: set<int>): (r: seq<T>)
    ensures |r| <= |s|
  {
    if s == [] then []
    else Kept(s[..|s| - 1], selected) + (if |s| - 1 in selected then [] else [s[|s| - 1]])
  }

  lemma {:induction false} KeptNothing<T>(s: seq<T>, selected: set<int>)
    requires forall j: int :: j in selected ==> j >= |s|
    ensures Kept(s, selected) == s
  {
    if s != [] {
      KeptNothing(s[..|s| - 1], selected);
    }
  }

  lemma {:induction false} KeptAll<T>(s: seq<T>, selected: set<int>)
    requires forall j: int :: 0 <= j < |s| ==> j in selected
    ensures Kept(s, selected) == []
  {
    if s != [] {
      KeptAll(s[..|s| - 1], selected);
    }
  }

  /** Positions below every selected one survive unchanged. */
  lemma {:induction false} KeptPrefix<T>(s: seq<T>, selected: set<int>, j: nat)
    requires j < |s| && forall x: int :: x in selected ==> x > j
    ensures j < |Kept(s, selected)| && Kept(s, selected)[..j + 1] == s[..j + 1]
  {
    if |s| - 1 == j {
      KeptNothing(s[..|s| - 1], selected);
      assert s[..|s| - 1] + [s[|s| - 1]] == s;
    } else {
      KeptPrefix(s[..|s| - 1], selected, j);
    }
  }

  /** Dropping the last element of `s` when no earlier one is selected. */
  lemma KeptPopLast<T>(s: seq<T>, selected: set<int>)
    requires s != [] && forall x: int :: x in selected ==> x >= |s| - 1
    ensures Kept(s, selected) == s[..|s| - 1] + (if |s| - 1 in selected then [] else [s[|s| - 1]])
    ensures Kept(s, {|s| - 1} + selected) == s[..|s| - 1]
  {
    var n := |s| - 1;
    var both := {n} + selected;
    assert Kept(s, selected) == Kept(s[..n], selected) + (if n in selected then [] else [s[n]]);
    assert Kept(s, both) == Kept(s[..n], both);
    KeptNothing(s[..n], selected);
    KeptNothing(s[..n], both);
  }

  lemma RemoveAtAppend<T>(k: seq<T>, tail: seq<T>, j: nat)
    requires j < |k|
    ensures RemoveAt(k + tail, j) == RemoveAt(k, j) + tail
  {
    assert (k + tail)[..j] == k[..j];
    assert (k + tail)[j + 1..] == k[j + 1..] + tail;
  }

  /** The inductive step of KeptPop: the last element is unaffected by popping `j`. */
  lemma KeptPopStep<T>(s: seq<T>, selected: set<int>, j: nat)
    requires j < |s| - 1
    requires j < |Kept(s[..|s| - 1], selected)|
    requires Kept(s[..|s| - 1], {j} + selected) == RemoveAt(Kept(s[..|s| - 1], selected), j)
    ensures Kept(s, {j} + selected) == RemoveAt(Kept(s, selected), j)
  {
    var last := |s| - 1;
    var tail: seq<T> := if last in selected then [] else [s[last]];
    assert last in {j} + selected <==> last in selected;
    RemoveAtAppend(Kept(s[..last], selected), tail, j);
  }

  /** Popping position `j`, below every position removed so far, removes one more. */
  lemma {:induction false} KeptPop<T>(s: seq<T>, selected: set<int>, j: nat)
    requires j < |s| && forall x: int :: x in selected ==> x > j
    ensures j < |Kept(s, selected)|
    ensures Kept(s, {j} + selected) == RemoveAt(Kept(s, selected), j)
  {
    KeptPrefix(s, selected, j);
    if |s| - 1 == j {
      KeptPopLast(s, selected);
      assert s[..j] + [s[j]] == s;
    } else {
      KeptPop(s[..|s| - 1], selected, j);
      KeptPopStep(s, selected, j);
    }
  }

  lemma {:induction false} KeptNames(s: seq<string>, selected: set<int>)
    ensures Kept(Names(s), selected) == Names(Kept(s, selected))
  {
    if s != [] {
      var n := |s| - 1;
      KeptNames(s[..n], selected);
      assert Names(s) == Names(s[..n]) + [Basename(s[n])];
      assert Names(s)[..n] == Names(s[..n]);
      assert Names(s)[n] == Basename(s[n]);
      var k := Kept(s[..n], selected);
      if n !in selected {
        assert Kept(Names(s), selected) == Names(k) + [Basename(s[n])];
        assert Kept(s, selected) == k + [s[n]];
        assert (k + [s[n]])[..|k|] == k;
        assert Names(k + [s[n]]) == Names(k) + [Basename(s[n])];
      } else {
        assert Kept(Names(s), selected) == Names(k);
        assert Kept(s, selected) == k;
      }
    }
  }

  /** The positions a `curselection()` tuple holds. */
  function SelectedSet(selected: seq<nat>, from: nat): set<int>
    requires from <= |selected|
    decreases |selected| - from
  {
    if from == |selected| then {} else {selected[from] as int} + SelectedSet(selected, from + 1)
  }

  /** In an increasing selection every position after the `k`-th is above it. */
  lemma {:induction false} SelectedAbove(selected: seq<nat>, k: nat, from: nat)
    requires k < from <= |selected| && forall i, j :: 0 <= i < j < |selected| ==> selected[i] < selected[j]
    ensures forall x: int :: x in SelectedSet(selected, from) ==> x > selected[k]
    decreases |selected| - from
  {
    if from < |selected| {
      SelectedAbove(selected, k, from + 1);
    }
  }

  /** `curselection()` lists distinct positions of the listbox in increasing order. */
  predicate IsSelection(selected: seq<nat>, size: nat) {
    (forall i :: 0 <= i < |selected| ==> selected[i] < size)
    && forall i, j :: 0 <= i < j < |selected| ==> selected[i] < selected[j]
  }

  /** An increasing selection leaves room above its `k`-th position for the rest of it. */
  lemma {:induction false} SelectionRoom(selected: seq<nat>, size: nat, k: nat)
    requires IsSelection(selected, size) && k < |selected|
    ensures selected[k] + (|selected| - 1 - k) < size
    decreases |selected| - k
  {
    if k + 1 < |selected| {
      SelectionRoom(selected, size, k + 1);
    }
  }

  /** The positions `selected[k..]` popped from `s`, highest first. */
  function Popped<T>(s: seq<T>, selected: seq<nat>, k: nat): (r: seq<T>)
    requires k <= |selected| && IsSelection(selected, |s|)
    ensures |r| == |s| - (|selected| - k)
    decreases |selected| - k
  {
    if k == |selected| then s
    else
      SelectionRoom(selected, |s|, k);
      RemoveAt(Popped(s, selected, k + 1), selected[k])
  }

  /** One more pop: the position `selected[k - 1]` is still inside what is left. */
  lemma PopOnce<T>(s: seq<T>, selected: seq<nat>, k: nat)
    requires 0 < k <= |selected| && IsSelection(selected, |s|)
    ensures selected[k - 1] < |Popped(s, selected, k)|
    ensures Popped(s, selected, k - 1) == RemoveAt(Popped(s, selected, k), selected[k - 1])
  {
    SelectionRoom(selected, |s|, k - 1);
  }

  /** Popping the selected positions highest first removes exactly the selected positions. */
  lemma {:induction false} PoppedIsKept<T>(s: seq<T>, selected: seq<nat>, k: nat)
    requires k <= |selected| && IsSelection(selected, |s|)
    ensures Popped(s, selected, k) == Kept(s, SelectedSet(selected, k))
    decreases |selected| - k
  {
    if k == |selected| {
      KeptNothing(s, {});
    } else {
      PoppedIsKept(s, selected, k + 1);
      SelectedAbove(selected, k, k + 1);
      KeptPop(s, SelectedSet(selected, k + 1), selected[k]);
    }
  }

  /** The loop of `delete_listbox_item`: pop `selected[k - 1]` for `k` from the last
      selected row down to the first, from the listbox rows and from the copied queue. */
  method PopSelected(paths: seq<string>, shown: seq<string>, selected: seq<nat>)
    returns (pathsLeft: seq<string>, shownLeft: seq<string>)
    requires IsSelection(selected, |shown|) && shown == Names(paths)
    ensures pathsLeft == Kept(paths, SelectedSet(selected, 0))
    ensures shownLeft == Kept(shown, SelectedSet(selected, 0))
    ensures shownLeft == Names(pathsLeft)
  {
    pathsLeft, shownLeft := paths, shown;
    var k := |selected|;
    while k > 0
      invariant 0 <= k <= |selected|
      invariant pathsLeft == Popped(paths, selected, k)
      invariant shownLeft == Popped(shown, selected, k)
    {
      var index := selected[k - 1];
      PopOnce(shown, selected, k);
      PopOnce(paths, selected, k);
      shownLeft := RemoveAt(shownLeft, index);
      pathsLeft := RemoveAt(pathsLeft, index);
      k := k - 1;
    }
    PoppedNames(paths, shown, selected, pathsLeft, shownLeft);
  }

  /** Popping the same positions from a queue and from its names keeps them in step. */
  lemma PoppedNames(paths: seq<string>, shown: seq<string>, selected: seq<nat>,
                    pathsLeft: seq<string>, shownLeft: seq<string>)
    requires IsSelection(selected, |paths|) && |shown| == |paths|
    requires pathsLeft == Popped(paths, selected, 0) && shownLeft == Popped(shown, selected, 0)
    ensures pathsLeft == Kept(paths, SelectedSet(selected, 0))
    ensures shownLeft == Kept(shown, SelectedSet(selected, 0))
    ensures shown == Names(paths) ==> shownLeft == Names(pathsLeft)
  {
    PoppedIsKept(paths, selected, 0);
    PoppedIsKept(shown, selected, 0);
    KeptNames(paths, SelectedSet(selected, 0));
  }

  // ---- the output format ----

  /** `on_select`: the format a combobox label selects. */
  function FormatOfLabel(selectedFormat: string): (format: Option<Format>)
    ensures format.Some? <==> selectedFormat in FORMATS
  {
    if selectedFormat == FORMATS[0] then Some(Png)
    else if selectedFormat == FORMATS[1] then Some(Jpg)
    else if selectedFormat == FORMATS[2] then Some(Webp)
    else if selectedFormat == FORMATS[3] then Some(Gif)
    else if selectedFormat == FORMATS[4] then Some(Tiff)
    else None
  }

  /** Each label selects the format in the same position, so distinct labels select
      distinct formats; the preselected first label selects the initial "png". */
  lemma FormatOfLabelTable(i: nat)
    requires i < |FORMATS|
    ensures FormatOfLabel(FORMATS[i]).Some? && Code(FormatOfLabel(FORMATS[i]).value) == FORMAT_CODES[i]
    ensures forall j :: 0 <= j < |FORMATS| && j != i ==> FormatOfLabel(FORMATS[j]) != FormatOfLabel(FORMATS[i])
  {
  }

  // ---- one file ----

  /** What Pillow reports about an opened image. */
  datatype ImageInfo = ImageInfo(mode: string, hasTransparencyEntry: bool, isAnimated: bool)

  /** The transparency test of `convert_image`. */
  predicate IsTransparent(info: ImageInfo) {
    info.mode == "RGBA" || info.mode == "LA" || (info.mode == "P" && info.hasTransparencyEntry)
  }

  /** The question a file raises before it is converted. */
  datatype Prompt = NoPrompt | AnimationTransparency | Animation | Transparency | WebpGif

  /** The branch chain of `convert_image`, in its order. The source's second test reads
      "animated and animated", so transparency plays no part in it. */
  function Route(transparent: bool, animated: bool, format: Format, extension: string): (p: Prompt)
    ensures p == AnimationTransparency <==> animated && (format == Gif || (transparent && ConvertsToRgb(format)))
    ensures p == Animation <==> animated && format != Gif && !(transparent && ConvertsToRgb(format))
    ensures p == Transparency <==> !animated && transparent && ConvertsToRgb(format)
    ensures p == WebpGif <==> !animated && transparent && !ConvertsToRgb(format) && extension == ".webp" && format == Gif
    ensures p == NoPrompt <==>
              !animated && !(transparent && ConvertsToRgb(format)) && !(transparent && extension == ".webp" && format == Gif)
  {
    if transparent && animated && ConvertsToRgb(format) then AnimationTransparency
    else if animated && format == Gif then AnimationTransparency
    else if animated && format != Gif then Animation
    else if transparent && ConvertsToRgb(format) then Transparency
    else if transparent && extension == ".webp" && format == Gif then WebpGif
    else NoPrompt
  }

  /** The image mode written to disk: the two flattening branches composite onto white
      (RGB), an RGB target forces RGB, and a palette image bound for WebP becomes RGBA. */
  function SavedMode(info: ImageInfo, prompt: Prompt, format: Format): (mode: string)
    ensures ConvertsToRgb(format) ==> mode == "RGB"
    ensures prompt in {AnimationTransparency, Transparency} ==> mode == "RGB"
    ensures prompt in {NoPrompt, Animation, WebpGif} && !ConvertsToRgb(format) ==>
              mode == (if info.mode == "P" && format == Webp then "RGBA" else info.mode)
  {
    var flattened := if prompt == AnimationTransparency || prompt == Transparency then "RGB" else info.mode;
    var converted := if ConvertsToRgb(format) then "RGB" else flattened;
    if converted == "P" && format == Webp then "RGBA" else converted
  }

  /** `file_name[:50]` followed by "..." when the name was cut. */
  function DisplayName(fileName: string): (shown: string)
    ensures |shown| <= DISPLAY_LENGTH + 3
    ensures |fileName| > DISPLAY_LENGTH <==> |shown| == DISPLAY_LENGTH + 3
    ensures |fileName| <= DISPLAY_LENGTH ==> |shown| == |fileName|
    ensures var k := if |fileName| < DISPLAY_LENGTH then |fileName| else DISPLAY_LENGTH;
            k <= |shown| && shown[..k] == fileName[..k]
    ensures |fileName| > DISPLAY_LENGTH ==> EndsWith(shown, "...")
  {
    if |fileName| > DISPLAY_LENGTH then fileName[..DISPLAY_LENGTH] + "..." else fileName
  }

  /** `os.path.join(folder, f"{base_name}.{new_format}")` */
  function OutputPath(folder: string, fileName: string, format: Format): (path: string)
    ensures |path| >= |folder| && path[..|folder|] == folder
    ensures EndsWith(path, SplitExt(fileName).0 + "." + Code(format))
  {
    Join(folder, SplitExt(fileName).0 + "." + Code(format))
  }

  /** The popup answers: OK or Cancel with the "Apply to all" box, or closing the window. */
  datatype PopupAnswer = Proceed(applyAll: bool) | Skip(applyAll: bool) | Closed

  /** One kind of question's memory: the "Apply to all" flag and the last answer. */
  datatype Decision = Decision(applyAll: bool, choice: Option<bool>)

  const UNDECIDED: Decision := Decision(false, None)

  /** The popup callbacks as the source writes them: only OK and Cancel set the fields, so
      closing the window keeps whatever an earlier file's answer left. */
  function PopupEffectAsWritten(answer: PopupAnswer, before: Decision): (after: Decision)
    ensures answer.Closed? ==> after == before
    ensures !answer.Closed? ==> after == Decision(answer.applyAll, Some(answer.Proceed?))
  {
    match answer
    case Proceed(all) => Decision(all, Some(true))
    case Skip(all) => Decision(all, Some(false))
    case Closed => before
  }

  /** The popup callbacks as documented: closing the window leaves the answer None, so the
      file is skipped. */
  function PopupEffect(answer: PopupAnswer, before: Decision): (after: Decision)
    ensures after.choice == Some(true) <==> answer.Proceed?
    ensures after.applyAll == (if answer.Closed? then before.applyAll else answer.applyAll)
  {
    match answer
    case Proceed(all) => Decision(all, Some(true))
    case Skip(all) => Decision(all, Some(false))
    case Closed => Decision(before.applyAll, None)
  }

  /** Which of the two callback behaviours a run follows. */
  datatype CloseRule = KeepsLastChoice | ClearsChoice

  /** A question is asked only while its "Apply to all" flag is down. */
  function Ask(before: Decision, answer: PopupAnswer, rule: CloseRule): (after: Decision)
    ensures before.applyAll ==> after == before
  {
    if before.applyAll then before
    else if rule == KeepsLastChoice then PopupEffectAsWritten(answer, before)
    else PopupEffect(answer, before)
  }

  /** The eight flag fields, by kind of question. */
  datatype Flags = Flags(animationTransparency: Decision, animation: Decision, transparency: Decision, webpGif: Decision)

  const INITIAL_FLAGS: Flags := Flags(UNDECIDED, UNDECIDED, UNDECIDED, UNDECIDED)

  function DecisionFor(flags: Flags, prompt: Prompt): Decision
    requires prompt != NoPrompt
  {
    match prompt
    case AnimationTransparency => flags.animationTransparency
    case Animation => flags.animation
    case Transparency => flags.transparency
    case WebpGif => flags.webpGif
  }

  function WithDecision(flags: Flags, prompt: Prompt, d: Decision): (r: Flags)
    requires prompt != NoPrompt
    ensures DecisionFor(r, prompt) == d
    ensures forall q :: q != NoPrompt && q != prompt ==> DecisionFor(r, q) == DecisionFor(flags, q)
  {
    match prompt
    case AnimationTransparency => flags.(animationTransparency := d)
    case Animation => flags.(animation := d)
    case Transparency => flags.(transparency := d)
    case WebpGif => flags.(webpGif := d)
  }

  /** What became of one queued file. */
  datatype FileResult = InvalidFile | Skipped | Saved(path: string, mode: string)

  /** What the environment supplies for one queued file: Pillow's view of it (None when it
      cannot be opened) and the user's answer should a question be asked. */
  datatype FileInput = FileInput(image: Option<ImageInfo>, answer: PopupAnswer)

  /** The question a queued file raises. */
  function PromptFor(path: string, info: ImageInfo, format: Format): Prompt {
    Route(IsTransparent(info), info.isAnimated, format, Lower(SplitExt(Basename(path)).1))
  }

  /** One iteration of the conversion loop on a flag state. */
  function Step(flags: Flags, format: Format, folder: string, path: string, input: FileInput, rule: CloseRule): (out: (FileResult, Flags))
    ensures input.image.None? ==> out == (InvalidFile, flags)
    ensures input.image.Some? && PromptFor(path, input.image.value, format) == NoPrompt ==> out.1 == flags && out.0.Saved?
    ensures input.image.Some? && PromptFor(path, input.image.value, format) != NoPrompt ==>
              && (out.0.Saved? <==> DecisionFor(out.1, PromptFor(path, input.image.value, format)).choice == Some(true))
              && (!out.0.Saved? ==> out.0 == Skipped)
    ensures out.0.Saved? ==>
              out.0 == Saved(OutputPath(folder, Basename(path), format),
                             SavedMode(input.image.value, PromptFor(path, input.image.value, format), format))
  {
    match input.image
    case None => (InvalidFile, flags)
    case Some(info) =>
      var prompt := PromptFor(path, info, format);
      var saved := Saved(OutputPath(folder, Basename(path), format), SavedMode(info, prompt, format));
      if prompt == NoPrompt then (saved, flags)
      else
        var d := Ask(DecisionFor(flags, prompt), input.answer, rule);
        (if d.choice == Some(true) then saved else Skipped, WithDecision(flags, prompt, d))
  }

  /** The conversion loop over a queue, from a flag state. */
  function Batch(flags: Flags, format: Format, folder: string, paths: seq<string>, inputs: seq<FileInput>, rule: CloseRule): (out: (seq<FileResult>, Flags))
    requires |paths| == |inputs|
    ensures |out.0| == |paths|
  {
    if paths == [] then ([], flags)
    else
      var n := |paths| - 1;
      var before := Batch(flags, format, folder, paths[..n], inputs[..n], rule);
      var step := Step(before.1, format, folder, paths[n], inputs[n], rule);
      (before.0 + [step.0], step.1)
  }

  /** One file under a ticked "Apply to all": the question keeps its memory, and a file
      raising it is converted exactly when the remembered answer is OK. */
  lemma StepKeepsAppliedDecision(flags: Flags, format: Format, folder: string, path: string,
                                 input: FileInput, rule: CloseRule, prompt: Prompt)
    requires prompt != NoPrompt && DecisionFor(flags, prompt).applyAll
    ensures DecisionFor(Step(flags, format, folder, path, input, rule).1, prompt) == DecisionFor(flags, prompt)
    ensures input.image.Some? && PromptFor(path, input.image.value, format) == prompt ==>
              (Step(flags, format, folder, path, input, rule).0.Saved? <==> DecisionFor(flags, prompt).choice == Some(true))
  {
  }

  /** The batch over one more file is the batch so far followed by that file's step. */
  lemma BatchSnoc(flags: Flags, format: Format, folder: string, paths: seq<string>, inputs: seq<FileInput>, rule: CloseRule, i: nat)
    requires |paths| == |inputs| && i < |paths|
    ensures var before := Batch(flags, format, folder, paths[..i], inputs[..i], rule);
            var step := Step(before.1, format, folder, paths[i], inputs[i], rule);
            Batch(flags, format, folder, paths[..i + 1], inputs[..i + 1], rule) == (before.0 + [step.0], step.1)
  {
    assert paths[..i + 1][..i] == paths[..i] && inputs[..i + 1][..i] == inputs[..i];
  }

  /** Whether a queued file raises question `prompt`: it opens and its route is `prompt`. */
  predicate RaisesPrompt(path: string, input: FileInput, format: Format, prompt: Prompt) {
    input.image.Some? && PromptFor(path, input.image.value, format) == prompt
  }

  /** Position by position, whether the batch's file raises question `prompt`. */
  function Raised(paths: seq<string>, inputs: seq<FileInput>, format: Format, prompt: Prompt): (raised: seq<bool>)
    requires |paths| == |inputs|
    ensures |raised| == |paths|
  {
    if paths == [] then []
    else
      var n := |paths| - 1;
      Raised(paths[..n], inputs[..n], format, prompt) + [RaisesPrompt(paths[n], inputs[n], format, prompt)]
  }

  /** The `i`-th mark tells whether the `i`-th file raises the question. */
  lemma {:induction false} RaisedAt(paths: seq<string>, inputs: seq<FileInput>, format: Format, prompt: Prompt, i: nat)
    requires |paths| == |inputs| && i < |paths|
    ensures Raised(paths, inputs, format, prompt)[i] <==> RaisesPrompt(paths[i], inputs[i], format, prompt)
  {
    var n := |paths| - 1;
    if i < n {
      RaisedAt(paths[..n], inputs[..n], format, prompt, i);
      assert paths[..n][i] == paths[i] && inputs[..n][i] == inputs[i];
    }
  }

  /** Every file marked in `raised` was converted exactly when decision `d` says OK. */
  predicate Decided(raised: seq<bool>, results: seq<FileResult>, d: Decision) {
    forall i :: 0 <= i < |results| && i < |raised| && raised[i] ==> (results[i].Saved? <==> d.choice == Some(true))
  }

  /** Deciding the first files of a batch and then the next file decides them all. */
  lemma DecidedExtend(raised: seq<bool>, next: bool, prev: seq<FileResult>, last: FileResult, d: Decision)
    requires |raised| == |prev| && Decided(raised, prev, d)
    requires next ==> (last.Saved? <==> d.choice == Some(true))
    ensures Decided(raised + [next], prev + [last], d)
  {
    forall i | 0 <= i < |prev| + 1 && (raised + [next])[i]
      ensures (prev + [last])[i].Saved? <==> d.choice == Some(true)
    {
      if i < |prev| {
        assert (raised + [next])[i] == raised[i] && (prev + [last])[i] == prev[i];
      }
    }
  }

  /** Once "Apply to all" is ticked for a kind of question, that question is not asked again
      in the batch, and every later file that would raise it is converted exactly when the
      remembered answer was OK. */
  lemma {:induction false} AppliedDecisionPersists(flags: Flags, format: Format, folder: string, paths: seq<string>,
                                                   inputs: seq<FileInput>, rule: CloseRule, prompt: Prompt)
    requires |paths| == |inputs| && prompt != NoPrompt && DecisionFor(flags, prompt).applyAll
    ensures DecisionFor(Batch(flags, format, folder, paths, inputs, rule).1, prompt) == DecisionFor(flags, prompt)
    ensures Decided(Raised(paths, inputs, format, prompt), Batch(flags, format, folder, paths, inputs, rule).0, DecisionFor(flags, prompt))
  {
    if paths != [] {
      var n := |paths| - 1;
      var init, initInputs := paths[..n], inputs[..n];
      AppliedDecisionPersists(flags, format, folder, init, initInputs, rule, prompt);
      var before := Batch(flags, format, folder, init, initInputs, rule);
      var step := Step(before.1, format, folder, paths[n], inputs[n], rule);
      StepKeepsAppliedDecision(before.1, format, folder, paths[n], inputs[n], rule, prompt);
      assert Batch(flags, format, folder, paths, inputs, rule) == (before.0 + [step.0], step.1);
      var raisedNext := RaisesPrompt(paths[n], inputs[n], format, prompt);
      assert Raised(paths, inputs, format, prompt) == Raised(init, initInputs, format, prompt) + [raisedNext];
      DecidedExtend(Raised(init, initInputs, format, prompt), raisedNext, before.0, step.0, DecisionFor(flags, prompt));
    }
  }

  /** A file that raises no question is always written, whatever the flags. */
  lemma NoPromptAlwaysSaved(flags: Flags, format: Format, folder: string, path: string, input: FileInput, rule: CloseRule)
    requires input.image.Some? && PromptFor(path, input.image.value, format) == NoPrompt
    ensures Step(flags, format, folder, path, input, rule).0 ==
            Saved(OutputPath(folder, Basename(path), format), SavedMode(input.image.value, NoPrompt, format))
  {
  }

  /** Two animated files converted to a format other than GIF: OK without "Apply to all" on
      the first, then the window closed on the second. As written the second file is still
      converted, because the first answer is reused; as documented it is skipped. */
  lemma ClosedPopupReusesChoice(folder: string, p1: string, p2: string, info1: ImageInfo, info2: ImageInfo, format: Format)
    requires info1.isAnimated && info2.isAnimated && format != Gif && !ConvertsToRgb(format)
    ensures Batch(INITIAL_FLAGS, format, folder, [p1, p2], [FileInput(Some(info1), Proceed(false)), FileInput(Some(info2), Closed)], KeepsLastChoice).0[1].Saved?
    ensures Batch(INITIAL_FLAGS, format, folder, [p1, p2], [FileInput(Some(info1), Proceed(false)), FileInput(Some(info2), Closed)], ClearsChoice).0[1].Skipped?
  {
    var paths := [p1, p2];
    var inputs := [FileInput(Some(info1), Proceed(false)), FileInput(Some(info2), Closed)];
    assert paths[..1] == [p1] && inputs[..1] == [inputs[0]];
    assert paths[..1][..0] == [] && inputs[..1][..0] == [];
    assert PromptFor(p1, info1, format) == Animation;
    assert PromptFor(p2, info2, format) == Animation;
    var answered := Decision(false, Some(true));
    var first := INITIAL_FLAGS.(animation := answered);
    assert Batch(INITIAL_FLAGS, format, folder, [p1], [inputs[0]], KeepsLastChoice).1 == first;
    assert Batch(INITIAL_FLAGS, format, folder, [p1], [inputs[0]], ClearsChoice).1 == first;
    assert Ask(answered, Closed, KeepsLastChoice) == answered;
    assert Ask(answered, Closed, ClearsChoice).choice == None;
  }

  // ---- the application ----

  class ImageConverterApp {
    var newFormat: Format
    var inputFilePaths: seq<string>
    var folderPath: string
    /** The file names the listbox shows. */
    var listbox: seq<string>
    /** The eight attributes `remove_all_animation_transparency`, `remove_animation_transparency`,
        ..., `webp_gif_transparency`, paired by the question they belong to. */
    var flags: Flags

    /** The listbox shows exactly the queued files' names. */
    predicate Synchronised()
      reads this
    {
      listbox == Names(inputFilePaths)
    }

    /** Between batches: the listbox matches the queue, and no answer is remembered. */
    ghost predicate Valid()
      reads this
    {
      Synchronised() && flags == INITIAL_FLAGS
    }

    /** The states reached between two callbacks while every save succeeds: no answer is
        remembered, and the listbox matches the queue unless an empty selection emptied the
        queue alone. */
    ghost predicate Reachable()
      reads this
    {
      flags == INITIAL_FLAGS && (Synchronised() || inputFilePaths == [])
    }

    constructor ()
      ensures Valid() && newFormat == Png && inputFilePaths == [] && listbox == []
    {
      newFormat := Png;
      inputFilePaths := [];
      folderPath := [];
      listbox := [];
      flags := INITIAL_FLAGS;
    }

    /** `on_select` */
    method OnSelect(selectedFormat: string)
      modifies this
      ensures newFormat == (if FormatOfLabel(selectedFormat).Some? then FormatOfLabel(selectedFormat).value else old(newFormat))
      ensures inputFilePaths == old(inputFilePaths) && listbox == old(listbox) && folderPath == old(folderPath)
      ensures flags == old(flags)
    {
      if selectedFormat == FORMATS[0] {
        newFormat := Png;
      } else if selectedFormat == FORMATS[1] {
        newFormat := Jpg;
      } else if selectedFormat == FORMATS[2] {
        newFormat := Webp;
      } else if selectedFormat == FORMATS[3] {
        newFormat := Gif;
      } else if selectedFormat == FORMATS[4] {
        newFormat := Tiff;
      }
    }

    /** `process_files`: refill the listbox with the names of the queued files whose
        names are short enough, and keep only those files. */
    method ProcessFiles()
      modifies this
      ensures inputFilePaths == ShortNamed(old(inputFilePaths)) && Synchronised()
      ensures newFormat == old(newFormat) && folderPath == old(folderPath) && flags == old(flags)
    {
      listbox := [];
      var paths := inputFilePaths;
      var validPaths: seq<string> := [];
      var i := 0;
      while i < |paths|
        invariant i <= |paths| && validPaths == ShortNamed(paths[..i]) && listbox == Names(validPaths)
        invariant newFormat == old(newFormat) && folderPath == old(folderPath) && flags == old(flags)
      {
        var inputFilePath := paths[i];
        var fileName := Basename(inputFilePath);
        var baseName := SplitExt(fileName).0;
        ShortNamedSnoc(paths, i);
        if |baseName| > MAX_FILENAME_LENGTH {
          i := i + 1;
          continue;
        }
        NamesSnoc(validPaths, inputFilePath);
        validPaths := validPaths + [inputFilePath];
        listbox := listbox + [fileName];
        i := i + 1;
      }
      assert paths[..i] == paths;
      inputFilePaths := validPaths;
    }

    /** `get_image` and `add_to_listbox` as written: the selection replaces the queue even
        when it is empty (a cancelled dialog, an empty drop), but only a non-empty one
        refills the listbox. */
    method ReceiveFilesAsWritten(selection: seq<string>)
      requires Reachable()
      modifies this
      ensures Reachable()
      ensures selection != [] ==> Valid() && inputFilePaths == ShortNamed(selection)
      ensures selection == [] ==> inputFilePaths == [] && listbox == old(listbox)
      ensures newFormat == old(newFormat) && flags == old(flags)
    {
      inputFilePaths := selection;
      if inputFilePaths != [] {
        ProcessFiles();
      }
    }

    /** The intended reading: an empty selection changes nothing. */
    method ReceiveFiles(selection: seq<string>)
      requires Valid()
      modifies this
      ensures Valid()
      ensures selection != [] ==> inputFilePaths == ShortNamed(selection)
      ensures selection == [] ==> inputFilePaths == old(inputFilePaths) && listbox == old(listbox)
      ensures newFormat == old(newFormat)
    {
      if selection != [] {
        inputFilePaths := selection;
        ProcessFiles();
      }
    }

    /** `delete_listbox_item`: remove the selected rows from the listbox and from a copy
        of the queue, highest first so that lower positions stay put, then store the copy.
        When an empty selection has emptied the queue alone, the first `pop` on the empty
        copy raises IndexError (`raised`) just after the highest selected row has left the
        listbox; the callback ends there and the queue stays empty. */
    method DeleteListboxItem(selected: seq<nat>) returns (raised: bool)
      requires Reachable() && IsSelection(selected, |listbox|)
      modifies this
      ensures Reachable()
      ensures raised <==> !old(Synchronised()) && selected != []
      ensures old(Synchronised()) ==>
                && Valid()
                && inputFilePaths == Kept(old(inputFilePaths), SelectedSet(selected, 0))
                && listbox == Kept(old(listbox), SelectedSet(selected, 0))
      ensures !old(Synchronised()) ==>
                && inputFilePaths == []
                && listbox == (if raised then RemoveAt(old(listbox), selected[|selected| - 1]) else old(listbox))
      ensures newFormat == old(newFormat) && folderPath == old(folderPath)
    {
      if !Synchronised() {
        if selected != [] {
          listbox := RemoveAt(listbox, selected[|selected| - 1]);
          return true;
        }
        return false;
      }
      PopRows(selected);
      return false;
    }

    /** The loop of `delete_listbox_item` when the listbox shows the queue: both lose the
        selected positions and stay in step. */
    method PopRows(selected: seq<nat>)
      requires Valid() && IsSelection(selected, |listbox|)
      modifies this
      ensures Valid()
      ensures inputFilePaths == Kept(old(inputFilePaths), SelectedSet(selected, 0))
      ensures listbox == Kept(old(listbox), SelectedSet(selected, 0))
      ensures newFormat == old(newFormat) && folderPath == old(folderPath)
    {
      var filePathsList, shown := PopSelected(inputFilePaths, listbox, selected);
      listbox := shown;
      inputFilePaths := filePathsList;
    }

    /** `reset_selections` */
    method ResetSelections()
      modifies this
      ensures listbox == [] && inputFilePaths == []
      ensures newFormat == old(newFormat) && folderPath == old(folderPath) && flags == old(flags)
    {
      listbox := [];
      inputFilePaths := [];
    }

    /** The two lines that precede each conversion branch: the popup for `prompt` is shown
        unless "Apply to all" was ticked for it, and its callbacks set that question's two
        fields; the file proceeds exactly when the remembered answer is OK. With `rule` =
        KeepsLastChoice the callbacks are those of the program (`on_yes` and `on_no` only);
        ClearsChoice is the documented reading, where a closed window leaves None. */
    method Consult(prompt: Prompt, answer: PopupAnswer, rule: CloseRule) returns (proceed: bool)
      requires prompt != NoPrompt
      modifies this
      ensures flags == WithDecision(old(flags), prompt, Ask(DecisionFor(old(flags), prompt), answer, rule))
      ensures proceed <==> DecisionFor(flags, prompt).choice == Some(true)
      ensures newFormat == old(newFormat) && folderPath == old(folderPath)
      ensures inputFilePaths == old(inputFilePaths) && listbox == old(listbox)
    {
      var before := DecisionFor(flags, prompt);
      if !before.applyAll {
        var after := if rule == KeepsLastChoice then PopupEffectAsWritten(answer, before) else PopupEffect(answer, before);
        flags := WithDecision(flags, prompt, after);
      }
      proceed := DecisionFor(flags, prompt).choice == Some(true);
    }

    /** The body of the conversion loop for one queued file. */
    method ConvertOne(inputFilePath: string, input: FileInput, rule: CloseRule) returns (result: FileResult)
      modifies this
      ensures (result, flags) == Step(old(flags), newFormat, folderPath, inputFilePath, input, rule)
      ensures newFormat == old(newFormat) && folderPath == old(folderPath)
      ensures inputFilePaths == old(inputFilePaths) && listbox == old(listbox)
    {
      var fileName := Basename(inputFilePath);
      var splitName := SplitExt(fileName);
      var extensionType := Lower(splitName.1);
      if input.image.None? {
        return InvalidFile;
      }
      var img := input.image.value;
      var imgTransparency := false;
      var imgAnimation := false;
      if img.mode == "RGBA" || img.mode == "LA" || (img.mode == "P" && img.hasTransparencyEntry) {
        imgTransparency := true;
      }
      if img.isAnimated {
        imgAnimation := true;
      }
      ghost var prompt := Route(imgTransparency, imgAnimation, newFormat, extensionType);
      assert prompt == PromptFor(inputFilePath, img, newFormat);
      var outputFilePath := Join(folderPath, splitName.0 + "." + Code(newFormat));
      assert outputFilePath == OutputPath(folderPath, fileName, newFormat);
      var mode := img.mode;
      if imgTransparency && imgAnimation && ConvertsToRgb(newFormat) {
        var proceed := Consult(AnimationTransparency, input.answer, rule);
        if !proceed {
          return Skipped;
        }
        if mode == "RGBA" || mode == "LA" {
          mode := "RGB";
        } else if mode == "P" {
          mode := "RGB";
        }
      } else if imgAnimation && newFormat == Gif {
        var proceed := Consult(AnimationTransparency, input.answer, rule);
        if !proceed {
          return Skipped;
        }
        mode := "RGB";
      } else if imgAnimation && newFormat != Gif {
        var proceed := Consult(Animation, input.answer, rule);
        if !proceed {
          return Skipped;
        }
      } else if imgTransparency && ConvertsToRgb(newFormat) {
        var proceed := Consult(Transparency, input.answer, rule);
        if !proceed {
          return Skipped;
        }
        if mode == "RGBA" || mode == "LA" {
          mode := "RGB";
        } else if mode == "P" {
          mode := "RGB";
        }
      } else if imgTransparency && extensionType == ".webp" && newFormat == Gif {
        var proceed := Consult(WebpGif, input.answer, rule);
        if !proceed {
          return Skipped;
        }
      }
      if ConvertsToRgb(newFormat) {
        mode := "RGB";
      }
      if mode == "P" && newFormat == Webp {
        mode := "RGBA";
      }
      return Saved(outputFilePath, mode);
    }

    /** The `for` loop of `convert_image`: every queued file in order, each step starting
        from the flags the previous one left. */
    method ConvertQueue(inputs: seq<FileInput>, rule: CloseRule) returns (done: seq<FileResult>)
      requires |inputs| == |inputFilePaths|
      modifies this
      ensures newFormat == old(newFormat) && folderPath == old(folderPath)
      ensures inputFilePaths == old(inputFilePaths) && listbox == old(listbox)
      ensures (done, flags) == Batch(old(flags), newFormat, folderPath, inputFilePaths, inputs, rule)
    {
      ghost var flags0 := flags;
      var paths := inputFilePaths;
      done := [];
      var i := 0;
      while i < |paths|
        invariant i <= |paths| && |inputs| == |paths| && paths == inputFilePaths
        invariant (done, flags) == Batch(flags0, newFormat, folderPath, paths[..i], inputs[..i], rule)
        invariant newFormat == old(newFormat) && folderPath == old(folderPath) && listbox == old(listbox)
      {
        BatchSnoc(flags0, newFormat, folderPath, paths, inputs, rule, i);
        var result := ConvertOne(paths[i], inputs[i], rule);
        done := done + [result];
        i := i + 1;
      }
      assert paths[..i] == paths && inputs[..i] == inputs;
    }

    /** `convert_image`: with an empty queue, only an error is shown. Otherwise every queued
        file is handled in order into `folder`; then the queue and the listbox are cleared
        and all eight flags return to their initial values. `rule` is as for `Consult`. Every
        save is taken to succeed. */
    method ConvertImage(folder: string, inputs: seq<FileInput>, rule: CloseRule) returns (results: Option<seq<FileResult>>)
      requires Reachable() && |inputs| == |inputFilePaths|
      modifies this
      ensures Reachable() && newFormat == old(newFormat)
      ensures results.Some? ==> Valid()
      ensures old(inputFilePaths) == [] <==> results.None?
      ensures results.None? ==> unchanged(this)
      ensures results.Some? ==>
                && results.value == Batch(INITIAL_FLAGS, newFormat, folder, old(inputFilePaths), inputs, rule).0
                && inputFilePaths == [] && listbox == [] && folderPath == folder
    {
      if inputFilePaths == [] {
        return None;
      }
      folderPath := folder;
      var done := ConvertQueue(inputs, rule);
      ResetSelections();
      flags := INITIAL_FLAGS;
      return Some(done);
    }
  }

  /** As written, cancelling the file dialog (or an empty drop) empties the queue while the
      listbox still shows the previous files. */
  method CancelledBrowseDesynchronises(app: ImageConverterApp)
    requires app.Valid() && app.listbox != []
    modifies app
    ensures !app.Synchronised()
  {
    app.ReceiveFilesAsWritten([]);
  }

  /** With the intended reading the queue and the listbox stay in step. */
  method CancelledBrowseKeepsQueue(app: ImageConverterApp)
    requires app.Valid() && app.listbox != []
    modifies app
    ensures app.Synchronised() && app.listbox == old(app.listbox)
  {
    app.ReceiveFiles([]);
  }
}
