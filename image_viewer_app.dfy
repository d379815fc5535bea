/** The image viewer's main window, reduced to what it decides: the alphabetised list of the
    images in the open folder, the index of the one shown, the window title, and whether an
    animation is playing. Decoding a file is an input: a `Decoding` says what the decoders
    make of it. */
module ImageViewer {
  import opened Text
  import opened Paths
  import opened ImageView

  /** The extensions the viewer lists, lower-case. */
  const SUPPORTED_EXTENSIONS: seq<string> :=
    [".png", ".jpg", ".jpeg", ".jpe", ".jfif",
     ".webp", ".gif", ".bmp", ".tif", ".tiff",
     ".heic", ".heif", ".avif", ".avifs"]

  /** The formats that are tried as animations first. */
  const ANIMATED_EXTENSIONS: seq<string> := [".gif", ".webp"]

  const TITLE: string := "Image Viewer"

  /** `filename.lower().endswith(SUPPORTED_EXTENSIONS)` */
  predicate IsSupported(name: string) {
    exists i :: 0 <= i < |SUPPORTED_EXTENSIONS| && EndsWith(Lower(name), SUPPORTED_EXTENSIONS[i])
  }

  // ---- folder scan ----

  /** The list comprehension of the folder scan: the supported entries of the directory
      listing `names`, joined to `folder`, in listing order. */
  function Listed(folder: string, names: seq<string>): (paths: seq<string>)
    ensures |paths| <= |names|
    ensures forall p :: p in paths <==> exists n :: n in names && IsSupported(n) && p == Join(folder, n)
  {
    if names == [] then []
    else (if IsSupported(names[0]) then [Join(folder, names[0])] else []) + Listed(folder, names[1..])
  }

  /** Code-point order on strings, the order Python compares `str` values in. */
  predicate LexLe(a: string, b: string) {
    a == [] || (b != [] && (a[0] < b[0] || (a[0] == b[0] && LexLe(a[1..], b[1..]))))
  }

  lemma {:induction false} LexLeTotal(a: string, b: string)
    ensures LexLe(a, b) || LexLe(b, a)
  {
    if a != [] && b != [] && a[0] == b[0] {
      LexLeTotal(a[1..], b[1..]);
    }
  }

  /** The order of `sort(key=str.lower)`. */
  predicate KeyLe(a: string, b: string) {
    LexLe(Lower(a), Lower(b))
  }

  predicate SortedByKey(s: seq<string>) {
    forall i :: 0 <= i < |s| - 1 ==> KeyLe(s[i], s[i + 1])
  }

  /** Insert `x` in front of the first element it does not sort after. */
  function Insert(x: string, s: seq<string>): (r: seq<string>)
    requires SortedByKey(s)
    ensures SortedByKey(r)
    ensures multiset(r) == multiset(s) + multiset{x}
    ensures r[0] == x || (s != [] && r[0] == s[0])
  {
    if s == [] then [x]
    else if KeyLe(x, s[0]) then [x] + s
    else
      LexLeTotal(Lower(x), Lower(s[0]));
      var rest := Insert(x, s[1..]);
      assert s == [s[0]] + s[1..];
      [s[0]] + rest
  }

  /** `list.sort(key=str.lower)`: the same entries, ordered by lower-cased name. */
  function SortByLower(s: seq<string>): (r: seq<string>)
    ensures SortedByKey(r)
    ensures multiset(r) == multiset(s)
  {
    if s == [] then []
    else
      assert s == [s[0]] + s[1..];
      Insert(s[0], SortByLower(s[1..]))
  }

  /** The folder scan of `open_image` and `open_image_from_path`. */
  function ScanFolder(folder: string, names: seq<string>): (images: seq<string>)
    ensures SortedByKey(images)
    ensures multiset(images) == multiset(Listed(folder, names))
  {
    SortByLower(Listed(folder, names))
  }

  /** `os.path.join` with a plain file name is injective in the name. */
  lemma JoinInjective(folder: string, a: string, b: string)
    requires Join(folder, a) == Join(folder, b)
    ensures a == b
  {
    var ja := Join(folder, a);
    assert |a| == |b|;
    assert a == ja[|ja| - |a|..];
  }

  /** exactly the supported entries of the listing appear in the scan. */
  lemma ScanFolderMembers(folder: string, names: seq<string>, name: string)
    ensures Join(folder, name) in ScanFolder(folder, names) <==> name in names && IsSupported(name)
  {
    var p := Join(folder, name);
    var images := ScanFolder(folder, names);
    assert p in images <==> p in multiset(images);
    assert p in Listed(folder, names) <==> p in multiset(Listed(folder, names));
    if p in Listed(folder, names) {
      var n :| n in names && IsSupported(n) && p == Join(folder, n);
      JoinInjective(folder, n, name);
    }
  }

  /** `list.index`: the first position holding `x`. */
  function FirstIndex(s: seq<string>, x: string): (i: nat)
    requires x in s
    ensures i < |s| && s[i] == x && x !in s[..i]
  {
    if s[0] == x then 0
    else
      assert s == [s[0]] + s[1..];
      FirstIndex(s[1..], x) + 1
  }

  // ---- navigation ----

  /** The index `next_image` moves to. From an index left past the end of the list it
      wraps to the first image. */
  function NextIndex(i: int, n: nat): (r: int)
    requires -1 <= i && 0 < n
    ensures 0 <= r < n
    ensures i < n ==> r == (i + 1) % n
    ensures i >= n ==> r == 0
  {
    if i + 1 >= n then 0 else i + 1
  }

  /** The index `previous_image` moves to. From an index left past the end of the list it
      moves down by one, so it is inside the list again only from one past the end. */
  function PreviousIndex(i: int, n: nat): (r: int)
    requires -1 <= i && 0 < n
    ensures 0 <= i < n ==> r == (i - 1) % n
    ensures i == -1 ==> r == n - 1
    ensures i >= n ==> r == i - 1
    ensures 0 <= r < n <==> i <= n
  {
    if i - 1 < 0 then n - 1 else i - 1
  }

  /** Next and previous undo each other, so every image is reachable either way. */
  lemma NextPreviousInverse(i: int, n: nat)
    requires 0 <= i < n
    ensures 0 <= NextIndex(i, n) < n && PreviousIndex(NextIndex(i, n), n) == i
    ensures 0 <= PreviousIndex(i, n) < n && NextIndex(PreviousIndex(i, n), n) == i
  {
  }

  /** The index shown after deleting at index `deleted`, leaving `remaining` images: the
      image that followed the deleted one, or the new last image if the last was deleted.
      An index of -1 (Python's last entry) stays -1. */
  function IndexAfterDelete(deleted: int, remaining: nat): (r: int)
    requires -1 <= deleted
    ensures remaining == 0 ==> r == -1
    ensures remaining > 0 && 0 <= deleted ==> 0 <= r < remaining && r <= deleted
    ensures remaining > 0 && deleted < remaining ==> r == deleted
    ensures remaining > 0 && deleted >= remaining ==> r == remaining - 1
  {
    if remaining == 0 then -1
    else if deleted >= remaining then remaining - 1
    else deleted
  }

  /** The entry Python's `list[i]` selects for `-n <= i < n`: negative indices count from
      the end. */
  function ListPosition(i: int, n: nat): (k: nat)
    requires -(n as int) <= i < n
    ensures k < n && k == i % n
  {
    if i < 0 then i + n else i
  }

  // ---- loading ----

  /** What the decoders make of one file: `animated` when QMovie, reading an in-memory copy,
      finds more than one frame; `still` the first non-null result of QPixmap and Pillow. */
  datatype Decoding = Decoding(animated: bool, still: Option<Pixmap>)

  /** `load_pixmap`: the decoded frame, or the 800 x 600 error placeholder. */
  function LoadPixmap(still: Option<Pixmap>): (frame: Option<Pixmap>)
    ensures !IsNull(frame)
    ensures !IsNull(still) ==> frame == still
  {
    if !IsNull(still) then still else Some(Pixmap(800, 600))
  }

  /** `os.path.splitext(path)[1].lower()`: the lower-cased extension of the file name, a
      suffix of the lower-cased path; empty or starting with a dot. */
  function ExtensionOf(path: string): (ext: string)
    ensures EndsWith(Lower(path), ext)
    ensures ext == [] || ext[0] == '.'
  {
    var name := Basename(path);
    var suffix := SplitExt(name).1;
    assert EndsWith(name, suffix) by {
      assert name == SplitExt(name).0 + suffix;
    }
    LowerEndsWith(path, name, suffix);
    Lower(suffix)
  }

  /** Whether loading `path` with decoding `d` starts an animation. */
  predicate PlaysAnimation(path: string, d: Decoding) {
    ExtensionOf(path) in ANIMATED_EXTENSIONS && d.animated
  }

  datatype OpenOutcome = Cancelled | NotListed | Opened

  datatype DeleteOutcome = NothingShown | StaleIndex | FileMissing | Declined | DeleteFailed | DeletedLast | Deleted

  class ImageViewerApp {
    const widget: ImageWidget
    var imageList: seq<string>
    var currentIndex: int
    /** A QMovie is playing in the widget. */
    var movieActive: bool
    /** The playing movie has not yet shown a frame. */
    var firstFrameForMovie: bool
    var windowTitle: string

    /** Every state the window reaches: the widget is consistent and the index is at least
        -1. The index may lie past the end of a non-empty list after an unlisted file is
        opened (`OpenImageAsWritten`), and it is -1 after the last image is deleted. */
    ghost predicate Reachable()
      reads this, widget
    {
      widget.Valid() && -1 <= currentIndex
    }

    /** The consistent states: while there are images, the index selects one. */
    ghost predicate Valid()
      reads this, widget
    {
      Reachable() && (|imageList| > 0 ==> 0 <= currentIndex < |imageList|)
    }

    /** What `load_image` leaves on screen for `path` decoded as `d`: the window is titled
        after the file, and either its animation is waiting for its first frame or its
        still image (or the placeholder) is shown at the initial zoom, centred. */
    ghost predicate Shows(path: string, d: Decoding)
      reads this, widget
    {
      && windowTitle == TITLE + " \U{2013} " + Basename(path)
      && movieActive == PlaysAnimation(path, d)
      && (movieActive ==> firstFrameForMovie)
      && (!movieActive ==>
            && widget.pixmap == LoadPixmap(d.still) && !widget.userZoomed
            && widget.zoomFactor == InitialZoom(widget.pixmap, widget.width, widget.height)
            && widget.panOffsetX == 0.0 && widget.panOffsetY == 0.0)
    }

    /** `setup_state`: no folder, index 0, nothing playing. */
    constructor (widgetWidth: nat, widgetHeight: nat)
      ensures Valid() && fresh(widget)
      ensures imageList == [] && currentIndex == 0 && !movieActive && windowTitle == TITLE
      ensures widget.pixmap == None
    {
      widget := new ImageWidget(widgetWidth, widgetHeight);
      imageList := [];
      currentIndex := 0;
      movieActive := false;
      firstFrameForMovie := false;
      windowTitle := TITLE;
    }

    /** `load_image`: stop any animation, title the window after the file, then either
        start the file's animation (the widget keeps showing what it showed until the
        first frame arrives) or show its still image, or the placeholder, from scratch. */
    method LoadImage(path: string, d: Decoding)
      requires Reachable()
      modifies this, widget
      ensures Reachable() && Shows(path, d)
      ensures movieActive ==> unchanged(widget)
      ensures widget.width == old(widget.width) && widget.height == old(widget.height)
      ensures imageList == old(imageList) && currentIndex == old(currentIndex)
    {
      var plays := PlaysAnimation(path, d);
      movieActive := false;
      windowTitle := TITLE + " \U{2013} " + Basename(path);
      if plays {
        movieActive := true;
        firstFrameForMovie := true;
        return;
      }
      widget.SetPixmap(LoadPixmap(d.still));
    }

    /** The `update_frame` callback of a playing movie: a null frame is skipped; the first
        real frame resets zoom and pan, and later frames keep them. The movie keeps playing
        when an unlisted open leaves the index outside the list. */
    method OnFrameChanged(frame: Option<Pixmap>)
      requires Reachable() && movieActive
      modifies this, widget
      ensures Reachable() && movieActive
      ensures imageList == old(imageList) && currentIndex == old(currentIndex) && windowTitle == old(windowTitle)
      ensures IsNull(frame) ==> unchanged(widget) && firstFrameForMovie == old(firstFrameForMovie)
      ensures !IsNull(frame) ==> !firstFrameForMovie && widget.pixmap == frame
      ensures !IsNull(frame) && old(firstFrameForMovie) ==>
                && !widget.userZoomed && widget.panOffsetX == 0.0 && widget.panOffsetY == 0.0
                && widget.zoomFactor == InitialZoom(frame, widget.width, widget.height)
      ensures !IsNull(frame) && !old(firstFrameForMovie) ==>
                && widget.zoomFactor == old(widget.zoomFactor) && widget.userZoomed == old(widget.userZoomed)
                && widget.panOffsetX == old(widget.panOffsetX) && widget.panOffsetY == old(widget.panOffsetY)
      ensures widget.width == old(widget.width) && widget.height == old(widget.height)
    {
      if IsNull(frame) {
        return;
      }
      if firstFrameForMovie {
        widget.SetPixmap(frame);
        firstFrameForMovie := false;
      } else {
        widget.SetAnimationFrame(frame);
      }
    }

    /** `previous_image`: nothing on an empty list, otherwise one back with wrap-around.
        From an index two or more past the end, the decremented index is still outside the
        list, and `self.image_list[self.current_index]` raises IndexError (`raised`) before
        anything is loaded; each press moves the index one step back. */
    method PreviousImage(d: Decoding) returns (raised: bool)
      requires Reachable()
      modifies this, widget
      ensures Reachable() && imageList == old(imageList)
      ensures raised <==> |imageList| > 0 && old(currentIndex) > |imageList|
      ensures Valid() <==> !raised
      ensures |imageList| == 0 ==> unchanged(this) && unchanged(widget)
      ensures |imageList| > 0 ==> currentIndex == PreviousIndex(old(currentIndex), |imageList|)
      ensures |imageList| > 0 && !raised ==> Shows(imageList[currentIndex], d)
      ensures raised ==>
                && unchanged(widget) && windowTitle == old(windowTitle)
                && movieActive == old(movieActive) && firstFrameForMovie == old(firstFrameForMovie)
    {
      if |imageList| == 0 {
        return false;
      }
      currentIndex := currentIndex - 1;
      if currentIndex < 0 {
        currentIndex := |imageList| - 1;
      }
      if currentIndex >= |imageList| {
        return true;
      }
      LoadImage(imageList[currentIndex], d);
      return false;
    }

    /** `next_image`: nothing on an empty list, otherwise one forward with wrap-around,
        which also brings an index left past the end back to the first image. */
    method NextImage(d: Decoding)
      requires Reachable()
      modifies this, widget
      ensures Valid()
      ensures imageList == old(imageList)
      ensures |imageList| == 0 ==> currentIndex == old(currentIndex) && unchanged(this) && unchanged(widget)
      ensures |imageList| > 0 ==>
                currentIndex == NextIndex(old(currentIndex), |imageList|) && Shows(imageList[currentIndex], d)
    {
      if |imageList| == 0 {
        return;
      }
      currentIndex := currentIndex + 1;
      if currentIndex >= |imageList| {
        currentIndex := 0;
      }
      LoadImage(imageList[currentIndex], d);
    }

    /** `delete_image`. `fileExists` is the first existence test, `confirmed` the answer to
        the question, `removed` that `send2trash` returned and the file is gone. Only then is
        the entry removed; the image after it (or the new last one) is shown, or the viewer is
        cleared when none remain. The entry is `image_list[current_index]` with Python's
        indexing: an index of -1 selects the last entry, and an index past the end raises
        IndexError (`StaleIndex`) before anything else happens. */
    method DeleteImage(fileExists: bool, confirmed: bool, removed: bool, d: Decoding) returns (outcome: DeleteOutcome)
      requires Reachable()
      modifies this, widget
      ensures Reachable()
      ensures old(Valid()) ==> Valid()
      ensures outcome.StaleIndex? <==> 0 < |old(imageList)| <= old(currentIndex)
      ensures outcome.Deleted? || outcome.DeletedLast? <==>
                old(currentIndex) < |old(imageList)| && 0 < |old(imageList)| && fileExists && confirmed && removed
      ensures !(outcome.Deleted? || outcome.DeletedLast?) ==> unchanged(this) && unchanged(widget)
      ensures outcome.Deleted? || outcome.DeletedLast? ==>
                && imageList == RemoveAt(old(imageList), ListPosition(old(currentIndex), |old(imageList)|))
                && currentIndex == IndexAfterDelete(old(currentIndex), |imageList|)
      ensures outcome.DeletedLast? <==> (outcome.Deleted? || outcome.DeletedLast?) && imageList == []
      ensures outcome.DeletedLast? ==> windowTitle == TITLE && widget.pixmap == None && !movieActive
      ensures outcome.Deleted? && 0 <= old(currentIndex) && old(currentIndex) + 1 < |old(imageList)| ==>
                imageList[currentIndex] == old(imageList)[old(currentIndex) + 1]
      ensures outcome.Deleted? ==> Shows(imageList[ListPosition(currentIndex, |imageList|)], d)
    {
      if |imageList| == 0 {
        return NothingShown;
      }
      if currentIndex >= |imageList| {
        return StaleIndex;
      }
      if !fileExists {
        return FileMissing;
      }
      if !confirmed {
        return Declined;
      }
      if !removed {
        return DeleteFailed;
      }
      var deletedIndex := currentIndex;
      imageList := RemoveAt(imageList, ListPosition(deletedIndex, |imageList|));
      if |imageList| == 0 {
        currentIndex := -1;
        movieActive := false;
        widget.SetPixmap(None);
        windowTitle := TITLE;
        return DeletedLast;
      }
      if deletedIndex >= |imageList| {
        currentIndex := |imageList| - 1;
      } else {
        currentIndex := deletedIndex;
      }
      LoadImage(imageList[ListPosition(currentIndex, |imageList|)], d);
      return Deleted;
    }

    /** The common tail of both open operations: list the folder, select `name` in it, or,
        should it not be listed, fall back to the first image, if there is one. */
    method ShowFolder(folder: string, name: string, names: seq<string>, d: Decoding) returns (outcome: OpenOutcome)
      requires Reachable()
      modifies this, widget
      ensures Valid() && !outcome.Cancelled?
      ensures imageList == ScanFolder(folder, names)
      ensures outcome.Opened? <==> name in names && IsSupported(name)
      ensures outcome.Opened? ==> Join(folder, name) in imageList && currentIndex == FirstIndex(imageList, Join(folder, name))
      ensures outcome.Opened? ==> Shows(Join(folder, name), d)
      ensures outcome.NotListed? ==> currentIndex == 0
      ensures outcome.NotListed? && imageList != [] ==> Shows(imageList[0], d)
    {
      var filePath := Join(folder, name);
      var allImages := ScanFolder(folder, names);
      ScanFolderMembers(folder, names, name);
      imageList := allImages;
      if filePath in allImages {
        currentIndex := FirstIndex(allImages, filePath);
        LoadImage(filePath, d);
        return Opened;
      }
      currentIndex := 0;
      if allImages != [] {
        LoadImage(allImages[0], d);
      }
      return NotListed;
    }

    /** `open_image` as the source writes it. `selection` is the file the dialog returns,
        as its folder and name, or None when it is cancelled. When the chosen file is not
        among the listed images, `list.index` raises after the new list has been stored, so
        the old index is kept against the new list. */
    method OpenImageAsWritten(selection: Option<(string, string)>, names: seq<string>, d: Decoding) returns (outcome: OpenOutcome)
      requires Reachable()
      modifies this, widget
      ensures Reachable()
      ensures selection.None? ==> outcome.Cancelled? && unchanged(this) && unchanged(widget)
      ensures selection.Some? ==> !outcome.Cancelled? && imageList == ScanFolder(selection.value.0, names)
      ensures selection.Some? ==> (outcome.Opened? <==> selection.value.1 in names && IsSupported(selection.value.1))
      ensures outcome.Opened? ==> Valid() && Join(selection.value.0, selection.value.1) in imageList
      ensures outcome.Opened? ==> currentIndex == FirstIndex(imageList, Join(selection.value.0, selection.value.1))
      ensures outcome.NotListed? ==> currentIndex == old(currentIndex) && unchanged(widget) && widget.Valid()
      ensures outcome.NotListed? ==> windowTitle == old(windowTitle) && movieActive == old(movieActive)
      ensures outcome.Opened? ==> Shows(Join(selection.value.0, selection.value.1), d)
    {
      if selection.None? {
        return Cancelled;
      }
      var (folder, name) := selection.value;
      var filePath := Join(folder, name);
      var allImages := ScanFolder(folder, names);
      ScanFolderMembers(folder, names, name);
      imageList := allImages;
      if filePath !in allImages {
        return NotListed;
      }
      currentIndex := FirstIndex(allImages, filePath);
      LoadImage(filePath, d);
      return Opened;
    }

    /** `open_image` with the fallback `open_image_from_path` already has: a chosen file
        that is not listed selects the first image, so the index is always valid. */
    method OpenImage(selection: Option<(string, string)>, names: seq<string>, d: Decoding) returns (outcome: OpenOutcome)
      requires Reachable()
      modifies this, widget
      ensures Reachable()
      ensures !outcome.Cancelled? || old(Valid()) ==> Valid()
      ensures selection.None? ==> outcome.Cancelled? && unchanged(this) && unchanged(widget)
      ensures selection.Some? ==> !outcome.Cancelled? && imageList == ScanFolder(selection.value.0, names)
      ensures selection.Some? ==> (outcome.Opened? <==> selection.value.1 in names && IsSupported(selection.value.1))
      ensures outcome.Opened? ==> Join(selection.value.0, selection.value.1) in imageList
      ensures outcome.Opened? ==> currentIndex == FirstIndex(imageList, Join(selection.value.0, selection.value.1))
      ensures outcome.Opened? ==> Shows(Join(selection.value.0, selection.value.1), d)
      ensures outcome.NotListed? ==> currentIndex == 0
      ensures outcome.NotListed? && imageList != [] ==> Shows(imageList[0], d)
    {
      if selection.None? {
        return Cancelled;
      }
      outcome := ShowFolder(selection.value.0, selection.value.1, names, d);
    }

    /** `open_image_from_path`: an empty path, or one that is not a file, is ignored. */
    method OpenImageFromPath(selection: Option<(string, string)>, isFile: bool, names: seq<string>, d: Decoding) returns (outcome: OpenOutcome)
      requires Reachable()
      modifies this, widget
      ensures Reachable()
      ensures !outcome.Cancelled? || old(Valid()) ==> Valid()
      ensures selection.None? || !isFile ==> outcome.Cancelled? && unchanged(this) && unchanged(widget)
      ensures selection.Some? && isFile ==> !outcome.Cancelled? && imageList == ScanFolder(selection.value.0, names)
      ensures selection.Some? && isFile ==> (outcome.Opened? <==> selection.value.1 in names && IsSupported(selection.value.1))
      ensures outcome.Opened? ==> Join(selection.value.0, selection.value.1) in imageList
      ensures outcome.Opened? ==> currentIndex == FirstIndex(imageList, Join(selection.value.0, selection.value.1))
      ensures outcome.Opened? ==> Shows(Join(selection.value.0, selection.value.1), d)
      ensures outcome.NotListed? ==> currentIndex == 0
      ensures outcome.NotListed? && imageList != [] ==> Shows(imageList[0], d)
    {
      if selection.None? || !isFile {
        return Cancelled;
      }
      outcome := ShowFolder(selection.value.0, selection.value.1, names, d);
    }
  }

  /** Choosing a file the scan does not list (a name typed into the dialog's file-name
      box) in a folder with fewer images than the current index leaves the
      as-written viewer with an index past the end of its list. */
  method OpenUnlistedLeavesStaleIndex(app: ImageViewerApp, folder: string, name: string, names: seq<string>, d: Decoding)
    requires app.Valid()
    requires !IsSupported(name) && app.currentIndex >= |ScanFolder(folder, names)| > 0
    modifies app, app.widget
    ensures !app.Valid()
  {
    var outcome := app.OpenImageAsWritten(Some((folder, name)), names, d);
  }

  /** The same choice with the intended open leaves the first image selected. */
  method OpenUnlistedSelectsFirst(app: ImageViewerApp, folder: string, name: string, names: seq<string>, d: Decoding)
    requires app.Valid()
    requires !IsSupported(name) && |ScanFolder(folder, names)| > 0
    modifies app, app.widget
    ensures app.Valid() && app.currentIndex == 0
  {
    var outcome := app.OpenImage(Some((folder, name)), names, d);
  }
}
