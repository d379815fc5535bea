/** The PNG-to-ICO converter: a drop (or a drag passing over the window) is filtered to the
    512 x 512 PNG images it holds, each is written next to itself under its own name with
    the suffix ".ico", numbered "name (1).ico", "name (2).ico", ... when that name is taken,
    and the window reports how many of the dropped files were converted. What Pillow makes
    of a file and which files exist are inputs. */
module IcoMaker {
  import opened Text
  import opened Paths

  /** The image sizes every icon file holds, largest first. */
  const ICO_SIZES: seq<nat> := [256, 128, 64, 32, 16]
  const ICO_SUFFIX: string := ".ico"
  /** The only image size accepted. */
  const REQUIRED_SIDE: nat := 512

  const INITIAL_STATUS: string := "PNG to ICO conversion\nDrag & drop image files here\n\n512×512 only"

  // ---- paths ----

  /** A `pathlib` path, as the directory part and the final component `name`. Which
      paths exist is a finite set of these. */
  datatype FsPath = FsPath(parent: string, name: string)

  /** `Path(s)`: the final component is what follows the last separator. */
  function ParsePath(s: string): (p: FsPath)
    ensures p.parent + p.name == s && p.name == Basename(s)
  {
    var name := Basename(s);
    assert s[|s| - |name|..] == name;
    assert s[..|s| - |name|] + s[|s| - |name|..] == s;
    FsPath(s[..|s| - |name|], name)
  }

  /** `PurePath.suffix`: from the last dot of the name, provided that dot is neither the
      first nor the last character. */
  function Suffix(name: string): (suffix: string)
    ensures suffix == [] || (suffix[0] == '.' && 1 < |suffix| < |name|)
    ensures suffix != [] ==> forall j :: 0 < j < |suffix| ==> suffix[j] != '.'
  {
    var i := LastIndexOf(name, '.');
    if 0 < i < |name| - 1 then name[i..] else []
  }

  /** A name has a suffix exactly when its last dot is neither its first nor its last
      character, and the suffix then runs from that dot to the end. */
  lemma SuffixRule(name: string)
    ensures Suffix(name) != [] <==> 0 < LastIndexOf(name, '.') < |name| - 1
    ensures Suffix(name) != [] ==> Suffix(name) == name[LastIndexOf(name, '.')..]
  {
  }

  /** `PurePath.stem`: the name without its suffix. */
  function Stem(name: string): (stem: string)
    ensures stem + Suffix(name) == name
    ensures name != [] ==> stem != []
  {
    var i := LastIndexOf(name, '.');
    if 0 < i < |name| - 1 then name[..i] else name
  }

  /** `PurePath.with_suffix(suffix)` for a suffix that starts with a dot: None stands for
      the ValueError raised on a path with an empty name. */
  function WithSuffix(p: FsPath, suffix: string): (r: Option<FsPath>)
    ensures r.None? <==> p.name == []
    ensures r.Some? ==> r.value.parent == p.parent
  {
    if p.name == [] then None else Some(FsPath(p.parent, Stem(p.name) + suffix))
  }

  /** `Path(s).with_suffix(".ico")`: the same directory and stem, with suffix ".ico". */
  function IcoPathOf(s: string): (r: Option<FsPath>)
    ensures r.None? <==> Basename(s) == []
    ensures r.Some? ==>
              && r.value.parent == ParsePath(s).parent
              && Suffix(r.value.name) == ICO_SUFFIX
              && Stem(r.value.name) == Stem(Basename(s))
  {
    if Basename(s) != [] then
      IcoSuffixed(Stem(Basename(s)));
      WithSuffix(ParsePath(s), ICO_SUFFIX)
    else None
  }

  /** Appending ".ico" to a non-empty stem gives a name with that stem and suffix. */
  lemma IcoSuffixed(stem: string)
    requires stem != []
    ensures Suffix(stem + ICO_SUFFIX) == ICO_SUFFIX && Stem(stem + ICO_SUFFIX) == stem
  {
    var name := stem + ICO_SUFFIX;
    var i := LastIndexOf(name, '.');
    assert name[|stem|] == '.';
    assert name[|stem| + 1] == 'i' && name[|stem| + 2] == 'c' && name[|stem| + 3] == 'o';
    assert i == |stem|;
    assert name[i..] == ICO_SUFFIX;
    assert name[..i] == stem;
  }

  // ---- name conflicts ----

  /** `parent / f"{stem} ({n}){suffix}"` for the stem and suffix of `p`. */
  function Candidate(p: FsPath, n: nat): (c: FsPath)
    ensures c.parent == p.parent && |c.name| == |p.name| + |NatToString(n)| + 3
  {
    FsPath(p.parent, Stem(p.name) + " (" + NatToString(n) + ")" + Suffix(p.name))
  }

  /** A numbered name `stem (d)suffix` determines its all-digit number `d`. */
  lemma NumberDetermined(stem: string, suffix: string, da: string, db: string)
    requires forall i :: 0 <= i < |da| ==> IsDigit(da[i])
    requires forall i :: 0 <= i < |db| ==> IsDigit(db[i])
    requires stem + " (" + da + ")" + suffix == stem + " (" + db + ")" + suffix
    ensures da == db
  {
    var prefix := stem + " (";
    assert stem + " (" + da + ")" + suffix == prefix + (da + [')'] + suffix);
    assert stem + " (" + db + ")" + suffix == prefix + (db + [')'] + suffix);
    DropPrefix(prefix, da + [')'] + suffix);
    DropPrefix(prefix, db + [')'] + suffix);
    DigitPrefixDetermined(da, db, ')', suffix, suffix);
  }

  /** Distinct copy numbers give distinct names. */
  lemma CandidateInjective(p: FsPath, a: nat, b: nat)
    requires Candidate(p, a) == Candidate(p, b)
    ensures a == b
  {
    NumberDetermined(Stem(p.name), Suffix(p.name), NatToString(a), NatToString(b));
    NatToStringInjective(a, b);
  }

  /** A numbered name is never the requested name itself. */
  lemma CandidateDiffers(p: FsPath, n: nat)
    ensures Candidate(p, n) != p
  {
  }

  /** `n` is the first copy number whose name is free: all lower ones are taken. */
  ghost predicate FirstFree(p: FsPath, existing: set<FsPath>, n: nat) {
    && n >= 1
    && Candidate(p, n) !in existing
    && forall k :: 1 <= k < n ==> Candidate(p, k) in existing
  }

  /** The outcome `resolve_ico_name_conflict` promises: a path that does not exist, which
      is the requested one when that is free and its first free numbered name otherwise. */
  ghost predicate Resolves(requested: FsPath, existing: set<FsPath>, r: FsPath) {
    && r !in existing
    && (requested !in existing ==> r == requested)
    && (requested in existing ==> exists n: nat :: FirstFree(requested, existing, n) && r == Candidate(requested, n))
  }

  /** The first free copy number is unique, so a resolution is determined by its inputs. */
  lemma ResolvesUnique(requested: FsPath, existing: set<FsPath>, r1: FsPath, r2: FsPath)
    requires Resolves(requested, existing, r1) && Resolves(requested, existing, r2)
    ensures r1 == r2
  {
    if requested in existing {
      var n1: nat :| FirstFree(requested, existing, n1) && r1 == Candidate(requested, n1);
      var n2: nat :| FirstFree(requested, existing, n2) && r2 == Candidate(requested, n2);
    }
  }

  /** The numbered names tried before copy number `n`. */
  function Tried(p: FsPath, n: nat): set<FsPath> {
    if n <= 1 then {} else Tried(p, n - 1) + {Candidate(p, n - 1)}
  }

  /** Copy number `m` has not been tried before copy number `n` when `n <= m`. */
  lemma {:induction false} NotTriedYet(p: FsPath, n: nat, m: nat)
    requires n <= m
    ensures Candidate(p, m) !in Tried(p, n)
  {
    if n > 1 {
      NotTriedYet(p, n - 1, m);
      if Candidate(p, n - 1) == Candidate(p, m) {
        CandidateInjective(p, n - 1, m);
      }
    }
  }

  /** One step of the search: a taken, untried candidate joins the tried names, which
      stay inside the existing ones and leave strictly fewer of them untried. */
  lemma TryStep(p: FsPath, existing: set<FsPath>, n: nat)
    requires n >= 1 && Tried(p, n) <= existing && Candidate(p, n) in existing
    ensures Tried(p, n + 1) == Tried(p, n) + {Candidate(p, n)} && Tried(p, n + 1) <= existing
    ensures |existing - Tried(p, n + 1)| < |existing - Tried(p, n)|
  {
    NotTriedYet(p, n, n);
    var c := Candidate(p, n);
    var untried := existing - Tried(p, n);
    assert c in untried;
    assert existing - Tried(p, n + 1) == untried - {c};
  }

  /** `resolve_ico_name_conflict`: the requested path if it is free, otherwise
      "stem (1)suffix", "stem (2)suffix", ... in the same directory until a free one is
      found. Only finitely many paths exist, so the search ends. */
  method ResolveIcoNameConflict(icoPath: FsPath, existing: set<FsPath>) returns (r: FsPath)
    ensures Resolves(icoPath, existing, r)
  {
    if icoPath !in existing {
      return icoPath;
    }
    var parent := icoPath.parent;
    var stem := Stem(icoPath.name);
    var suffix := Suffix(icoPath.name);
    var copyCount: nat := 1;
    var candidate := FsPath(parent, stem + " (" + NatToString(copyCount) + ")" + suffix);
    ghost var tried: set<FsPath> := {};
    while candidate in existing
      invariant copyCount >= 1 && candidate == Candidate(icoPath, copyCount)
      invariant forall k :: 1 <= k < copyCount ==> Candidate(icoPath, k) in existing
      invariant tried == Tried(icoPath, copyCount) && tried <= existing
      decreases |existing - tried|
    {
      TryStep(icoPath, existing, copyCount);
      tried := tried + {candidate};
      copyCount := copyCount + 1;
      candidate := FsPath(parent, stem + " (" + NatToString(copyCount) + ")" + suffix);
    }
    assert FirstFree(icoPath, existing, copyCount);
    return candidate;
  }

  // ---- filtering a drop ----

  /** What Pillow makes of a dropped path: it cannot be opened, or it opens with this
      format and size. */
  datatype Probe = Unreadable | Opened(format: string, width: nat, height: nat)

  /** The only images converted: PNG files of exactly 512 x 512 pixels. */
  predicate IsSupportedImage(probe: Probe) {
    probe.Opened? && probe.format == "PNG" && probe.width == probe.height && probe.height == REQUIRED_SIDE
  }

  /** Whether the `i`-th dropped path is kept: it is not empty and is a supported image. */
  predicate Passes(paths: seq<string>, probes: seq<Probe>, i: nat)
    requires |paths| == |probes| && i < |paths|
  {
    paths[i] != [] && IsSupportedImage(probes[i])
  }

  /** The paths `supported_images` returns, in drop order. */
  function Supported(paths: seq<string>, probes: seq<Probe>): (kept: seq<string>)
    requires |paths| == |probes|
    ensures |kept| <= |paths|
    ensures forall j :: 0 <= j < |kept| ==> kept[j] != []
  {
    if paths == [] then []
    else
      var n := |paths| - 1;
      Supported(paths[..n], probes[..n]) + (if Passes(paths, probes, n) then [paths[n]] else [])
  }

  /** The positions of the kept paths, in increasing order. */
  function PassingPositions(paths: seq<string>, probes: seq<Probe>): (idx: seq<nat>)
    requires |paths| == |probes|
    ensures forall j :: 0 <= j < |idx| ==> idx[j] < |paths| && Passes(paths, probes, idx[j])
    ensures forall j, k :: 0 <= j < k < |idx| ==> idx[j] < idx[k]
    ensures forall i :: 0 <= i < |paths| && Passes(paths, probes, i) ==> i in idx
  {
    if paths == [] then []
    else
      var n := |paths| - 1;
      var before := PassingPositions(paths[..n], probes[..n]);
      assert forall i :: 0 <= i < n ==> Passes(paths[..n], probes[..n], i) == Passes(paths, probes, i);
      before + (if Passes(paths, probes, n) then [n] else [])
  }

  /** The kept paths are exactly the paths at the passing positions, in order: an
      order-preserving selection of the drop that skips every empty or unsupported path. */
  lemma {:induction false} SupportedAtPositions(paths: seq<string>, probes: seq<Probe>)
    requires |paths| == |probes|
    ensures var idx := PassingPositions(paths, probes);
            && |Supported(paths, probes)| == |idx|
            && forall j :: 0 <= j < |idx| ==> Supported(paths, probes)[j] == paths[idx[j]]
  {
    if paths != [] {
      var n := |paths| - 1;
      SupportedAtPositions(paths[..n], probes[..n]);
      var idx0 := PassingPositions(paths[..n], probes[..n]);
      var kept0 := Supported(paths[..n], probes[..n]);
      assert forall j :: 0 <= j < |idx0| ==> kept0[j] == paths[idx0[j]];
    }
  }

  // ---- the window ----

  /** The fixed parts of the status text, between and after the two counts. */
  const STATUS_OF: string := "of "
  const STATUS_TAIL: string := "images converted\nDrag & drop more image files\n\n512x512 only"

  /** `update_status_message`'s text for the two counters:
      "{converted} of {dropped} images converted\nDrag & drop more image files\n\n512x512 only". */
  function StatusText(converted: nat, dropped: nat): string {
    NatToString(converted) + [' '] + STATUS_OF + NatToString(dropped) + [' '] + STATUS_TAIL
  }

  lemma DropPrefix(a: string, b: string)
    ensures (a + b)[|a|..] == b
  {
  }

  lemma Regroup(x: string, mid: string, y: string, tail: string)
    ensures x + [' '] + mid + y + [' '] + tail == x + [' '] + (mid + (y + [' '] + tail))
    ensures (mid + (y + [' '] + tail))[|mid|..] == y + [' '] + tail
  {
  }

  /** Two numbers, each followed by a space, around fixed text determine the text. */
  lemma TwoCountsDetermined(a1: nat, b1: nat, a2: nat, b2: nat, mid: string, tail: string)
    requires NatToString(a1) + [' '] + mid + NatToString(b1) + [' '] + tail
          == NatToString(a2) + [' '] + mid + NatToString(b2) + [' '] + tail
    ensures a1 == a2 && b1 == b2
  {
    var sa1, sb1, sa2, sb2 := NatToString(a1), NatToString(b1), NatToString(a2), NatToString(b2);
    Regroup(sa1, mid, sb1, tail);
    Regroup(sa2, mid, sb2, tail);
    DigitPrefixDetermined(sa1, sa2, ' ', mid + (sb1 + [' '] + tail), mid + (sb2 + [' '] + tail));
    NatToStringInjective(a1, a2);
    DigitPrefixDetermined(sb1, sb2, ' ', tail, tail);
    NatToStringInjective(b1, b2);
  }

  /** The status text tells both counters apart: equal texts mean equal counts. */
  lemma StatusTextInjective(c1: nat, d1: nat, c2: nat, d2: nat)
    requires StatusText(c1, d1) == StatusText(c2, d2)
    ensures c1 == c2 && d1 == d2
  {
    TwoCountsDetermined(c1, d1, c2, d2, STATUS_OF, STATUS_TAIL);
  }

  /** One icon written: where, from which source, with which embedded sizes. */
  datatype IcoFile = IcoFile(source: string, path: FsPath, sizes: seq<nat>)

  /** The paths of the icons written, in order. */
  function Targets(written: seq<IcoFile>): (paths: seq<FsPath>)
    ensures |paths| == |written| && forall j :: 0 <= j < |written| ==> paths[j] == written[j].path
  {
    if written == [] then [] else Targets(written[..|written| - 1]) + [written[|written| - 1].path]
  }

  function Elements(s: seq<FsPath>): set<FsPath> {
    set x | x in s
  }

  /** A source converts without raising: it has a name to give the `.ico` suffix, and
      opening, converting and saving it succeed. */
  predicate Converts(path: string, failing: set<string>) {
    IcoPathOf(path).Some? && path !in failing
  }

  /** Every source of a batch converts. */
  predicate AllConvert(paths: seq<string>, failing: set<string>) {
    forall i :: 0 <= i < |paths| ==> Converts(paths[i], failing)
  }

  /** No source of a batch is among the failing ones. */
  predicate NoneFail(paths: seq<string>, failing: set<string>) {
    forall i :: 0 <= i < |paths| ==> paths[i] !in failing
  }

  /** One more source that does not fail extends a prefix none of whose sources fail. */
  lemma NoneFailSnoc(paths: seq<string>, failing: set<string>, i: nat)
    requires i < |paths| && NoneFail(paths[..i], failing) && paths[i] !in failing
    ensures NoneFail(paths[..i + 1], failing)
  {
    var longer := paths[..i + 1];
    forall k | 0 <= k < |longer|
      ensures longer[k] !in failing
    {
      if k < i {
        assert longer[k] == paths[..i][k];
      }
    }
  }

  /** The icons written before the loop stopped decide whether every source converts: all
      of them do exactly when the loop wrote an icon for each. */
  lemma StoppedAtFailure(written: seq<IcoFile>, paths: seq<string>, existing: set<FsPath>, failing: set<string>)
    requires WrittenFrom(written, paths, existing) && NoneFail(paths[..|written|], failing)
    requires |written| < |paths| ==> !Converts(paths[|written|], failing)
    ensures AllConvert(paths[..|written|], failing)
    ensures AllConvert(paths, failing) <==> |written| == |paths|
  {
    var done := paths[..|written|];
    forall k | 0 <= k < |done|
      ensures Converts(done[k], failing)
    {
      assert done[k] == paths[k];
    }
    if |written| == |paths| {
      assert done == paths;
    }
  }

  /** `written` are the icons made, in order, from the first |written| of `sources`: each
      at the resolution of its source's ".ico" path against the files that existed before
      the batch and the icons written before it. */
  ghost predicate WrittenFrom(written: seq<IcoFile>, sources: seq<string>, existing: set<FsPath>) {
    && |written| <= |sources|
    && forall j :: 0 <= j < |written| ==>
         && written[j].source == sources[j] && written[j].sizes == ICO_SIZES
         && IcoPathOf(sources[j]).Some?
         && Resolves(IcoPathOf(sources[j]).value, existing + Elements(Targets(written[..j])), written[j].path)
  }

  /** Writing the icon of the next source extends the record. */
  lemma WrittenFromSnoc(written: seq<IcoFile>, sources: seq<string>, existing: set<FsPath>, icon: IcoFile)
    requires WrittenFrom(written, sources, existing) && |written| < |sources|
    requires icon.source == sources[|written|] && icon.sizes == ICO_SIZES
    requires IcoPathOf(icon.source).Some?
    requires Resolves(IcoPathOf(icon.source).value, existing + Elements(Targets(written)), icon.path)
    ensures WrittenFrom(written + [icon], sources, existing)
  {
    var w := written + [icon];
    forall j | 0 <= j < |w|
      ensures w[j].source == sources[j] && w[j].sizes == ICO_SIZES && IcoPathOf(sources[j]).Some?
      ensures Resolves(IcoPathOf(sources[j]).value, existing + Elements(Targets(w[..j])), w[j].path)
    {
      if j == |written| {
        assert w[..j] == written;
      }
    }
  }

  /** An earlier icon's path is among the targets written before a later one. */
  lemma InEarlierTargets(written: seq<IcoFile>, j: nat, k: nat)
    requires j < k <= |written|
    ensures written[j].path in Elements(Targets(written[..k]))
  {
    assert Targets(written[..k])[j] == written[j].path;
  }

  /** The loop of `process_image`: each path, in order, becomes an icon beside it under
      the first free name, checked against the files that exist, including the icons
      written before it. `failing` holds the sources whose `Image.open`, `convert` or `save`
      raises (an unreadable file, a read-only folder, a full disk). `raised` is that
      exception or the ValueError of `with_suffix` on a path with no name; either ends the
      loop, and the icons written so far stay. */
  method WriteIcons(pngFilePaths: seq<string>, existing: set<FsPath>, failing: set<string>)
    returns (written: seq<IcoFile>, raised: bool)
    ensures WrittenFrom(written, pngFilePaths, existing)
    ensures |written| <= |pngFilePaths| && NoneFail(pngFilePaths[..|written|], failing)
    ensures raised ==> |written| < |pngFilePaths| && !Converts(pngFilePaths[|written|], failing)
    ensures !raised ==> |written| == |pngFilePaths|
  {
    written := [];
    var i := 0;
    while i < |pngFilePaths|
      invariant i <= |pngFilePaths| && |written| == i
      invariant WrittenFrom(written, pngFilePaths, existing)
      invariant NoneFail(pngFilePaths[..i], failing)
    {
      var pngPath := ParsePath(pngFilePaths[i]);
      var icoPath := WithSuffix(pngPath, ICO_SUFFIX);
      if icoPath.None? {
        assert !Converts(pngFilePaths[i], failing);
        return written, true;
      }
      var target := ResolveIcoNameConflict(icoPath.value, existing + Elements(Targets(written)));
      if pngFilePaths[i] in failing {
        assert !Converts(pngFilePaths[i], failing);
        return written, true;
      }
      NoneFailSnoc(pngFilePaths, failing, i);
      var icon := IcoFile(pngFilePaths[i], target, ICO_SIZES);
      WrittenFromSnoc(written, pngFilePaths, existing, icon);
      written := written + [icon];
      i := i + 1;
    }
    return written, false;
  }

  class IcoMakerWindow {
    var statusMessage: string
    var imagesDropped: nat
    var imagesConverted: nat

    /** `setup_state` */
    constructor ()
      ensures statusMessage == INITIAL_STATUS && imagesDropped == 0 && imagesConverted == 0
    {
      statusMessage := INITIAL_STATUS;
      imagesDropped := 0;
      imagesConverted := 0;
    }

    /** `update_status_message` */
    method UpdateStatusMessage()
      modifies this
      ensures statusMessage == StatusText(imagesConverted, imagesDropped)
      ensures imagesConverted == old(imagesConverted) && imagesDropped == old(imagesDropped)
    {
      statusMessage := NatToString(imagesConverted) + [' '] + STATUS_OF + NatToString(imagesDropped) + [' '] + STATUS_TAIL;
    }

    /** `supported_images`: count every dropped path, keep the non-empty ones that are
        512 x 512 PNG images in drop order, and count those. */
    method SupportedImages(filePaths: seq<string>, probes: seq<Probe>) returns (pngFilePaths: seq<string>)
      requires |filePaths| == |probes|
      modifies this
      ensures pngFilePaths == Supported(filePaths, probes)
      ensures imagesDropped == |filePaths| && imagesConverted == |pngFilePaths| <= imagesDropped
      ensures statusMessage == old(statusMessage)
    {
      imagesDropped := |filePaths|;
      pngFilePaths := [];
      var i := 0;
      while i < |filePaths|
        invariant i <= |filePaths|
        invariant pngFilePaths == Supported(filePaths[..i], probes[..i])
        invariant imagesDropped == |filePaths| && statusMessage == old(statusMessage)
      {
        assert filePaths[..i + 1][..i] == filePaths[..i] && probes[..i + 1][..i] == probes[..i];
        assert Passes(filePaths[..i + 1], probes[..i + 1], i) == Passes(filePaths, probes, i);
        var filePath := filePaths[i];
        if filePath == [] {
          i := i + 1;
          continue;
        }
        var probe := probes[i];
        if probe.Opened? {
          var imageFormat := probe.format;
          if imageFormat == "PNG" {
            if probe.width == probe.height && probe.height == REQUIRED_SIDE {
              pngFilePaths := pngFilePaths + [filePath];
            }
          }
        }
        i := i + 1;
      }
      assert filePaths[..i] == filePaths && probes[..i] == probes;
      imagesConverted := |pngFilePaths|;
    }

    /** `get_images_from_event`: a drag or drop carrying no URLs yields nothing and leaves
        the counters alone; otherwise its local paths are filtered (which sets them). */
    method GetImagesFromEvent(hasUrls: bool, filePaths: seq<string>, probes: seq<Probe>) returns (pngFilePaths: seq<string>)
      requires |filePaths| == |probes|
      modifies this
      ensures !hasUrls ==> pngFilePaths == [] && unchanged(this)
      ensures hasUrls ==> pngFilePaths == Supported(filePaths, probes)
      ensures hasUrls ==> imagesDropped == |filePaths| && imagesConverted == |pngFilePaths|
      ensures statusMessage == old(statusMessage)
    {
      if !hasUrls {
        return [];
      }
      pngFilePaths := SupportedImages(filePaths, probes);
    }

    /** `dragEnterEvent` and `dragMoveEvent`: the drag is accepted exactly when it carries
        at least one supported image. */
    method DragEvent(hasUrls: bool, filePaths: seq<string>, probes: seq<Probe>) returns (accepted: bool)
      requires |filePaths| == |probes|
      modifies this
      ensures accepted <==> hasUrls && Supported(filePaths, probes) != []
      ensures !hasUrls ==> unchanged(this)
      ensures hasUrls ==> imagesDropped == |filePaths| && imagesConverted == |Supported(filePaths, probes)|
      ensures statusMessage == old(statusMessage)
    {
      var pngFilePaths := GetImagesFromEvent(hasUrls, filePaths, probes);
      accepted := pngFilePaths != [];
    }

    /** `process_image`: the icons of `WriteIcons`; the status is updated only when no
        conversion raised. */
    method ProcessImage(pngFilePaths: seq<string>, existing: set<FsPath>, failing: set<string>)
      returns (written: seq<IcoFile>, raised: bool)
      modifies this
      ensures imagesDropped == old(imagesDropped) && imagesConverted == old(imagesConverted)
      ensures WrittenFrom(written, pngFilePaths, existing)
      ensures |written| <= |pngFilePaths| && AllConvert(pngFilePaths[..|written|], failing)
      ensures raised <==> !AllConvert(pngFilePaths, failing)
      ensures raised ==> |written| < |pngFilePaths| && !Converts(pngFilePaths[|written|], failing)
      ensures raised ==> statusMessage == old(statusMessage)
      ensures !raised ==> |written| == |pngFilePaths| && statusMessage == StatusText(imagesConverted, imagesDropped)
    {
      written, raised := WriteIcons(pngFilePaths, existing, failing);
      StoppedAtFailure(written, pngFilePaths, existing, failing);
      if !raised {
        UpdateStatusMessage();
      }
    }

    /** `dropEvent`: a drop with no supported image is ignored; otherwise the supported
        images are converted, and the drop is accepted unless the conversion raised. */
    method DropEvent(hasUrls: bool, filePaths: seq<string>, probes: seq<Probe>, existing: set<FsPath>, failing: set<string>)
      returns (accepted: bool, written: seq<IcoFile>)
      requires |filePaths| == |probes|
      modifies this
      ensures hasUrls ==> imagesDropped == |filePaths| && imagesConverted == |Supported(filePaths, probes)|
      ensures !hasUrls || Supported(filePaths, probes) == [] ==>
                !accepted && written == [] && statusMessage == old(statusMessage)
      ensures accepted ==> hasUrls && Supported(filePaths, probes) != [] && |written| == imagesConverted
      ensures accepted ==> statusMessage == StatusText(imagesConverted, imagesDropped)
      ensures hasUrls && Supported(filePaths, probes) != [] ==>
                (accepted <==> AllConvert(Supported(filePaths, probes), failing))
      ensures hasUrls && Supported(filePaths, probes) != [] && !accepted ==>
                |written| < |Supported(filePaths, probes)| && !Converts(Supported(filePaths, probes)[|written|], failing)
      ensures WrittenFrom(written, Supported(filePaths, probes), existing)
    {
      var pngFilePaths := GetImagesFromEvent(hasUrls, filePaths, probes);
      if pngFilePaths == [] {
        return false, [];
      }
      var raised;
      written, raised := ProcessImage(pngFilePaths, existing, failing);
      accepted := !raised;
    }
  }

  /** No icon written by one batch replaces an existing file or another icon of the same
      batch. */
  lemma WrittenAreFresh(written: seq<IcoFile>, sources: seq<string>, existing: set<FsPath>)
    requires WrittenFrom(written, sources, existing)
    ensures forall j :: 0 <= j < |written| ==> written[j].path !in existing
    ensures forall j, k :: 0 <= j < k < |written| ==> written[j].path != written[k].path
  {
    forall j, k | 0 <= j < k < |written|
      ensures written[j].path != written[k].path
    {
      InEarlierTargets(written, j, k);
    }
  }
}
