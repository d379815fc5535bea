/** The image viewer's display widget: a frame drawn scaled by one zoom factor, centred in
    the widget and shifted by a pan offset. Zoom is kept between 5% and 1000%, the pan is
    kept within half the overflow on each axis, and a new image is shrunk to fit but never
    enlarged. Zoom and pan are exact reals here; the source uses floating point. */
module ImageView {
  import opened Text

  const MIN_ZOOM: real := 0.05
  const MAX_ZOOM: real := 10.0
  /** Factor of one wheel step. */
  const ZOOM_STEP: real := 1.25
  /** Requested zoom changes smaller than this are ignored. */
  const ZOOM_EPSILON: real := 0.0001

  /** A decoded frame; only its size matters to the widget. */
  datatype Pixmap = Pixmap(width: nat, height: nat)

  /** `not pixmap or pixmap.isNull()`: no frame, or a frame with no pixels. */
  predicate IsNull(frame: Option<Pixmap>) {
    frame.None? || frame.value.width == 0 || frame.value.height == 0
  }

  function Abs(x: real): real {
    if x < 0.0 then -x else x
  }

  function Min(a: real, b: real): real {
    if a <= b then a else b
  }

  // ---- zoom ----

  /** `max(min_zoom, min(max_zoom, zoom))`: the nearest zoom in [MIN_ZOOM, MAX_ZOOM]. */
  function ClampZoom(zoom: real): (r: real)
    ensures MIN_ZOOM <= r <= MAX_ZOOM
    ensures MIN_ZOOM <= zoom <= MAX_ZOOM ==> r == zoom
    ensures zoom < MIN_ZOOM ==> r == MIN_ZOOM
    ensures zoom > MAX_ZOOM ==> r == MAX_ZOOM
  {
    var capped := if MAX_ZOOM <= zoom then MAX_ZOOM else zoom;
    if MIN_ZOOM >= capped then MIN_ZOOM else capped
  }

  /** Whether `set_zoom(requested)` changes anything at zoom `current`. */
  predicate ZoomTakesEffect(current: real, requested: real) {
    Abs(ClampZoom(requested) - current) >= ZOOM_EPSILON
  }

  /** The zoom after `set_zoom(requested)` at zoom `current`: either unchanged or the
      clamped request, and in both cases within ZOOM_EPSILON of the clamped request. */
  function ZoomAfter(current: real, requested: real): (r: real)
    ensures r == current || r == ClampZoom(requested)
    ensures Abs(r - ClampZoom(requested)) < ZOOM_EPSILON
    ensures MIN_ZOOM <= current <= MAX_ZOOM ==> MIN_ZOOM <= r <= MAX_ZOOM
  {
    if ZoomTakesEffect(current, requested) then ClampZoom(requested) else current
  }

  /** `set_zoom` twice with the same request acts as once: after the first call the zoom
      is already within ZOOM_EPSILON of the clamped request. */
  lemma ZoomAfterIdempotent(current: real, requested: real)
    ensures ZoomAfter(ZoomAfter(current, requested), requested) == ZoomAfter(current, requested)
  {
  }

  /** One wheel step in and one back out restore the zoom, unless the step in hit the
      upper bound. */
  lemma ZoomInOutRoundTrip(zoom: real)
    requires MIN_ZOOM <= zoom && zoom * ZOOM_STEP <= MAX_ZOOM
    ensures ZoomAfter(zoom, zoom * ZOOM_STEP) == zoom * ZOOM_STEP
    ensures ZoomAfter(zoom * ZOOM_STEP, zoom * ZOOM_STEP / ZOOM_STEP) == zoom
  {
    assert zoom * ZOOM_STEP - zoom == zoom / 4.0;
    assert zoom * ZOOM_STEP / ZOOM_STEP == zoom;
  }

  /** One step out and one back in restore the zoom, unless the step out hit the lower
      bound. */
  lemma ZoomOutInRoundTrip(zoom: real)
    requires zoom <= MAX_ZOOM && MIN_ZOOM <= zoom / ZOOM_STEP
    ensures ZoomAfter(zoom, zoom / ZOOM_STEP) == zoom / ZOOM_STEP
    ensures ZoomAfter(zoom / ZOOM_STEP, zoom / ZOOM_STEP * ZOOM_STEP) == zoom
  {
    assert zoom - zoom / ZOOM_STEP == zoom / 5.0;
    assert zoom / ZOOM_STEP * ZOOM_STEP == zoom;
  }

  /** At either bound, a further step in that direction changes nothing. */
  lemma ZoomSaturates()
    ensures ZoomAfter(MAX_ZOOM, MAX_ZOOM * ZOOM_STEP) == MAX_ZOOM
    ensures ZoomAfter(MIN_ZOOM, MIN_ZOOM / ZOOM_STEP) == MIN_ZOOM
  {
  }

  // ---- fitting ----

  /** `min(W / w, H / h)`: the largest zoom at which the whole frame fits. */
  function IdealZoom(frame: Pixmap, viewWidth: nat, viewHeight: nat): real
    requires frame.width > 0 && frame.height > 0
  {
    Min(viewWidth as real / frame.width as real, viewHeight as real / frame.height as real)
  }

  /** The on-screen length of `size` pixels at `zoom`. */
  function Scaled(size: nat, zoom: real): real {
    size as real * zoom
  }

  /** The frame scaled by `zoom` fits inside the widget. */
  predicate Fits(frame: Pixmap, viewWidth: nat, viewHeight: nat, zoom: real) {
    Scaled(frame.width, zoom) <= viewWidth as real && Scaled(frame.height, zoom) <= viewHeight as real
  }

  lemma ScaleBelow(size: real, zoom: real, view: real)
    requires size > 0.0
    ensures size * zoom <= view <==> zoom <= view / size
  {
    assert view / size * size == view;
    if zoom <= view / size {
      assert size * zoom <= size * (view / size);
    } else {
      assert size * zoom > size * (view / size);
    }
  }

  /** A zoom fits exactly when it is at most the ideal zoom, so IdealZoom is the largest
      fitting zoom. */
  lemma FitsIffAtMostIdeal(frame: Pixmap, viewWidth: nat, viewHeight: nat, zoom: real)
    requires frame.width > 0 && frame.height > 0
    ensures Fits(frame, viewWidth, viewHeight, zoom) <==> zoom <= IdealZoom(frame, viewWidth, viewHeight)
  {
    ScaleBelow(frame.width as real, zoom, viewWidth as real);
    ScaleBelow(frame.height as real, zoom, viewHeight as real);
  }

  /** At the ideal zoom the frame touches the widget's edges on at least one axis. */
  lemma IdealZoomTouches(frame: Pixmap, viewWidth: nat, viewHeight: nat)
    requires frame.width > 0 && frame.height > 0
    ensures var z := IdealZoom(frame, viewWidth, viewHeight);
            Scaled(frame.width, z) == viewWidth as real || Scaled(frame.height, z) == viewHeight as real
  {
    var w, h := frame.width as real, frame.height as real;
    assert w * (viewWidth as real / w) == viewWidth as real;
    assert h * (viewHeight as real / h) == viewHeight as real;
  }

  /** When `fit_to_window`'s request is within the zoom range and takes effect, the frame
      ends up fitting the widget and touching it on at least one axis. */
  lemma FitToWindowFits(frame: Pixmap, viewWidth: nat, viewHeight: nat, current: real)
    requires frame.width > 0 && frame.height > 0
    requires MIN_ZOOM <= IdealZoom(frame, viewWidth, viewHeight) <= MAX_ZOOM
    requires ZoomTakesEffect(current, IdealZoom(frame, viewWidth, viewHeight))
    ensures var z := ZoomAfter(current, IdealZoom(frame, viewWidth, viewHeight));
            && Fits(frame, viewWidth, viewHeight, z)
            && (Scaled(frame.width, z) == viewWidth as real || Scaled(frame.height, z) == viewHeight as real)
  {
    var ideal := IdealZoom(frame, viewWidth, viewHeight);
    assert ZoomAfter(current, ideal) == ideal;
    FitsIffAtMostIdeal(frame, viewWidth, viewHeight, ideal);
    IdealZoomTouches(frame, viewWidth, viewHeight);
  }

  /** The zoom `set_pixmap` chooses: 1.0 when there is nothing to fit or no widget area;
      otherwise the fitting zoom capped at 1.0 (a small image is not enlarged) and raised to
      MIN_ZOOM (a huge image is not shrunk below 5%). */
  function InitialZoom(frame: Option<Pixmap>, viewWidth: nat, viewHeight: nat): (r: real)
    ensures MIN_ZOOM <= r <= 1.0
    ensures IsNull(frame) || viewWidth == 0 || viewHeight == 0 ==> r == 1.0
    ensures !IsNull(frame) && viewWidth > 0 && viewHeight > 0 ==>
              var ideal := IdealZoom(frame.value, viewWidth, viewHeight);
              && r >= Min(1.0, ideal)
              && (ideal >= MIN_ZOOM ==> Fits(frame.value, viewWidth, viewHeight, r))
              && (ideal < MIN_ZOOM ==> r == MIN_ZOOM)
  {
    if IsNull(frame) || viewWidth == 0 || viewHeight == 0 then 1.0
    else
      var ideal := IdealZoom(frame.value, viewWidth, viewHeight);
      var r := if ideal < 1.0 then (if MIN_ZOOM >= ideal then MIN_ZOOM else ideal) else 1.0;
      FitsIffAtMostIdeal(frame.value, viewWidth, viewHeight, r);
      r
  }

  /** The initial zoom is the largest zoom not above 1.0 at which the frame fits. */
  lemma InitialZoomIsLargestFit(frame: Pixmap, viewWidth: nat, viewHeight: nat, zoom: real)
    requires frame.width > 0 && frame.height > 0 && viewWidth > 0 && viewHeight > 0
    requires IdealZoom(frame, viewWidth, viewHeight) >= MIN_ZOOM
    requires zoom <= 1.0 && Fits(frame, viewWidth, viewHeight, zoom)
    ensures zoom <= InitialZoom(Some(frame), viewWidth, viewHeight)
  {
    FitsIffAtMostIdeal(frame, viewWidth, viewHeight, zoom);
  }

  // ---- pan ----

  /** An offset a frame of `scaled` pixels may have in a viewport of `view` pixels: zero
      when the frame fits, otherwise at most half the overflow either way. */
  predicate PanWithin(offset: real, scaled: real, view: real) {
    if scaled <= view then offset == 0.0
    else -((scaled - view) / 2.0) <= offset <= (scaled - view) / 2.0
  }

  /** One axis of `clamp_pan_to_bounds`. */
  function ClampAxis(offset: real, scaled: real, view: real): (r: real)
    ensures PanWithin(r, scaled, view)
    ensures PanWithin(offset, scaled, view) ==> r == offset
  {
    if scaled <= view then 0.0
    else
      var halfRange := (scaled - view) / 2.0;
      if offset > halfRange then halfRange
      else if offset < -halfRange then -halfRange
      else offset
  }

  /** The clamped offset is the allowed offset nearest to the requested one. */
  lemma ClampAxisNearest(offset: real, scaled: real, view: real, other: real)
    requires PanWithin(other, scaled, view)
    ensures Abs(ClampAxis(offset, scaled, view) - offset) <= Abs(other - offset)
  {
  }

  /** The pan offsets allowed for a widget state. Without a frame or without widget area
      the only allowed offset is zero. */
  predicate InBounds(frame: Option<Pixmap>, viewWidth: nat, viewHeight: nat, zoom: real, panX: real, panY: real) {
    if IsNull(frame) || viewWidth == 0 || viewHeight == 0 then panX == 0.0 && panY == 0.0
    else
      && PanWithin(panX, Scaled(frame.value.width, zoom), viewWidth as real)
      && PanWithin(panY, Scaled(frame.value.height, zoom), viewHeight as real)
  }

  /** `clamp_pan_to_bounds` on values: the result is allowed, and an allowed pan is kept. */
  function ClampedPan(frame: Option<Pixmap>, viewWidth: nat, viewHeight: nat, zoom: real, panX: real, panY: real): (r: (real, real))
    ensures InBounds(frame, viewWidth, viewHeight, zoom, r.0, r.1)
    ensures InBounds(frame, viewWidth, viewHeight, zoom, panX, panY) ==> r == (panX, panY)
  {
    if IsNull(frame) || viewWidth == 0 || viewHeight == 0 then (0.0, 0.0)
    else (ClampAxis(panX, Scaled(frame.value.width, zoom), viewWidth as real),
          ClampAxis(panY, Scaled(frame.value.height, zoom), viewHeight as real))
  }

  /** Clamping twice is clamping once. */
  lemma ClampedPanIdempotent(frame: Option<Pixmap>, viewWidth: nat, viewHeight: nat, zoom: real, panX: real, panY: real)
    ensures var p := ClampedPan(frame, viewWidth, viewHeight, zoom, panX, panY);
            ClampedPan(frame, viewWidth, viewHeight, zoom, p.0, p.1) == p
  {
  }

  /** A centred frame (zero pan) is always allowed. */
  lemma CentredInBounds(frame: Option<Pixmap>, viewWidth: nat, viewHeight: nat, zoom: real)
    ensures InBounds(frame, viewWidth, viewHeight, zoom, 0.0, 0.0)
  {
  }

  // ---- drawing ----

  /** The target rectangle of `paintEvent`: (x, y, width, height). */
  function TargetRect(frame: Pixmap, viewWidth: nat, viewHeight: nat, zoom: real, panX: real, panY: real): (rect: (real, real, real, real))
    ensures rect.2 == Scaled(frame.width, zoom) && rect.3 == Scaled(frame.height, zoom)
    ensures rect.0 + rect.2 / 2.0 == viewWidth as real / 2.0 + panX
    ensures rect.1 + rect.3 / 2.0 == viewHeight as real / 2.0 + panY
  {
    var scaledWidth := Scaled(frame.width, zoom);
    var scaledHeight := Scaled(frame.height, zoom);
    ((viewWidth as real - scaledWidth) / 2.0 + panX, (viewHeight as real - scaledHeight) / 2.0 + panY,
     scaledWidth, scaledHeight)
  }

  /** With an allowed pan, a frame that fits an axis is drawn wholly inside the widget on
      that axis, and a frame that overflows it covers the widget on that axis (no empty
      band at either side). */
  lemma TargetRectOnScreen(frame: Pixmap, viewWidth: nat, viewHeight: nat, zoom: real, panX: real, panY: real)
    requires !IsNull(Some(frame)) && viewWidth > 0 && viewHeight > 0
    requires InBounds(Some(frame), viewWidth, viewHeight, zoom, panX, panY)
    ensures var r := TargetRect(frame, viewWidth, viewHeight, zoom, panX, panY);
            && (r.2 <= viewWidth as real ==> 0.0 <= r.0 && r.0 + r.2 <= viewWidth as real)
            && (r.2 > viewWidth as real ==> r.0 <= 0.0 && viewWidth as real <= r.0 + r.2)
            && (r.3 <= viewHeight as real ==> 0.0 <= r.1 && r.1 + r.3 <= viewHeight as real)
            && (r.3 > viewHeight as real ==> r.1 <= 0.0 && viewHeight as real <= r.1 + r.3)
  {
  }

  // ---- the widget ----

  class ImageWidget {
    var pixmap: Option<Pixmap>
    /** The widget's size, as Qt reports it. */
    var width: nat
    var height: nat
    var zoomFactor: real
    var userZoomed: bool
    var panActive: bool
    var panStart: Option<(real, real)>
    var panOffsetX: real
    var panOffsetY: real

    /** Zoom in range, and a drag always has a reference point. */
    ghost predicate Configured()
      reads this
    {
      && MIN_ZOOM <= zoomFactor <= MAX_ZOOM
      && (panActive ==> panStart.Some?)
    }

    /** ... and without a frame there is no pan. */
    ghost predicate Valid()
      reads this
    {
      Configured() && (IsNull(pixmap) ==> panOffsetX == 0.0 && panOffsetY == 0.0)
    }

    predicate PanInBounds()
      reads this
    {
      InBounds(pixmap, width, height, zoomFactor, panOffsetX, panOffsetY)
    }

    /** The state `set_zoom(requested)` leaves, from zoom `zoom0` and pan (`x0`, `y0`):
        the zoom of ZoomAfter, and the pan re-clamped only when the zoom changed. */
    ghost predicate SetZoomOutcome(zoom0: real, x0: real, y0: real, requested: real)
      reads this
    {
      && zoomFactor == ZoomAfter(zoom0, requested)
      && (panOffsetX, panOffsetY) ==
         (if ZoomTakesEffect(zoom0, requested)
          then ClampedPan(pixmap, width, height, zoomFactor, x0, y0)
          else (x0, y0))
    }

    /** A new widget shows nothing at 100% with no pan. */
    constructor (initialWidth: nat, initialHeight: nat)
      ensures Valid() && PanInBounds()
      ensures pixmap == None && width == initialWidth && height == initialHeight
      ensures zoomFactor == 1.0 && !userZoomed && !panActive && panStart == None
      ensures panOffsetX == 0.0 && panOffsetY == 0.0
    {
      pixmap := None;
      width, height := initialWidth, initialHeight;
      zoomFactor := 1.0;
      userZoomed := false;
      panActive := false;
      panStart := None;
      panOffsetX, panOffsetY := 0.0, 0.0;
    }

    /** `set_animation_frame`: a null frame is ignored; otherwise only the frame changes,
        keeping zoom and pan. */
    method SetAnimationFrame(frame: Option<Pixmap>)
      requires Valid()
      modifies this
      ensures Valid()
      ensures pixmap == (if IsNull(frame) then old(pixmap) else frame)
      ensures width == old(width) && height == old(height) && zoomFactor == old(zoomFactor)
      ensures userZoomed == old(userZoomed) && panActive == old(panActive) && panStart == old(panStart)
      ensures panOffsetX == old(panOffsetX) && panOffsetY == old(panOffsetY)
      ensures old(PanInBounds()) && !IsNull(frame) && !IsNull(old(pixmap)) && frame.value == old(pixmap).value ==> PanInBounds()
    {
      if IsNull(frame) {
        return;
      }
      pixmap := frame;
    }

    /** `clamp_pan_to_bounds`, branch by branch. */
    method ClampPanToBounds()
      requires Configured()
      modifies this
      ensures Valid() && PanInBounds()
      ensures (panOffsetX, panOffsetY) == ClampedPan(pixmap, width, height, zoomFactor, old(panOffsetX), old(panOffsetY))
      ensures pixmap == old(pixmap) && width == old(width) && height == old(height) && zoomFactor == old(zoomFactor)
      ensures userZoomed == old(userZoomed) && panActive == old(panActive) && panStart == old(panStart)
    {
      if IsNull(pixmap) {
        panOffsetX, panOffsetY := 0.0, 0.0;
        return;
      }
      var widgetWidth := width as real;
      var widgetHeight := height as real;
      if width == 0 || height == 0 {
        panOffsetX, panOffsetY := 0.0, 0.0;
        return;
      }
      var scaledWidth := Scaled(pixmap.value.width, zoomFactor);
      var scaledHeight := Scaled(pixmap.value.height, zoomFactor);
      if scaledWidth <= widgetWidth {
        panOffsetX := 0.0;
      } else {
        var halfRangeX := (scaledWidth - widgetWidth) / 2.0;
        if panOffsetX > halfRangeX {
          panOffsetX := halfRangeX;
        } else if panOffsetX < -halfRangeX {
          panOffsetX := -halfRangeX;
        }
      }

      if scaledHeight <= widgetHeight {
        panOffsetY := 0.0;
      } else {
        var halfRangeY := (scaledHeight - widgetHeight) / 2.0;
        if panOffsetY > halfRangeY {
          panOffsetY := halfRangeY;
        } else if panOffsetY < -halfRangeY {
          panOffsetY := -halfRangeY;
        }
      }
    }

    /** `set_pixmap`: a new image (or none) starts centred, not user-zoomed, at its
        initial zoom. */
    method SetPixmap(frame: Option<Pixmap>)
      requires Valid()
      modifies this
      ensures Valid() && PanInBounds()
      ensures pixmap == frame && !userZoomed
      ensures zoomFactor == InitialZoom(frame, width, height)
      ensures panOffsetX == 0.0 && panOffsetY == 0.0
      ensures width == old(width) && height == old(height) && panActive == old(panActive) && panStart == old(panStart)
    {
      pixmap := frame;
      userZoomed := false;

      if IsNull(pixmap) {
        zoomFactor := 1.0;
        panOffsetX, panOffsetY := 0.0, 0.0;
        return;
      }

      if width > 0 && height > 0 {
        var scaleX := width as real / pixmap.value.width as real;
        var scaleY := height as real / pixmap.value.height as real;
        var idealZoom := Min(scaleX, scaleY);
        if idealZoom < 1.0 {
          zoomFactor := if MIN_ZOOM >= idealZoom then MIN_ZOOM else idealZoom;
        } else {
          zoomFactor := 1.0;
        }
      } else {
        zoomFactor := 1.0;
      }

      panOffsetX, panOffsetY := 0.0, 0.0;
    }

    /** `set_zoom`: clamp the request; ignore it if it is within ZOOM_EPSILON of the current
        zoom; otherwise store it and re-clamp the pan. */
    method SetZoom(zoom: real)
      requires Valid()
      modifies this
      ensures Valid()
      ensures SetZoomOutcome(old(zoomFactor), old(panOffsetX), old(panOffsetY), zoom)
      ensures old(PanInBounds()) ==> PanInBounds()
      ensures pixmap == old(pixmap) && width == old(width) && height == old(height)
      ensures userZoomed == old(userZoomed) && panActive == old(panActive) && panStart == old(panStart)
    {
      var clamped := ClampZoom(zoom);
      if Abs(clamped - zoomFactor) < ZOOM_EPSILON {
        return;
      }
      zoomFactor := clamped;
      ClampPanToBounds();
    }

    /** `zoom_in`: one step of ZOOM_STEP; the image counts as user-zoomed afterwards even
        when the step changed nothing. */
    method ZoomIn()
      requires Valid()
      modifies this
      ensures Valid() && userZoomed
      ensures SetZoomOutcome(old(zoomFactor), old(panOffsetX), old(panOffsetY), old(zoomFactor) * ZOOM_STEP)
      ensures zoomFactor >= old(zoomFactor)
      ensures old(PanInBounds()) ==> PanInBounds()
      ensures pixmap == old(pixmap) && width == old(width) && height == old(height)
      ensures panActive == old(panActive) && panStart == old(panStart)
    {
      SetZoom(zoomFactor * ZOOM_STEP);
      userZoomed := true;
    }

    /** `zoom_out`: one step down by ZOOM_STEP; marks the image user-zoomed. */
    method ZoomOut()
      requires Valid()
      modifies this
      ensures Valid() && userZoomed
      ensures SetZoomOutcome(old(zoomFactor), old(panOffsetX), old(panOffsetY), old(zoomFactor) / ZOOM_STEP)
      ensures zoomFactor <= old(zoomFactor)
      ensures old(PanInBounds()) ==> PanInBounds()
      ensures pixmap == old(pixmap) && width == old(width) && height == old(height)
      ensures panActive == old(panActive) && panStart == old(panStart)
    {
      SetZoom(zoomFactor / ZOOM_STEP);
      userZoomed := true;
    }

    /** `reset_zoom`: back to 100% and no longer user-zoomed. */
    method ResetZoom()
      requires Valid()
      modifies this
      ensures Valid() && !userZoomed
      ensures SetZoomOutcome(old(zoomFactor), old(panOffsetX), old(panOffsetY), 1.0)
      ensures Abs(zoomFactor - 1.0) < ZOOM_EPSILON
      ensures old(PanInBounds()) ==> PanInBounds()
      ensures pixmap == old(pixmap) && width == old(width) && height == old(height)
      ensures panActive == old(panActive) && panStart == old(panStart)
    {
      SetZoom(1.0);
      userZoomed := false;
    }

    /** `fit_to_window`: without a frame or with a zero-sized widget nothing happens;
        otherwise `set_zoom` of the ideal zoom, which, unlike the initial zoom, may exceed
        1.0. */
    method FitToWindow()
      requires Valid()
      modifies this
      ensures Valid()
      ensures IsNull(pixmap) || width == 0 || height == 0 ==>
                zoomFactor == old(zoomFactor) && panOffsetX == old(panOffsetX) && panOffsetY == old(panOffsetY)
      ensures !IsNull(pixmap) && width > 0 && height > 0 ==>
                SetZoomOutcome(old(zoomFactor), old(panOffsetX), old(panOffsetY), IdealZoom(pixmap.value, width, height))
      ensures old(PanInBounds()) ==> PanInBounds()
      ensures pixmap == old(pixmap) && width == old(width) && height == old(height)
      ensures userZoomed == old(userZoomed) && panActive == old(panActive) && panStart == old(panStart)
    {
      if IsNull(pixmap) {
        return;
      }
      if width == 0 || height == 0 {
        return;
      }
      var scaleX := width as real / pixmap.value.width as real;
      var scaleY := height as real / pixmap.value.height as real;
      SetZoom(Min(scaleX, scaleY));
    }

    /** `resizeEvent` as the source writes it: refit if the user has not zoomed, else
        re-clamp the pan. When the refit is ignored as a tiny change, the pan is not
        re-clamped for the new size. */
    method ResizeEventAsWritten(newWidth: nat, newHeight: nat)
      requires Valid()
      modifies this
      ensures Valid()
      ensures width == newWidth && height == newHeight && pixmap == old(pixmap)
      ensures userZoomed == old(userZoomed) && panActive == old(panActive) && panStart == old(panStart)
      ensures !IsNull(pixmap) && userZoomed ==>
                zoomFactor == old(zoomFactor) &&
                (panOffsetX, panOffsetY) == ClampedPan(pixmap, width, height, zoomFactor, old(panOffsetX), old(panOffsetY))
      ensures !IsNull(pixmap) && !userZoomed && width > 0 && height > 0 ==>
                SetZoomOutcome(old(zoomFactor), old(panOffsetX), old(panOffsetY), IdealZoom(pixmap.value, width, height))
      ensures IsNull(pixmap) || (!userZoomed && (width == 0 || height == 0)) ==>
                zoomFactor == old(zoomFactor) && panOffsetX == old(panOffsetX) && panOffsetY == old(panOffsetY)
    {
      width, height := newWidth, newHeight;
      if !IsNull(pixmap) {
        if !userZoomed {
          FitToWindow();
        } else {
          ClampPanToBounds();
        }
      }
    }

    /** `resizeEvent` as intended: as written, and in the refit branch the pan is
        re-clamped afterwards too, so the pan is always allowed after a resize. */
    method ResizeEvent(newWidth: nat, newHeight: nat)
      requires Valid()
      modifies this
      ensures Valid() && PanInBounds()
      ensures width == newWidth && height == newHeight && pixmap == old(pixmap)
      ensures userZoomed == old(userZoomed) && panActive == old(panActive) && panStart == old(panStart)
      ensures !IsNull(pixmap) && userZoomed ==> zoomFactor == old(zoomFactor)
      ensures !IsNull(pixmap) && !userZoomed && width > 0 && height > 0 ==>
                zoomFactor == ZoomAfter(old(zoomFactor), IdealZoom(pixmap.value, width, height))
      ensures IsNull(pixmap) || width == 0 || height == 0 ==> zoomFactor == old(zoomFactor)
      ensures !IsNull(pixmap) ==>
                (panOffsetX, panOffsetY) == ClampedPan(pixmap, width, height, zoomFactor, old(panOffsetX), old(panOffsetY))
      ensures IsNull(pixmap) ==> panOffsetX == old(panOffsetX) && panOffsetY == old(panOffsetY)
    {
      width, height := newWidth, newHeight;
      if !IsNull(pixmap) {
        if !userZoomed {
          FitToWindow();
        }
        ClampPanToBounds();
      }
    }

    /** `wheelEvent`: forward zooms in, backward zooms out, no vertical delta does nothing. */
    method WheelEvent(delta: int)
      requires Valid()
      modifies this
      ensures Valid()
      ensures delta > 0 ==> userZoomed && SetZoomOutcome(old(zoomFactor), old(panOffsetX), old(panOffsetY), old(zoomFactor) * ZOOM_STEP)
      ensures delta < 0 ==> userZoomed && SetZoomOutcome(old(zoomFactor), old(panOffsetX), old(panOffsetY), old(zoomFactor) / ZOOM_STEP)
      ensures delta == 0 ==> userZoomed == old(userZoomed) && zoomFactor == old(zoomFactor)
      ensures delta == 0 ==> panOffsetX == old(panOffsetX) && panOffsetY == old(panOffsetY)
      ensures old(PanInBounds()) ==> PanInBounds()
      ensures pixmap == old(pixmap) && width == old(width) && height == old(height)
      ensures panActive == old(panActive) && panStart == old(panStart)
    {
      if delta > 0 {
        ZoomIn();
      } else if delta < 0 {
        ZoomOut();
      }
    }

    /** `mousePressEvent`: a left press on a frame starts a drag at (x, y), unless the
        scaled frame fits the widget on both axes. */
    method MousePressEvent(leftButton: bool, x: real, y: real)
      requires Valid()
      modifies this
      ensures Valid()
      ensures var starts := leftButton && !IsNull(pixmap) && !Fits(pixmap.value, width, height, zoomFactor);
              && panActive == (old(panActive) || starts)
              && panStart == (if starts then Some((x, y)) else old(panStart))
      ensures pixmap == old(pixmap) && width == old(width) && height == old(height) && zoomFactor == old(zoomFactor)
      ensures userZoomed == old(userZoomed) && panOffsetX == old(panOffsetX) && panOffsetY == old(panOffsetY)
    {
      if leftButton && !IsNull(pixmap) {
        var scaledWidth := Scaled(pixmap.value.width, zoomFactor);
        var scaledHeight := Scaled(pixmap.value.height, zoomFactor);
        if scaledWidth <= width as real && scaledHeight <= height as real {
          return;
        }
        panActive := true;
        panStart := Some((x, y));
      }
    }

    /** `mouseMoveEvent`: while dragging, the pan moves by the pointer's displacement and
        is then clamped; the new position becomes the drag's reference point. */
    method MouseMoveEvent(x: real, y: real)
      requires Valid()
      modifies this
      ensures Valid()
      ensures old(panActive) ==>
                && panStart == Some((x, y))
                && (panOffsetX, panOffsetY) ==
                   ClampedPan(pixmap, width, height, zoomFactor,
                              old(panOffsetX) + (x - old(panStart).value.0), old(panOffsetY) + (y - old(panStart).value.1))
                && PanInBounds()
      ensures !old(panActive) ==> panStart == old(panStart) && panOffsetX == old(panOffsetX) && panOffsetY == old(panOffsetY)
      ensures pixmap == old(pixmap) && width == old(width) && height == old(height) && zoomFactor == old(zoomFactor)
      ensures userZoomed == old(userZoomed) && panActive == old(panActive)
    {
      if panActive {
        var deltaX := x - panStart.value.0;
        var deltaY := y - panStart.value.1;
        panStart := Some((x, y));
        panOffsetX := panOffsetX + deltaX;
        panOffsetY := panOffsetY + deltaY;
        ClampPanToBounds();
      }
    }

    /** `mouseReleaseEvent`: releasing the left button ends the drag. */
    method MouseReleaseEvent(leftButton: bool)
      requires Valid()
      modifies this
      ensures Valid()
      ensures panActive == (old(panActive) && !leftButton)
      ensures pixmap == old(pixmap) && width == old(width) && height == old(height) && zoomFactor == old(zoomFactor)
      ensures userZoomed == old(userZoomed) && panStart == old(panStart)
      ensures panOffsetX == old(panOffsetX) && panOffsetY == old(panOffsetY)
    {
      if leftButton {
        panActive := false;
      }
    }
  }

  /** A 100000 x 100000 frame in a 1000 x 1000 widget opens at the 5% floor, 5000 pixels
      wide, so it can be dragged 2000 pixels right. Growing the widget to 5000 x 5000 makes
      the frame fit, but the refit asks for the zoom it already has, is ignored, and the
      as-written resize leaves the pan at 2000: the frame is drawn half off-screen and
      cannot be dragged back, since a frame that fits cannot be dragged. */
  method ResizeLeavesPanOutOfBounds() returns (w: ImageWidget)
    ensures w.Valid() && w.zoomFactor == MIN_ZOOM && w.panOffsetX == 2000.0
    ensures w.width == 5000 && Fits(w.pixmap.value, w.width, w.height, w.zoomFactor)
    ensures !w.PanInBounds()
  {
    w := new ImageWidget(1000, 1000);
    w.SetPixmap(Some(Pixmap(100000, 100000)));
    assert w.zoomFactor == MIN_ZOOM;
    w.MousePressEvent(true, 0.0, 0.0);
    w.MouseMoveEvent(2000.0, 0.0);
    assert w.panOffsetX == 2000.0;
    w.ResizeEventAsWritten(5000, 5000);
  }

  /** The same steps with the intended resize recentre the frame. */
  method ResizeRecentres() returns (w: ImageWidget)
    ensures w.Valid() && w.zoomFactor == MIN_ZOOM && w.panOffsetX == 0.0
    ensures w.PanInBounds()
  {
    w := new ImageWidget(1000, 1000);
    w.SetPixmap(Some(Pixmap(100000, 100000)));
    w.MousePressEvent(true, 0.0, 0.0);
    w.MouseMoveEvent(2000.0, 0.0);
    w.ResizeEvent(5000, 5000);
  }
}
