/** The view transform: zoom and pan offsets, the per-frame zoom limit that
    fits the image into the window, and the offset clamp that keeps a larger
    image covering the window. Sizes are SDL's integer pixel sizes; the
    arithmetic is over `real`. */
module ViewTransform {

  datatype Transform = Transform(zoom: real, offX: real, offY: real)

  /** Window (renderer output) size and image size for one frame, in
      pixels. SDL refuses zero-size textures, so the image is at least one
      pixel on each axis; a window may report a zero size. */
  datatype Sizes = Sizes(width: real, height: real, iWidth: real, iHeight: real) {
    predicate Valid()
    {
      width >= 0.0 && height >= 0.0 && iWidth > 0.0 && iHeight > 0.0
    }
  }

  function Min(a: real, b: real): real
  {
    if b < a then b else a
  }

  function Max(a: real, b: real): real
  {
    if a < b then b else a
  }

  /** Multiplying by a non-negative factor keeps an order. */
  lemma MulMono(a: real, x: real, y: real)
    requires a >= 0.0 && x <= y
    ensures a * x <= a * y
  {
    assert a * y - a * x == a * (y - x);
  }

  /** Multiplying by a positive factor keeps a strict order. */
  lemma MulStrict(a: real, x: real, y: real)
    requires a > 0.0 && x < y
    ensures a * x < a * y
  {
    assert a * y - a * x == a * (y - x);
  }

  /** A positive factor can be cancelled from both sides of an order. */
  lemma MulCancel(a: real, x: real, y: real)
    requires a > 0.0 && a * x <= a * y
    ensures x <= y
  {
    if y < x {
      MulStrict(a, y, x);
    }
  }

  /** `r` is a non-negative scale at which `image` spans `window`. */
  predicate Spans(r: real, window: real, image: real)
  {
    r >= 0.0 && image * r == window
  }

  lemma SpanScale(window: real, image: real)
    requires window >= 0.0 && image > 0.0
    ensures window / image >= 0.0 && image * (window / image) == window
  {
    var q := window / image;
    assert image * q == window;
    if q < 0.0 {
      MulStrict(image, q, 0.0);
    }
  }

  /** The scale at which an image of size `image` spans a window of size
      `window` exactly on one axis. */
  ghost function FitScale(window: real, image: real): (r: real)
    requires window >= 0.0 && image > 0.0
    ensures r >= 0.0 && image * r == window
  {
    SpanScale(window, image);
    assert Spans(window / image, window, image);
    var r :| Spans(r, window, image); r
  }

  /** The viewer writes one axis of the zoom limit as the reciprocal of the
      image-to-window ratio; for a zero-size window the ratio is infinite and
      its reciprocal 0. Both give the scale that spans the window. */
  lemma FitScaleReciprocal(window: real, image: real)
    requires window >= 0.0 && image > 0.0
    ensures FitScale(window, image) == if window == 0.0 then 0.0 else 1.0 / (image / window)
  {
    var r := FitScale(window, image);
    if window > 0.0 {
      var q := image / window;
      assert q * window == image;
      var s := 1.0 / q;
      assert q * s == 1.0;
      assert image * s == window by {
        assert image * s == (q * window) * s == (q * s) * window;
      }
      assert image * r == image * s;
      MulCancel(image, r, s);
      MulCancel(image, s, r);
    } else {
      assert image * r == image * 0.0;
      MulCancel(image, r, 0.0);
    }
  }

  /** A zoom at which the image, scaled, fits the window on both axes and is
      not enlarged. */
  predicate Fits(z: real, sz: Sizes)
  {
    z <= 1.0 && sz.iWidth * z <= sz.width && sz.iHeight * z <= sz.height
  }

  /** The smallest zoom the viewer allows: the image fits the window, but no
      more than its natural size. */
  ghost function ZoomLimit(sz: Sizes): (r: real)
    requires sz.Valid()
    ensures 0.0 <= r <= 1.0
    ensures Fits(r, sz)
  {
    var fw, fh := FitScale(sz.width, sz.iWidth), FitScale(sz.height, sz.iHeight);
    var r := Min(Min(fw, fh), 1.0);
    MulMono(sz.iWidth, r, fw);
    MulMono(sz.iHeight, r, fh);
    r
  }

  /** Every zoom up to the limit fits. */
  lemma BelowLimitFits(z: real, sz: Sizes)
    requires sz.Valid() && z <= ZoomLimit(sz)
    ensures Fits(z, sz)
  {
    var r := ZoomLimit(sz);
    MulMono(sz.iWidth, z, r);
    MulMono(sz.iHeight, z, r);
  }

  /** Every fitting zoom is at most the limit. */
  lemma FitsBelowLimit(z: real, sz: Sizes)
    requires sz.Valid() && Fits(z, sz)
    ensures z <= ZoomLimit(sz)
  {
    var fw, fh := FitScale(sz.width, sz.iWidth), FitScale(sz.height, sz.iHeight);
    MulCancel(sz.iWidth, z, fw);
    MulCancel(sz.iHeight, z, fh);
  }

  /** The limit is the largest zoom at which the image fits the window
      without being enlarged past its natural size: such a zoom is exactly
      one that does not exceed the limit. */
  lemma ZoomLimitIsLargestFit(z: real, sz: Sizes)
    requires sz.Valid()
    ensures Fits(z, sz) <==> z <= ZoomLimit(sz)
  {
    if z <= ZoomLimit(sz) {
      BelowLimitFits(z, sz);
    }
    if Fits(z, sz) {
      FitsBelowLimit(z, sz);
    }
  }

  /** The limit is 1 (the natural size) exactly when the image already fits
      the window unscaled. */
  lemma ZoomLimitNaturalSize(sz: Sizes)
    requires sz.Valid()
    ensures ZoomLimit(sz) == 1.0 <==> sz.iWidth <= sz.width && sz.iHeight <= sz.height
  {
    ZoomLimitIsLargestFit(1.0, sz);
  }

  /** The zoom after the per-frame clamp: raised to the limit when below it
      and otherwise left alone; nothing caps it from above. */
  function ClampZoom(zoom: real, limit: real): (r: real)
    ensures r >= limit && r >= zoom
    ensures zoom >= limit ==> r == zoom
    ensures zoom < limit ==> r == limit
  {
    if zoom < limit then limit else zoom
  }

  /** How far the centre of an image of (scaled) size `scaled` may move from
      the window centre while the image still covers a window of size
      `window`. */
  function OffsetBound(scaled: real, window: real): real
  {
    scaled / 2.0 - window / 2.0
  }

  /** An offset the clamp accepts for an image of scaled size `scaled`: 0
      where the image fits on the axis, otherwise within the bound on either
      side. */
  predicate WithinBound(off: real, scaled: real, window: real)
  {
    if scaled <= window then off == 0.0
    else -OffsetBound(scaled, window) <= off <= OffsetBound(scaled, window)
  }

  /** The per-frame offset clamp on one axis, for an image of scaled size
      `scaled` in a window of size `window`. */
  function ClampOffset(off: real, scaled: real, window: real): (r: real)
    ensures WithinBound(r, scaled, window)
    ensures scaled <= window ==> r == 0.0
    ensures WithinBound(off, scaled, window) ==> r == off
    ensures scaled > window && off < -OffsetBound(scaled, window) ==> r == -OffsetBound(scaled, window)
    ensures scaled > window && off > OffsetBound(scaled, window) ==> r == OffsetBound(scaled, window)
  {
    if scaled <= window then 0.0
    else Min(scaled / 2.0 - window / 2.0, Max(-scaled / 2.0 + window / 2.0, off))
  }

  /** Clamping an already clamped offset with the same sizes changes nothing. */
  lemma ClampOffsetIdempotent(off: real, scaled: real, window: real)
    ensures ClampOffset(ClampOffset(off, scaled, window), scaled, window) == ClampOffset(off, scaled, window)
  {
  }

  /** The offset on one axis is acceptable for an image of size `size` shown
      at `zoom`. */
  predicate OffsetInRange(off: real, size: real, zoom: real, window: real)
  {
    WithinBound(off, size * zoom, window)
  }

  /** The offset clamp on one axis for an image of size `size` at `zoom`. */
  function ClampAxis(off: real, size: real, zoom: real, window: real): (r: real)
    ensures OffsetInRange(r, size, zoom, window)
    ensures OffsetInRange(off, size, zoom, window) ==> r == off
  {
    ClampOffset(off, size * zoom, window)
  }

  /** Only unfolds `ClampAxis` for the solver: handing `ClampFrameSteps` this
      equation keeps the nonlinear postconditions of `ClampAxis` out of its
      proof. */
  lemma ClampAxisIsClampOffset(off: real, size: real, zoom: real, window: real)
    ensures ClampAxis(off, size, zoom, window) == ClampOffset(off, size * zoom, window)
  {
  }

  /** A transform the per-frame clamp accepts as it is, for the zoom limit
      `limit` of the frame. */
  predicate InView(t: Transform, limit: real, sz: Sizes)
  {
    t.zoom >= limit &&
    OffsetInRange(t.offX, sz.iWidth, t.zoom, sz.width) &&
    OffsetInRange(t.offY, sz.iHeight, t.zoom, sz.height)
  }

  /** The per-frame clamp against the zoom limit `limit` (the frame's
      `ZoomLimit`): zoom first, then each offset against the size the image
      has at the clamped zoom. */
  function ClampFrame(t: Transform, limit: real, sz: Sizes): (r: Transform)
    ensures InView(r, limit, sz)
  {
    var zoom := ClampZoom(t.zoom, limit);
    Transform(zoom,
              ClampAxis(t.offX, sz.iWidth, zoom, sz.width),
              ClampAxis(t.offY, sz.iHeight, zoom, sz.height))
  }

  /** The clamp, spelled out step by step: the clamped zoom, then each
      offset clamped against the image size at that zoom. */
  lemma ClampFrameSteps(t: Transform, limit: real, sz: Sizes, z: real, x: real, y: real)
    requires z == ClampZoom(t.zoom, limit)
    requires x == ClampOffset(t.offX, sz.iWidth * z, sz.width)
    requires y == ClampOffset(t.offY, sz.iHeight * z, sz.height)
    ensures ClampFrame(t, limit, sz) == Transform(z, x, y)
  {
    ClampAxisIsClampOffset(t.offX, sz.iWidth, z, sz.width);
    ClampAxisIsClampOffset(t.offY, sz.iHeight, z, sz.height);
  }

  /** The clamp changes a transform exactly when it is not in view. */
  lemma ClampFrameFixedPoints(t: Transform, limit: real, sz: Sizes)
    ensures ClampFrame(t, limit, sz) == t <==> InView(t, limit, sz)
  {
  }

  lemma ClampFrameIdempotent(t: Transform, limit: real, sz: Sizes)
    ensures ClampFrame(ClampFrame(t, limit, sz), limit, sz) == ClampFrame(t, limit, sz)
  {
    ClampFrameFixedPoints(ClampFrame(t, limit, sz), limit, sz);
  }

  /** One step of the reset: if the image at `zoom` is wider (taller) than
      the window, the zoom becomes the one at which it spans the window
      exactly. */
  function Shrink(zoom: real, window: real, image: real): (r: real)
    requires image > 0.0
    ensures image * zoom > window ==> r < zoom && image * r == window
    ensures image * zoom <= window ==> r == zoom
  {
    if image * zoom > window then
      SpanBelow(zoom, window, image);
      window / image
    else
      zoom
  }

  /** When the image at `zoom` overflows the window, the spanning scale is
      smaller than `zoom`. */
  lemma SpanBelow(zoom: real, window: real, image: real)
    requires image > 0.0 && image * zoom > window
    ensures image * (window / image) == window && window / image < zoom
  {
    var r := window / image;
    assert image * r == window;
    if zoom <= r {
      MulMono(image, zoom, r);
    }
  }

  /** The reset of the view as the viewer does it: zoom 1, offsets 0, then
      the zoom lowered to fit the width and then the height. */
  function Reset(sz: Sizes): (r: Transform)
    requires sz.Valid()
    ensures r.offX == 0.0 && r.offY == 0.0
  {
    Transform(Shrink(Shrink(1.0, sz.width, sz.iWidth), sz.height, sz.iHeight), 0.0, 0.0)
  }

  /** A fitting zoom that is tight on some constraint (natural size, full
      width or full height) is the zoom limit. */
  lemma TightFitIsLimit(z: real, sz: Sizes)
    requires sz.Valid() && Fits(z, sz)
    requires z == 1.0 || sz.iWidth * z == sz.width || sz.iHeight * z == sz.height
    ensures z == ZoomLimit(sz)
  {
    var r := ZoomLimit(sz);
    ZoomLimitIsLargestFit(z, sz);
    if sz.iWidth * z == sz.width {
      MulCancel(sz.iWidth, r, z);
    } else if sz.iHeight * z == sz.height {
      MulCancel(sz.iHeight, r, z);
    }
  }

  /** The reset zoom fits the window and is tight on some constraint. */
  lemma ResetFitsTightly(sz: Sizes)
    requires sz.Valid()
    ensures Fits(Reset(sz).zoom, sz)
    ensures Reset(sz).zoom == 1.0 || sz.iWidth * Reset(sz).zoom == sz.width
                                  || sz.iHeight * Reset(sz).zoom == sz.height
  {
    var z1 := Shrink(1.0, sz.width, sz.iWidth);
    var z2 := Shrink(z1, sz.height, sz.iHeight);
    assert sz.iWidth * 1.0 == sz.iWidth;
    assert z1 <= 1.0 && sz.iWidth * z1 <= sz.width;
    assert z2 <= z1;
    MulMono(sz.iWidth, z2, z1);
  }

  /** The reset zoom is the per-frame zoom limit, so a reset view is already
      in view and the next clamp leaves it as it is. */
  lemma ResetIsZoomLimit(sz: Sizes)
    requires sz.Valid()
    ensures Reset(sz).zoom == ZoomLimit(sz)
    ensures InView(Reset(sz), ZoomLimit(sz), sz)
    ensures ClampFrame(Reset(sz), ZoomLimit(sz), sz) == Reset(sz)
  {
    ResetFitsTightly(sz);
    TightFitIsLimit(Reset(sz).zoom, sz);
    ClampFrameFixedPoints(Reset(sz), ZoomLimit(sz), sz);
  }

  /** The zoom after one wheel step of `s` notches: ten per cent of the zoom
      per notch. */
  function Scroll(zoom: real, s: int): (r: real)
    ensures s == 0 ==> r == zoom
    ensures r == zoom * (1.0 + 0.1 * s as real)
    ensures zoom > 0.0 ==> (r > 0.0 <==> s > -10)
  {
    ScrollFactor(zoom, s);
    var r := zoom + s as real * zoom * 0.1;
    assert s == 0 ==> r == zoom;
    assert r == zoom * (1.0 + 0.1 * s as real);
    assert zoom > 0.0 ==> (r > 0.0 <==> s > -10);
    r
  }

  lemma ScrollFactor(zoom: real, s: int)
    ensures s == 0 ==> zoom + s as real * zoom * 0.1 == zoom
    ensures zoom + s as real * zoom * 0.1 == zoom * (1.0 + 0.1 * s as real)
    ensures zoom > 0.0 ==> (zoom * (1.0 + 0.1 * s as real) > 0.0 <==> s > -10)
  {
    var f := 1.0 + 0.1 * s as real;
    assert f > 0.0 <==> s > -10;
    assert zoom + s as real * zoom * 0.1 == zoom * f;
    if zoom > 0.0 {
      assert zoom * 0.0 == 0.0;
      if f > 0.0 {
        MulStrict(zoom, 0.0, f);
      } else {
        MulMono(zoom, f, 0.0);
      }
    }
  }

  /** The view after a drag by `(dx, dy)` pixels: the offsets move by the
      motion, unclamped, and the zoom is kept. */
  function Pan(t: Transform, dx: int, dy: int): (r: Transform)
    ensures r.zoom == t.zoom
    ensures r.offX - t.offX == dx as real && r.offY - t.offY == dy as real
  {
    Transform(t.zoom, t.offX + dx as real, t.offY + dy as real)
  }

  /** Dragging back by the opposite motion restores the view. */
  lemma PanUndo(t: Transform, dx: int, dy: int)
    ensures Pan(Pan(t, dx, dy), -dx, -dy) == t
  {
  }

  /** The draw origin centred on the exact window centre, consistent with
      the clamp bound: the image's centre sits `off` pixels from the
      window's centre, so with no offset the margins on both sides agree. */
  function CenteredDrawOrigin(window: real, scaled: real, off: real): (r: real)
    ensures r + scaled / 2.0 == window / 2.0 + off
    ensures off == 0.0 ==> r == window - (r + scaled)
  {
    window / 2.0 - scaled / 2.0 + off
  }

  /** Left (or top) edge of the drawn image before rounding, as the viewer
      computes it: the window centre by integer division, minus half the
      scaled size, plus the offset. It agrees with the exact centring for an
      even window size and lies half a pixel before it for an odd one. */
  function DrawOrigin(window: int, scaled: real, off: real): (r: real)
    requires window >= 0
    ensures window % 2 == 0 ==> r == CenteredDrawOrigin(window as real, scaled, off)
    ensures window % 2 == 1 ==> r == CenteredDrawOrigin(window as real, scaled, off) - 0.5
  {
    var c := window / 2;
    assert window as real == 2.0 * c as real + (window % 2) as real;
    c as real - scaled / 2.0 + off
  }

  /** With a clamped offset on an axis where the image is larger than the
      window, the image's leading edge never enters the window, and its
      trailing edge ends at most half a pixel before the window's. */
  lemma DrawOriginLeadingEdge(window: int, scaled: real, off: real)
    requires window >= 0 && scaled > window as real
    requires WithinBound(off, scaled, window as real)
    ensures DrawOrigin(window, scaled, off) <= 0.0
    ensures DrawOrigin(window, scaled, off) + scaled >= window as real - 0.5
  {
    var c := window / 2;
    assert 2 * c <= window <= 2 * c + 1;
    assert (2 * c) as real <= window as real <= (2 * c + 1) as real;
  }

  /** For an odd window width the trailing edge can stop half a pixel short
      of the window's edge: a 101-pixel window, a 200-pixel image and the
      offset at the clamp's lower bound leave the image ending at 100.5. */
  lemma DrawOriginTrailingGap()
    ensures WithinBound(-49.5, 200.0, 101 as real)
    ensures DrawOrigin(101, 200.0, -49.5) + 200.0 == 100.5
    ensures DrawOrigin(101, 200.0, -49.5) + 200.0 < 101 as real
  {
    assert 101 / 2 == 50;
  }

  /** With the exact centre and a clamped offset, an image larger than the
      window covers it edge to edge, and an image that fits lies wholly
      inside it, centred. */
  lemma CenteredDrawOriginCovers(window: real, scaled: real, off: real)
    requires WithinBound(off, scaled, window)
    ensures scaled > window ==>
              CenteredDrawOrigin(window, scaled, off) <= 0.0 &&
              CenteredDrawOrigin(window, scaled, off) + scaled >= window
    ensures scaled <= window ==>
              CenteredDrawOrigin(window, scaled, off) >= 0.0 &&
              CenteredDrawOrigin(window, scaled, off) + scaled <= window
  {
  }
}
