/** The viewer's main loop state: the zoom and offsets it updates from input
    events and clamps once per frame, and the initial window size. */
module Viewer {
  import opened Sdl
  import opened ViewTransform

  /** The smallest window side the viewer opens with. */
  const MinWindowSize: int := 200

  /** The window size set after the first image is decoded: the image size,
      but at least the minimum on each axis. */
  function InitialWindowSize(d: Dims): (r: Dims)
    ensures r.w >= MinWindowSize && r.w >= d.w && (r.w == d.w || r.w == MinWindowSize)
    ensures r.h >= MinWindowSize && r.h >= d.h && (r.h == d.h || r.h == MinWindowSize)
  {
    Dims(if d.w < MinWindowSize then MinWindowSize else d.w,
         if d.h < MinWindowSize then MinWindowSize else d.h)
  }

  /** The input events the viewer reacts to; `MouseDrag` is a mouse motion
      while a button is held. */
  datatype Event = WindowClose | MouseWheel(y: int) | MouseDrag(xrel: int, yrel: int) | Other

  /** The view after the queued events, and whether the window was closed.
      A close stops processing: later events are not looked at. The loop
      reports a close exactly when a close event is queued. */
  function Dispatch(t: Transform, events: seq<Event>): (r: (Transform, bool))
    ensures r.1 <==> WindowClose in events
    decreases |events|
  {
    if |events| == 0 then (t, false)
    else
      assert WindowClose in events <==> events[0] == WindowClose || WindowClose in events[1..];
      match events[0]
      case WindowClose => (t, true)
      case MouseWheel(y) => Dispatch(Transform(Scroll(t.zoom, y), t.offX, t.offY), events[1..])
      case MouseDrag(dx, dy) => Dispatch(Pan(t, dx, dy), events[1..])
      case Other => Dispatch(t, events[1..])
  }

  /** A close stops processing: the events queued after it change nothing,
      and the view is the one the events before it produced. */
  lemma {:induction false} DispatchStopsAtClose(t: Transform, a: seq<Event>, b: seq<Event>)
    requires WindowClose !in a
    ensures Dispatch(t, a + [WindowClose] + b) == (Dispatch(t, a).0, true)
    decreases |a|
  {
    if |a| == 0 {
      assert a + [WindowClose] + b == [WindowClose] + b;
    } else {
      assert (a + [WindowClose] + b)[1..] == a[1..] + [WindowClose] + b;
      assert WindowClose !in a[1..];
      match a[0]
      case WindowClose =>
      case MouseWheel(y) => DispatchStopsAtClose(Transform(Scroll(t.zoom, y), t.offX, t.offY), a[1..], b);
      case MouseDrag(dx, dy) => DispatchStopsAtClose(Pan(t, dx, dy), a[1..], b);
      case Other => DispatchStopsAtClose(t, a[1..], b);
    }
  }

  /** Events other than wheel steps leave the zoom alone. */
  lemma {:induction false} DispatchKeepsZoom(t: Transform, events: seq<Event>)
    requires forall i :: 0 <= i < |events| ==> !events[i].MouseWheel?
    ensures Dispatch(t, events).0.zoom == t.zoom
    decreases |events|
  {
    if |events| > 0 {
      match events[0]
      case WindowClose =>
      case MouseWheel(y) =>
      case MouseDrag(dx, dy) => DispatchKeepsZoom(Pan(t, dx, dy), events[1..]);
      case Other => DispatchKeepsZoom(t, events[1..]);
    }
  }

  class View {
    var zoom: real
    var offX: real
    var offY: real

    function State(): Transform
      reads this
    {
      Transform(zoom, offX, offY)
    }

    constructor ()
      ensures State() == Transform(1.0, 0.0, 0.0)
    {
      zoom := 1.0;
      offX, offY := 0.0, 0.0;
    }

    /** Resets the view for an image of the given size in the current
        window: the result is the per-frame zoom limit with both offsets 0,
        whatever the view was before. */
    method Reset(sz: Sizes)
      requires sz.Valid()
      modifies this
      ensures State() == ViewTransform.Reset(sz)
      ensures zoom == ZoomLimit(sz) && offX == 0.0 && offY == 0.0
      ensures InView(State(), ZoomLimit(sz), sz)
    {
      zoom := 1.0;
      offX, offY := 0.0, 0.0;
      if sz.iWidth * zoom > sz.width {
        zoom := sz.width / sz.iWidth;
      }
      assert zoom == Shrink(1.0, sz.width, sz.iWidth);
      ghost var z1 := zoom;
      if sz.iHeight * zoom > sz.height {
        zoom := sz.height / sz.iHeight;
      }
      assert zoom == Shrink(z1, sz.height, sz.iHeight);
      ResetIsZoomLimit(sz);
    }

    /** A wheel event of `y` notches. */
    method Scroll(y: int)
      modifies this
      ensures State() == Transform(ViewTransform.Scroll(old(zoom), y), old(offX), old(offY))
    {
      var scroll := y as real;
      zoom := zoom + scroll * zoom * 0.1;
    }

    /** A mouse motion with a button held: the offsets follow the motion,
        unclamped until the next frame. */
    method Drag(xrel: int, yrel: int)
      modifies this
      ensures State() == Pan(old(State()), xrel, yrel)
    {
      offX := offX + xrel as real;
      offY := offY + yrel as real;
    }

    /** Drains the event queue; returns whether the window was closed, in
        which case the events after the close are left unprocessed. */
    method HandleEvents(events: seq<Event>) returns (closed: bool)
      modifies this
      ensures (State(), closed) == Dispatch(old(State()), events)
    {
      var i := 0;
      while i < |events|
        invariant 0 <= i <= |events|
        invariant Dispatch(State(), events[i..]) == Dispatch(old(State()), events)
      {
        assert events[i..][1..] == events[i + 1..];
        match events[i] {
          case WindowClose =>
            return true;
          case MouseWheel(y) =>
            Scroll(y);
          case MouseDrag(dx, dy) =>
            Drag(dx, dy);
          case Other =>
        }
        i := i + 1;
      }
      return false;
    }

    /** The per-frame clamp: the zoom is raised to the zoom limit, then each
        offset is clamped against the image size at that zoom. */
    method Clamp(sz: Sizes)
      requires sz.Valid()
      modifies this
      ensures State() == ClampFrame(old(State()), ZoomLimit(sz), sz)
      ensures InView(State(), ZoomLimit(sz), sz)
    {
      var z, x, y := zoom, offX, offY;
      var zoomLimit := Min(Min(if sz.width == 0.0 then 0.0 else 1.0 / (sz.iWidth / sz.width),
                               if sz.height == 0.0 then 0.0 else 1.0 / (sz.iHeight / sz.height)),
                           1.0);
      FitScaleReciprocal(sz.width, sz.iWidth);
      FitScaleReciprocal(sz.height, sz.iHeight);
      assert zoomLimit == ZoomLimit(sz);
      if z < zoomLimit {
        z := zoomLimit;
      }
      var w, h := sz.iWidth * z, sz.iHeight * z;
      if w <= sz.width {
        x := 0.0;
      } else {
        x := Min(w / 2.0 - sz.width / 2.0, Max(-w / 2.0 + sz.width / 2.0, x));
      }
      if h <= sz.height {
        y := 0.0;
      } else {
        y := Min(h / 2.0 - sz.height / 2.0, Max(-h / 2.0 + sz.height / 2.0, y));
      }
      ClampFrameSteps(State(), zoomLimit, sz, z, x, y);
      zoom, offX, offY := z, x, y;
    }
  }
}
