/**
 * The selection state machine and the per-frame transitions of the control
 * loop (ObjectTraker.py: select_roi_callback, init_tracker and the body of
 * the `while True` loop in main).
 *
 * The module globals `drawing`, `start_point`, `end_point`, `tracker` and
 * `tracking_active` become the fields of a Session. The visual tracker is a
 * foreign object: it is represented by the box it was initialised with
 * (`None` when no tracker exists), and its per-frame answer is an input.
 */
module Tracker {
  import opened Wrappers
  import opened Geometry
  import opened Deflection
  import opened Wire

  /** What a button release did with the drag. */
  datatype Release =
    | Started(box: Box)    // the box was large enough and a tracker was initialised on it
    | Discarded(box: Box)  // the box was too small and was dropped silently
    | MissingStart         // no press point was recorded: unpacking `start_point` raises TypeError

  /** The answer of `tracker.update(frame)`: failure, or the new box in integer pixels. */
  datatype TrackUpdate = Lost | Found(box: Box)

  /** Key codes compared against `cv2.waitKey(1) & 0xFF`. */
  const QuitKey: int := 'q' as int
  const ResetKey: int := 'r' as int

  /** Python's `key & 0xFF` for any int, negative ones included. */
  function LowByte(key: int): (b: int)
    ensures 0 <= b < 256
    ensures (key - b) % 256 == 0
  {
    key % 256
  }

  class Session {
    var drawing: bool
    var startPoint: Option<Point>
    var endPoint: Option<Point>
    var tracker: Option<Box>
    var trackingActive: bool

    /** Tracking is only ever active with a tracker in place. */
    ghost predicate Valid()
      reads this
    {
      trackingActive ==> tracker.Some?
    }

    /** The state at program start and after a reset. */
    predicate Idle()
      reads this
    {
      !drawing && startPoint == None && endPoint == None && tracker == None && !trackingActive
    }

    /** The initial values of the globals (lines 6-10). */
    constructor ()
      ensures Valid() && Idle()
    {
      drawing := false;
      startPoint := None;
      endPoint := None;
      tracker := None;
      trackingActive := false;
    }

    /** EVENT_LBUTTONDOWN: start a new drag at p and stop tracking (lines 20-24). */
    method MouseDown(p: Point)
      requires Valid()
      modifies this
      ensures Valid()
      ensures drawing && startPoint == Some(p) && endPoint == Some(p) && !trackingActive
      ensures tracker == old(tracker)
    {
      drawing := true;
      startPoint := Some(p);
      endPoint := Some(p);
      trackingActive := false;
    }

    /** EVENT_MOUSEMOVE: follow the mouse, but only while a drag is in progress (lines 26-28). */
    method MouseMove(p: Point)
      requires Valid()
      modifies this
      ensures Valid()
      ensures endPoint == if old(drawing) then Some(p) else old(endPoint)
      ensures drawing == old(drawing) && startPoint == old(startPoint)
      ensures tracker == old(tracker) && trackingActive == old(trackingActive)
    {
      if drawing {
        endPoint := Some(p);
      }
    }

    /** init_tracker: replace the tracker by one initialised on b and start tracking (lines 48-54). */
    method InitTracker(b: Box)
      modifies this
      ensures Valid()
      ensures tracker == Some(b) && trackingActive
      ensures drawing == old(drawing) && startPoint == old(startPoint) && endPoint == old(endPoint)
    {
      tracker := Some(b);
      trackingActive := true;
    }

    /**
     * EVENT_LBUTTONUP: end the drag at p, normalise it and start tracking if
     * the box is large enough (lines 30-45). The release is handled whether
     * or not a drag was in progress; the box then spans from whatever press
     * point was last recorded.
     */
    method MouseUp(p: Point) returns (r: Release)
      requires Valid()
      modifies this
      ensures Valid()
      ensures !drawing && endPoint == Some(p) && startPoint == old(startPoint)
      ensures old(startPoint) == None ==>
        r == MissingStart && tracker == old(tracker) && trackingActive == old(trackingActive)
      ensures old(startPoint) != None ==>
        var b := BoxFromDrag(old(startPoint).value, p);
        if IsAcceptable(b) then
          r == Started(b) && tracker == Some(b) && trackingActive
        else
          r == Discarded(b) && tracker == old(tracker) && trackingActive == old(trackingActive)
    {
      drawing := false;
      endPoint := Some(p);
      if startPoint == None {
        return MissingStart;
      }
      var b := BoxFromDrag(startPoint.value, p);
      if IsAcceptable(b) {
        InitTracker(b);
        r := Started(b);
      } else {
        r := Discarded(b);
      }
    }

    /** A failed tracker update: tracking stops and nothing else changes (lines 142-145). */
    method TrackLost()
      requires Valid()
      modifies this
      ensures Valid()
      ensures !trackingActive
      ensures drawing == old(drawing) && startPoint == old(startPoint) && endPoint == old(endPoint)
      ensures tracker == old(tracker)
    {
      trackingActive := false;
    }

    /** The `r` key: back to the idle state from any state (lines 161-166). */
    method Reset()
      modifies this
      ensures Valid() && Idle()
    {
      trackingActive := false;
      tracker := None;
      drawing := false;
      startPoint := None;
      endPoint := None;
    }

    /**
     * The tracking step of one loop iteration (lines 109-133). The tracker is
     * consulted only when tracking is active and a tracker exists; by Valid()
     * the second test never decides anything, so the contract is stated on
     * the tracking flag alone. `update` is the tracker's answer for this
     * frame. The result is the line written to the serial port, if any: one
     * is written only on a successful update and only when a serial handle
     * exists.
     */
    method ProcessFrame(update: TrackUpdate, frame: Frame, serialOpen: bool) returns (sent: Option<string>)
      requires Valid() && ValidFrame(frame)
      modifies this
      ensures Valid()
      ensures drawing == old(drawing) && startPoint == old(startPoint) && endPoint == old(endPoint)
      ensures tracker == old(tracker)
      ensures !old(trackingActive) ==> sent == None && !trackingActive
      ensures old(trackingActive) && update == Lost ==> sent == None && !trackingActive
      ensures old(trackingActive) && update.Found? ==>
        trackingActive &&
        sent == (if serialOpen then Some(CommandLine(Deflect(update.box, frame))) else None)
    {
      sent := None;
      if trackingActive && tracker != None {
        match update
        case Found(b) =>
          var fins := Deflect(b, frame);
          if serialOpen {
            sent := Some(CommandLine(fins));
          }
        case Lost =>
          TrackLost();
      }
    }

    /**
     * The key poll at the end of an iteration (lines 158-166): `q` asks the
     * loop to stop, `r` resets, every other key leaves the state alone.
     */
    method HandleKey(key: int) returns (quit: bool)
      requires Valid()
      modifies this
      ensures Valid()
      ensures quit <==> LowByte(key) == QuitKey
      ensures LowByte(key) == ResetKey ==> Idle()
      ensures LowByte(key) != ResetKey ==> unchanged(this)
    {
      var k := LowByte(key);
      quit := k == QuitKey;
      if !quit && k == ResetKey {
        Reset();
      }
    }
  }

  /**
   * A complete drag as the window delivers it: a press at p, any number of
   * moves, and a release at q. Whatever the state before and whatever the
   * moves, the outcome depends on p and q alone, and tracking is active
   * afterwards exactly when the box they span is acceptable.
   */
  method Drag(s: Session, p: Point, moves: seq<Point>, q: Point) returns (r: Release)
    requires s.Valid()
    modifies s
    ensures s.Valid()
    ensures !s.drawing && s.startPoint == Some(p) && s.endPoint == Some(q)
    ensures r == if IsAcceptable(BoxFromDrag(p, q)) then Started(BoxFromDrag(p, q)) else Discarded(BoxFromDrag(p, q))
    ensures s.trackingActive <==> IsAcceptable(BoxFromDrag(p, q))
    ensures s.trackingActive ==> s.tracker == Some(BoxFromDrag(p, q))
    ensures !s.trackingActive ==> s.tracker == old(s.tracker)
  {
    s.MouseDown(p);
    for i := 0 to |moves|
      invariant s.Valid()
      invariant s.drawing && s.startPoint == Some(p) && !s.trackingActive
      invariant s.tracker == old(s.tracker)
    {
      s.MouseMove(moves[i]);
    }
    r := s.MouseUp(q);
  }

  /**
   * A release that arrives while tracking, with no drag in progress, spans
   * from the last press point; when that box is too small, tracking goes on
   * with the same tracker.
   */
  method StrayRelease(s: Session, q: Point) returns (r: Release)
    requires s.Valid() && s.trackingActive && !s.drawing && s.startPoint != None
    requires !IsAcceptable(BoxFromDrag(s.startPoint.value, q))
    modifies s
    ensures s.Valid()
    ensures r == Discarded(BoxFromDrag(old(s.startPoint).value, q))
    ensures s.trackingActive && s.tracker == old(s.tracker)
  {
    r := s.MouseUp(q);
  }

  /**
   * After a lost update and until a new selection, no frame sends a command,
   * whatever the tracker would say.
   */
  method LostThenSilent(s: Session, frame: Frame, serialOpen: bool, later: TrackUpdate) returns (first: Option<string>, second: Option<string>)
    requires s.Valid() && ValidFrame(frame)
    modifies s
    ensures s.Valid()
    ensures first == None && second == None && !s.trackingActive
  {
    first := s.ProcessFrame(Lost, frame, serialOpen);
    second := s.ProcessFrame(later, frame, serialOpen);
  }
}
