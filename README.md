# Object tracker control core

This project models the core of `ObjectTraker.py`: an operator drags a box on a live camera frame, a
visual tracker follows the object inside it, and each frame the drift of the tracked centre from the
frame centre is turned into four fin deflections that are written to a serial port as one ASCII line
`<L,R,T,B>` followed by a newline.

What is modelled:

- `geometry.dfy` (module `Geometry`): how a drag becomes the tracker's `(x_min, y_min, width, height)`
  box, and the `> 10` pixel acceptance test.
- `deflection.dfy` (module `Deflection`): the tracked centre `x + w // 2`, the normalised error and the
  fin commands `int(+-error * 30)`. The arithmetic is exact. The error `(c - dim/2) / (dim/2)` is the
  rational `(2c - dim) / dim`, and Python's truncating `int()` is `TruncDiv`. So
  `fin_right = TruncDiv(30 * (2*cx - W), W)` and `fin_left = TruncDiv(-(30 * (2*cx - W)), W)`.
  Python's `//` floors, and Dafny's `/` floors too when the divisor is positive, so `w // 2` is `w / 2`.
- `wire.dfy` (module `Wire`): Python's `str` of an int and the command f-string. The receiving
  microcontroller is not part of this model. `ParseCommand` is a reference reader for the same format.
  It exists only so that a round-trip lemma can show that the line determines the four values.
- `tracker.dfy` (module `Tracker`): the module globals `drawing`, `start_point`, `end_point`, `tracker`
  and `tracking_active` become the fields of class `Session`. The mouse callback's three event kinds,
  `init_tracker`, the "tracking lost" branch, the tracking step of the main loop and the key poll are
  methods on it. The tracker object is represented by the box it was initialised with (`None` when there
  is none). Its per-frame `update` answer is an input (`TrackUpdate`).
- `wrappers.dfy`: the `Option` type.

Three behaviours of the code are modelled as written, though a reader might expect otherwise:

- A button release is handled whether or not a drag is in progress. The callback never checks
  `drawing` on `EVENT_LBUTTONUP`. A stray release after an earlier selection therefore re-normalises from
  the old press point, and may start a new tracker.
- A rejected selection does not discard an existing tracker object, and it leaves `tracking_active` as
  it was. After a press that value is false, and only then does the main loop stop consulting the old
  tracker. A stray release with a small box while tracking (the case above) leaves tracking active on
  the old tracker (`Tracker.StrayRelease`).
- A release with no recorded press point (at start-up, or after `r` was pressed during a drag) makes
  the callback raise `TypeError` when it unpacks `start_point`. This happens after `drawing` has been
  cleared and `end_point` set. `MouseUp` returns `MissingStart` in that case and leaves the same state.

## Model

| member | source | states |
|---|---|---|
| Geometry.BoxFromDrag | ObjectTraker.py:34-40 | the box has the press and release points as opposite corners, non-negative sides, and contains both points |
| Geometry.SpannedByIsBoxFromDrag | ObjectTraker.py:37-40 | a box has the two drag points as opposite corners if and only if it is the computed box, so the min/abs formula is the only correct normalisation |
| Geometry.BoxFromDragSymmetric | ObjectTraker.py:37-40 | the box does not depend on the drag direction |
| Geometry.AcceptableDrag | ObjectTraker.py:42 | a drag is accepted exactly when it moved more than 10 pixels along both axes |
| Geometry.DragUpLeftExample | ObjectTraker.py:34-43 | dragging from (50,50) to (10,10) gives the accepted box (10,10,40,40) |
| Deflection.Center | ObjectTraker.py:114-115 | the centre is the box midpoint rounded down on each axis |
| Deflection.TruncDiv | ObjectTraker.py:124-127 | `int()` of a rational: the magnitude is the floor of the magnitude of the quotient, and the sign is that of the dividend |
| Deflection.TruncDivNegate | ObjectTraker.py:124-127 | truncation toward zero commutes with negation |
| Deflection.TruncDivMonotone | ObjectTraker.py:124-127 | truncated division by a positive divisor is monotone in the dividend |
| Deflection.Deflect | ObjectTraker.py:113-127 | the left fin is the negated right fin, and the top fin is the negated bottom fin |
| Deflection.FinBounded | ObjectTraker.py:119-127 | a centre within the axis gives a fin of magnitude at most 30, on both the negated and the plain side |
| Deflection.FinZeroIff | ObjectTraker.py:119-127 | a fin is zero if and only if 30 times the offset `2c - dim` is smaller in magnitude than the axis length |
| Deflection.FinMonotone | ObjectTraker.py:119-127 | moving the centre toward the positive edge never lowers the positive fin |
| Deflection.FinAtEdges | ObjectTraker.py:119-127 | a centre on the far edge gives +30 and -30 on the two sides, and a centre on the near edge gives -30 and +30 |
| Deflection.FinUnclamped | ObjectTraker.py:119-127 | the output is not clamped: a centre at twice the axis length gives 90 |
| Deflection.DeflectBounded | ObjectTraker.py:113-127 | a tracked centre inside the frame gives four fins each within -30 to 30 |
| Deflection.DeflectCentred | ObjectTraker.py:113-127 | a centre exactly at the frame centre gives the command 0,0,0,0 |
| Deflection.DeflectRightEdge | ObjectTraker.py:113-127 | a centre on the right edge gives left -30 and right 30 |
| Wire.IntToString | ObjectTraker.py:132 | `str(i)` is non-empty, made of decimal digits, starts with `-` exactly when i is negative, and has no leading zero |
| Wire.NatToString | ObjectTraker.py:132 | the decimal digits of a natural number, non-empty and without a leading zero |
| Wire.IntRoundTrip | ObjectTraker.py:132 | reading back `str(i)` as a base-10 signed integer gives i |
| Wire.Fields | ObjectTraker.py:132 | the comma-separated inside of the line is at least 7 characters of the wire alphabet |
| Wire.CommandLine | ObjectTraker.py:132 | the line starts with `<`, ends with `>` and a newline, has the comma-separated fields in between, and uses only digits, `-`, `,`, `<`, `>` and newline |
| Wire.SplitFields | ObjectTraker.py:132 | splitting the fields on commas gives exactly the four numbers' texts |
| Wire.CommandRoundTrip | ObjectTraker.py:132 | reading the line back gives the four fin values it was made from |
| Wire.CommandLineInjective | ObjectTraker.py:132 | two commands give the same line if and only if they are equal |
| Wire.CentredLine | ObjectTraker.py:132 | a centred target is sent as `<0,0,0,0>` and a newline |
| Wire.RightEdgeLine | ObjectTraker.py:132 | negative values keep their sign: `<-30,30,0,0>` and a newline |
| Tracker.LowByte | ObjectTraker.py:158 | `key & 0xFF` lies in 0..255 and agrees with the key modulo 256, negative keys included |
| Tracker.Session.constructor | ObjectTraker.py:6-10 | the program starts idle: not drawing, no points, no tracker, not tracking |
| Tracker.Session.MouseDown | ObjectTraker.py:20-24 | a press starts drawing, sets both points to the press point and stops tracking; the tracker object stays |
| Tracker.Session.MouseMove | ObjectTraker.py:26-28 | a move updates only the end point, and only while drawing |
| Tracker.Session.InitTracker | ObjectTraker.py:48-54 | the tracker is replaced by one initialised on the box, and tracking becomes active |
| Tracker.Session.MouseUp | ObjectTraker.py:30-45 | after a release drawing is false and the end point is the release point; with a press point recorded, a tracker is initialised on the normalised box and tracking starts if and only if both sides exceed 10, otherwise tracker and tracking flag keep their values; with no press point it reports the TypeError case and changes nothing else |
| Tracker.Session.TrackLost | ObjectTraker.py:142-145 | a lost update clears the tracking flag and changes nothing else |
| Tracker.Session.Reset | ObjectTraker.py:161-166 | the `r` key returns to the idle state from any state |
| Tracker.Session.ProcessFrame | ObjectTraker.py:109-145 | with no active tracking nothing is sent or changed; a lost update stops tracking and sends nothing; a successful update sends the command line of the box's deflection exactly when a serial handle exists; the cases depend on the tracking flag alone, since the invariant makes the `tracker is not None` test redundant |
| Tracker.Session.HandleKey | ObjectTraker.py:158-166 | the loop quits exactly on `q`; `r` resets to idle; any other key changes nothing |
| Tracker.Drag | ObjectTraker.py:16-54 | a press at p, any moves and a release at q end with tracking active exactly when the box spanned by p and q is acceptable, with the tracker initialised on that box, whatever the prior state |
| Tracker.StrayRelease | ObjectTraker.py:30-42 | a release with no drag in progress and a box too small to accept leaves tracking active on the same tracker |
| Tracker.LostThenSilent | ObjectTraker.py:109-145 | after a lost update the next frame sends nothing, whatever the tracker answers |

## Left out

- Video capture, the window, mouse-callback registration, overlay drawing (`draw_crosshair`, rectangles,
  text), `imshow` and `waitKey` are display and input I/O. The model takes the mouse event, the key code,
  the tracker's answer and the frame size as inputs.
- The tracking algorithm (`TrackerCSRT_create`, `tracker.init`, `tracker.update`) is a foreign library.
  A tracker is the box it was initialised with, and an update is an input of success plus an integer box.
  The frame handed to `tracker.init` (`param['frame']`, `None` before the first frame) is not modelled.
- The conversion of the tracker's float box to ints (line 113) is not modelled; the box is taken as integers.
- Opening, writing and closing the serial port, `time.sleep` and `print` are I/O. The model keeps the
  "write only when a handle exists" guard and the exact text written. `command.encode()` of this
  all-ASCII text gives one byte per character, so the text is the byte stream.
- Deflection.TruncDiv: the source computes `error * 30` in IEEE-754 doubles. The model uses the exact
  rational, so a double rounding that crosses an integer boundary is not covered.
- Tracker.Session.ProcessFrame: requires a frame with positive width and height, as every captured image
  has. A zero-sized frame, which would make the division on lines 119-120 raise, is not modelled.
- Frame-grab failure (lines 102-105) and the `q` break are loop control around I/O. `HandleKey` reports
  the quit request; the loop itself and resource release at exit are not modelled.
- What happens to the `TypeError` raised by a release without a press point, once it leaves the
  callback, depends on the windowing library and is not modelled.
