/**
 * The pure calculations of the conference page: which surface fills the main
 * area, how the meeting timer splits elapsed milliseconds, and the participant
 * total shown in the header.
 */
module ConferenceView {

  /** The four elements that can fill the main area. */
  datatype Surface = MainVideo | ScreenShareVideo | Placeholder | WhiteboardFrame

  /** The `display` decision `updateMainVideoDisplay` makes for each element:
      true for 'block'/'flex', false for 'none'. */
  datatype Layout = Layout(mainVideo: bool, screenShareVideo: bool, placeholder: bool, whiteboardFrame: bool)

  function Visible(l: Layout): set<Surface> {
    (if l.mainVideo then {MainVideo} else {})
    + (if l.screenShareVideo then {ScreenShareVideo} else {})
    + (if l.placeholder then {Placeholder} else {})
    + (if l.whiteboardFrame then {WhiteboardFrame} else {})
  }

  /** Whether a surface has something to show. The placeholder always has. */
  predicate Wanted(s: Surface, videoEnabled: bool, hasLocalStream: bool, screenSharing: bool, whiteboardActive: bool) {
    match s
    case WhiteboardFrame => whiteboardActive
    case ScreenShareVideo => screenSharing
    case MainVideo => videoEnabled && hasLocalStream
    case Placeholder => true
  }

  /** The surfaces from most to least preferred. */
  const Preference: seq<Surface> := [WhiteboardFrame, ScreenShareVideo, MainVideo, Placeholder]

  /** Reference choice: the first surface of `order` that has something to show. */
  function FirstWanted(order: seq<Surface>, videoEnabled: bool, hasLocalStream: bool, screenSharing: bool, whiteboardActive: bool): (s: Surface)
    requires |order| > 0 && order[|order| - 1] == Placeholder
    ensures s in order && Wanted(s, videoEnabled, hasLocalStream, screenSharing, whiteboardActive)
    decreases |order|
  {
    if Wanted(order[0], videoEnabled, hasLocalStream, screenSharing, whiteboardActive) then order[0]
    else FirstWanted(order[1..], videoEnabled, hasLocalStream, screenSharing, whiteboardActive)
  }

  /** The if-chain of `updateMainVideoDisplay`: exactly one element is shown. */
  function MainLayout(videoEnabled: bool, hasLocalStream: bool, screenSharing: bool, whiteboardActive: bool): (l: Layout)
    ensures |Visible(l)| == 1
  {
    var showVideo := videoEnabled && hasLocalStream;
    if whiteboardActive then Layout(false, false, false, true)
    else if screenSharing then Layout(false, true, false, false)
    else if showVideo then Layout(true, false, false, false)
    else Layout(false, false, true, false)
  }

  /** The element shown is the most preferred one that has something to show. */
  lemma MainLayoutPrefers(videoEnabled: bool, hasLocalStream: bool, screenSharing: bool, whiteboardActive: bool)
    ensures Visible(MainLayout(videoEnabled, hasLocalStream, screenSharing, whiteboardActive))
      == {FirstWanted(Preference, videoEnabled, hasLocalStream, screenSharing, whiteboardActive)}
  {
    assert Preference[1..] == [ScreenShareVideo, MainVideo, Placeholder];
    assert Preference[1..][1..] == [MainVideo, Placeholder];
    assert Preference[1..][1..][1..] == [Placeholder];
  }

  /** `Math.floor(a / b)` for a positive divisor: Dafny's division is Euclidean,
      which rounds down when the divisor is positive. */
  function FloorDiv(a: int, b: int): int
    requires b > 0
  {
    a / b
  }

  /** JavaScript's `a % b`: the remainder takes the sign of the dividend. */
  function JsRem(a: int, b: int): (r: int)
    requires b > 0
    ensures a >= 0 ==> 0 <= r < b
    ensures a < 0 ==> -b < r <= 0
    ensures (a - r) % b == 0
  {
    if a >= 0 then
      var q := a / b;
      assert a - a % b == b * q;
      MultipleRem(a - a % b, q, b);
      a % b
    else
      var q := (-a) / b;
      assert a + (-a) % b == b * -q;
      MultipleRem(a + (-a) % b, -q, b);
      -((-a) % b)
  }

  /** A multiple of `b` leaves no remainder. */
  lemma MultipleRem(x: int, k: int, b: int)
    requires b > 0 && x == b * k
    ensures x % b == 0
  {
    var d := k - x / b;
    assert b * d == x % b;
  }

  datatype Clock = Clock(hours: int, minutes: int, seconds: int)

  /** `updateMeetingTimer`'s split of the elapsed milliseconds. */
  function MeetingClock(diff: int): (c: Clock)
    ensures c.hours >= 0 <==> diff >= 0
    ensures -60 <= c.minutes < 60 && -60 <= c.seconds < 60
  {
    Clock(FloorDiv(diff, 3600000),
          FloorDiv(JsRem(diff, 3600000), 60000),
          FloorDiv(JsRem(diff, 60000), 1000))
  }

  function ClockMillis(c: Clock): int {
    c.hours * 3600000 + c.minutes * 60000 + c.seconds * 1000
  }

  /** For a non-negative elapsed time the clock is a proper h:m:s reading that
      truncates `diff` to whole seconds. */
  lemma MeetingClockExact(diff: int)
    requires diff >= 0
    ensures var c := MeetingClock(diff);
      0 <= c.hours && 0 <= c.minutes < 60 && 0 <= c.seconds < 60
      && ClockMillis(c) <= diff < ClockMillis(c) + 1000
  {
    var h := diff / 3600000;
    var r := diff % 3600000;
    assert diff == h * 3600000 + r;
    var m := r / 60000;
    var r2 := r % 60000;
    assert r == m * 60000 + r2;
    assert m < 60;
    assert diff == (h * 60 + m) * 60000 + r2;
    assert diff % 60000 == r2;
    var s := r2 / 1000;
    assert r2 == s * 1000 + r2 % 1000;
    assert MeetingClock(diff) == Clock(h, m, s);
  }

  /** Before the start time (a clock set back), every component is zero or
      negative: the display reads e.g. -1:-1:-1 rather than wrapping. */
  lemma MeetingClockBeforeStart(diff: int)
    requires diff < 0
    ensures var c := MeetingClock(diff);
      c.hours < 0 && -60 <= c.minutes <= 0 && -60 <= c.seconds <= 0
  {
    var r := JsRem(diff, 3600000);
    assert -3600000 < r <= 0;
    var r2 := JsRem(diff, 60000);
    assert -60000 < r2 <= 0;
  }

  /** `updateParticipantCount`: the roster size minus the local entry, plus
      one, and never below one. */
  function DisplayedTotal(entries: nat): (t: nat)
    ensures t >= 1
    ensures entries >= 1 ==> t == entries
    ensures entries == 0 ==> t == 1
  {
    var remoteCount := entries - 1;
    if remoteCount + 1 > 1 then remoteCount + 1 else 1
  }
}
