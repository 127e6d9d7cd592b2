/** Mouse: the input state a window maintains, and Mouse::Event, the value
    snapshot of that state queued for each input event. */
module Mouse {

  /** int */
  type Int32 = x: int | -0x8000_0000 <= x < 0x8000_0000

  datatype EventType = LPress | LRelease | RPress | RRelease | WheelUp | WheelDown | Move | Enter | Leave | Invalid

  datatype Event = Event(eventType: EventType, leftIsPressed: bool, rightIsPressed: bool, x: Int32, y: Int32)

  /** Mouse::RawDelta */
  datatype RawDelta = RawDelta(x: Int32, y: Int32)

  datatype Mouse = Mouse(
    leftIsPressed: bool,
    rightIsPressed: bool,
    isInWindow: bool,
    x: Int32,
    y: Int32,
    wheelDeltaCarry: Int32,
    rawEnabled: bool,
    buffer: seq<Event>,
    rawDeltaBuffer: seq<RawDelta>)

  /** IsVaild: an event is valid exactly when invalidating it would change it. */
  function IsValid(e: Event): (r: bool)
    ensures r <==> e != e.(eventType := Invalid)
  {
    e.eventType != Invalid
  }

  /** Each accessor returns the stored field: writing the returned value
      back into the event leaves it unchanged. */
  function GetType(e: Event): (t: EventType)
    ensures e.(eventType := t) == e
  {
    e.eventType
  }

  function GetPosX(e: Event): (px: Int32)
    ensures e.(x := px) == e
  {
    e.x
  }

  function GetPosY(e: Event): (py: Int32)
    ensures e.(y := py) == e
  {
    e.y
  }

  function GetPos(e: Event): (p: (Int32, Int32))
    ensures p == (GetPosX(e), GetPosY(e))
  {
    (e.x, e.y)
  }

  function LeftIsPressed(e: Event): (pressed: bool)
    ensures e.(leftIsPressed := pressed) == e
  {
    e.leftIsPressed
  }

  function RightIsPressed(e: Event): (pressed: bool)
    ensures e.(rightIsPressed := pressed) == e
  {
    e.rightIsPressed
  }

  /** The default-constructed event: invalid, no buttons, at the origin. */
  function DefaultEvent(): (e: Event)
    ensures !IsValid(e) && GetType(e) == Invalid
    ensures !LeftIsPressed(e) && !RightIsPressed(e)
    ensures GetPos(e) == (0, 0)
  {
    Event(Invalid, false, false, 0, 0)
  }

  /** An event of the given type capturing the mouse's buttons and
      position at the moment of construction. */
  function Snapshot(t: EventType, parent: Mouse): (e: Event)
    ensures GetType(e) == t
    ensures IsValid(e) <==> t != Invalid
    ensures LeftIsPressed(e) == parent.leftIsPressed && RightIsPressed(e) == parent.rightIsPressed
    ensures GetPos(e) == (parent.x, parent.y)
  {
    Event(t, parent.leftIsPressed, parent.rightIsPressed, parent.x, parent.y)
  }

  /** A snapshot depends on exactly the mouse's two button flags and its
      position: two mice give the same event exactly when those agree,
      whatever their queues, window or raw-input state. */
  lemma SnapshotDependsOnButtonsAndPosition(t: EventType, a: Mouse, b: Mouse)
    ensures Snapshot(t, a) == Snapshot(t, b) <==>
            a.leftIsPressed == b.leftIsPressed && a.rightIsPressed == b.rightIsPressed && a.x == b.x && a.y == b.y
  {
  }

  /** The event reads back as the values it holds: a snapshot of a mouse
      standing where the event says reproduces the event. */
  lemma SnapshotRoundTrip(e: Event, m: Mouse)
    requires m.leftIsPressed == LeftIsPressed(e) && m.rightIsPressed == RightIsPressed(e)
    requires (m.x, m.y) == GetPos(e)
    ensures Snapshot(GetType(e), m) == e
  {
  }

  /** True when no event is waiting in the queue. */
  function IsEmpty(m: Mouse): (r: bool)
    ensures r <==> forall e :: e !in m.buffer
  {
    assert m.buffer != [] ==> m.buffer[0] in m.buffer;
    m.buffer == []
  }

  /** A default-constructed mouse. The source gives the position no
      initial value, so it is taken as a parameter. */
  function NewMouse(x: Int32, y: Int32): (m: Mouse)
    ensures !m.leftIsPressed && !m.rightIsPressed
    ensures !m.isInWindow && !m.rawEnabled && m.wheelDeltaCarry == 0
    ensures IsEmpty(m) && m.rawDeltaBuffer == []
  {
    Mouse(false, false, false, x, y, 0, false, [], [])
  }
}
