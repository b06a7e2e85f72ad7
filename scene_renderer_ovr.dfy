/** The Oculus Mobile scene renderer's application-thread state
    (android/app/src/main/cpp/VROSceneRendererOVR.cpp): the cyclic message
    queue that carries lifecycle and input events from the Java thread, the
    back-button state machine (double tap, short press, confirm-quit menu),
    the VR-mode transitions and the framebuffer's texture swap-chain index.
    The queue is modelled sequentially: its mutex and condition variables are
    not part of this model. */
module SceneRendererOVR {
  import opened Wrappers
  import Arithmetic

  // ---------------------------------------------------------------------
  // Messages
  // ---------------------------------------------------------------------

  type Int32 = x: int | -0x8000_0000 <= x < 0x8000_0000
  type Int64 = x: int | -0x8000_0000_0000_0000 <= x < 0x8000_0000_0000_0000

  /** MAX_MESSAGE_PARMS. */
  const MaxMessageParms: nat := 8

  /** ovrMQWait: how long the posting thread waits for the consumer. */
  datatype WaitMode = WaitNone | WaitReceived | WaitProcessed

  /** ovrMessage: an id, a wait mode and eight 64-bit parameter slots. */
  datatype Message = Message(id: int, wait: WaitMode, parms: seq<Int64>)

  /** ovrMessage_Init: the given id and wait mode, every parameter zero. */
  function MessageInit(id: int, wait: WaitMode): (m: Message)
    ensures m.id == id && m.wait == wait
    ensures |m.parms| == MaxMessageParms
    ensures forall k :: 0 <= k < |m.parms| ==> m.parms[k] == 0
  {
    Message(id, wait, seq(MaxMessageParms, _ => 0))
  }

  /** The C conversion of a 64-bit value to `int`: keep the low 32 bits,
      read as two's complement. */
  function ToInt32(x: Int64): (r: Int32)
    ensures (x - r) % 0x1_0000_0000 == 0
    ensures -0x8000_0000 <= x < 0x8000_0000 ==> r == x
  {
    var low := x % 0x1_0000_0000;
    if low < 0x8000_0000 then low else low - 0x1_0000_0000
  }

  /** ovrMessage_SetIntegerParm: the `int` is widened into slot `index`. */
  function SetIntegerParm(m: Message, index: nat, value: Int32): (r: Message)
    requires index < |m.parms|
    ensures r.id == m.id && r.wait == m.wait && |r.parms| == |m.parms|
    ensures forall k :: 0 <= k < |m.parms| && k != index ==> r.parms[k] == m.parms[k]
  {
    m.(parms := m.parms[index := value])
  }

  /** ovrMessage_GetIntegerParm: slot `index` narrowed back to `int`. */
  function GetIntegerParm(m: Message, index: nat): Int32
    requires index < |m.parms|
  {
    ToInt32(m.parms[index])
  }

  /** An integer parameter reads back as it was stored, and storing it
      leaves the other slots' readings alone. */
  lemma IntegerParmRoundTrip(m: Message, index: nat, value: Int32, other: nat)
    requires index < |m.parms| && other < |m.parms|
    ensures GetIntegerParm(SetIntegerParm(m, index, value), index) == value
    ensures other != index ==>
      GetIntegerParm(SetIntegerParm(m, index, value), other) == GetIntegerParm(m, other)
  {
  }

  // ---------------------------------------------------------------------
  // The cyclic message queue
  // ---------------------------------------------------------------------

  /** MAX_MESSAGES, a power of two so that `i & (MAX_MESSAGES - 1)` is the
      slot `i % MAX_MESSAGES` of a non-negative counter. */
  const MaxMessages: nat := 1024

  function Slot(i: nat): (s: nat)
    ensures s < MaxMessages
  {
    i % MaxMessages
  }

  /** Counters less than a full ring apart never share a slot. */
  lemma SlotsDistinct(i: nat, j: nat)
    requires i < j < i + MaxMessages
    ensures Slot(i) != Slot(j)
  {
    assert i == (i / MaxMessages) * MaxMessages + Slot(i);
    assert j == (j / MaxMessages) * MaxMessages + Slot(j);
  }

  /** ovrMessageQueue: messages are enqueued at Tail and dequeued at Head;
      the ghost `pending` lists the queued messages oldest first. */
  class MessageQueue {
    var messages: array<Message>
    var head: nat
    var tail: nat
    var wait: WaitMode
    var enabled: bool
    var posted: bool
    var received: bool
    var processed: bool
    ghost var pending: seq<Message>

    ghost predicate Valid()
      reads this, messages
    {
      && messages.Length == MaxMessages
      && head <= tail
      && tail - head <= MaxMessages
      && |pending| == tail - head
      && forall k :: 0 <= k < |pending| ==> pending[k] == messages[Slot(head + k)]
    }

    /** ovrMessageQueue_Create: empty, disabled, every flag clear. */
    constructor()
      ensures Valid() && fresh(messages)
      ensures head == 0 && tail == 0 && pending == []
      ensures wait == WaitNone && !enabled && !posted && !received && !processed
    {
      messages := new Message[MaxMessages](_ => MessageInit(0, WaitNone));
      head, tail := 0, 0;
      wait := WaitNone;
      enabled, posted, received, processed := false, false, false, false;
      pending := [];
    }

    /** ovrMessageQueue_Enable. */
    method Enable(flag: bool)
      requires Valid()
      modifies this
      ensures Valid() && enabled == flag
      ensures messages == old(messages) && head == old(head) && tail == old(tail)
      ensures pending == old(pending) && wait == old(wait)
      ensures posted == old(posted) && received == old(received) && processed == old(processed)
    {
      enabled := flag;
    }

    /** ovrMessageQueue_PostMessage: dropped by a disabled queue; otherwise
        stored at slot Tail and Tail advances. The producer's busy wait for
        room becomes the precondition that the ring is not full. */
    method Post(m: Message)
      requires Valid()
      requires enabled ==> tail - head < MaxMessages
      modifies this, messages
      ensures Valid() && messages == old(messages)
      ensures head == old(head) && wait == old(wait) && enabled == old(enabled)
      ensures received == old(received) && processed == old(processed)
      ensures !old(enabled) ==>
        tail == old(tail) && pending == old(pending) && posted == old(posted)
        && messages[..] == old(messages[..])
      ensures old(enabled) ==>
        tail == old(tail) + 1 && pending == old(pending) + [m] && posted
        && messages[Slot(old(tail))] == m
    {
      if !enabled {
        return;
      }
      forall c | head <= c < tail
        ensures Slot(c) != Slot(tail)
      {
        SlotsDistinct(c, tail);
      }
      messages[Slot(tail)] := m;
      tail := tail + 1;
      posted := true;
      pending := pending + [m];
    }

    /** ovrMessageQueue_GetNextMessage without the sleep for new messages:
        first completes a pending WAIT_PROCESSED handshake, then returns
        nothing on an empty queue and otherwise the oldest message, which
        leaves the queue and may start a handshake of its own. */
    method GetNextMessage() returns (next: Option<Message>)
      requires Valid()
      modifies this
      ensures Valid() && messages == old(messages) && tail == old(tail)
      ensures enabled == old(enabled) && posted == old(posted)
      ensures old(wait) == WaitProcessed ==> processed
      ensures old(wait) != WaitProcessed ==> processed == old(processed)
      ensures old(pending) == [] ==>
        next == None && head == old(head) && pending == old(pending)
        && wait == (if old(wait) == WaitProcessed then WaitNone else old(wait))
        && received == old(received)
      ensures old(pending) != [] ==>
        next == Some(old(pending)[0]) && next.value == old(messages[Slot(head)])
        && head == old(head) + 1 && pending == old(pending)[1..]
      ensures next.Some? && next.value.wait == WaitReceived ==> received
      ensures next.Some? && next.value.wait != WaitReceived ==> received == old(received)
      ensures next.Some? && next.value.wait == WaitProcessed ==> wait == WaitProcessed
      ensures next.Some? && next.value.wait != WaitProcessed ==>
        wait == (if old(wait) == WaitProcessed then WaitNone else old(wait))
    {
      if wait == WaitProcessed {
        processed := true;
        wait := WaitNone;
      }
      if tail <= head {
        return None;
      }
      var m := messages[Slot(head)];
      head := head + 1;
      pending := pending[1..];
      if m.wait == WaitReceived {
        received := true;
      } else if m.wait == WaitProcessed {
        wait := WaitProcessed;
      }
      next := Some(m);
    }
  }

  // ---------------------------------------------------------------------
  // The back button
  // ---------------------------------------------------------------------

  /** ovrBackButtonState; Idle is BACK_BUTTON_STATE_NONE. */
  datatype BackButtonState = Idle | PendingDoubleTap | PendingShortPress | SkipUp

  /** The back-button fields of ovrApp. */
  datatype BackButton = BackButton(state: BackButtonState, down: bool, downStartTime: real)

  /** The Android key code and key actions the handler tests. */
  const KeycodeBack: int := 4
  const ActionDown: int := 0
  const ActionUp: int := 1

  /** A back-button DOWN at time `now`: a fresh press within the double-tap
      time of the previous press is a double tap; a fresh press restarts the
      press timer; the button is down afterwards. */
  function PressBack(b: BackButton, now: real, doubleTapTime: real): (r: BackButton)
    ensures r.down
    ensures r.downStartTime == (if b.down then b.downStartTime else now)
    ensures r.state == PendingDoubleTap <==>
      b.state == PendingDoubleTap || (!b.down && now - b.downStartTime < doubleTapTime)
    ensures r.state != PendingDoubleTap ==> r.state == b.state
  {
    if b.down then b.(down := true)
    else if now - b.downStartTime < doubleTapTime then BackButton(PendingDoubleTap, true, now)
    else BackButton(b.state, true, now)
  }

  /** A back-button UP at time `now`: a release from rest within the
      short-press time is a pending short press; the release that ends a
      double tap returns to rest; the button is up afterwards. */
  function ReleaseBack(b: BackButton, now: real, shortPressTime: real): (r: BackButton)
    ensures !r.down && r.downStartTime == b.downStartTime
    ensures r.state == PendingShortPress <==>
      b.state == PendingShortPress || (b.state == Idle && now - b.downStartTime < shortPressTime)
    ensures r.state == Idle <==>
      b.state == SkipUp || (b.state == Idle && now - b.downStartTime >= shortPressTime)
    ensures r.state == PendingDoubleTap <==> b.state == PendingDoubleTap
  {
    var state :=
      if b.state == Idle then
        (if now - b.downStartTime < shortPressTime then PendingShortPress else Idle)
      else if b.state == SkipUp then Idle
      else b.state;
    BackButton(state, false, b.downStartTime)
  }

  /** ovrApp_BackButtonAction, run once per frame: a pending double tap is
      consumed (its release is then skipped); a pending short press whose
      button is up and whose double-tap window has passed shows the
      confirm-quit menu (the second component) and returns to rest. */
  function BackAction(b: BackButton, now: real, doubleTapTime: real): (r: (BackButton, bool))
    ensures r.1 <==>
      b.state == PendingShortPress && !b.down && now - b.downStartTime > doubleTapTime
    ensures r.0.down == b.down && r.0.downStartTime == b.downStartTime
    ensures b.state == PendingDoubleTap ==> r.0.state == SkipUp
    ensures r.1 ==> r.0.state == Idle
    ensures b.state != PendingDoubleTap && !r.1 ==> r.0 == b
  {
    if b.state == PendingDoubleTap then (b.(state := SkipUp), false)
    else if b.state == PendingShortPress && !b.down && now - b.downStartTime > doubleTapTime then
      (b.(state := Idle), true)
    else (b, false)
  }

  /** The inputs the application thread sees, with their times in seconds:
      back-button key events and the once-per-frame back-button action. */
  datatype Event = KeyDown(time: real) | KeyUp(time: real) | FrameTick(time: real)

  /** The button after one event, and whether the event showed the
      confirm-quit menu. */
  function Step(b: BackButton, e: Event, doubleTapTime: real, shortPressTime: real): (BackButton, bool)
  {
    match e
    case KeyDown(t) => (PressBack(b, t, doubleTapTime), false)
    case KeyUp(t) => (ReleaseBack(b, t, shortPressTime), false)
    case FrameTick(t) => BackAction(b, t, doubleTapTime)
  }

  /** The button after a sequence of events, and how many times the
      confirm-quit menu was shown. */
  function Run(b: BackButton, events: seq<Event>, doubleTapTime: real, shortPressTime: real): (BackButton, nat)
    decreases |events|
  {
    if events == [] then (b, 0)
    else
      var s := Step(b, events[0], doubleTapTime, shortPressTime);
      var rest := Run(s.0, events[1..], doubleTapTime, shortPressTime);
      (rest.0, rest.1 + (if s.1 then 1 else 0))
  }

  function Releases(events: seq<Event>): nat
  {
    if events == [] then 0 else (if events[0].KeyUp? then 1 else 0) + Releases(events[1..])
  }

  function PendingCount(b: BackButton): nat
  {
    if b.state == PendingShortPress then 1 else 0
  }

  /** Only a release creates a pending short press, and showing the menu
      consumes it. */
  lemma StepKeepsQuitBudget(b: BackButton, e: Event, doubleTapTime: real, shortPressTime: real)
    ensures var s := Step(b, e, doubleTapTime, shortPressTime);
      (if s.1 then 1 else 0) + PendingCount(s.0) <= PendingCount(b) + (if e.KeyUp? then 1 else 0)
  {
  }

  /** Each release of the back button shows the confirm-quit menu at most
      once: over any sequence of events the menu appears no more often
      than the button is released (plus one for a short press already
      pending at the start). */
  lemma {:induction false} QuitMenuAtMostOncePerRelease(
    b: BackButton, events: seq<Event>, doubleTapTime: real, shortPressTime: real)
    ensures Run(b, events, doubleTapTime, shortPressTime).1 <= Releases(events) + PendingCount(b)
    ensures Run(b, events, doubleTapTime, shortPressTime).1 + PendingCount(Run(b, events, doubleTapTime, shortPressTime).0)
      <= Releases(events) + PendingCount(b)
    decreases |events|
  {
    if events != [] {
      var s := Step(b, events[0], doubleTapTime, shortPressTime);
      StepKeepsQuitBudget(b, events[0], doubleTapTime, shortPressTime);
      QuitMenuAtMostOncePerRelease(s.0, events[1..], doubleTapTime, shortPressTime);
    }
  }

  /** A short press from rest — released within the short-press time, with
      the next frame after the double-tap window — shows the confirm-quit
      menu exactly once and returns the button to rest. */
  lemma ShortPressShowsQuitMenu(
    b: BackButton, down: real, up: real, frame: real, doubleTapTime: real, shortPressTime: real)
    requires b.state == Idle && !b.down && down - b.downStartTime >= doubleTapTime
    requires up - down < shortPressTime && frame - down > doubleTapTime
    ensures Run(b, [KeyDown(down), KeyUp(up), FrameTick(frame)], doubleTapTime, shortPressTime)
      == (BackButton(Idle, false, down), 1)
  {
    var b1 := PressBack(b, down, doubleTapTime);
    var b2 := ReleaseBack(b1, up, shortPressTime);
    var b3 := BackAction(b2, frame, doubleTapTime);
    assert b3 == (BackButton(Idle, false, down), true);
    assert Run(b3.0, [], doubleTapTime, shortPressTime) == (b3.0, 0);
    assert Run(b2, [FrameTick(frame)], doubleTapTime, shortPressTime) == (b3.0, 1);
    assert Run(b1, [KeyUp(up), FrameTick(frame)], doubleTapTime, shortPressTime) == (b3.0, 1);
  }

  /** A double tap from rest — the second press within the double-tap time
      of the first, a frame while it is held — never shows the confirm-quit
      menu, and its final release returns the button to rest. */
  lemma DoubleTapSkipsQuitMenu(
    b: BackButton, down1: real, up1: real, down2: real, frame: real, up2: real,
    doubleTapTime: real, shortPressTime: real)
    requires b.state == Idle && !b.down
    requires down2 - down1 < doubleTapTime
    ensures var r := Run(b, [KeyDown(down1), KeyUp(up1), KeyDown(down2), FrameTick(frame), KeyUp(up2)],
                         doubleTapTime, shortPressTime);
      r.1 == 0 && r.0.state == Idle && !r.0.down
  {
    var b1 := PressBack(b, down1, doubleTapTime);
    var b2 := ReleaseBack(b1, up1, shortPressTime);
    var b3 := PressBack(b2, down2, doubleTapTime);
    assert b3.state == PendingDoubleTap;
    var b4 := BackAction(b3, frame, doubleTapTime);
    assert b4.0.state == SkipUp && !b4.1;
    var b5 := ReleaseBack(b4.0, up2, shortPressTime);
    assert b5.state == Idle;
    assert Run(b5, [], doubleTapTime, shortPressTime) == (b5, 0);
    assert Run(b4.0, [KeyUp(up2)], doubleTapTime, shortPressTime) == (b5, 0);
    assert Run(b3, [FrameTick(frame), KeyUp(up2)], doubleTapTime, shortPressTime) == (b5, 0);
    assert Run(b2, [KeyDown(down2), FrameTick(frame), KeyUp(up2)], doubleTapTime, shortPressTime) == (b5, 0);
    assert Run(b1, [KeyUp(up1), KeyDown(down2), FrameTick(frame), KeyUp(up2)], doubleTapTime, shortPressTime) == (b5, 0);
  }

  // ---------------------------------------------------------------------
  // The application
  // ---------------------------------------------------------------------

  /** The ovrApp fields the event loop updates: whether the activity is
      resumed, whether it has a native window, whether it is in VR mode
      (Ovr != NULL), and the back button. */
  class App {
    var resumed: bool
    var hasWindow: bool
    var inVrMode: bool
    var backButton: BackButton

    /** ovrApp_Clear. */
    constructor()
      ensures !resumed && !hasWindow && !inVrMode
      ensures backButton == BackButton(Idle, false, 0.0)
    {
      resumed, hasWindow, inVrMode := false, false, false;
      backButton := BackButton(Idle, false, 0.0);
    }

    /** ovrApp_HandleVrModeChanges: a resumed app with a window enters VR
        mode if it is not in it, and a failed entry (`entered` false, the
        result of vrapi_EnterVrMode) drops the invalid window; any other app
        leaves VR mode. Afterwards the app is in VR mode only when resumed
        and with a window. */
    method HandleVrModeChanges(entered: bool)
      modifies this
      ensures resumed == old(resumed) && backButton == old(backButton)
      ensures old(resumed && hasWindow && !inVrMode) ==>
        inVrMode == entered && hasWindow == entered
      ensures old(resumed && hasWindow && inVrMode) ==> inVrMode && hasWindow
      ensures !old(resumed && hasWindow) ==> !inVrMode && hasWindow == old(hasWindow)
      ensures inVrMode ==> resumed && hasWindow
    {
      if resumed && hasWindow {
        if !inVrMode {
          inVrMode := entered;
          if !inVrMode {
            hasWindow := false;
          }
        }
      } else {
        if inVrMode {
          inVrMode := false;
        }
      }
    }

    /** ovrApp_BackButtonAction at time `now`; `showQuitMenu` reports the
        black final frame and confirm-quit menu it pushes. */
    method BackButtonAction(now: real, doubleTapTime: real) returns (showQuitMenu: bool)
      modifies this
      ensures resumed == old(resumed) && hasWindow == old(hasWindow) && inVrMode == old(inVrMode)
      ensures (backButton, showQuitMenu) == BackAction(old(backButton), now, doubleTapTime)
    {
      showQuitMenu := false;
      if backButton.state == PendingDoubleTap {
        backButton := backButton.(state := SkipUp);
      } else if backButton.state == PendingShortPress && !backButton.down {
        if now - backButton.downStartTime > doubleTapTime {
          showQuitMenu := true;
          backButton := backButton.(state := Idle);
        }
      }
    }

    /** ovrApp_HandleKeyEvent at time `now`: the back key is handled (1),
        updating the button on DOWN and UP; any other key is not (0) and
        changes nothing. */
    method HandleKeyEvent(keyCode: int, action: int, now: real, doubleTapTime: real, shortPressTime: real)
      returns (handled: int)
      modifies this
      ensures handled == (if keyCode == KeycodeBack then 1 else 0)
      ensures resumed == old(resumed) && hasWindow == old(hasWindow) && inVrMode == old(inVrMode)
      ensures keyCode == KeycodeBack && action == ActionDown ==>
        backButton == PressBack(old(backButton), now, doubleTapTime)
      ensures keyCode == KeycodeBack && action == ActionUp ==>
        backButton == ReleaseBack(old(backButton), now, shortPressTime)
      ensures keyCode != KeycodeBack || (action != ActionDown && action != ActionUp) ==>
        backButton == old(backButton)
    {
      if keyCode == KeycodeBack {
        if action == ActionDown {
          if !backButton.down {
            if now - backButton.downStartTime < doubleTapTime {
              backButton := backButton.(state := PendingDoubleTap);
            }
            backButton := backButton.(downStartTime := now);
          }
          backButton := backButton.(down := true);
        } else if action == ActionUp {
          if backButton.state == Idle {
            if now - backButton.downStartTime < shortPressTime {
              backButton := backButton.(state := PendingShortPress);
            }
          } else if backButton.state == SkipUp {
            backButton := backButton.(state := Idle);
          }
          backButton := backButton.(down := false);
        }
        return 1;
      }
      return 0;
    }
  }

  // ---------------------------------------------------------------------
  // The framebuffer's swap chain
  // ---------------------------------------------------------------------

  /** The swap-chain index after one advance. */
  function Advanced(index: nat, length: nat): (r: nat)
    requires length > 0
    ensures r < length
    ensures index < length - 1 ==> r == index + 1
    ensures index == length - 1 ==> r == 0
  {
    (index + 1) % length
  }

  /** The swap-chain index after `n` advances. */
  function AdvancedTimes(index: nat, n: nat, length: nat): (r: nat)
    requires length > 0
  {
    if n == 0 then index else Advanced(AdvancedTimes(index, n - 1, length), length)
  }

  /** One advance from a remainder is the remainder of the successor. */
  lemma AdvanceMod(x: nat, length: nat)
    requires length > 0
    ensures Advanced(x % length, length) == (x + 1) % length
  {
    var q, r := x / length, x % length;
    if r + 1 < length {
      Arithmetic.DivModUnique(x + 1, q, r + 1, length);
      Arithmetic.DivModUnique(r + 1, 0, r + 1, length);
    } else {
      assert (q + 1) * length == q * length + length;
      Arithmetic.DivModUnique(x + 1, q + 1, 0, length);
      Arithmetic.DivModUnique(length, 1, 0, length);
    }
  }

  /** `n` advances from a valid index move it `n` places round the ring, so
      a full cycle of `length` advances returns to the same texture. */
  lemma {:induction false} AdvanceCycle(index: nat, n: nat, length: nat)
    requires index < length
    ensures AdvancedTimes(index, n, length) == (index + n) % length
    ensures n == length ==> AdvancedTimes(index, n, length) == index
  {
    if n == 0 {
      Arithmetic.DivModUnique(index, 0, index, length);
    } else {
      AdvanceCycle(index, n - 1, length);
      AdvanceMod(index + n - 1, length);
    }
    if n == length {
      Arithmetic.DivModUnique(index + n, 1, index, length);
    }
  }

  /** ovrFramebuffer: the swap-chain length and the index of the texture
      being rendered. */
  class Framebuffer {
    var swapChainLength: int
    var swapChainIndex: int

    /** ovrFramebuffer_Clear. */
    constructor()
      ensures swapChainLength == 0 && swapChainIndex == 0
    {
      swapChainLength, swapChainIndex := 0, 0;
    }

    /** ovrFramebuffer_Advance: the next texture of the chain, wrapping to
        the first. The chain must be non-empty (the source divides by its
        length) and the index within it. */
    method Advance()
      requires 0 <= swapChainIndex < swapChainLength
      modifies this
      ensures swapChainLength == old(swapChainLength)
      ensures swapChainIndex == Advanced(old(swapChainIndex), swapChainLength)
      ensures 0 <= swapChainIndex < swapChainLength
    {
      swapChainIndex := (swapChainIndex + 1) % swapChainLength;
    }
  }
}
