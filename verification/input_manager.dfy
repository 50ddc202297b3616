/**
 The input manager: one live keyboard tracker, one scripted keyboard player,
 one mouse tracker and four gamepad trackers, with a flag choosing which
 keyboard source a frame advances.

 The live trackers poll devices this model cannot see, so each is abstracted
 to the record of the updates it received: a count for the keyboard and mouse
 (whose update takes no argument), and the elapsed times passed in for a
 gamepad. That is enough to state which trackers a frame advances.
 */
module Input {
  import opened Keyboard
  import AutomatedKeyboard

  /** The number of gamepad slots. */
  const GamePadCount: nat := 4

  /** A gamepad slot, standing for the player it belongs to. */
  type PlayerIndex = i: int | 0 <= i < GamePadCount

  datatype KeyboardInfo = KeyboardInfo(updates: nat)

  datatype MouseInfo = MouseInfo(updates: nat)

  datatype GamePadInfo = GamePadInfo(playerIndex: PlayerIndex, frames: seq<Ticks>)

  datatype InputManager = InputManager(
    keyboard: KeyboardInfo,
    automatedKeyboard: AutomatedKeyboard.AutomatedKeyboardInfo,
    mouse: MouseInfo,
    gamePads: seq<GamePadInfo>,
    automationEnabled: bool)

  /** Four gamepad trackers, slot `i` bound to player `i`. */
  predicate WellFormed(m: InputManager)
  {
    && |m.gamePads| == GamePadCount
    && forall i :: 0 <= i < |m.gamePads| ==> m.gamePads[i].playerIndex == i
  }

  function UpdateKeyboard(keyboard: KeyboardInfo): KeyboardInfo
  {
    keyboard.(updates := keyboard.updates + 1)
  }

  function UpdateMouse(mouse: MouseInfo): MouseInfo
  {
    mouse.(updates := mouse.updates + 1)
  }

  function UpdateGamePad(g: GamePadInfo, dt: Ticks): GamePadInfo
  {
    g.(frames := g.frames + [dt])
  }

  /** The constructor: a live keyboard, the scripted player, a mouse and four
      gamepads bound to players 0 to 3, with automation off. */
  method NewInputManager() returns (m: InputManager)
    ensures WellFormed(m)
    ensures !m.automationEnabled
    ensures m.automatedKeyboard == AutomatedKeyboard.New()
    ensures m.keyboard.updates == 0 && m.mouse.updates == 0
    ensures forall i :: 0 <= i < |m.gamePads| ==> m.gamePads[i].frames == []
  {
    var pads: seq<GamePadInfo> := [];
    for i := 0 to GamePadCount
      invariant |pads| == i
      invariant forall j :: 0 <= j < i ==> pads[j] == GamePadInfo(j, [])
    {
      pads := pads + [GamePadInfo(i, [])];
    }
    m := InputManager(KeyboardInfo(0), AutomatedKeyboard.New(), MouseInfo(0), pads, false);
  }

  /** Assigns the automation flag and nothing else. */
  function SetAutomationEnabled(m: InputManager, enabled: bool): (r: InputManager)
    ensures r.automationEnabled == enabled
    ensures r.keyboard == m.keyboard && r.automatedKeyboard == m.automatedKeyboard
    ensures r.mouse == m.mouse && r.gamePads == m.gamePads
  {
    m.(automationEnabled := enabled)
  }

  /** One frame of `dt` ticks: exactly one keyboard source advances, chosen by
      the automation flag; the mouse and every gamepad advance regardless. */
  function Step(m: InputManager, dt: Ticks): (r: InputManager)
    ensures r.automationEnabled == m.automationEnabled
    ensures m.automationEnabled ==>
              r.automatedKeyboard == AutomatedKeyboard.Update(m.automatedKeyboard, dt) && r.keyboard == m.keyboard
    ensures !m.automationEnabled ==>
              r.keyboard.updates == m.keyboard.updates + 1 && r.automatedKeyboard == m.automatedKeyboard
    ensures r.mouse.updates == m.mouse.updates + 1
    ensures |r.gamePads| == |m.gamePads|
    ensures forall i :: 0 <= i < |m.gamePads| ==>
              r.gamePads[i].playerIndex == m.gamePads[i].playerIndex
              && r.gamePads[i].frames == m.gamePads[i].frames + [dt]
  {
    var automated := if m.automationEnabled then AutomatedKeyboard.Update(m.automatedKeyboard, dt) else m.automatedKeyboard;
    var live := if m.automationEnabled then m.keyboard else UpdateKeyboard(m.keyboard);
    var pads := seq(|m.gamePads|, i requires 0 <= i < |m.gamePads| => UpdateGamePad(m.gamePads[i], dt));
    InputManager(live, automated, UpdateMouse(m.mouse), pads, m.automationEnabled)
  }

  /** The frame update as written: the keyboard source, then the mouse, then a
      loop over the four gamepad slots. */
  method Update(m: InputManager, dt: Ticks) returns (r: InputManager)
    requires |m.gamePads| == GamePadCount
    ensures r == Step(m, dt)
    ensures WellFormed(m) ==> WellFormed(r)
  {
    var live := m.keyboard;
    var automated := m.automatedKeyboard;
    if m.automationEnabled {
      automated := AutomatedKeyboard.Update(automated, dt);
    } else {
      live := UpdateKeyboard(live);
    }
    var mouse := UpdateMouse(m.mouse);
    var pads := m.gamePads;
    for i := 0 to GamePadCount
      invariant |pads| == GamePadCount
      invariant forall j :: 0 <= j < i ==> pads[j] == UpdateGamePad(m.gamePads[j], dt)
      invariant forall j :: i <= j < GamePadCount ==> pads[j] == m.gamePads[j]
    {
      pads := pads[i := UpdateGamePad(pads[i], dt)];
    }
    r := InputManager(live, automated, mouse, pads, m.automationEnabled);
  }

  /** The automation flag decides only the keyboard: with it on or off, the
      same frame leaves the mouse and the gamepads in the same state, and each
      mode leaves the other keyboard source untouched. */
  lemma ModeIsolation(m: InputManager, dt: Ticks)
    ensures Step(SetAutomationEnabled(m, true), dt).mouse == Step(SetAutomationEnabled(m, false), dt).mouse
    ensures Step(SetAutomationEnabled(m, true), dt).gamePads == Step(SetAutomationEnabled(m, false), dt).gamePads
    ensures Step(SetAutomationEnabled(m, true), dt).keyboard == m.keyboard
    ensures Step(SetAutomationEnabled(m, false), dt).automatedKeyboard == m.automatedKeyboard
  {
  }

  /** The manager after one Step per frame, in order. */
  function Run(m: InputManager, frames: seq<Ticks>): InputManager
    decreases |frames|
  {
    if frames == [] then m else Run(Step(m, frames[0]), frames[1..])
  }

  /** Over any run of frames with the flag left alone, the mouse is updated
      once per frame, every gamepad receives exactly those frame times, and
      the selected keyboard source alone advances: the scripted player plays
      exactly the same frames it would on its own. */
  lemma {:induction false} RunFrames(m: InputManager, frames: seq<Ticks>)
    ensures Run(m, frames).automationEnabled == m.automationEnabled
    ensures Run(m, frames).mouse.updates == m.mouse.updates + |frames|
    ensures |Run(m, frames).gamePads| == |m.gamePads|
    ensures forall i :: 0 <= i < |m.gamePads| ==>
              Run(m, frames).gamePads[i].playerIndex == m.gamePads[i].playerIndex
              && Run(m, frames).gamePads[i].frames == m.gamePads[i].frames + frames
    ensures m.automationEnabled ==>
              Run(m, frames).automatedKeyboard == AutomatedKeyboard.Play(m.automatedKeyboard, frames)
              && Run(m, frames).keyboard == m.keyboard
    ensures !m.automationEnabled ==>
              Run(m, frames).keyboard.updates == m.keyboard.updates + |frames|
              && Run(m, frames).automatedKeyboard == m.automatedKeyboard
    decreases |frames|
  {
    if frames != [] {
      var s := Step(m, frames[0]);
      RunFrames(s, frames[1..]);
      forall i | 0 <= i < |m.gamePads|
        ensures Run(m, frames).gamePads[i].frames == m.gamePads[i].frames + frames
      {
        assert m.gamePads[i].frames + [frames[0]] + frames[1..] == m.gamePads[i].frames + frames;
      }
    }
  }
}
