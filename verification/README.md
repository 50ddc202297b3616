# Scripted keyboard playback and input dispatch (DungeonSlime input library)

This project models, in Dafny, the input core of the MonoGame library used by
DungeonSlime:

- `AutomatedKeyboardInfo`, a scripted keyboard. It holds a previous/current
  keyboard snapshot pair, an active `(snapshot, duration)` entry, a time
  accumulator and a first-in first-out queue of further entries. Each frame
  adds the elapsed time to the accumulator. While the active duration is not
  exceeded (equality still holds) nothing else changes. Past it, the player
  rotates the current snapshot into the previous one and loads the queue's
  head, resetting the accumulator. With the queue empty it rotates into the
  empty snapshot instead and keeps the accumulator. Four queries (`IsKeyDown`,
  `IsKeyUp`, `WasKeyJustPressed`, `WasKeyJustReleased`) read the snapshot pair.
- `InputManager`, which owns a live keyboard tracker, the scripted keyboard, a
  mouse tracker and four gamepad trackers. Each frame advances exactly one
  keyboard source, chosen by `AutomationEnabled`, and always advances the
  mouse and all four gamepads.

Modules:

- `Keyboard` (`keyboard.dfy`): a key is a byte-sized key code (D = 68,
  S = 83), a snapshot is the `set` of keys that are down, and time is a
  `nat` count of 100 ns ticks (one second = 10 000 000 ticks).
- `AutomatedKeyboard` (`automated_keyboard.dfy`): the player as an immutable
  record. It has a pure `Update` step, the edge queries, and a `Play`
  function that runs one `Update` per frame. Lemmas cover the single-frame
  and multi-frame behaviour.
- `Input` (`input_manager.dfy`): the manager. The functional `Step` states the
  dispatch rule. The method `Update` follows the source's loop over the four
  gamepad slots and is proved equal to `Step`. The method `NewInputManager`
  follows the constructor's loop.

The live keyboard, mouse and gamepad trackers poll devices whose code is not
part of this model. Each is kept only as the record of the updates it
received: a count for the keyboard and mouse, and the list of elapsed times
passed in for a gamepad. The frame time is a parameter of every update.

## Behaviour to note

The model keeps these behaviours of the code as they are.

- Hold frames do not rotate the previous snapshot. Only a frame that takes
  the accumulated time past the active duration moves the current snapshot
  into the previous one: a frame that loads the next entry or, once the queue
  is empty, every later frame. A key that is just pressed when an entry
  becomes active therefore reads as "just pressed" on every frame of that
  entry's hold (`JustPressedThroughoutHold`, `PreviousNotRotatedOnHold`).
- The accumulator is not reset when the script runs out. An entry enqueued
  after that activates on the next `Update`, however short the frame
  (`ReentryAfterExhaustion`).
- The manager has no error conditions and no keyboard query methods of its
  own; callers query the trackers directly.

## Model

| member | source | states |
|---|---|---|
| AutomatedKeyboard.New | MonoGameLibrary/Input/AutomatedKeyboardInfo.cs:25-35 | a new player has no key previously down, D down as current and active for one second, no time accumulated, and exactly the S entry (one second) still queued; its snapshot is tied to its active entry |
| AutomatedKeyboard.EnqueueInput | MonoGameLibrary/Input/AutomatedKeyboardInfo.cs:37-39 | the queue grows by exactly one entry at its tail, the earlier entries keep their order, and the snapshots, active entry and accumulator are unchanged |
| AutomatedKeyboard.Update | MonoGameLibrary/Input/AutomatedKeyboardInfo.cs:41-63 | one frame removes at most the queue's head and never lengthens the queue; previous is either kept or becomes the old current, and it always becomes the old current when current changes; the accumulator either restarts at zero or grows by the frame time; the snapshot/active-entry tie is preserved |
| AutomatedKeyboard.HoldFrame | MonoGameLibrary/Input/AutomatedKeyboardInfo.cs:44-49 | when accumulated time plus the frame stays at or under the active duration, equality included, only the accumulator changes |
| AutomatedKeyboard.AdvanceFrame | MonoGameLibrary/Input/AutomatedKeyboardInfo.cs:55-62 | past the duration with entries queued, previous becomes the old current, current and the active entry become the queue's head, the queue loses exactly its head and the accumulator is zero, the overshoot discarded |
| AutomatedKeyboard.ExhaustedFrame | MonoGameLibrary/Input/AutomatedKeyboardInfo.cs:51-54 | past the duration with nothing queued, previous becomes the old current, current becomes the empty snapshot, the accumulator keeps the full time and the player is idle |
| AutomatedKeyboard.IsKeyDown | MonoGameLibrary/Input/AutomatedKeyboardInfo.cs:70-72 | a key reads as down exactly when the active entry's time has not run out and the key is in that entry's snapshot; after it runs out no key is down (for players whose snapshot is tied to the active entry, which every reachable player is) |
| AutomatedKeyboard.IsKeyUp | MonoGameLibrary/Input/AutomatedKeyboardInfo.cs:79-81 | a key is up exactly when it is not down |
| AutomatedKeyboard.WasKeyJustPressed | MonoGameLibrary/Input/AutomatedKeyboardInfo.cs:88-90 | a just-pressed key is down, and so belongs to an active entry whose time has not run out |
| AutomatedKeyboard.WasKeyJustReleased | MonoGameLibrary/Input/AutomatedKeyboardInfo.cs:97-99 | a just-released key is up and not also just pressed; once the active entry's time has run out, exactly the keys of the previous snapshot read as just released |
| AutomatedKeyboard.EdgeQueriesConsistent | MonoGameLibrary/Input/AutomatedKeyboardInfo.cs:70-99 | up is the negation of down; a key is never both just pressed and just released; just pressed implies down and just released implies up |
| AutomatedKeyboard.EdgeQueriesReadSnapshotsOnly | MonoGameLibrary/Input/AutomatedKeyboardInfo.cs:70-99 | two players with the same snapshot pair answer all four queries alike, whatever their queues and timers |
| AutomatedKeyboard.HoldThroughout | MonoGameLibrary/Input/AutomatedKeyboardInfo.cs:44-49 | any run of frames whose total keeps the accumulator within the active duration leaves snapshots, active entry and queue unchanged and adds exactly that total to the accumulator |
| AutomatedKeyboard.AdvanceOnFirstOvershoot | MonoGameLibrary/Input/AutomatedKeyboardInfo.cs:41-62 | with entries queued, the first frame taking cumulative time strictly past the duration switches to the queue's head, makes the old current the previous snapshot and resets the accumulator |
| AutomatedKeyboard.ExpireOnFirstOvershoot | MonoGameLibrary/Input/AutomatedKeyboardInfo.cs:41-54 | with nothing queued, the first frame past the duration switches to the empty snapshot and makes the old current previous, keeping the active entry, the empty queue and the full accumulated time, so the player is idle |
| AutomatedKeyboard.IdleForever | MonoGameLibrary/Input/AutomatedKeyboardInfo.cs:51-54 | an idle player stays idle on every run of frames, keeps its active entry, shows the empty snapshot after any frame and an empty previous snapshot from the second frame on |
| AutomatedKeyboard.DrainsFrontToBack | MonoGameLibrary/Input/AutomatedKeyboardInfo.cs:41-63 | after any run of frames the queue is a suffix of the original queue, shorter by at most the number of frames |
| AutomatedKeyboard.PlayPreservesValid | MonoGameLibrary/Input/AutomatedKeyboardInfo.cs:41-63 | through any playback the current snapshot is the active entry's until its time runs out, and the empty snapshot afterwards |
| AutomatedKeyboard.JustPressedThroughoutHold | MonoGameLibrary/Input/AutomatedKeyboardInfo.cs:46-90 | a key that is just pressed, whether from the constructor's first entry or from an entry loaded off the queue, stays just pressed on every frame until the active entry's duration is exceeded |
| AutomatedKeyboard.ReentryAfterExhaustion | MonoGameLibrary/Input/AutomatedKeyboardInfo.cs:37-63 | an entry enqueued on an idle player becomes current on the next frame, even a zero-length one, with the accumulator reset |
| AutomatedKeyboard.EnqueueCommutesWithUpdate | MonoGameLibrary/Input/AutomatedKeyboardInfo.cs:37-63 | enqueueing then updating equals updating then enqueueing if and only if the frame holds or entries are already queued; on every frame past the active duration with nothing queued (the one that exhausts the script and each later one while the queue stays empty) enqueueing first activates the entry at once while updating first leaves it queued |
| AutomatedKeyboard.DemoScenario | MonoGameLibrary/Input/AutomatedKeyboardInfo.cs:25-99 | on the built-in script, D is down at 0.5 s and still at exactly 1 s; at 1.1 s S is down and just pressed with the timer at zero; after 1.2 s more every key is up, S just released and the player idle |
| AutomatedKeyboard.PreviousNotRotatedOnHold | MonoGameLibrary/Input/AutomatedKeyboardInfo.cs:46-90 | after S activates, a short hold frame still reports D as previous, which is not the prior frame's current, and S as just pressed |
| Input.NewInputManager | MonoGameLibrary/Input/InputManager.cs:32-50 | a new manager has four gamepad trackers with slot i bound to player i and no updates yet, a fresh scripted keyboard, unused live keyboard and mouse, and automation off |
| Input.SetAutomationEnabled | MonoGameLibrary/Input/InputManager.cs:32 | assigning the public flag changes the flag and no tracker |
| Input.Step | MonoGameLibrary/Input/InputManager.cs:56-73 | with automation on only the scripted keyboard advances, by the frame time, and the live keyboard is untouched; with it off the live keyboard advances once and the scripted one is untouched; the mouse advances once and every gamepad receives the frame time, keeping its player binding, in either mode |
| Input.Update | MonoGameLibrary/Input/InputManager.cs:56-73 | the update as written, keyboard then mouse then a loop over the four slots, computes exactly the frame described by Step and keeps four correctly bound gamepads |
| Input.ModeIsolation | MonoGameLibrary/Input/InputManager.cs:62-72 | toggling the flag leaves the mouse and gamepads of the next frame identical; automation leaves the live keyboard untouched and live mode leaves the scripted keyboard untouched |
| Input.RunFrames | MonoGameLibrary/Input/InputManager.cs:56-73 | over any run of frames the mouse is updated once per frame, every gamepad receives exactly those frame times, and only the selected keyboard source advances, the scripted one playing exactly those frames |

## Left out

- Device polling: the live keyboard, mouse and gamepad trackers are not part of this model. They appear only as update records, so their snapshots and edge queries are not modelled.
- The game clock: only the frame's elapsed time is kept, as a count of ticks. It is never negative.
- Integer width: a time span is a signed 64-bit tick count. Overflow after about 29 000 years of accumulated time is not modelled.
- The keyboard state type: it is abstracted to the set of keys that are down. Modifier and lock state are not modelled.
- Concurrency: none exists in the source, and none is modelled.
- Error conditions: dequeueing from an empty queue would throw, but the constructor enqueues two entries before its only direct dequeue, so no error path exists to model.
- Input.Update: requires exactly four gamepad trackers, because the source's loop is hard-wired to four slots; every manager the constructor builds has four, bound to players 0 to 3, and Update keeps that binding.
- AutomatedKeyboard.EnqueueInput: durations are non-negative; the source accepts a negative time span, which its only caller never passes, and the Valid invariant relies on this.
