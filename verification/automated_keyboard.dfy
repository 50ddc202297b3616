/**
 Scripted keyboard playback.

 A script is a first-in first-out queue of (snapshot, duration) entries. The
 player exposes a current and a previous snapshot; each frame it adds the
 frame's elapsed time to an accumulator and either keeps holding the active
 entry, moves on to the next queued entry, or, when the queue is empty, falls
 back to the snapshot with no key down.
 */
module AutomatedKeyboard {
  import opened Keyboard

  /** One script step: hold `state` for `duration` ticks. */
  datatype Entry = Entry(state: KeyboardState, duration: Ticks)

  /** The player: the exposed snapshot pair, the active entry, the time
      accumulated since it became active, and the entries still to play. */
  datatype AutomatedKeyboardInfo = AutomatedKeyboardInfo(
    previousState: KeyboardState,
    currentState: KeyboardState,
    active: Entry,
    elapsed: Ticks,
    pending: seq<Entry>)

  /** The object as its field initialisers leave it: default snapshots, a
      default active entry of zero duration, no time accumulated, no script. */
  function Initial(): AutomatedKeyboardInfo
  {
    AutomatedKeyboardInfo(NoKeys, NoKeys, Entry(NoKeys, 0), 0, [])
  }

  /** A frame of `dt` ticks keeps the active entry: the accumulated time does
      not exceed its duration (equality still holds). */
  predicate Holds(a: AutomatedKeyboardInfo, dt: Ticks)
  {
    a.elapsed + dt <= a.active.duration
  }

  /** The accumulated time has already passed the active entry's duration. */
  predicate Expired(a: AutomatedKeyboardInfo)
  {
    a.elapsed > a.active.duration
  }

  /** The script has run out: the active entry expired and nothing is queued. */
  predicate Idle(a: AutomatedKeyboardInfo)
  {
    Expired(a) && a.pending == []
  }

  /** The exposed snapshot is the active entry's while that entry's time has
      not run out, and the empty snapshot once it has. */
  predicate Valid(a: AutomatedKeyboardInfo)
  {
    if Expired(a) then a.currentState == NoKeys else a.currentState == a.active.state
  }

  /** Appends one entry at the tail of the queue and touches nothing else. */
  function EnqueueInput(a: AutomatedKeyboardInfo, state: KeyboardState, duration: Ticks): (b: AutomatedKeyboardInfo)
    ensures |b.pending| == |a.pending| + 1
    ensures b.pending[..|a.pending|] == a.pending
    ensures b.pending[|a.pending|] == Entry(state, duration)
    ensures b.previousState == a.previousState && b.currentState == a.currentState
    ensures b.active == a.active && b.elapsed == a.elapsed
    ensures Valid(a) ==> Valid(b)
  {
    a.(pending := a.pending + [Entry(state, duration)])
  }

  /** The constructor: queue the demo script (D for one second, then S for one
      second) and load its first entry, with nothing pressed before it. */
  function New(): (a: AutomatedKeyboardInfo)
    ensures a.previousState == NoKeys
    ensures a.currentState == {D}
    ensures a.active == Entry({D}, TicksPerSecond)
    ensures a.elapsed == 0
    ensures a.pending == [Entry({S}, TicksPerSecond)]
    ensures Valid(a)
  {
    var queued := EnqueueInput(EnqueueInput(Initial(), {D}, FromSeconds(1)), {S}, FromSeconds(1));
    var first := queued.pending[0];
    queued.(previousState := NoKeys, active := first, currentState := first.state, pending := queued.pending[1..])
  }

  /** One frame of `dt` ticks. */
  function Update(a: AutomatedKeyboardInfo, dt: Ticks): (b: AutomatedKeyboardInfo)
    ensures b.pending == a.pending || (a.pending != [] && b.pending == a.pending[1..])
    ensures b.previousState == a.previousState || b.previousState == a.currentState
    ensures b.currentState != a.currentState ==> b.previousState == a.currentState
    ensures b.elapsed == 0 || b.elapsed == a.elapsed + dt
    ensures Valid(a) ==> Valid(b)
  {
    var accumulated := a.elapsed + dt;
    if a.active.duration >= accumulated then
      a.(elapsed := accumulated)
    else if |a.pending| == 0 then
      a.(previousState := a.currentState, currentState := NoKeys, elapsed := accumulated)
    else
      AutomatedKeyboardInfo(a.currentState, a.pending[0].state, a.pending[0], 0, a.pending[1..])
  }

  /** While its time lasts, the active entry decides which keys are down;
      once it has run out, no key is. */
  function IsKeyDown(a: AutomatedKeyboardInfo, k: Key): (down: bool)
    ensures Valid(a) ==> (down <==> !Expired(a) && k in a.active.state)
  {
    k in a.currentState
  }

  function IsKeyUp(a: AutomatedKeyboardInfo, k: Key): (up: bool)
    ensures up == !IsKeyDown(a, k)
  {
    k !in a.currentState
  }

  /** A just-pressed key is down, so it belongs to an active entry whose time
      has not run out. */
  function WasKeyJustPressed(a: AutomatedKeyboardInfo, k: Key): (pressed: bool)
    ensures pressed ==> IsKeyDown(a, k)
    ensures Valid(a) && pressed ==> !Expired(a) && k in a.active.state
  {
    k in a.currentState && k !in a.previousState
  }

  /** A just-released key is up and not also just pressed; once the active
      entry has run out, exactly the keys of the previous snapshot read as
      just released. */
  function WasKeyJustReleased(a: AutomatedKeyboardInfo, k: Key): (released: bool)
    ensures released ==> IsKeyUp(a, k) && !WasKeyJustPressed(a, k)
    ensures Valid(a) && Expired(a) ==> (released <==> k in a.previousState)
  {
    k !in a.currentState && k in a.previousState
  }

  // ---------------------------------------------------------------------
  // The three kinds of frame
  // ---------------------------------------------------------------------

  /** A frame that does not take the accumulated time past the active
      duration changes nothing but the accumulator. */
  lemma HoldFrame(a: AutomatedKeyboardInfo, dt: Ticks)
    requires Holds(a, dt)
    ensures Update(a, dt) == a.(elapsed := a.elapsed + dt)
  {
  }

  /** Past the active duration with entries queued, the head of the queue
      becomes active, the old current snapshot becomes the previous one and the
      accumulator restarts from zero, discarding any overshoot. */
  lemma AdvanceFrame(a: AutomatedKeyboardInfo, dt: Ticks)
    requires !Holds(a, dt) && a.pending != []
    ensures Update(a, dt).previousState == a.currentState
    ensures Update(a, dt).currentState == a.pending[0].state
    ensures Update(a, dt).active == a.pending[0]
    ensures Update(a, dt).pending == a.pending[1..]
    ensures Update(a, dt).elapsed == 0
  {
  }

  /** Past the active duration with nothing queued, the player rotates into the
      empty snapshot and keeps the accumulated time. */
  lemma ExhaustedFrame(a: AutomatedKeyboardInfo, dt: Ticks)
    requires !Holds(a, dt) && a.pending == []
    ensures Update(a, dt).previousState == a.currentState
    ensures Update(a, dt).currentState == NoKeys
    ensures Update(a, dt).active == a.active
    ensures Update(a, dt).pending == []
    ensures Update(a, dt).elapsed == a.elapsed + dt
    ensures Idle(Update(a, dt))
  {
  }

  // ---------------------------------------------------------------------
  // Edge queries
  // ---------------------------------------------------------------------

  /** Up is the negation of down, and a key is never both just pressed and
      just released. */
  lemma EdgeQueriesConsistent(a: AutomatedKeyboardInfo, k: Key)
    ensures IsKeyUp(a, k) == !IsKeyDown(a, k)
    ensures !(WasKeyJustPressed(a, k) && WasKeyJustReleased(a, k))
    ensures WasKeyJustPressed(a, k) ==> IsKeyDown(a, k)
    ensures WasKeyJustReleased(a, k) ==> IsKeyUp(a, k)
  {
  }

  /** The four queries read only the snapshot pair. */
  lemma EdgeQueriesReadSnapshotsOnly(a: AutomatedKeyboardInfo, b: AutomatedKeyboardInfo, k: Key)
    requires a.previousState == b.previousState && a.currentState == b.currentState
    ensures IsKeyDown(a, k) == IsKeyDown(b, k) && IsKeyUp(a, k) == IsKeyUp(b, k)
    ensures WasKeyJustPressed(a, k) == WasKeyJustPressed(b, k)
    ensures WasKeyJustReleased(a, k) == WasKeyJustReleased(b, k)
  {
  }

  // ---------------------------------------------------------------------
  // Several frames
  // ---------------------------------------------------------------------

  /** Total time of a sequence of frames. */
  function Total(frames: seq<Ticks>): Ticks
  {
    if frames == [] then 0 else frames[0] + Total(frames[1..])
  }

  /** The player after one Update per frame, in order. */
  function Play(a: AutomatedKeyboardInfo, frames: seq<Ticks>): AutomatedKeyboardInfo
    decreases |frames|
  {
    if frames == [] then a else Play(Update(a, frames[0]), frames[1..])
  }

  /** Frames whose total stays within the active duration leave the snapshot
      pair, the active entry and the queue alone. */
  lemma {:induction false} HoldThroughout(a: AutomatedKeyboardInfo, frames: seq<Ticks>)
    requires a.elapsed + Total(frames) <= a.active.duration
    ensures Play(a, frames) == a.(elapsed := a.elapsed + Total(frames))
    decreases |frames|
  {
    if frames != [] {
      HoldFrame(a, frames[0]);
      HoldThroughout(Update(a, frames[0]), frames[1..]);
    }
  }

  /** The first frame that takes the accumulated time strictly past the active
      duration switches to the head of the queue and resets the accumulator. */
  lemma AdvanceOnFirstOvershoot(a: AutomatedKeyboardInfo, frames: seq<Ticks>, last: Ticks)
    requires a.pending != []
    requires a.elapsed + Total(frames) <= a.active.duration < a.elapsed + Total(frames) + last
    ensures Update(Play(a, frames), last)
         == AutomatedKeyboardInfo(a.currentState, a.pending[0].state, a.pending[0], 0, a.pending[1..])
  {
    HoldThroughout(a, frames);
  }

  /** With nothing queued, the first overshooting frame switches to the empty
      snapshot and the player becomes idle. */
  lemma ExpireOnFirstOvershoot(a: AutomatedKeyboardInfo, frames: seq<Ticks>, last: Ticks)
    requires a.pending == []
    requires a.elapsed + Total(frames) <= a.active.duration < a.elapsed + Total(frames) + last
    ensures Update(Play(a, frames), last)
         == a.(previousState := a.currentState, currentState := NoKeys, elapsed := a.elapsed + Total(frames) + last)
  {
    HoldThroughout(a, frames);
  }

  /** Once idle, the player stays idle: the current snapshot is empty after
      any frame, and the previous one too from the second frame on. */
  lemma {:induction false} IdleForever(a: AutomatedKeyboardInfo, frames: seq<Ticks>)
    requires Idle(a)
    ensures Idle(Play(a, frames))
    ensures Play(a, frames).active == a.active
    ensures frames != [] ==> Play(a, frames).currentState == NoKeys
    ensures frames != [] && a.currentState == NoKeys ==> Play(a, frames).previousState == NoKeys
    ensures |frames| >= 2 ==> Play(a, frames).previousState == NoKeys
    decreases |frames|
  {
    if frames != [] {
      ExhaustedFrame(a, frames[0]);
      IdleForever(Update(a, frames[0]), frames[1..]);
    }
  }

  /** The queue is consumed from the front, at most one entry per frame, and
      never grows during playback. */
  lemma {:induction false} DrainsFrontToBack(a: AutomatedKeyboardInfo, frames: seq<Ticks>)
    ensures |Play(a, frames).pending| <= |a.pending|
    ensures |a.pending| - |Play(a, frames).pending| <= |frames|
    ensures Play(a, frames).pending == a.pending[|a.pending| - |Play(a, frames).pending|..]
    decreases |frames|
  {
    if frames != [] {
      var b := Update(a, frames[0]);
      DrainsFrontToBack(b, frames[1..]);
      var n := |Play(b, frames[1..]).pending|;
      if b.pending != a.pending {
        assert b.pending[|b.pending| - n..] == a.pending[|a.pending| - n..];
      }
    }
  }

  /** Playback keeps the exposed snapshot tied to the active entry. */
  lemma {:induction false} PlayPreservesValid(a: AutomatedKeyboardInfo, frames: seq<Ticks>)
    requires Valid(a)
    ensures Valid(Play(a, frames))
    decreases |frames|
  {
    if frames != [] {
      PlayPreservesValid(Update(a, frames[0]), frames[1..]);
    }
  }

  /** Hold frames do not rotate the previous snapshot, so a key that is just
      pressed stays just pressed on every frame until the active entry's
      duration is exceeded. This covers the constructor's first entry as well
      as every entry loaded from the queue. */
  lemma JustPressedThroughoutHold(a: AutomatedKeyboardInfo, frames: seq<Ticks>, k: Key)
    requires k in a.currentState && k !in a.previousState
    requires a.elapsed + Total(frames) <= a.active.duration
    ensures WasKeyJustPressed(Play(a, frames), k)
  {
    HoldThroughout(a, frames);
  }

  /** The accumulator is not reset when the script runs out, so an entry
      queued after that becomes current on the very next frame, however short. */
  lemma ReentryAfterExhaustion(a: AutomatedKeyboardInfo, state: KeyboardState, duration: Ticks, dt: Ticks)
    requires Idle(a)
    ensures Update(EnqueueInput(a, state, duration), dt)
         == AutomatedKeyboardInfo(a.currentState, state, Entry(state, duration), 0, [])
  {
  }

  /** Queueing an entry and playing a frame commute exactly when the frame
      holds or entries are already queued. They differ on every frame past the
      active duration with nothing queued (the frame that exhausts the script
      and every frame after it while the queue stays empty): queueing first
      activates the new entry at once, playing first leaves it queued. */
  lemma EnqueueCommutesWithUpdate(a: AutomatedKeyboardInfo, state: KeyboardState, duration: Ticks, dt: Ticks)
    ensures Update(EnqueueInput(a, state, duration), dt) == EnqueueInput(Update(a, dt), state, duration)
        <==> (a.pending != [] || Holds(a, dt))
  {
    if a.pending != [] && !Holds(a, dt) {
      assert (a.pending + [Entry(state, duration)])[1..] == a.pending[1..] + [Entry(state, duration)];
    } else if a.pending == [] && !Holds(a, dt) {
      assert |Update(EnqueueInput(a, state, duration), dt).pending| == 0;
      assert |EnqueueInput(Update(a, dt), state, duration).pending| == 1;
    }
  }

  // ---------------------------------------------------------------------
  // The demo script
  // ---------------------------------------------------------------------

  /** Half a second in, D is down; at 1.1 s S has replaced D and was just
      pressed; after a further 1.2 s the script is exhausted and every key is
      up, S having just been released. A frame landing exactly on one second
      still holds D. */
  lemma DemoScenario()
    ensures var a := Update(New(), FromSeconds(1)); IsKeyDown(a, D) && a.elapsed == TicksPerSecond
    ensures var a1 := Update(New(), 5_000_000);
            var a2 := Update(a1, 6_000_000);
            var a3 := Update(a2, 12_000_000);
            && IsKeyDown(a1, D)
            && !IsKeyDown(a2, D) && IsKeyDown(a2, S) && WasKeyJustPressed(a2, S) && a2.elapsed == 0
            && a3.currentState == NoKeys && WasKeyJustReleased(a3, S) && Idle(a3)
  {
  }

  /** On a hold frame the previous snapshot is not the prior frame's current
      one: after S activates, a further short frame still reports D as
      previous, and S as just pressed. */
  lemma PreviousNotRotatedOnHold()
    ensures var a2 := Update(Update(New(), 5_000_000), 6_000_000);
            var a3 := Update(a2, 1_000_000);
            && a3.previousState != a2.currentState
            && a3.previousState == {D}
            && WasKeyJustPressed(a3, S)
  {
  }
}
