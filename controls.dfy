/** Keyboard-driven state of the client: the movement vector a frame's keys
    add up to, and the counter that limits how often the T key pushes the
    object named "Box". */
module Controls {

  /** The keys the frame loop polls. */
  datatype Key = Escape | A | S | W | R | Space | F | D | T | B

  /** A movement vector; every component is a whole number of steps of 20. */
  datatype Move = Move(x: int, y: int, z: int)

  /** Step of one movement key along its axis. */
  const Step: int := 20

  /** The contribution of one axis: +Step for the positive key, -Step for the
      negative one, and the two cancel when both are held. */
  function Axis(keys: set<Key>, negative: Key, positive: Key): (r: int)
    requires negative != positive
    ensures r == Step <==> positive in keys && negative !in keys
    ensures r == -Step <==> negative in keys && positive !in keys
    ensures r == 0 <==> (positive in keys <==> negative in keys)
    ensures r == -Step || r == 0 || r == Step
  {
    (if negative in keys then -Step else 0) + (if positive in keys then Step else 0)
  }

  /** The movement the held keys ask for: A/S along x, F/Space along y,
      W/R along z. */
  function KeyMove(keys: set<Key>): Move
  {
    Move(Axis(keys, A, S), Axis(keys, F, Space), Axis(keys, W, R))
  }

  /** Largest value of the T-key counter. */
  const MaxPushes: int := 5

  /** One frame's update of the counter: it moves only when it is below the
      cap and T is held. */
  function CounterStep(count: int, tDown: bool): int
  {
    if count < MaxPushes && tDown then count + 1 else count
  }

  /** The counter after a run of frames, each given by whether T was held. */
  function CounterAfter(count: int, frames: seq<bool>): int
    decreases |frames|
  {
    if frames == [] then count
    else CounterAfter(CounterStep(count, frames[0]), frames[1..])
  }

  /** The number of frames in which T was held. */
  function TFrames(frames: seq<bool>): nat
  {
    if frames == [] then 0
    else (if frames[0] then 1 else 0) + TFrames(frames[1..])
  }

  function Min(a: int, b: int): int
  {
    if a <= b then a else b
  }

  /** Over any run of frames the counter climbs by one per T frame until it
      reaches the cap, and stays there. */
  lemma {:induction false} CounterIsCapped(count: int, frames: seq<bool>)
    requires 0 <= count <= MaxPushes
    ensures CounterAfter(count, frames) == Min(MaxPushes, count + TFrames(frames))
    decreases |frames|
  {
    if frames != [] {
      CounterIsCapped(CounterStep(count, frames[0]), frames[1..]);
    }
  }

  /** From the initial counter of zero, the push is applied
      min(5, number of T frames) times over the program's whole run, so never
      more than five times. */
  lemma {:induction false} AtMostFivePushes(frames: seq<bool>)
    ensures CounterAfter(0, frames) == Min(MaxPushes, TFrames(frames))
    ensures CounterAfter(0, frames) <= MaxPushes
  {
    CounterIsCapped(0, frames);
  }
}
