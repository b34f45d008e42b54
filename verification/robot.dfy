/** The keep-alive process `connectionRobot.run` (magpy/magstim.py:161-227) as
    a transition function. Time is an explicit argument in milliseconds. */
module Heartbeat {

  /** An item of the robot queue: `None` or an integer. */
  datatype Signal = Stop | Code(v: int)

  /** Either a queue item arriving at time `now`, or the clock reaching `now`
      with the queue empty. */
  datatype Event = Msg(s: Signal, now: int) | Tick(now: int)

  datatype Mode = Paused | Active(deadline: int) | Stopped

  datatype Robot = Robot(mode: Mode, latency: int)

  const SLOW: int := 5000 // `pokeLatency = 5`
  const FAST: int := 500  // `pokeLatency = 0.5`

  /** The robot starts paused, at the slow latency. */
  function Init(): (r: Robot)
    ensures r.mode.Paused? && Valid(r)
  {
    Robot(Paused, SLOW)
  }

  predicate Valid(r: Robot) {
    r.latency == SLOW || r.latency == FAST
  }

  /** Latency after a command signal: 2 (armed) speeds up, 1 (disarmed) slows down. */
  function Retune(v: int, latency: int): int {
    if v == 2 then FAST else if v == 1 then SLOW else latency
  }

  datatype Out = Out(robot: Robot, poke: bool)

  /** One event. An active robot whose deadline has passed pokes first (the wait
      loop ends before the queue is read), then starts a new wait and handles
      the message in it. */
  function Step(r: Robot, e: Event): (o: Out)
    requires Valid(r)
    ensures Valid(o.robot)
    ensures o.poke <==> r.mode.Active? && e.now >= r.mode.deadline
    ensures r.mode.Stopped? ==> o.robot == r
    ensures !r.mode.Stopped? && e.Msg? && e.s.Stop? ==> o.robot.mode.Stopped?
    ensures e.Tick? && !o.poke ==> o.robot == r
    ensures o.robot.mode.Active? ==> o.robot.mode.deadline > e.now
    ensures (e.Msg? || o.poke) && o.robot.mode.Active? ==> o.robot.mode == Active(e.now + o.robot.latency)
    ensures o.robot.mode.Stopped? ==> r.mode.Stopped? || (e.Msg? && e.s.Stop?)
  {
    match r.mode
    case Stopped => Out(r, false)
    case Paused =>
      if e.Tick? then Out(r, false)
      else
        (match e.s
         case Stop => Out(r.(mode := Stopped), false)
         case Code(v) =>
           if v >= 0 then
             var lat := Retune(v, r.latency);
             Out(Robot(Active(e.now + lat), lat), false)
           else Out(r, false))
    case Active(d) =>
      var poke := e.now >= d;
      if e.Tick? then
        if poke then Out(r.(mode := Active(e.now + r.latency)), true) else Out(r, false)
      else
        match e.s
        case Stop => Out(r.(mode := Stopped), poke)
        case Code(v) =>
          if v == -1 then Out(Robot(Paused, SLOW), poke)
          else
            var lat := Retune(v, r.latency);
            Out(Robot(Active(e.now + lat), lat), poke)
  }

  /** Run a trace of events, counting pokes. */
  function Pokes(r: Robot, es: seq<Event>): nat
    requires Valid(r)
    decreases |es|
  {
    if |es| == 0 then 0
    else
      var o := Step(r, es[0]);
      (if o.poke then 1 else 0) + Pokes(o.robot, es[1..])
  }

  function Final(r: Robot, es: seq<Event>): (f: Robot)
    requires Valid(r)
    ensures Valid(f)
    decreases |es|
  {
    if |es| == 0 then r else Final(Step(r, es[0]).robot, es[1..])
  }

  /** A command every half second or faster keeps the robot quiet: when each
      event is a non-negative command signal, the first arrives before the
      deadline, and each follows the previous within 500 ms, no poke is sent. */
  lemma {:induction false} CommandsSuppressPokes(r: Robot, es: seq<Event>)
    requires Valid(r) && r.mode.Active?
    requires forall i :: 0 <= i < |es| ==> es[i].Msg? && es[i].s.Code? && es[i].s.v >= 0
    requires |es| > 0 ==> es[0].now < r.mode.deadline
    requires forall i :: 0 < i < |es| ==> es[i - 1].now <= es[i].now < es[i - 1].now + FAST
    ensures Pokes(r, es) == 0
    ensures Final(r, es).mode.Active?
    decreases |es|
  {
    if |es| > 0 {
      var o := Step(r, es[0]);
      if |es| > 1 {
        assert es[1..][0] == es[1];
        assert es[1].now < o.robot.mode.deadline;
      }
      CommandsSuppressPokes(o.robot, es[1..]);
    }
  }

  /** However often the clock is polled between the deadline and one latency
      later, exactly one poke is sent. */
  lemma {:induction false} OnePokePerDeadline(r: Robot, es: seq<Event>)
    requires Valid(r) && r.mode.Active? && |es| > 0
    requires forall i :: 0 <= i < |es| ==> es[i].Tick?
    requires forall i :: 0 <= i < |es| ==> r.mode.deadline <= es[i].now < r.mode.deadline + r.latency
    ensures Pokes(r, es) == 1
  {
    var o := Step(r, es[0]);
    assert o.poke;
    NoPokeBeforeDeadline(o.robot, es[1..]);
  }

  /** Ticks before the deadline send nothing and change nothing. */
  lemma {:induction false} NoPokeBeforeDeadline(r: Robot, es: seq<Event>)
    requires Valid(r) && r.mode.Active?
    requires forall i :: 0 <= i < |es| ==> es[i].Tick? && es[i].now < r.mode.deadline
    ensures Pokes(r, es) == 0 && Final(r, es) == r
    decreases |es|
  {
    if |es| > 0 {
      NoPokeBeforeDeadline(r, es[1..]);
    }
  }

  /** A paused robot never pokes, however much time passes. */
  lemma {:induction false} PausedIsQuiet(r: Robot, es: seq<Event>)
    requires Valid(r) && r.mode.Paused?
    requires forall i :: 0 <= i < |es| ==> es[i].Tick?
    ensures Pokes(r, es) == 0 && Final(r, es) == r
    decreases |es|
  {
    if |es| > 0 {
      PausedIsQuiet(r, es[1..]);
    }
  }

  /** After `None` the robot is stopped for good: no event pokes it again. */
  lemma {:induction false} StopIsFinal(r: Robot, es: seq<Event>)
    requires Valid(r) && r.mode.Stopped?
    ensures Pokes(r, es) == 0 && Final(r, es) == r
    decreases |es|
  {
    if |es| > 0 {
      StopIsFinal(r, es[1..]);
    }
  }

  /** The signal the driver sends after each accepted command
      (magpy/magstim.py:435-441): 1 after disarming, 2 after arming, 0 otherwise. */
  function CommandSignal(cmd: seq<int>): (s: Signal)
    ensures s.Code? && 0 <= s.v <= 2
    ensures s.v == 1 <==> |cmd| >= 2 && cmd[0] == 69 && cmd[1] == 65
    ensures s.v == 2 <==> |cmd| >= 2 && cmd[0] == 69 && cmd[1] == 66
  {
    if |cmd| >= 2 && cmd[0] == 69 && cmd[1] == 65 then Code(1)
    else if |cmd| >= 2 && cmd[0] == 69 && cmd[1] == 66 then Code(2)
    else Code(0)
  }

  /** Arming makes an active robot poke every half second, disarming every
      five seconds, and any other command keeps the current pace; in every case
      the deadline restarts from the command's time. */
  lemma SignalPace(r: Robot, cmd: seq<int>, now: int)
    requires Valid(r) && r.mode.Active? && now < r.mode.deadline
    ensures var o := Step(r, Msg(CommandSignal(cmd), now));
      !o.poke && o.robot.mode == Active(now + o.robot.latency) &&
      o.robot.latency == (if CommandSignal(cmd).v == 2 then FAST
                          else if CommandSignal(cmd).v == 1 then SLOW else r.latency)
  {
  }

  /** While paused, a non-negative value resumes the robot (2 at the fast
      pace, 1 at the slow one, others at the current pace) and a negative one
      is ignored. */
  lemma PausedSignals(r: Robot, v: int, now: int)
    requires Valid(r) && r.mode.Paused?
    ensures var o := Step(r, Msg(Code(v), now));
      !o.poke &&
      (v < 0 ==> o.robot == r) &&
      (v >= 0 ==> o.robot.mode == Active(now + o.robot.latency)) &&
      (v == 2 ==> o.robot.latency == FAST) &&
      (v == 1 ==> o.robot.latency == SLOW) &&
      (v >= 0 && v != 1 && v != 2 ==> o.robot.latency == r.latency)
  {
  }

  /** While active, -1 pauses the robot and resets the slow pace; any other
      value restarts the wait at the pace it selects. */
  lemma ActiveSignals(r: Robot, v: int, now: int)
    requires Valid(r) && r.mode.Active?
    ensures var o := Step(r, Msg(Code(v), now));
      (o.poke <==> now >= r.mode.deadline) &&
      (v == -1 ==> o.robot == Robot(Paused, SLOW)) &&
      (v != -1 ==> o.robot.mode == Active(now + o.robot.latency)) &&
      (v == 2 ==> o.robot.latency == FAST) &&
      (v == 1 ==> o.robot.latency == SLOW) &&
      (v != -1 && v != 1 && v != 2 ==> o.robot.latency == r.latency)
  {
  }

  /** A pause forgets the pace: whatever an active robot was doing, -1
      returns it to its initial state, and resuming with 0 afterwards pokes
      at the slow pace, however fast it had been before. */
  lemma PauseResetsPace(r: Robot, paused: int, resumed: int)
    requires Valid(r) && r.mode.Active?
    ensures var p := Step(r, Msg(Code(-1), paused)).robot;
      p == Init() && Step(p, Msg(Code(0), resumed)) == Out(Robot(Active(resumed + SLOW), SLOW), false)
  {
  }
}
