/**
 * The Teensy driver object, its serial port and its watchdog. Each class keeps
 * the fields the driver updates in place; the methods say what every step
 * writes to the port, which fields it changes and what the watchdog's
 * scheduler queue holds afterwards.
 */
module Teensy {
  import opened Wrappers
  import opened Numeral
  import opened Protocol

  datatype OperationMode = Manual | Auto {
    /** The enum's value in the source. */
    function Code(): char {
      match this
      case Manual => 'M'
      case Auto => 'A'
    }
  }

  /** The Python exceptions a step can end with. */
  datatype Failure =
    | PortNotOpen  // pyserial refuses to poll or write a closed port
    | IndexError   // `number_in_message[0]` on an empty list

  datatype Outcome<T> = Done(value: T) | Raised(error: Failure)

  // ---------------------------------------------------------------- serial port

  /** The serial link, reduced to the lines written to it and whether it is open. */
  class SerialPort {
    const device: string
    const baudrate: nat
    var written: seq<string>
    var isOpen: bool

    constructor (device: string, baudrate: nat)
      ensures this.device == device && this.baudrate == baudrate
      ensures written == [] && isOpen
    {
      this.device := device;
      this.baudrate := baudrate;
      written := [];
      isOpen := true;
    }

    /** Writes one line; on a closed port nothing is written and the write fails. */
    method Write(line: string) returns (ok: bool)
      modifies this
      ensures ok == old(isOpen) && isOpen == old(isOpen)
      ensures written == if ok then old(written) + [line] else old(written)
    {
      ok := isOpen;
      if ok {
        written := written + [line];
      }
    }

    method Close()
      modifies this
      ensures !isOpen && written == old(written)
    {
      isOpen := false;
    }
  }

  // ------------------------------------------------------------------- watchdog

  /** What a queued scheduler event would run: the watchdog's `__watching`, or its callback. */
  datatype Action = RunWatching | RunCallback

  /** A scheduler entry: its delay in seconds, its priority and its action. */
  datatype Event = Event(delay: real, priority: int, action: Action)

  /** The queue after cancelling one event equal to `e` (`sched.cancel`). */
  function RemoveFirst(q: seq<Event>, e: Event): (r: seq<Event>)
    ensures e in q ==> multiset(r) == multiset(q) - multiset{e}
    ensures e !in q ==> r == q
    ensures |q| > 0 && q[0] == e ==> r == q[1..]
  {
    if q == [] then []
    else
      assert q == [q[0]] + q[1..];
      if q[0] == e then q[1..]
      else [q[0]] + RemoveFirst(q[1..], e)
  }

  /** Calls its callback `threshold` seconds after the countdown starts, unless
      reset. Only the contents of the scheduler queue are modelled; time does
      not pass and no event ever runs. */
  class Watchdog {
    const threshold: real
    var queue: seq<Event>

    constructor (thresholdMs: int := 100)
      ensures threshold == thresholdMs as real / 1000.0
      ensures queue == []
    {
      threshold := thresholdMs as real / 1000.0;
      queue := [];
    }

    /** `sche.enter(delay, priority, action)`. */
    method Enter(delay: real, priority: int, action: Action)
      modifies this
      ensures queue == old(queue) + [Event(delay, priority, action)]
    {
      queue := queue + [Event(delay, priority, action)];
    }

    /** `sche.cancel(e)`, which raises unless `e` is queued. */
    method Cancel(e: Event)
      requires e in queue
      modifies this
      ensures queue == RemoveFirst(old(queue), e)
    {
      queue := RemoveFirst(queue, e);
    }

    /** `list(map(self.sche.cancel, self.sche.queue))`: cancel each event of a
        snapshot of the queue, in order. */
    method CancelQueued()
      modifies this
      ensures queue == []
    {
      var pending := queue;
      var i := 0;
      while i < |pending|
        invariant 0 <= i <= |pending|
        invariant queue == pending[i..]
      {
        assert pending[i..][1..] == pending[i + 1..];
        Cancel(pending[i]);
        i := i + 1;
      }
    }

    /** Starts the countdown `delayMs` milliseconds from now. */
    method StartWatchdog(delayMs: int := 500)
      modifies this
      ensures queue == old(queue) + [Event(delayMs as real / 1000.0, 1, RunWatching)]
    {
      var delaySecond := delayMs as real / 1000.0;
      Enter(delaySecond, 1, RunWatching);
    }

    /** `__watching`: schedules the callback `threshold` seconds from now. */
    method Watching()
      modifies this
      ensures queue == old(queue) + [Event(threshold, 1, RunCallback)]
    {
      Enter(threshold, 1, RunCallback);
    }

    /** Cancels everything queued, then schedules the callback afresh: exactly one event remains. */
    method ResetCountdown()
      modifies this
      ensures queue == [Event(threshold, 1, RunCallback)]
    {
      CancelQueued();
      Watching();
    }

    method Shutdown()
      modifies this
      ensures queue == []
    {
      CancelQueued();
    }
  }

  // ----------------------------------------------------------------- the driver

  function ShutdownLine(): string {
    EncodeCommand(Stop)
  }

  /** The shutdown command is never written while the driver runs, and once it
      stops it is written exactly once, as the last line. */
  ghost predicate ShutdownIsTerminal(w: seq<string>, running: bool) {
    if running then ShutdownLine() !in w
    else |w| > 0 && w[|w| - 1] == ShutdownLine() && ShutdownLine() !in w[..|w| - 1]
  }

  /** The driver: polls the MCU, commands it in autonomous mode, and shuts the
      link down once. `toText` is how a commanded value is turned into text
      for the wire. */
  class TeensyMC {
    const timeout: int   // ms before the watchdog fires
    const pollFreq: int  // ms between polls
    var running: bool
    const ser: SerialPort
    var mode: OperationMode
    const watchdog: Watchdog
    var speed: Value
    var throttle: Value
    var steering: Value
    const toText: Value -> string

    /** The port is open exactly while the driver runs; a stopped driver has
        nothing queued on its watchdog; the shutdown command is terminal. */
    ghost predicate Valid()
      reads this, ser, watchdog
    {
      ser.isOpen == running &&
      (!running ==> watchdog.queue == []) &&
      ShutdownIsTerminal(ser.written, running)
    }

    function State(): Readings
      reads this
    {
      Readings(speed, throttle, steering)
    }

    constructor (toText: Value -> string, mode: OperationMode := Manual)
      ensures Valid() && fresh(ser) && fresh(watchdog)
      ensures running && this.mode == mode && this.toText == toText
      ensures timeout == 100 && pollFreq == 5
      ensures ser.device == "/dev/ttyACM0" && ser.baudrate == 9600 && ser.written == []
      ensures watchdog.threshold == 0.1 && watchdog.queue == []
      ensures State() == Readings(Number(0.0), Number(0.0), Number(0.0))
    {
      var timeoutMs := 100;
      timeout := timeoutMs;
      pollFreq := 5;
      running := true;
      ser := new SerialPort("/dev/ttyACM0", 9600);
      this.mode := mode;
      watchdog := new Watchdog(timeoutMs);
      speed, throttle, steering := Number(0.0), Number(0.0), Number(0.0);
      this.toText := toText;
    }

    /** `__poll`: takes the line read from the MCU, resets the watchdog, stores
        the line's numeral in the field its keyword names and answers with a
        poll line. */
    method Poll(line: string) returns (r: Outcome<()>)
      requires Valid()
      modifies this, ser, watchdog
      ensures Valid()
      ensures running == old(running) && mode == old(mode)
      ensures !old(running) ==> r == Raised(PortNotOpen) && State() == old(State())
      ensures !old(running) ==> ser.written == old(ser.written) && watchdog.queue == old(watchdog.queue)
      ensures old(running) ==> watchdog.queue == [Event(watchdog.threshold, 1, RunCallback)]
      ensures old(running) ==> State() == ApplyStep(old(State()), DecodeLine(line))
      ensures old(running) ==>
        match ReplyFor(DecodeLine(line))
        case None => r == Raised(IndexError) && ser.written == old(ser.written)
        case Some(reply) => r == Done(()) && ser.written == old(ser.written) + [reply]
    {
      if !ser.isOpen {
        // waiting on `in_waiting` of a closed port raises
        return Raised(PortNotOpen);
      }
      var mcuMessage := ToLower(line);
      var numberInMessage := FindAll(mcuMessage);
      // `re.findall` returns a list, never None, so the source's guard always holds
      watchdog.ResetCountdown();
      r := Answer(mcuMessage, numberInMessage);
    }

    /** The rest of `__poll` once the watchdog is reset: stores the first
        numeral in the field the first keyword names, then writes the reply. */
    method Answer(mcuMessage: string, numberInMessage: seq<string>) returns (r: Outcome<()>)
      requires ser.isOpen && ShutdownLine() !in ser.written
      requires numberInMessage == FindAll(mcuMessage)
      modifies this, ser
      ensures ser.isOpen && ShutdownLine() !in ser.written
      ensures running == old(running) && mode == old(mode)
      ensures State() == ApplyStep(old(State()), DecodeMessage(mcuMessage))
      ensures
        match ReplyFor(DecodeMessage(mcuMessage))
        case None => r == Raised(IndexError) && ser.written == old(ser.written)
        case Some(reply) => r == Done(()) && ser.written == old(ser.written) + [reply]
    {
      var sbcMessage := "poll";
      DecodeByKeywordTests(mcuMessage);
      ghost var step := DecodeMessage(mcuMessage);
      PollReplyAsBuilt();
      ReplyIsNotShutdown(step);
      if Contains(mcuMessage, "speed") {
        if |numberInMessage| == 0 {
          return Raised(IndexError);
        }
        speed := Text(numberInMessage[0]);
        sbcMessage := sbcMessage + " speed";
      } else if Contains(mcuMessage, "throttle") {
        if |numberInMessage| == 0 {
          return Raised(IndexError);
        }
        throttle := Text(numberInMessage[0]);
        sbcMessage := sbcMessage + " throttle";
      } else if Contains(mcuMessage, "steering") {
        if |numberInMessage| == 0 {
          return Raised(IndexError);
        }
        steering := Text(numberInMessage[0]);
        sbcMessage := sbcMessage + " steering";
      }
      var ok := ser.Write(sbcMessage + "\n");
      r := Done(());
    }

    /** `__command`: the speed and steering lines, or the shutdown line. */
    method Command(speed: Value, steering: Value, shutdown: bool) returns (r: Outcome<()>)
      modifies ser
      ensures ser.isOpen == old(ser.isOpen)
      ensures r == if old(ser.isOpen) then Done(()) else Raised(PortNotOpen)
      ensures ser.written ==
        if !old(ser.isOpen) then old(ser.written)
        else if shutdown then old(ser.written) + [EncodeCommand(Stop)]
        else old(ser.written) + [EncodeCommand(SetSpeed(toText(speed))), EncodeCommand(SetSteering(toText(steering)))]
    {
      if !shutdown {
        var ok := ser.Write("command speed " + toText(speed) + "\n");
        if !ok {
          return Raised(PortNotOpen);
        }
        ok := ser.Write("command steering " + toText(steering) + "\n");
      } else {
        var ok := ser.Write("command shutdown\n");
        if !ok {
          return Raised(PortNotOpen);
        }
      }
      r := Done(());
    }

    /** `run_threaded`: in autonomous mode with exactly two arguments, takes
        them as speed and steering and sends them; always answers
        (speed, throttle, steering) unless the write raises. */
    method RunThreaded(args: seq<Value>) returns (r: Outcome<(Value, Value, Value)>)
      requires Valid()
      modifies this, ser
      ensures Valid()
      ensures running == old(running) && mode == old(mode) && throttle == old(throttle)
      ensures old(mode) == Auto && |args| == 2 ==> speed == args[0] && steering == args[1]
      ensures old(mode) == Auto && |args| == 2 && old(running) ==>
        ser.written == old(ser.written) + [EncodeCommand(SetSpeed(toText(args[0]))), EncodeCommand(SetSteering(toText(args[1])))]
      ensures old(mode) == Auto && |args| == 2 && !old(running) ==>
        ser.written == old(ser.written) && r == Raised(PortNotOpen)
      ensures !(old(mode) == Auto && |args| == 2) ==>
        State() == old(State()) && ser.written == old(ser.written)
      ensures !(old(mode) == Auto && |args| == 2 && !old(running)) ==>
        r == Done((speed, throttle, steering))
    {
      if mode == Auto && |args| == 2 {
        speed := args[0];
        steering := args[1];
        ShutdownLineIsUnique(SetSpeed(toText(speed)));
        ShutdownLineIsUnique(SetSteering(toText(steering)));
        var sent := Command(speed, steering, false);
        if sent.Raised? {
          return Raised(sent.error);
        }
      }
      r := Done((speed, throttle, steering));
    }

    /** Stops the driver once: sends the shutdown command, closes the port and
        empties the watchdog's queue. Later calls change nothing. */
    method Shutdown()
      requires Valid()
      modifies this, ser, watchdog
      ensures Valid() && !running
      ensures mode == old(mode) && State() == old(State())
      ensures old(running) ==> ser.written == old(ser.written) + [ShutdownLine()]
      ensures !old(running) ==> ser.written == old(ser.written) && watchdog.queue == old(watchdog.queue)
      ensures watchdog.queue == []
    {
      if running {
        running := false;
        var sent := Command(Number(0.0), Number(0.0), true);
        ser.Close();
        watchdog.Shutdown();
        assert (old(ser.written) + [ShutdownLine()])[..|old(ser.written)|] == old(ser.written);
      }
    }

    /** The watchdog's callback: shuts the driver down. */
    method WatchdogAlert()
      requires Valid()
      modifies this, ser, watchdog
      ensures Valid() && !running
      ensures mode == old(mode) && State() == old(State())
      ensures old(running) ==> ser.written == old(ser.written) + [ShutdownLine()]
      ensures !old(running) ==> ser.written == old(ser.written) && watchdog.queue == old(watchdog.queue)
      ensures watchdog.queue == []
    {
      Shutdown();
    }
  }

  /** Shutting down and then having the watchdog fire writes the shutdown command once. */
  method ShutdownThenAlert(d: TeensyMC)
    requires d.Valid() && d.running
    modifies d, d.ser, d.watchdog
    ensures d.ser.written == old(d.ser.written) + [ShutdownLine()]
    ensures !d.running && !d.ser.isOpen && d.watchdog.queue == []
  {
    d.Shutdown();
    d.WatchdogAlert();
    d.Shutdown();
  }
}
