/**
 * The cover entity (`SerialSendCover`). Each of `async_open_cover` and
 * `async_close_cover` is split at its `await` into a begin step and a resume
 * step; any other call may run in between.
 */
module Cover {
  import opened Wrappers
  import Hex
  import opened SerialSend

  /** `_state`: None, STATE_OPENING or STATE_CLOSING. */
  datatype CoverState = Idle | Opening | Closing

  datatype Direction = Open | Close

  function Moving(d: Direction): CoverState {
    if d == Open then Opening else Closing
  }

  datatype Commands = Commands(startOpen: string, endOpen: string, startClose: string, endClose: string)

  function StartCommand(c: Commands, d: Direction): string {
    if d == Open then c.startOpen else c.startClose
  }

  function EndCommand(c: Commands, d: Direction): string {
    if d == Open then c.endOpen else c.endClose
  }

  predicate AllSendable(c: Commands) {
    Sendable(c.startOpen) && Sendable(c.endOpen) && Sendable(c.startClose) && Sendable(c.endClose)
  }

  /** What the cover's steps read and write: its own state and its sender's. */
  datatype Actuator = Actuator(state: CoverState, sender: Sender)

  function Log(a: Actuator): seq<PortEvent> {
    a.sender.serial.log
  }

  /** Set the state, send the start command, then mark the sender busy (skipped if the send raised). */
  function AfterBegin(a: Actuator, c: Commands, d: Direction): Actuator {
    var cmd := StartCommand(c, d);
    var sent := AfterSend(a.sender, cmd);
    Actuator(Moving(d), if Sendable(cmd) then sent.(isBusy := true) else sent)
  }

  /** After the sleep: finish only if the state is still the one this call set. */
  function AfterResume(a: Actuator, c: Commands, d: Direction): Actuator {
    if a.state == Moving(d) then Actuator(Idle, AfterSend(a.sender.(isBusy := false), EndCommand(c, d)))
    else a
  }

  /** `stop_cover`: end closing when closing, and end opening in every other state. */
  function AfterStop(a: Actuator, c: Commands): Actuator {
    var cmd := if a.state == Closing then c.endClose else c.endOpen;
    Actuator(Idle, AfterSend(a.sender.(isBusy := false), cmd))
  }

  lemma BeginEffect(a: Actuator, c: Commands, d: Direction)
    ensures var b := AfterBegin(a, c, d);
      && b.state == Moving(d)
      && b.sender.isBusy == (Sendable(StartCommand(c, d)) || a.sender.isBusy)
      && b.sender.serialPort == a.sender.serialPort
      && Log(b) == Log(a) + OpenIfClosed(a.sender) + Written(StartCommand(c, d))
  {
  }

  lemma ResumeEffect(a: Actuator, c: Commands, d: Direction)
    ensures var b := AfterResume(a, c, d);
      if a.state == Moving(d) then
        && b.state == Idle && !b.sender.isBusy
        && Log(b) == Log(a) + OpenIfClosed(a.sender) + Written(EndCommand(c, d))
      else b == a
  {
  }

  lemma StopEffect(a: Actuator, c: Commands)
    ensures var b := AfterStop(a, c);
      && b.state == Idle && !b.sender.isBusy
      && Log(b) == Log(a) + OpenIfClosed(a.sender)
                   + Written(if a.state == Closing then c.endClose else c.endOpen)
  {
  }

  /** One call of the host into the cover, or the wake-up of a sleeping call. */
  datatype Step = Begin(dir: Direction) | Resume(dir: Direction) | Stop

  function Apply(a: Actuator, c: Commands, s: Step): Actuator {
    match s
    case Begin(d) => AfterBegin(a, c, d)
    case Resume(d) => AfterResume(a, c, d)
    case Stop => AfterStop(a, c)
  }

  function Run(a: Actuator, c: Commands, steps: seq<Step>): Actuator
    decreases |steps|
  {
    if steps == [] then a else Run(Apply(a, c, steps[0]), c, steps[1..])
  }

  function WroteCmd(cmd: string): PortEvent
    requires Sendable(cmd)
  {
    Wrote(Hex.Decode(cmd).value)
  }

  /** Without a stop, a move sends its start command and, after the sleep, its end command. */
  lemma UninterruptedMove(a: Actuator, c: Commands, d: Direction)
    requires Sendable(StartCommand(c, d)) && Sendable(EndCommand(c, d))
    ensures var b := Run(a, c, [Begin(d), Resume(d)]);
      && b.state == Idle && !b.sender.isBusy
      && Log(b) == Log(a) + OpenIfClosed(a.sender) + [WroteCmd(StartCommand(c, d)), WroteCmd(EndCommand(c, d))]
  {
    var steps := [Begin(d), Resume(d)];
    var begun := AfterBegin(a, c, d);
    assert Run(a, c, steps) == Run(begun, c, [Resume(d)]) by { assert steps[1..] == [Resume(d)]; }
    assert Run(begun, c, [Resume(d)]) == AfterResume(begun, c, d) by { assert [Resume(d)][1..] == []; }
  }

  /**
   * A stop during the sleep sends the end command itself; the late wake-up then
   * finds the state changed and sends nothing, so there is no second end command.
   */
  lemma StopBeforeResume(a: Actuator, c: Commands, d: Direction)
    requires Sendable(StartCommand(c, d)) && Sendable(EndCommand(c, d))
    ensures var b := Run(a, c, [Begin(d), Stop, Resume(d)]);
      && b.state == Idle && !b.sender.isBusy
      && Log(b) == Log(a) + OpenIfClosed(a.sender) + [WroteCmd(StartCommand(c, d)), WroteCmd(EndCommand(c, d))]
  {
    var steps := [Begin(d), Stop, Resume(d)];
    var begun := AfterBegin(a, c, d);
    var stopped := AfterStop(begun, c);
    assert Run(a, c, steps) == Run(begun, c, [Stop, Resume(d)]) by { assert steps[1..] == [Stop, Resume(d)]; }
    assert Run(begun, c, [Stop, Resume(d)]) == Run(stopped, c, [Resume(d)]) by { assert [Stop, Resume(d)][1..] == [Resume(d)]; }
    assert Run(stopped, c, [Resume(d)]) == stopped by { assert [Resume(d)][1..] == []; }
  }

  /**
   * Reversing the direction during the sleep cancels the first call's end
   * command: only the second direction is ended.
   */
  lemma ReversalCancelsFirstEnd(a: Actuator, c: Commands)
    requires AllSendable(c)
    ensures var b := Run(a, c, [Begin(Open), Begin(Close), Resume(Open), Resume(Close)]);
      && b.state == Idle && !b.sender.isBusy
      && Log(b) == Log(a) + OpenIfClosed(a.sender)
                   + [WroteCmd(c.startOpen), WroteCmd(c.startClose), WroteCmd(c.endClose)]
  {
  }

  /**
   * The state guard does not tell calls apart: when a move is stopped and started
   * again, the first call's wake-up ends the second move early, and the second
   * call's own wake-up then sends nothing.
   */
  lemma StaleResumeEndsRestartedMove(a: Actuator, c: Commands, d: Direction)
    requires Sendable(StartCommand(c, d)) && Sendable(EndCommand(c, d))
    ensures var b := Run(a, c, [Begin(d), Stop, Begin(d), Resume(d)]);
      && b.state == Idle && !b.sender.isBusy
      && Run(b, c, [Resume(d)]) == b
      && Log(b) == Log(a) + OpenIfClosed(a.sender)
                   + [WroteCmd(StartCommand(c, d)), WroteCmd(EndCommand(c, d)),
                      WroteCmd(StartCommand(c, d)), WroteCmd(EndCommand(c, d))]
  {
    var steps := [Begin(d), Stop, Begin(d), Resume(d)];
    var begun := AfterBegin(a, c, d);
    var stopped := AfterStop(begun, c);
    var restarted := AfterBegin(stopped, c, d);
    var ended := AfterResume(restarted, c, d);
    assert Run(a, c, steps) == Run(begun, c, [Stop, Begin(d), Resume(d)]) by {
      assert steps[1..] == [Stop, Begin(d), Resume(d)];
    }
    assert Run(begun, c, [Stop, Begin(d), Resume(d)]) == Run(stopped, c, [Begin(d), Resume(d)]) by {
      assert [Stop, Begin(d), Resume(d)][1..] == [Begin(d), Resume(d)];
    }
    assert Run(stopped, c, [Begin(d), Resume(d)]) == Run(restarted, c, [Resume(d)]) by {
      assert [Begin(d), Resume(d)][1..] == [Resume(d)];
    }
    assert Run(restarted, c, [Resume(d)]) == ended by { assert [Resume(d)][1..] == []; }
    assert Run(ended, c, [Resume(d)]) == ended by { assert [Resume(d)][1..] == []; }
  }

  /** An idle cover ignores every wake-up. */
  lemma {:induction false} IdleIgnoresResumes(a: Actuator, c: Commands, steps: seq<Step>)
    requires a.state == Idle
    requires forall i :: 0 <= i < |steps| ==> steps[i].Resume?
    ensures Run(a, c, steps) == a
    decreases |steps|
  {
    if steps != [] {
      assert Apply(a, c, steps[0]) == a;
      IdleIgnoresResumes(a, c, steps[1..]);
    }
  }

  /** However many wake-ups follow a stop, the stop's end command is the last one sent. */
  lemma ResumesAfterStopSendNothing(a: Actuator, c: Commands, steps: seq<Step>)
    requires forall i :: 0 <= i < |steps| ==> steps[i].Resume?
    ensures Run(a, c, [Stop] + steps) == AfterStop(a, c)
  {
    assert ([Stop] + steps)[1..] == steps;
    IdleIgnoresResumes(AfterStop(a, c), c, steps);
  }

  /** An idle cover never leaves its sender busy. */
  ghost predicate IdleMeansFree(a: Actuator) {
    a.state == Idle ==> !a.sender.isBusy
  }

  lemma {:induction false} RunKeepsIdleMeansFree(a: Actuator, c: Commands, steps: seq<Step>)
    requires IdleMeansFree(a)
    ensures IdleMeansFree(Run(a, c, steps))
    decreases |steps|
  {
    if steps != [] {
      var b := Apply(a, c, steps[0]);
      assert IdleMeansFree(b);
      RunKeepsIdleMeansFree(b, c, steps[1..]);
    }
  }

  /** With commands that all decode, the busy flag is set exactly while a move is in progress. */
  ghost predicate BusyWhileMoving(a: Actuator) {
    a.sender.isBusy <==> a.state != Idle
  }

  lemma {:induction false} RunKeepsBusyWhileMoving(a: Actuator, c: Commands, steps: seq<Step>)
    requires AllSendable(c) && BusyWhileMoving(a)
    ensures BusyWhileMoving(Run(a, c, steps))
    decreases |steps|
  {
    if steps != [] {
      var b := Apply(a, c, steps[0]);
      assert BusyWhileMoving(b);
      RunKeepsBusyWhileMoving(b, c, steps[1..]);
    }
  }

  /**
   * The two invariants above are about one cover alone. A second cover on the
   * same port shares the sender: its stop clears the busy flag while the first
   * cover is still opening.
   */
  lemma SharedSenderClearsBusy(sender: Sender, c1: Commands, c2: Commands)
    requires AllSendable(c1) && AllSendable(c2)
    ensures var first := AfterBegin(Actuator(Idle, sender), c1, Open);
      var second := AfterStop(Actuator(Idle, first.sender), c2);
      && BusyWhileMoving(first)
      && first.state == Opening && !second.sender.isBusy
      && !BusyWhileMoving(Actuator(first.state, second.sender))
  {
  }

  /** The events a cover with commands `c` may cause on a port whose stored path is `path`. */
  ghost predicate CoverEvent(c: Commands, path: string, e: PortEvent) {
    || e == Opened(Some(path))
    || (e.Wrote? && exists cmd :: cmd in [c.startOpen, c.endOpen, c.startClose, c.endClose] &&
                                 Hex.Decode(cmd) == Some(e.data))
  }

  ghost predicate Extends(before: Actuator, after: Actuator, c: Commands) {
    && after.sender.serialPort == before.sender.serialPort
    && |Log(before)| <= |Log(after)|
    && Log(after)[..|Log(before)|] == Log(before)
    && forall k :: |Log(before)| <= k < |Log(after)| ==> CoverEvent(c, before.sender.serialPort, Log(after)[k])
  }

  /** The events one send of a cover command adds are all cover events. */
  lemma SendAddsCoverEvents(s: Sender, c: Commands, cmd: string)
    requires cmd in [c.startOpen, c.endOpen, c.startClose, c.endClose]
    ensures forall e :: e in OpenIfClosed(s) + Written(cmd) ==> CoverEvent(c, s.serialPort, e)
  {
  }

  lemma AppendExtends(a: Actuator, b: Actuator, c: Commands, extra: seq<PortEvent>)
    requires b.sender.serialPort == a.sender.serialPort
    requires Log(b) == Log(a) + extra
    requires forall e :: e in extra ==> CoverEvent(c, a.sender.serialPort, e)
    ensures Extends(a, b, c)
  {
    forall k | |Log(a)| <= k < |Log(b)|
      ensures CoverEvent(c, a.sender.serialPort, Log(b)[k])
    {
      assert Log(b)[k] == extra[k - |Log(a)|];
    }
  }

  lemma ApplyExtends(a: Actuator, c: Commands, s: Step)
    ensures Extends(a, Apply(a, c, s), c)
  {
    var b := Apply(a, c, s);
    match s
    case Begin(d) =>
      var cmd := StartCommand(c, d);
      SendAddsCoverEvents(a.sender, c, cmd);
      AppendExtends(a, b, c, OpenIfClosed(a.sender) + Written(cmd));
    case Resume(d) =>
      if a.state == Moving(d) {
        var cmd := EndCommand(c, d);
        SendAddsCoverEvents(a.sender.(isBusy := false), c, cmd);
        AppendExtends(a, b, c, OpenIfClosed(a.sender) + Written(cmd));
      } else {
        AppendExtends(a, b, c, []);
      }
    case Stop =>
      var cmd := if a.state == Closing then c.endClose else c.endOpen;
      SendAddsCoverEvents(a.sender.(isBusy := false), c, cmd);
      AppendExtends(a, b, c, OpenIfClosed(a.sender) + Written(cmd));
  }

  /**
   * Whatever the interleaving, the cover only appends to its port's history,
   * and appends nothing but opens of the stored path and its four commands.
   */
  lemma {:induction false} RunExtends(a: Actuator, c: Commands, steps: seq<Step>)
    ensures Extends(a, Run(a, c, steps), c)
    decreases |steps|
  {
    if steps != [] {
      var b := Apply(a, c, steps[0]);
      ApplyExtends(a, c, steps[0]);
      RunExtends(b, c, steps[1..]);
      var z := Run(b, c, steps[1..]);
      assert Log(z)[..|Log(a)|] == Log(z)[..|Log(b)|][..|Log(a)|];
    }
  }

  /** The `CoverEntityFeature` bits of the host platform. */
  const OPEN: bv8 := 1
  const CLOSE: bv8 := 2
  const SET_POSITION: bv8 := 4
  const STOP: bv8 := 8
  const TILT_FEATURES: bv8 := 16 | 32 | 64 | 128

  /** The configuration keys the constructor reads. */
  datatype CoverConfig = CoverConfig(
    port: PortConfig,
    name: string,
    startOpen: string,
    endOpen: string,
    startClose: Option<string>,
    endClose: Option<string>,
    interval: Option<nat>)

  /** The KeyError raised when the constructor reads a key that is absent. */
  datatype ConfigError = MissingKey(key: string)

  const START_CLOSE_KEY := "serial_cmd_start_close"
  const END_CLOSE_KEY := "serial_cmd_end_close"
  const INTERVAL_KEY := "serial_cmd_interval_ms"

  /** The first absent key, in the order the constructor reads them. */
  function FirstMissingKey(config: CoverConfig): (r: Option<string>)
    ensures r == None <==> config.startClose.Some? && config.endClose.Some? && config.interval.Some?
    ensures r.Some? ==> r.value in [START_CLOSE_KEY, END_CLOSE_KEY, INTERVAL_KEY]
  {
    if config.startClose.None? then Some(START_CLOSE_KEY)
    else if config.endClose.None? then Some(END_CLOSE_KEY)
    else if config.interval.None? then Some(INTERVAL_KEY)
    else None
  }

  class SerialSendCover {
    const sender: SerialSendInstance
    const name: string
    const commands: Commands
    const interval: nat
    var state: CoverState

    function View(): Actuator
      reads this, sender
    {
      Actuator(state, sender.State())
    }

    constructor (sender: SerialSendInstance, name: string, commands: Commands, interval: nat)
      ensures this.sender == sender && this.name == name
      ensures this.commands == commands && this.interval == interval
      ensures state == Idle
    {
      this.sender := sender;
      this.name := name;
      this.commands := commands;
      this.interval := interval;
      state := Idle;
    }

    /** The cover never reports whether it is closed. */
    function IsClosed(): (r: Option<bool>)
      ensures r.None?
    {
      None
    }

    predicate IsClosing()
      reads this
      ensures state == Idle ==> !IsClosing()
    {
      state == Closing
    }

    predicate IsOpening()
      reads this
      ensures IsOpening() ==> !IsClosing()
      ensures state == Idle ==> !IsOpening()
    {
      state == Opening
    }

    function SupportedFeatures(): (r: bv8)
      ensures r & OPEN != 0 && r & CLOSE != 0 && r & STOP != 0
      ensures r & SET_POSITION == 0 && r & TILT_FEATURES == 0
    {
      OPEN | CLOSE | STOP
    }

    /** `async_open_cover` up to its sleep. `Pass` means the sleep is reached. */
    method OpenBegin() returns (r: Outcome<SendError>)
      modifies this, sender
      ensures View() == AfterBegin(old(View()), commands, Open)
      ensures r.Pass? <==> Sendable(commands.startOpen)
    {
      state := Opening;
      var sent := sender.SendCmd(commands.startOpen);
      if sent.Failure? {
        return Fail(sent.error);
      }
      sender.SetIsBusy(true);
      return Pass;
    }

    /** `async_open_cover` after its sleep. */
    method OpenResume() returns (r: Outcome<SendError>)
      modifies this, sender
      ensures View() == AfterResume(old(View()), commands, Open)
      ensures r.Fail? <==> old(state) == Opening && !Sendable(commands.endOpen)
    {
      if state == Opening {
        state := Idle;
        sender.SetIsBusy(false);
        var sent := sender.SendCmd(commands.endOpen);
        if sent.Failure? {
          return Fail(sent.error);
        }
      }
      return Pass;
    }

    /** `async_close_cover` up to its sleep. `Pass` means the sleep is reached. */
    method CloseBegin() returns (r: Outcome<SendError>)
      modifies this, sender
      ensures View() == AfterBegin(old(View()), commands, Close)
      ensures r.Pass? <==> Sendable(commands.startClose)
    {
      state := Closing;
      var sent := sender.SendCmd(commands.startClose);
      if sent.Failure? {
        return Fail(sent.error);
      }
      sender.SetIsBusy(true);
      return Pass;
    }

    /** `async_close_cover` after its sleep. */
    method CloseResume() returns (r: Outcome<SendError>)
      modifies this, sender
      ensures View() == AfterResume(old(View()), commands, Close)
      ensures r.Fail? <==> old(state) == Closing && !Sendable(commands.endClose)
    {
      if state == Closing {
        state := Idle;
        sender.SetIsBusy(false);
        var sent := sender.SendCmd(commands.endClose);
        if sent.Failure? {
          return Fail(sent.error);
        }
      }
      return Pass;
    }

    method Stop() returns (r: Outcome<SendError>)
      modifies this, sender
      ensures View() == AfterStop(old(View()), commands)
      ensures r.Fail? <==> !Sendable(if old(state) == Closing then commands.endClose else commands.endOpen)
    {
      var sent;
      if state == Closing {
        state := Idle;
        sender.SetIsBusy(false);
        sent := sender.SendCmd(commands.endClose);
      } else {
        state := Idle;
        sender.SetIsBusy(false);
        sent := sender.SendCmd(commands.endOpen);
      }
      if sent.Failure? {
        return Fail(sent.error);
      }
      return Pass;
    }
  }

  /**
   * `SerialSendCover(config)`: the sender is acquired first, so the registry is
   * updated even when a key read afterwards is missing and construction fails.
   */
  method CreateCover(reg: Registry, config: CoverConfig) returns (r: Result<SerialSendCover, ConfigError>)
    requires reg.Valid()
    modifies reg, reg.instances.Values
    ensures reg.Valid() && reg.instance != null
    ensures config.port.serialPort !in old(reg.instances) ==>
              && fresh(reg.instance)
              && reg.instances == old(reg.instances)[config.port.serialPort := reg.instance]
    ensures config.port.serialPort in old(reg.instances) ==>
              reg.instances == old(reg.instances) && reg.instance == old(reg.instance)
    ensures forall p :: p in old(reg.instances) ==> p in reg.instances && reg.instances[p] == old(reg.instances)[p]
    ensures reg.instance.State() == AfterInit(config.port)
    ensures forall o :: o in old(reg.instances.Values) && o != reg.instance ==> o.State() == old(o.State())
    ensures r.Failure? <==> FirstMissingKey(config).Some?
    ensures r.Failure? ==> r.error == MissingKey(FirstMissingKey(config).value)
    ensures r.Success? ==>
      && fresh(r.value)
      && r.value.state == Idle
      && r.value.sender == reg.instance
      && r.value.name == config.name
      && r.value.commands == Commands(config.startOpen, config.endOpen,
                                      config.startClose.value, config.endClose.value)
      && r.value.interval == config.interval.value
  {
    var sender := reg.Construct(config.port);
    var missing := FirstMissingKey(config);
    if missing.Some? {
      return Failure(MissingKey(missing.value));
    }
    var commands := Commands(config.startOpen, config.endOpen, config.startClose.value, config.endClose.value);
    var cover := new SerialSendCover(sender, config.name, commands, config.interval.value);
    return Success(cover);
  }
}
