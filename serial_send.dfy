/**
 * The per-port command sender (`SerialSendInstance`) and the module-level
 * registry of instances. The pyserial object is modelled as a value, `Port`,
 * whose log records every open, write and close that reaches it.
 */
module SerialSend {
  import opened Wrappers
  import Hex

  /** The keyword arguments of the constructor. */
  datatype PortConfig = PortConfig(
    serialPort: string,
    baudrate: int,
    bytesize: int,
    parity: string,
    stopbits: real,
    timeout: Option<int>,
    xonxoff: bool,
    rtscts: bool)

  datatype PortEvent = Opened(path: Option<string>) | Wrote(data: seq<Hex.byte>) | Closed

  /** A `serial.Serial` object: its settings, its `port`, whether it is open, and its history. */
  datatype Port = Port(
    baudrate: int,
    bytesize: int,
    parity: string,
    stopbits: real,
    timeout: Option<int>,
    xonxoff: bool,
    rtscts: bool,
    path: Option<string>,
    isOpen: bool,
    log: seq<PortEvent>)

  /** The state of one `SerialSendInstance`: its stored path, its serial object, its busy flag. */
  datatype Sender = Sender(serialPort: string, serial: Port, isBusy: bool)

  /** The only error `send_cmd` raises itself: `bytes.fromhex` rejecting the command. */
  datatype SendError = NonHexCommand

  /** A new, closed serial object with the settings of `c` and no port assigned yet. */
  function NewPort(c: PortConfig): Port {
    Port(c.baudrate, c.bytesize, c.parity, c.stopbits, c.timeout, c.xonxoff, c.rtscts, None, false, [])
  }

  /** The state `__init__` leaves: the new path, a fresh serial object, not busy. */
  function AfterInit(c: PortConfig): Sender {
    Sender(c.serialPort, NewPort(c), false)
  }

  function AfterOpen(s: Sender): Sender {
    s.(serial := s.serial.(isOpen := true, log := s.serial.log + [Opened(s.serial.path)]))
  }

  function AfterClose(s: Sender): Sender {
    s.(serial := s.serial.(isOpen := false, log := s.serial.log + [Closed]))
  }

  /** True when the command decodes, so that `send_cmd` returns True rather than raising. */
  predicate Sendable(cmd: string) {
    Hex.Decode(cmd).Some?
  }

  /** What `send_cmd(cmd)` returns, or the exception it raises. */
  function SendResult(cmd: string): (r: Result<bool, SendError>)
    ensures r.Success? <==> Sendable(cmd)
    ensures r.Success? ==> r.value
  {
    if Sendable(cmd) then Success(true) else Failure(NonHexCommand)
  }

  /** The events a port that is `open` receives from one `send_cmd(cmd)`: at most one write. */
  function Written(cmd: string): seq<PortEvent> {
    match Hex.Decode(cmd)
    case Some(bytes) => [Wrote(bytes)]
    case None => []
  }

  /** The open that `send_cmd` performs first when the port is closed. */
  function OpenIfClosed(s: Sender): seq<PortEvent> {
    if s.serial.isOpen then [] else [Opened(Some(s.serialPort))]
  }

  /**
   * The state after `send_cmd(cmd)`: a closed port is first pointed at the stored
   * path and opened; then the decoded bytes are written. The busy flag is neither
   * consulted nor changed.
   */
  function AfterSend(s: Sender, cmd: string): (r: Sender)
    ensures r.serialPort == s.serialPort && r.isBusy == s.isBusy
    ensures r.serial.isOpen
    ensures r.serial.path == if s.serial.isOpen then s.serial.path else Some(s.serialPort)
    ensures r.serial.log == s.serial.log + OpenIfClosed(s) + Written(cmd)
    ensures r.serial.(path := s.serial.path, isOpen := s.serial.isOpen, log := s.serial.log) == s.serial
  {
    var ready := if s.serial.isOpen then s
                 else AfterOpen(s.(serial := s.serial.(path := Some(s.serialPort))));
    match Hex.Decode(cmd)
    case None => ready
    case Some(bytes) => ready.(serial := ready.serial.(log := ready.serial.log + [Wrote(bytes)]))
  }

  /** Sending again to a port that is open never opens it again. */
  lemma SendKeepsPortOpen(s: Sender, cmd: string, cmd': string)
    ensures OpenIfClosed(AfterSend(s, cmd)) == []
    ensures AfterSend(AfterSend(s, cmd), cmd').serial.log
         == s.serial.log + OpenIfClosed(s) + Written(cmd) + Written(cmd')
  {
  }

  class SerialSendInstance {
    var serialPort: string
    var serial: Port
    var isBusy: bool

    function State(): Sender
      reads this
    {
      Sender(serialPort, serial, isBusy)
    }

    /** Allocation by `__new__` followed by `__init__`. */
    constructor (c: PortConfig)
      ensures State() == AfterInit(c)
    {
      serialPort := c.serialPort;
      serial := NewPort(c);
      isBusy := false;
    }

    /** `__init__` run again on an instance that already exists. */
    method Init(c: PortConfig)
      modifies this
      ensures State() == AfterInit(c)
    {
      serialPort := c.serialPort;
      serial := NewPort(c);
      isBusy := false;
    }

    method OpenPort() returns (isOpen: bool)
      modifies this
      ensures State() == AfterOpen(old(State()))
      ensures isOpen == serial.isOpen
    {
      serial := serial.(isOpen := true, log := serial.log + [Opened(serial.path)]);
      isOpen := serial.isOpen;
    }

    method ClosePort() returns (closed: bool)
      modifies this
      ensures State() == AfterClose(old(State()))
      ensures closed == !serial.isOpen
    {
      serial := serial.(isOpen := false, log := serial.log + [Closed]);
      closed := !serial.isOpen;
    }

    method SetIsBusy(busy: bool)
      modifies this
      ensures State() == old(State()).(isBusy := busy)
    {
      isBusy := busy;
    }

    /** The busy test of the source is a bare expression, so nothing here reads `isBusy`. */
    method SendCmd(cmd: string) returns (r: Result<bool, SendError>)
      modifies this
      ensures State() == AfterSend(old(State()), cmd)
      ensures r == SendResult(cmd)
    {
      if !serial.isOpen {
        serial := serial.(path := Some(serialPort));
        var _ := OpenPort();
      }
      var command := Hex.Decode(cmd);
      if command.None? {
        return Failure(NonHexCommand);
      }
      serial := serial.(log := serial.log + [Wrote(command.value)]);
      return Success(true);
    }
  }

  /**
   * The module-level dictionary `serial_instances` together with the class
   * attribute `instance`, which holds the instance created most recently.
   */
  class Registry {
    var instances: map<string, SerialSendInstance>
    var instance: SerialSendInstance?

    ghost predicate Valid()
      reads this
    {
      && (instance == null <==> instances == map[])
      && (instance != null ==> instance in instances.Values)
    }

    /** The state at import time: no instances yet. */
    constructor ()
      ensures Valid() && instances == map[] && instance == null
    {
      instances := map[];
      instance := null;
    }

    /**
     * `SerialSendInstance(**config)`: `__new__` creates and records an instance only
     * for a path it has not seen, and always hands back the most recently created
     * instance; `__init__` then runs on whatever it handed back.
     */
    method Construct(c: PortConfig) returns (inst: SerialSendInstance)
      requires Valid()
      modifies this, instances.Values
      ensures Valid()
      ensures c.serialPort !in old(instances) ==>
                fresh(inst) && instances == old(instances)[c.serialPort := inst] && instance == inst
      ensures c.serialPort in old(instances) ==>
                inst == old(instance) && instances == old(instances) && instance == old(instance)
      ensures forall p :: p in old(instances) ==> p in instances && instances[p] == old(instances)[p]
      ensures inst.State() == AfterInit(c)
      ensures forall o :: o in old(instances.Values) && o != inst ==> o.State() == old(o.State())
    {
      if c.serialPort !in instances {
        var created := new SerialSendInstance(c);
        instance := created;
        instances := instances[c.serialPort := created];
        assert instances[c.serialPort] == created;
        inst := created;
      } else {
        inst := instance;
        inst.Init(c);
      }
    }
  }

  /**
   * Acquiring port `a`, then a different port `b`, then `a` again hands back the
   * instance created for `b`, now re-initialised to talk to `a`, and not the one
   * the registry holds under `a`.
   */
  method ReacquireAfterOtherPort(a: PortConfig, b: PortConfig)
    returns (first: SerialSendInstance, second: SerialSendInstance, again: SerialSendInstance)
    requires a.serialPort != b.serialPort
    ensures again == second && again != first
    ensures again.serialPort == a.serialPort && !again.isBusy
  {
    var registry := new Registry();
    first := registry.Construct(a);
    second := registry.Construct(b);
    again := registry.Construct(a);
  }
}
