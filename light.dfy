/** The light entity (`SerialSendLight`): one command to turn on, one to turn off. */
module Light {
  import opened Wrappers
  import Hex
  import opened SerialSend

  /** The configuration keys the constructor reads. */
  datatype LightConfig = LightConfig(port: PortConfig, name: string, turnOn: string, turnOff: string)

  datatype LightCommands = LightCommands(turnOn: string, turnOff: string)

  /** `s.replace(" ", "")`: every space removed, every other character kept in order. */
  function StripSpaces(s: string): (r: string)
    ensures ' ' !in r
    ensures multiset(r) == multiset(s)[' ' := 0]
    decreases |s|
  {
    if s == [] then []
    else
      assert s == [s[0]] + s[1..];
      if s[0] == ' ' then StripSpaces(s[1..]) else [s[0]] + StripSpaces(s[1..])
  }

  /** Removing spaces works piecewise, so the other characters keep their order. */
  lemma {:induction false} StripSpacesAppend(a: string, b: string)
    ensures StripSpaces(a + b) == StripSpaces(a) + StripSpaces(b)
    decreases |a|
  {
    if a != [] {
      assert (a + b)[0] == a[0] && (a + b)[1..] == a[1..] + b;
      StripSpacesAppend(a[1..], b);
    } else {
      assert a + b == b;
    }
  }

  lemma {:induction false} StripSpacesKeepsSpaceFree(s: string)
    requires ' ' !in s
    ensures StripSpaces(s) == s
    decreases |s|
  {
    if s != [] {
      assert s[0] != ' ' && ' ' !in s[1..];
      StripSpacesKeepsSpaceFree(s[1..]);
    }
  }

  lemma StripSpacesIdempotent(s: string)
    ensures StripSpaces(StripSpaces(s)) == StripSpaces(s)
  {
  }

  lemma StripSpacesPair(s: string)
    requires |s| >= 2 && s[0] != ' ' && s[1] != ' '
    ensures StripSpaces(s) == [s[0], s[1]] + StripSpaces(s[2..])
  {
    assert s[1..][0] == s[1] && s[1..][1..] == s[2..];
  }

  lemma DecodeAfterPair(c0: char, c1: char, u: string)
    requires Hex.IsHexDigit(c0) && Hex.IsHexDigit(c1)
    ensures Hex.Decode([c0, c1] + u).Some? <==> Hex.Decode(u).Some?
    ensures Hex.Decode(u).Some? ==>
      Hex.Decode([c0, c1] + u) == Some([16 * Hex.DigitValue(c0) + Hex.DigitValue(c1)] + Hex.Decode(u).value)
  {
  }

  lemma DecodeAfterSpace(c: char, u: string)
    requires Hex.IsSpace(c)
    ensures Hex.Decode([c] + u) == Hex.Decode(u)
  {
  }

  /** A command the decoder accepts decodes to the same bytes with its spaces removed. */
  lemma {:induction false} StrippedCommandDecodesAlike(s: string)
    requires Hex.Decode(s).Some?
    ensures Hex.Decode(StripSpaces(s)) == Hex.Decode(s)
    decreases |s|
  {
    if s != [] {
      if Hex.IsSpace(s[0]) {
        StrippedCommandDecodesAlike(s[1..]);
        if s[0] != ' ' {
          DecodeAfterSpace(s[0], StripSpaces(s[1..]));
        }
      } else {
        assert |s| >= 2 && Hex.IsHexDigit(s[0]) && Hex.IsHexDigit(s[1]);
        StripSpacesPair(s);
        StrippedCommandDecodesAlike(s[2..]);
        DecodeAfterPair(s[0], s[1], StripSpaces(s[2..]));
      }
    }
  }

  /** What the light's calls read and write: its own flag and its sender's state. */
  datatype Lamp = Lamp(on: bool, sender: Sender)

  function Log(l: Lamp): seq<PortEvent> {
    l.sender.serial.log
  }

  /** Send, then record the new state; a send that raises skips the assignment. */
  function AfterTurnOn(l: Lamp, cmd: string): Lamp {
    Lamp(if Sendable(cmd) then true else l.on, AfterSend(l.sender, cmd))
  }

  function AfterTurnOff(l: Lamp, cmd: string): Lamp {
    Lamp(if Sendable(cmd) then false else l.on, AfterSend(l.sender, cmd))
  }

  lemma TurnOnEffect(l: Lamp, cmd: string)
    ensures var m := AfterTurnOn(l, cmd);
      && (m.on <==> Sendable(cmd) || l.on)
      && m.sender.isBusy == l.sender.isBusy
      && Log(m) == Log(l) + OpenIfClosed(l.sender) + Written(cmd)
  {
  }

  lemma TurnOffEffect(l: Lamp, cmd: string)
    ensures var m := AfterTurnOff(l, cmd);
      && (m.on <==> !Sendable(cmd) && l.on)
      && m.sender.isBusy == l.sender.isBusy
      && Log(m) == Log(l) + OpenIfClosed(l.sender) + Written(cmd)
  {
  }

  /** `turn_on` when `on` holds, `turn_off` otherwise. */
  function Switch(l: Lamp, c: LightCommands, on: bool): Lamp {
    if on then AfterTurnOn(l, c.turnOn) else AfterTurnOff(l, c.turnOff)
  }

  function RunLight(l: Lamp, c: LightCommands, calls: seq<bool>): Lamp
    decreases |calls|
  {
    if calls == [] then l else RunLight(Switch(l, c, calls[0]), c, calls[1..])
  }

  /** After any sequence of calls, the light is on exactly when the last call was `turn_on`. */
  lemma {:induction false} LastCallWins(l: Lamp, c: LightCommands, calls: seq<bool>)
    requires Sendable(c.turnOn) && Sendable(c.turnOff)
    ensures RunLight(l, c, calls).on == if calls == [] then l.on else calls[|calls| - 1]
    decreases |calls|
  {
    if calls != [] {
      LastCallWins(Switch(l, c, calls[0]), c, calls[1..]);
    }
  }

  /** The writes that a sequence of calls puts on the port, one command per call. */
  function Writes(c: LightCommands, calls: seq<bool>): (w: seq<PortEvent>)
    requires Sendable(c.turnOn) && Sendable(c.turnOff)
    decreases |calls|
  {
    if calls == [] then []
    else [Wrote(Hex.Decode(if calls[0] then c.turnOn else c.turnOff).value)] + Writes(c, calls[1..])
  }

  /** Each call writes exactly its own command; only the first call may open the port. */
  lemma {:induction false} RunLightLog(l: Lamp, c: LightCommands, calls: seq<bool>)
    requires Sendable(c.turnOn) && Sendable(c.turnOff)
    ensures Log(RunLight(l, c, calls))
         == Log(l) + (if calls == [] then [] else OpenIfClosed(l.sender)) + Writes(c, calls)
    decreases |calls|
  {
    if calls != [] {
      var m := Switch(l, c, calls[0]);
      assert m.sender.serial.isOpen && OpenIfClosed(m.sender) == [];
      RunLightLog(m, c, calls[1..]);
    }
  }

  class SerialSendLight {
    const sender: SerialSendInstance
    const name: string
    const commands: LightCommands
    var on: bool

    function View(): Lamp
      reads this, sender
    {
      Lamp(on, sender.State())
    }

    /** `SerialSendLight(config)`: acquire the sender, store the commands, start off. */
    constructor (reg: Registry, config: LightConfig)
      requires reg.Valid()
      modifies reg, reg.instances.Values
      ensures reg.Valid() && sender == reg.instance
      ensures config.port.serialPort !in old(reg.instances) ==>
                fresh(sender) && reg.instances == old(reg.instances)[config.port.serialPort := sender]
      ensures config.port.serialPort in old(reg.instances) ==>
                sender == old(reg.instance) && reg.instances == old(reg.instances)
      ensures forall p :: p in old(reg.instances) ==> p in reg.instances && reg.instances[p] == old(reg.instances)[p]
      ensures sender.State() == AfterInit(config.port)
      ensures forall o :: o in old(reg.instances.Values) && o != sender ==> o.State() == old(o.State())
      ensures name == config.name && commands == LightCommands(config.turnOn, config.turnOff)
      ensures !on
    {
      var acquired := reg.Construct(config.port);
      sender := acquired;
      commands := LightCommands(config.turnOn, config.turnOff);
      name := config.name;
      on := false;
    }

    /** The turn-on command without its spaces. */
    function UniqueId(): (r: string)
      reads this
      ensures ' ' !in r && StripSpaces(r) == r
      ensures Hex.Decode(commands.turnOn).Some? ==> Hex.Decode(r) == Hex.Decode(commands.turnOn)
    {
      StripSpacesIdempotent(commands.turnOn);
      assert Hex.Decode(commands.turnOn).Some? ==> Hex.Decode(StripSpaces(commands.turnOn)) == Hex.Decode(commands.turnOn) by {
        if Hex.Decode(commands.turnOn).Some? {
          StrippedCommandDecodesAlike(commands.turnOn);
        }
      }
      StripSpaces(commands.turnOn)
    }

    predicate IsOn()
      reads this, sender
      ensures IsOn() == View().on
    {
      on
    }

    method TurnOn() returns (r: Outcome<SendError>)
      modifies this, sender
      ensures View() == AfterTurnOn(old(View()), commands.turnOn)
      ensures r.Pass? <==> Sendable(commands.turnOn)
    {
      var sent := sender.SendCmd(commands.turnOn);
      if sent.Failure? {
        return Fail(sent.error);
      }
      on := true;
      return Pass;
    }

    method TurnOff() returns (r: Outcome<SendError>)
      modifies this, sender
      ensures View() == AfterTurnOff(old(View()), commands.turnOff)
      ensures r.Pass? <==> Sendable(commands.turnOff)
    {
      var sent := sender.SendCmd(commands.turnOff);
      if sent.Failure? {
        return Fail(sent.error);
      }
      on := false;
      return Pass;
    }
  }
}
