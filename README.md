# serial_send — a Dafny model

This project models the serial_send integration. It drives serial-port RF emitters from a home-automation host by writing fixed hexadecimal commands to a shared serial port. The model covers three stateful parts:

- **The per-port sender and its registry** (`SerialSend`).
  - `SerialSendInstance` stores a port path, a pyserial object and a busy flag. It opens the port lazily and writes the bytes of a hex command.
  - `Registry` models two pieces of state: the module-level dictionary `serial_instances`, and the class attribute `instance` that `__new__` reads and writes.
  - The pyserial object is a value, `Port`. It holds the settings, the path assigned to it, whether it is open, and a log of every open, write and close that reached it. That log is the wire.
- **The cover** (`Cover`). `SerialSendCover` is a three-state machine: idle, opening, closing.
  - Each of `async_open_cover` and `async_close_cover` is split at its `await` into a begin method and a resume method. Any other call may run between the two.
  - The methods are proved against the step functions `AfterBegin`, `AfterResume` and `AfterStop` over an `Actuator`: the cover's state plus its sender's state.
  - Lemmas about arbitrary sequences of one cover's steps (`Run`), for a cover that is the only user of its sender, state what goes on the wire, the busy flag invariants, and the cancellation behaviour. `Cover.SharedSenderClearsBusy` shows how a second cover on the same port breaks the busy invariant.
- **The light** (`Light`). `SerialSendLight` has one command for on and one for off, and an identifier that is the on command without spaces.

`Hex` models `bytes.fromhex` as the code uses it. ASCII whitespace is skipped before each byte. Each byte is two adjacent hex digits, in either case. Anything else raises `ValueError`, modelled as `Failure(NonHexCommand)`. `Hex.Encode` writes bytes in the source's debug-log format, `{:02x} ` per byte, and is the round-trip partner of `Decode`.

Behaviour of the code that the model reproduces, and that a reader may not expect:

- `__new__` returns `cls.instance`, the instance created most recently, and not `serial_instances[port]`. `__init__` then re-runs on that object with the new configuration. So acquiring port A, then port B, then A again hands back B's instance, now pointed at A and given a fresh, closed serial object (`SerialSend.ReacquireAfterOtherPort`). The registry entries themselves are never overwritten.
- The busy test in `send_cmd` is a bare expression, so the busy flag never blocks a write.
- A command that does not decode raises only after the lazy open. The port is then open, but nothing is written.
- In the cover and the light, an exception from `send_cmd` ends the call at once. Assignments after the send (`set_is_busy(True)`, `_is_on = ...`) do not happen. Assignments before it (`_state = OPENING`) do.
- `stop_cover` sends the end-open command whenever the cover is not closing, including when it is idle.
- The state guard does not tell calls apart. If a move is stopped and restarted, the first call's wake-up ends the second move early.
- Every construction re-initialises the instance `__new__` returns with the new configuration. So a later entity whose port is already registered resets the busy flag, the stored path and the serial object of the last-created instance, which existing entities may be using (`Scenarios.SecondLightTakesCoverSender`).
- A command is checked only when it is sent; creating an entity never decodes its commands.
- A light's flag is not set when the send raises.
- The cover's optional close commands and interval must all be present, or construction fails with a `KeyError` (`Cover.CreateCover`). The failure comes after the sender has already been acquired and re-initialised.

The registry is an object passed explicitly to the entity constructors. A new `Registry` stands for the module state at import time.

## Model

| member | source | states |
|---|---|---|
| `Hex.Decode` | custom_components/serial_send/serial_send.py:173 | a decoded command has at most half as many bytes as characters, and is accepted only if it consists of hex digits and whitespace |
| `Hex.Encode` | custom_components/serial_send/serial_send.py:180 | the log form of a byte string has three characters per byte: two hex digits and a space |
| `Hex.DecodeEncode` | custom_components/serial_send/serial_send.py:173-180 | decoding the log form of any byte string gives back exactly those bytes |
| `Hex.DecodeSpaceFree` | custom_components/serial_send/serial_send.py:173 | a string without whitespace decodes if and only if it is an even number of hex digits, and then gives half as many bytes |
| `SerialSend.SendResult` | custom_components/serial_send/serial_send.py:173-183 | `send_cmd` returns True exactly when the command decodes, and raises otherwise; it never returns False |
| `SerialSend.AfterSend` | custom_components/serial_send/serial_send.py:166-174 | a send leaves the port open and the busy flag and stored path unchanged. A closed port first gets the stored path as its `port` and is opened once; an open port is not reopened. Then exactly the decoded command is appended, or nothing if it does not decode. The settings stay unchanged |
| `SerialSend.SendKeepsPortOpen` | custom_components/serial_send/serial_send.py:169-171 | after one send, a second send opens nothing, and the log holds at most one open before both writes |
| `SerialSend.SerialSendInstance.constructor` | custom_components/serial_send/serial_send.py:114-125 | a new instance stores the configured path and a fresh, closed serial object with the configured settings, and is not busy |
| `SerialSend.SerialSendInstance.Init` | custom_components/serial_send/serial_send.py:114-125 | re-running `__init__` on an existing instance resets busy to False. It replaces the serial object, open or not, with a fresh closed one holding the new configuration, and replaces the stored path |
| `SerialSend.SerialSendInstance.OpenPort` | custom_components/serial_send/serial_send.py:127-140 | opening records an open of the assigned path and returns the resulting `is_open` |
| `SerialSend.SerialSendInstance.ClosePort` | custom_components/serial_send/serial_send.py:142-155 | closing records a close and returns `not is_open` |
| `SerialSend.SerialSendInstance.SetIsBusy` | custom_components/serial_send/serial_send.py:157-158 | the busy flag becomes the argument and nothing else changes |
| `SerialSend.SerialSendInstance.SendCmd` | custom_components/serial_send/serial_send.py:160-183 | the instance's new state is `AfterSend` of the old one, whatever the busy flag, and the result is `SendResult` |
| `SerialSend.Registry.constructor` | custom_components/serial_send/serial_send.py:71 | the registry starts empty, with no last-created instance |
| `SerialSend.Registry.Construct` | custom_components/serial_send/serial_send.py:84-88 | a path not yet registered gets a fresh instance, which becomes the last-created one. A registered path adds nothing and hands back the last-created instance. No existing entry is ever overwritten. The instance handed back ends in the state `__init__` gives it, and no other instance changes |
| `SerialSend.ReacquireAfterOtherPort` | custom_components/serial_send/serial_send.py:84-88 | acquiring A, then B, then A again returns B's instance (not A's), now holding A's path and not busy |
| `Scenarios.SecondLightTakesCoverSender` | custom_components/serial_send/serial_send.py:84-88 | a light on A, then a cover on B, then a second light on A: the second light gets the cover's sender, re-pointed at A, and not the first light's |
| `Cover.BeginEffect` | custom_components/serial_send/cover.py:111-115 | a begin step sets the moving state and sends the start command. It sets busy afterwards only if that send succeeded |
| `Cover.ResumeEffect` | custom_components/serial_send/cover.py:116-121 | a resume step whose state is still the one it set makes the cover idle and not busy, then sends the end command. Otherwise it changes nothing and sends nothing |
| `Cover.StopEffect` | custom_components/serial_send/cover.py:134-143 | stop always leaves the cover idle and not busy. It sends end-close exactly when the cover was closing, and end-open otherwise, including when idle |
| `Cover.UninterruptedMove` | custom_components/serial_send/cover.py:111-132 | begin then resume, in either direction, writes exactly the start and the end command and ends idle and not busy |
| `Cover.StopBeforeResume` | custom_components/serial_send/cover.py:111-143 | begin, stop, then the late resume writes exactly the start command and one end command: no duplicate end |
| `Cover.ReversalCancelsFirstEnd` | custom_components/serial_send/cover.py:111-132 | open, then close before the open resumes: the open's resume sends nothing, and only start-open, start-close and end-close are written |
| `Cover.StaleResumeEndsRestartedMove` | custom_components/serial_send/cover.py:111-143 | after begin, stop, begin again, the first call's resume ends the second move and the second call's resume then sends nothing |
| `Cover.IdleIgnoresResumes` | custom_components/serial_send/cover.py:118-121 | from the idle state, any number of resume steps change nothing |
| `Cover.ResumesAfterStopSendNothing` | custom_components/serial_send/cover.py:116-143 | however many resumes follow a stop, the state is the one the stop left |
| `Cover.RunKeepsIdleMeansFree` | custom_components/serial_send/cover.py:111-143 | for a cover that is the only user of its sender, under every sequence of its steps, an idle cover never has a busy sender |
| `Cover.RunKeepsBusyWhileMoving` | custom_components/serial_send/cover.py:111-143 | for a cover that is the only user of its sender, when all four commands decode, busy holds exactly while the cover is opening or closing, under every sequence of its steps |
| `Cover.SharedSenderClearsBusy` | custom_components/serial_send/cover.py:113-143 | when two covers share one sender, the second cover's stop clears busy while the first is still opening, so the busy invariant does not hold across covers |
| `Cover.ApplyExtends` | custom_components/serial_send/cover.py:111-143 | one step only appends to the port's log: opens of the stored path, and writes of one of the cover's four commands |
| `Cover.RunExtends` | custom_components/serial_send/cover.py:111-143 | for a cover that is the only user of its sender, under every sequence of its steps, the log only grows, and only by opens of the stored path and writes of the cover's four commands |
| `Cover.FirstMissingKey` | custom_components/serial_send/cover.py:81-83 | construction reports a missing key exactly when start-close, end-close or the interval is absent, and names one of those three keys |
| `Cover.CreateCover` | custom_components/serial_send/cover.py:75-85 | the sender is acquired first, with `Registry.Construct`'s effect: a new path registers a fresh instance, a known path leaves the registry as it was, no entry is overwritten, the last-created instance is re-initialised and no other instance changes. So the port is registered even when construction then fails. Failure happens exactly when a key is missing, and names the first one missing. On success the cover is idle, its sender is the last-created instance, and it holds the configured commands, name and interval |
| `Cover.SerialSendCover.constructor` | custom_components/serial_send/cover.py:78-85 | a new cover is idle and keeps its sender, name, commands and interval |
| `Cover.SerialSendCover.IsClosed` | custom_components/serial_send/cover.py:92-95 | whether the cover is closed is never reported |
| `Cover.SerialSendCover.IsClosing` | custom_components/serial_send/cover.py:97-99 | an idle cover is not closing |
| `Cover.SerialSendCover.IsOpening` | custom_components/serial_send/cover.py:101-103 | opening and closing are never both reported, and an idle cover is not opening |
| `Cover.SerialSendCover.SupportedFeatures` | custom_components/serial_send/cover.py:105-109 | open, close and stop are supported, and no position or tilt feature is |
| `Cover.SerialSendCover.OpenBegin` | custom_components/serial_send/cover.py:111-116 | the cover and its sender move as `AfterBegin` in the open direction. It reaches the sleep exactly when start-open decodes |
| `Cover.SerialSendCover.OpenResume` | custom_components/serial_send/cover.py:116-121 | the cover and its sender move as `AfterResume` for opening. It raises only when it was still opening and end-open does not decode |
| `Cover.SerialSendCover.CloseBegin` | custom_components/serial_send/cover.py:123-128 | the mirror of `OpenBegin` with start-close and the closing state |
| `Cover.SerialSendCover.CloseResume` | custom_components/serial_send/cover.py:128-132 | the mirror of `OpenResume` with end-close and the closing state |
| `Cover.SerialSendCover.Stop` | custom_components/serial_send/cover.py:134-143 | the cover and its sender move as `AfterStop`. It raises only when the end command it chose does not decode |
| `Light.StripSpaces` | custom_components/serial_send/light.py:63-65 | the result has no space, and has exactly the input's other characters with their multiplicities |
| `Light.StripSpacesAppend` | custom_components/serial_send/light.py:63-65 | removing spaces from a concatenation is the concatenation of the two results, so the other characters keep their order |
| `Light.StripSpacesKeepsSpaceFree` | custom_components/serial_send/light.py:63-65 | a string without spaces is left unchanged |
| `Light.StripSpacesIdempotent` | custom_components/serial_send/light.py:63-65 | removing spaces twice is the same as removing them once |
| `Light.StrippedCommandDecodesAlike` | custom_components/serial_send/light.py:63-65 | a command that decodes gives the same bytes once its spaces are removed |
| `Light.TurnOnEffect` | custom_components/serial_send/light.py:77-80 | turn on sends exactly the on command, then records on. If the send raises, the flag is unchanged. It never touches busy |
| `Light.TurnOffEffect` | custom_components/serial_send/light.py:82-85 | turn off sends exactly the off command, then records off. If the send raises, the flag is unchanged. It never touches busy |
| `Light.LastCallWins` | custom_components/serial_send/light.py:77-85 | when both commands decode, after any sequence of calls the light is on exactly when the last call was turn on (unchanged after no calls) |
| `Light.RunLightLog` | custom_components/serial_send/light.py:77-85 | a sequence of calls writes exactly one command per call, in order. Only the first call may open the port |
| `Light.SerialSendLight.constructor` | custom_components/serial_send/light.py:53-60 | a new light's sender is the registry's last-created instance, acquired with `Registry.Construct`'s effect on the registry and on every other instance. The light keeps its commands and name, and starts off |
| `Light.SerialSendLight.UniqueId` | custom_components/serial_send/light.py:62-65 | the identifier has no spaces, is unchanged by removing spaces again, and decodes like the on command whenever that command decodes |
| `Light.SerialSendLight.IsOn` | custom_components/serial_send/light.py:72-75 | `is_on` reports the stored flag that `TurnOn`, `TurnOff` and `Light.LastCallWins` describe |
| `Light.SerialSendLight.TurnOn` | custom_components/serial_send/light.py:77-80 | the light and its sender move as `AfterTurnOn`. It raises exactly when the on command does not decode |
| `Light.SerialSendLight.TurnOff` | custom_components/serial_send/light.py:82-85 | the light and its sender move as `AfterTurnOff`. It raises exactly when the off command does not decode |

## Left out

- pyserial refusals are not modelled: opening a port that is already open or has no path, OS errors, short writes. Opening and closing always succeed, and a write always takes all its bytes. The serial settings are stored but have no effect.
- `bytes.fromhex` is modelled only as far as described above. Its exact error messages are not modelled.
- `asyncio.sleep` and the `interval / 1000` float are not modelled. The await is only a boundary between a begin and a resume step. In traces, a resume step may occur at any time, even with no call asleep: every trace property is proved for all such sequences.
- Concurrency and byte-level write exclusion are not modelled; the code has none. Steps are atomic, and interleaving happens only at the await.
- Configuration schemas (voluptuous, `vol.In` option lists, defaults), `setup_platform`, `add_entities`, the host's entity base classes and logging are not modelled. A configuration is a datatype whose optional keys are `Option`s.
- The `name` properties of both entities are plain fields.
- The cover trace lemmas (`RunKeepsIdleMeansFree`, `RunKeepsBusyWhileMoving`, `RunExtends`) cover one cover's steps on a sender that no other entity uses. Other entities on the same port share the sender. Their stops clear the busy flag (`Cover.SharedSenderClearsBusy`), and their construction re-initialises the sender, which resets busy and replaces the serial object and its log. The model states no invariant across several entities.
- Only one pyserial object's log is kept per instance. When `__init__` replaces the serial object, the old object's log is no longer reachable from the instance, as in the code.
