# MIDI monitor — a Dafny model

This project models the logic of a small browser MIDI monitor. The monitor is a
single React component (`src/App.tsx`). It asks the browser for Web MIDI access
with SysEx enabled and lists the connected input ports. It sets a message handler
on every input, and it turns each incoming MIDI message into one line of text in a
growing log.

The model has five modules:

- `Wrappers` (`wrappers.dfy`) holds the `Option` datatype, used for values that
  may be `null` or `undefined`.
- `Decimal` (`decimal.dfy`) renders a byte the way a template literal does
  (`${n}`), and so it does for any integer up to 2^53. It also reads such text
  back.
- `MidiDecoder` (`decoder.dfy`) is the message handler and is pure. `Classify` is
  the destructuring `[command, note, velocity] = event.data` and the `switch` on the
  command. A payload field that is missing is the value `undefined`. `Render` gives
  the template literal of each branch, and `Decode` is the two composed.
  `HandleMessage` appends one line to the log. `Parse` is the decoder's inverse:
  every line is read back to the branch and the fields that produced it. The repository's own command numbers are kept:
  178 is "Note On", 128 is "Note Off" and 176 is "Control Change".
- `MidiMonitor` (`monitor.dfy`) is the component's state as a class `Monitor`. Its
  fields are `inputs`, `error`, `message`, `messages` and `sysexEnabled`. It also
  holds the handler table: a map from device id to the handler currently in that
  device's `onmidimessage`. The callbacks are methods:
  - `AccessGranted` and `AccessFailed` are the two outcomes of the access request.
  - `StateChange` is `access.onstatechange`.
  - `MessageArrives` is a message delivered to a device.
  - `InputsEffect` is the effect that depends on `inputs`. Its `Detach` and
    `Attach` loops are the cleanup `forEach` and the subscribe `forEach`.
    `InputsCleanup` is that cleanup on its own, as React also runs it on unmount.
  - `Valid()` is the object invariant: exactly the devices subscribed by the last
    effect run have a handler, and that run's handler is the only one anywhere.
- `MonitorScenarios` (`scenarios.dfy`) chains the callbacks in browser order and
  states the exact text that must result.

## Model

| member | source | states |
|---|---|---|
| `MidiDecoder.Classify` | src/App.tsx:51-68 | A payload takes the "Note On" branch exactly when it has a first byte equal to 178. The same holds for "Note Off" with 128 and for "Control Change" with 176. Every other payload is unhandled, including an empty one, and it carries its first field. The fields a branch shows are the payload's bytes 1 and 2, or `undefined` when the payload is too short. |
| `MidiDecoder.DecodeTable` | src/App.tsx:55-68 | Gives the exact display line for each status. 178 gives "Note On: <note>, Velocity: <velocity>". 128 gives "Note Off: <note>", without the velocity. 176 gives "Control Change: <note>, Value: <velocity>". Any other status gives "Unhandled MIDI command: <status>". |
| `MidiDecoder.DecodeNoteOnBytes` | src/App.tsx:57-58 | A full three-byte payload starting with 178 shows its note and velocity in decimal. |
| `MidiDecoder.DecodeEmpty` | src/App.tsx:50-51 | An empty payload is still decoded. Its command is `undefined`, so it gives "Unhandled MIDI command: undefined". |
| `MidiDecoder.DecodeIgnoresTail` | src/App.tsx:51 | Bytes after the third never change the display line. |
| `MidiDecoder.ParseRender` | src/App.tsx:55-68 | Reading back any rendered line gives the branch and the fields that produced it, so the four line shapes never overlap. |
| `MidiDecoder.ParseDecode` | src/App.tsx:55-68 | Reading back a payload's display line gives exactly that payload's classification. |
| `MidiDecoder.DecodeSameLine` | src/App.tsx:55-68 | Two payloads give the same line if and only if they take the same branch with the same shown fields. |
| `MidiDecoder.HandleMessage` | src/App.tsx:49-71 | An absent payload leaves the log unchanged. A present payload, even an empty one, appends exactly one line, its decoded text, at the end. All earlier lines are kept in order. |
| `MidiDecoder.ReplayAppends` | src/App.tsx:70 | After any run of message events, the log is the old log followed by one decoded line per present payload, in arrival order. |
| `Decimal.Show` | src/App.tsx:58 | The rendering of a number is a non-empty string of decimal digits. It starts with '0' only for zero. |
| `Decimal.ValueOfShow` | src/App.tsx:58 | Reading a rendered number back gives the number, so distinct bytes render differently. |
| `MidiMonitor.StatusLine` | src/App.tsx:25-27 | A status line exists if and only if the event carries a port whose type is input. The line is "MIDI input <state> : <name>", and a missing name prints as "null". |
| `MidiMonitor.FailureReason` | src/App.tsx:30 | `err.message || err`: the error's message when it is present and non-empty, otherwise the error as text. |
| `MidiMonitor.Monitor.constructor` | src/App.tsx:5-10 | Initial state: no inputs, no error, no status line, an empty log, SysEx off and no handlers. |
| `MidiMonitor.Monitor.AccessGranted` | src/App.tsx:15-22 | Sets `inputs` to the access handle's input snapshot, sets `sysexEnabled` to true and installs the state-change callback. Nothing else changes. |
| `MidiMonitor.Monitor.AccessFailed` | src/App.tsx:29-31 | Sets `error` to "Error accessing MIDI devices: <reason>" and `sysexEnabled` to false. Nothing else changes. |
| `MidiMonitor.Monitor.StateChange` | src/App.tsx:22-28 | Replaces `inputs` with the full current snapshot. `message` becomes the status line only for an input port and is otherwise unchanged. Nothing else changes. |
| `MidiMonitor.Monitor.MessageArrives` | src/App.tsx:49-74 | A message on a device that has a handler changes the log exactly as `HandleMessage` does. A message on a device without a handler changes nothing. |
| `MidiMonitor.Monitor.Attach` | src/App.tsx:73-75 | Every listed device gets the given handler. Every other device keeps what it had. |
| `MidiMonitor.Monitor.Detach` | src/App.tsx:77-81 | Every listed device loses its handler. Every other device keeps what it had. |
| `MidiMonitor.Monitor.InputsCleanup` | src/App.tsx:77-81 | The cleanup returned by the inputs effect, run before the next run and on unmount: afterwards no device has a handler. |
| `MidiMonitor.Monitor.InputsEffect` | src/App.tsx:73-81 | The previous run's cleanup followed by a new run. Afterwards exactly the current inputs have a handler, all of them the new one. Any device outside the current inputs has none, so no stale handler is left. |
| `MonitorScenarios.HotPlugThenControlChange` | src/App.tsx:22-81 | Device "A" connects and then sends [176, 7, 100]. The status line is "MIDI input connected : A", the log is exactly ["Control Change: 7, Value: 100"] and only "A" has a handler. |
| `MonitorScenarios.RedeliveredStateChange` | src/App.tsx:73-81 | Delivering the same state change twice leaves one handler per device, all from the latest effect run. |
| `MonitorScenarios.AccessRefused` | src/App.tsx:29-31 | A refused request leaves "Error accessing MIDI devices: permission denied", no inputs and SysEx off. |

## Left out

- Rendering is not modelled, because it is UI. This covers the JSX, the list markup, the "No MIDI inputs detected." text, the unsupported-browser banner and the `noMidi` check (src/App.tsx:84, 89-124).
- `navigator.requestMIDIAccess({sysex: true})` and the permission prompt are not modelled, because they are a browser API called asynchronously (src/App.tsx:15). Only the two outcomes are modelled, as `AccessGranted` and `AccessFailed`. The input snapshot and the error are parameters.
- `setMidiAccess` is not modelled as a field (src/App.tsx:16). The model keeps only `listening`, which records that `onstatechange` is installed.
- The mount-time cleanup is not modelled (src/App.tsx:38-45). It reads `midiAccess` as captured at mount, which is `null`, so it never clears any handler or the state-change callback. The model makes no teardown guarantee for it.
- The `console.log` calls are not modelled, because they are diagnostics only (src/App.tsx:53, 86).
- React scheduling is not modelled. The caller must invoke `InputsEffect` after each change of `inputs`, as React re-runs the effect after every `setInputs` with a new array; the model does not force this order.
- `MidiMonitor.Monitor.InputsEffect`: a handler's identity is the number of the effect run that created it. The model does not represent the closure itself. Every such closure has the same behaviour, `MidiDecoder.HandleMessage` on the shared log.
- `onmidimessage` is a single property per device, so at most one handler per device exists by construction. Listeners added with `addEventListener` do not occur in the source and are not modelled.
- Device identity is the port id. Name and manufacturer are carried but only read by the rendering.
- 178 is labelled "Note On" (src/App.tsx:57-58), and the log keeps every line (src/App.tsx:70).
- Only an absent payload is dropped (`!event.data`, src/App.tsx:50). An empty `Uint8Array` is truthy, so it is decoded as "Unhandled MIDI command: undefined".
