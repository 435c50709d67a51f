/**
 * The state of the MIDI monitor component and the event callbacks that change it:
 * the outcome of the access request, the port state-change callback, the arrival
 * of a message on a device, and the effect that re-wires every input's message
 * handler whenever the input list changes.
 */
module MidiMonitor {
  import opened Wrappers
  import MidiDecoder

  type DeviceId = string

  /** An input port as enumerated from the access handle's input map. */
  datatype Device = Device(id: DeviceId, name: Option<string>, manufacturer: Option<string>)

  datatype PortKind = Input | Output
  datatype PortState = Connected | Disconnected

  /** The port carried by a state-change event. */
  datatype Port = Port(kind: PortKind, state: PortState, name: Option<string>)

  /** The message handler installed by one run of the inputs effect; each run creates a new closure. */
  datatype Handler = DecodeAndAppend(run: nat)

  function StateText(s: PortState): string {
    match s
    case Connected => "connected"
    case Disconnected => "disconnected"
  }

  /** A port name as a template literal renders it; a missing name prints as "null". */
  function NameText(n: Option<string>): string {
    match n
    case Some(s) => s
    case None => "null"
  }

  /** The status line a state-change event sets: only an input port produces one. */
  function StatusLine(port: Option<Port>): (r: Option<string>)
    ensures r.Some? <==> port.Some? && port.value.kind == Input
    ensures r.Some? ==> r.value == "MIDI input " + StateText(port.value.state) + " : " + NameText(port.value.name)
  {
    if port.Some? && port.value.kind == Input then
      Some("MIDI input " + StateText(port.value.state) + " : " + NameText(port.value.name))
    else None
  }

  /** `err.message || err`: the error's message unless it is missing or empty, else the error converted to text. */
  function FailureReason(errMessage: Option<string>, errText: string): (r: string)
    ensures errMessage.Some? && errMessage.value != "" ==> r == errMessage.value
    ensures errMessage.None? || errMessage.value == "" ==> r == errText
  {
    match errMessage
    case Some(m) => if m != "" then m else errText
    case None => errText
  }

  const ERROR_PREFIX := "Error accessing MIDI devices: "

  /** The identifiers of a list of devices. */
  function Ids(devices: seq<Device>): set<DeviceId> {
    set i | 0 <= i < |devices| :: devices[i].id
  }

  /** Exactly the devices of `devices` have a message handler, and it is `h`. */
  ghost predicate SubscribedExactly(handlers: map<DeviceId, Handler>, devices: seq<Device>, h: Handler) {
    handlers.Keys == Ids(devices) && forall id :: id in handlers ==> handlers[id] == h
  }

  class Monitor {
    var inputs: seq<Device>
    var error: Option<string>
    var message: Option<string>
    var messages: seq<string>
    var sysexEnabled: bool
    /** True once access was granted and the state-change callback is installed. */
    var listening: bool
    /**
     * The `onmidimessage` property of every device: a device that is not a key
     * has the property set to null.
     */
    var handlers: map<DeviceId, Handler>
    /** The input list the last run of the inputs effect subscribed, which its cleanup will unsubscribe. */
    var subscribed: seq<Device>
    /** How many times the inputs effect has run. */
    var runs: nat

    /** Every device the last effect run subscribed has that run's handler, and no other device has one. */
    ghost predicate Valid()
      reads this
    {
      SubscribedExactly(handlers, subscribed, DecodeAndAppend(runs))
    }

    /** The state after the component has mounted, before the access request settles. */
    constructor ()
      ensures Valid()
      ensures inputs == [] && error == None && message == None && messages == []
      ensures !sysexEnabled && !listening && handlers == map[] && subscribed == [] && runs == 0
    {
      inputs, error, message, messages := [], None, None, [];
      sysexEnabled, listening := false, false;
      handlers, subscribed, runs := map[], [], 0;
    }

    /** The access request succeeded: record the inputs and install the state-change callback. */
    method AccessGranted(snapshot: seq<Device>)
      modifies this
      ensures inputs == snapshot && sysexEnabled && listening
      ensures error == old(error) && message == old(message) && messages == old(messages)
      ensures handlers == old(handlers) && subscribed == old(subscribed) && runs == old(runs)
    {
      sysexEnabled := true;
      inputs := snapshot;
      listening := true;
    }

    /** The access request failed: show the reason and mark SysEx as unavailable. */
    method AccessFailed(errMessage: Option<string>, errText: string)
      modifies this
      ensures error == Some(ERROR_PREFIX + FailureReason(errMessage, errText)) && !sysexEnabled
      ensures inputs == old(inputs) && message == old(message) && messages == old(messages)
      ensures listening == old(listening)
      ensures handlers == old(handlers) && subscribed == old(subscribed) && runs == old(runs)
    {
      error := Some(ERROR_PREFIX + FailureReason(errMessage, errText));
      sysexEnabled := false;
    }

    /**
     * A port connected or disconnected: the input list is replaced by the full
     * current snapshot, and the status line changes only for an input port.
     * Before access is granted no callback is installed and nothing changes.
     */
    method StateChange(snapshot: seq<Device>, port: Option<Port>)
      modifies this
      ensures inputs == (if old(listening) then snapshot else old(inputs))
      ensures message == (if old(listening) && StatusLine(port).Some? then StatusLine(port) else old(message))
      ensures error == old(error) && messages == old(messages) && sysexEnabled == old(sysexEnabled)
      ensures listening == old(listening)
      ensures handlers == old(handlers) && subscribed == old(subscribed) && runs == old(runs)
    {
      if listening {
        inputs := snapshot;
        var line := StatusLine(port);
        if line.Some? {
          message := line;
        }
      }
    }

    /** A message arrives on device `id`: it reaches the log only if the device has a handler. */
    method MessageArrives(id: DeviceId, payload: Option<seq<MidiDecoder.Byte>>)
      modifies this
      ensures messages == (if id in handlers then MidiDecoder.HandleMessage(payload, old(messages)) else old(messages))
      ensures inputs == old(inputs) && error == old(error) && message == old(message)
      ensures sysexEnabled == old(sysexEnabled) && listening == old(listening)
      ensures handlers == old(handlers) && subscribed == old(subscribed) && runs == old(runs)
    {
      if id in handlers {
        messages := MidiDecoder.HandleMessage(payload, messages);
      }
    }

    /** Sets handler `h` on every device of `devices`; every other device keeps what it had. */
    method Attach(devices: seq<Device>, h: Handler)
      modifies this`handlers
      ensures handlers.Keys == old(handlers.Keys) + Ids(devices)
      ensures forall id :: id in Ids(devices) ==> handlers[id] == h
      ensures forall id :: id in old(handlers) && id !in Ids(devices) ==> handlers[id] == old(handlers[id])
    {
      var i := 0;
      while i < |devices|
        invariant 0 <= i <= |devices|
        invariant handlers.Keys == old(handlers.Keys) + Ids(devices[..i])
        invariant forall id :: id in Ids(devices[..i]) ==> handlers[id] == h
        invariant forall id :: id in old(handlers) && id !in Ids(devices[..i]) ==> handlers[id] == old(handlers[id])
      {
        assert Ids(devices[..i + 1]) == Ids(devices[..i]) + {devices[i].id} by {
          assert devices[..i + 1] == devices[..i] + [devices[i]];
        }
        handlers := handlers[devices[i].id := h];
        i := i + 1;
      }
      assert devices[..i] == devices;
    }

    /** Clears the handler of every device of `devices`; every other device keeps what it had. */
    method Detach(devices: seq<Device>)
      modifies this`handlers
      ensures handlers.Keys == old(handlers.Keys) - Ids(devices)
      ensures forall id :: id in handlers ==> handlers[id] == old(handlers[id])
    {
      var i := 0;
      while i < |devices|
        invariant 0 <= i <= |devices|
        invariant handlers.Keys == old(handlers.Keys) - Ids(devices[..i])
        invariant forall id :: id in handlers ==> handlers[id] == old(handlers[id])
      {
        assert Ids(devices[..i + 1]) == Ids(devices[..i]) + {devices[i].id} by {
          assert devices[..i + 1] == devices[..i] + [devices[i]];
        }
        handlers := handlers - {devices[i].id};
        i := i + 1;
      }
      assert devices[..i] == devices;
    }

    /**
     * The cleanup the inputs effect returns: it clears the handler of every
     * input the last run subscribed. React runs it before the next run and
     * when the component unmounts; afterwards no device has a handler.
     */
    method InputsCleanup()
      requires Valid()
      modifies this`handlers
      ensures handlers == map[]
    {
      Detach(subscribed);
    }

    /**
     * The inputs effect re-running after the input list changed: the previous
     * run's cleanup clears the handler of every input it subscribed, then a new
     * handler is set on every current input. Afterwards exactly the current
     * inputs have a handler, and all of them the new one.
     */
    method InputsEffect()
      requires Valid()
      modifies this
      ensures Valid() && subscribed == inputs && runs == old(runs) + 1
      ensures SubscribedExactly(handlers, inputs, DecodeAndAppend(runs))
      ensures forall id :: id in old(handlers) && id !in Ids(inputs) ==> id !in handlers
      ensures inputs == old(inputs) && error == old(error) && message == old(message)
      ensures messages == old(messages) && sysexEnabled == old(sysexEnabled) && listening == old(listening)
    {
      InputsCleanup();
      runs := runs + 1;
      Attach(inputs, DecodeAndAppend(runs));
      subscribed := inputs;
    }
  }
}
