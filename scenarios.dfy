/**
 * Sequences of the monitor's callbacks in the order the browser delivers them,
 * each with the display lines and status text it must leave behind.
 */
module MonitorScenarios {
  import opened Wrappers
  import MidiMonitor
  import MidiDecoder
  import Decimal

  /**
   * Access is granted with no inputs; device "A" then connects, the inputs
   * effect re-wires the handlers, and "A" sends [176, 7, 100].
   */
  method HotPlugThenControlChange() returns (status: Option<string>, log: seq<string>, subscribed: set<string>)
    ensures status == Some("MIDI input connected : A")
    ensures log == ["Control Change: 7, Value: 100"]
    ensures subscribed == {"A"}
  {
    var m := new MidiMonitor.Monitor();
    m.AccessGranted([]);
    m.InputsEffect();
    var a := MidiMonitor.Device("A", Some("A"), Some("Access"));
    var event := Some(MidiMonitor.Port(MidiMonitor.Input, MidiMonitor.Connected, Some("A")));
    m.StateChange([a], event);
    assert MidiMonitor.StateText(MidiMonitor.Connected) == "connected";
    assert MidiMonitor.NameText(Some("A")) == "A";
    assert "MIDI input " + "connected" + " : " + "A" == "MIDI input connected : A";
    assert MidiMonitor.StatusLine(event) == Some("MIDI input connected : A");
    m.InputsEffect();
    IdsOfOne(a);
    m.MessageArrives("A", Some([176, 7, 100]));
    assert m.messages == [MidiDecoder.Decode([176, 7, 100])];
    ControlChangeLine();
    status, log, subscribed := m.message, m.messages, m.handlers.Keys;
  }

  lemma ShowHundred()
    ensures Decimal.Show(100) == "100"
  {
    assert Decimal.DigitChar(0) == '0' && Decimal.DigitChar(1) == '1';
    assert Decimal.Show(1) == "1";
    assert Decimal.Show(10) == Decimal.Show(1) + ['0'] == "10";
    assert Decimal.Show(100) == Decimal.Show(10) + ['0'];
  }

  lemma ControlChangeLine()
    ensures MidiDecoder.Decode([176, 7, 100]) == "Control Change: 7, Value: 100"
  {
    var data: seq<MidiDecoder.Byte> := [176, 7, 100];
    assert Decimal.DigitChar(7) == '7';
    assert Decimal.Show(7) == "7";
    ShowHundred();
    assert MidiDecoder.Classify(data) == MidiDecoder.ControlChange(
      MidiDecoder.Num(7), MidiDecoder.Num(100));
  }

  lemma IdsOfOne(a: MidiMonitor.Device)
    ensures MidiMonitor.Ids([a]) == {a.id}
  {
    assert [a][0].id == a.id;
  }

  lemma IdsOfPair(a: MidiMonitor.Device, b: MidiMonitor.Device)
    ensures MidiMonitor.Ids([a, b]) == {a.id, b.id}
  {
    assert [a, b][0].id == a.id && [a, b][1].id == b.id;
  }

  /** The same state-change event delivered twice leaves one handler per device, all from the latest effect run. */
  method RedeliveredStateChange() returns (handlers: map<string, MidiMonitor.Handler>)
    ensures handlers.Keys == {"A", "B"}
    ensures handlers["A"] == handlers["B"] == MidiMonitor.DecodeAndAppend(3)
  {
    var m := new MidiMonitor.Monitor();
    var a := MidiMonitor.Device("A", None, None);
    var b := MidiMonitor.Device("B", None, None);
    m.AccessGranted([a, b]);
    m.InputsEffect();
    var event := Some(MidiMonitor.Port(MidiMonitor.Input, MidiMonitor.Connected, Some("B")));
    m.StateChange([a, b], event);
    m.InputsEffect();
    m.StateChange([a, b], event);
    m.InputsEffect();
    IdsOfPair(a, b);
    handlers := m.handlers;
  }

  /** A refused request shows its reason, leaves no inputs and no SysEx. */
  method AccessRefused() returns (error: Option<string>, inputs: seq<MidiMonitor.Device>, sysex: bool)
    ensures error == Some("Error accessing MIDI devices: permission denied")
    ensures inputs == [] && !sysex
  {
    var m := new MidiMonitor.Monitor();
    m.AccessFailed(Some("permission denied"), "NotAllowedError: permission denied");
    assert MidiMonitor.FailureReason(Some("permission denied"), "NotAllowedError: permission denied") == "permission denied";
    assert MidiMonitor.ERROR_PREFIX + "permission denied" == "Error accessing MIDI devices: permission denied";
    m.InputsEffect();
    error, inputs, sysex := m.error, m.inputs, m.sysexEnabled;
  }
}
