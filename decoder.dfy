/**
 * The message handler of the MIDI monitor: the payload of a message event is
 * destructured into command, note and velocity, turned into one display line
 * through a fixed table of command values, and appended to the message log.
 */
module MidiDecoder {
  import opened Wrappers
  import Decimal

  /** One element of the event's `Uint8Array` payload. */
  type Byte = b: int | 0 <= b < 256

  /** The repository's own command numbering (178 is its "Note On", not the standard 144). */
  const NOTE_ON: nat := 178
  const NOTE_OFF: nat := 128
  const CONTROL_CHANGE: nat := 176

  const NOTE_ON_LABEL := "Note On: "
  const VELOCITY_SEP := ", Velocity: "
  const NOTE_OFF_LABEL := "Note Off: "
  const CONTROL_CHANGE_LABEL := "Control Change: "
  const VALUE_SEP := ", Value: "
  const UNHANDLED_LABEL := "Unhandled MIDI command: "

  /**
   * One variable of the destructuring `[command, note, velocity] = data`:
   * the byte at that position, or `undefined` when the payload is shorter.
   */
  datatype Field = Undefined | Num(value: nat)

  function FieldAt(data: seq<Byte>, i: nat): Field {
    if i < |data| then Num(data[i]) else Undefined
  }

  /** The text `${field}` gives. */
  function ShowField(f: Field): string {
    match f
    case Undefined => "undefined"
    case Num(n) => Decimal.Show(n)
  }

  /** The branch of the switch a payload takes, with the fields that branch shows. */
  datatype Decoded =
    | NoteOn(note: Field, velocity: Field)
    | NoteOff(note: Field)
    | ControlChange(controller: Field, value: Field)
    | Unhandled(command: Field)

  /** The switch on the command byte: every payload, even an empty one, takes exactly one branch. */
  function Classify(data: seq<Byte>): (d: Decoded)
    ensures d.NoteOn? <==> |data| > 0 && data[0] == NOTE_ON
    ensures d.NoteOff? <==> |data| > 0 && data[0] == NOTE_OFF
    ensures d.ControlChange? <==> |data| > 0 && data[0] == CONTROL_CHANGE
    ensures d.Unhandled? ==> d.command == FieldAt(data, 0)
    ensures d.NoteOn? ==> d.note == FieldAt(data, 1) && d.velocity == FieldAt(data, 2)
    ensures d.NoteOff? ==> d.note == FieldAt(data, 1)
    ensures d.ControlChange? ==> d.controller == FieldAt(data, 1) && d.value == FieldAt(data, 2)
  {
    var command, note, velocity := FieldAt(data, 0), FieldAt(data, 1), FieldAt(data, 2);
    if command == Num(NOTE_ON) then NoteOn(note, velocity)
    else if command == Num(NOTE_OFF) then NoteOff(note)
    else if command == Num(CONTROL_CHANGE) then ControlChange(note, velocity)
    else Unhandled(command)
  }

  /** The template literal of each branch. */
  function Render(d: Decoded): string {
    match d
    case NoteOn(n, v) => NOTE_ON_LABEL + (ShowField(n) + (VELOCITY_SEP + ShowField(v)))
    case NoteOff(n) => NOTE_OFF_LABEL + ShowField(n)
    case ControlChange(c, v) => CONTROL_CHANGE_LABEL + (ShowField(c) + (VALUE_SEP + ShowField(v)))
    case Unhandled(c) => UNHANDLED_LABEL + ShowField(c)
  }

  /** The display line for one present payload. */
  function Decode(data: seq<Byte>): string {
    Render(Classify(data))
  }

  // ---- Reading a display line back ----

  predicate HasPrefix(s: string, p: string) {
    |p| <= |s| && s[..|p|] == p
  }

  /** Reads one rendered field at the start of `s` and returns it with the text after it. */
  function ParseField(s: string): Option<(Field, string)> {
    if HasPrefix(s, "undefined") then Some((Undefined, s[9..]))
    else
      var k := Decimal.DigitRun(s);
      if k == 0 then None else Some((Num(Decimal.Value(s[..k])), s[k..]))
  }

  /** Reads a text that is exactly one rendered field. */
  function ParseOne(s: string): Option<Field> {
    match ParseField(s)
    case Some((f, rest)) => if rest == [] then Some(f) else None
    case None => None
  }

  /** Reads a text that is a rendered field, `sep`, and another rendered field. */
  function ParseTwo(s: string, sep: string): Option<(Field, Field)> {
    match ParseField(s)
    case Some((f, rest)) =>
      if HasPrefix(rest, sep) then
        match ParseOne(rest[|sep|..])
        case Some(g) => Some((f, g))
        case None => None
      else None
    case None => None
  }

  /** Recovers the branch and the shown fields from a display line; `None` for text no branch produces. */
  function Parse(s: string): Option<Decoded> {
    if HasPrefix(s, NOTE_ON_LABEL) then
      match ParseTwo(s[|NOTE_ON_LABEL|..], VELOCITY_SEP)
      case Some((n, v)) => Some(NoteOn(n, v))
      case None => None
    else if HasPrefix(s, NOTE_OFF_LABEL) then
      match ParseOne(s[|NOTE_OFF_LABEL|..])
      case Some(n) => Some(NoteOff(n))
      case None => None
    else if HasPrefix(s, CONTROL_CHANGE_LABEL) then
      match ParseTwo(s[|CONTROL_CHANGE_LABEL|..], VALUE_SEP)
      case Some((c, v)) => Some(ControlChange(c, v))
      case None => None
    else if HasPrefix(s, UNHANDLED_LABEL) then
      match ParseOne(s[|UNHANDLED_LABEL|..])
      case Some(c) => Some(Unhandled(c))
      case None => None
    else None
  }

  lemma {:induction false} ParseFieldShow(f: Field, rest: string)
    requires rest == [] || !Decimal.IsDigit(rest[0])
    ensures ParseField(ShowField(f) + rest) == Some((f, rest))
  {
    var s := ShowField(f) + rest;
    match f
    case Undefined =>
      assert s[..9] == "undefined" && s[9..] == rest;
    case Num(n) =>
      var d := Decimal.Show(n);
      assert s[0] == d[0] && Decimal.IsDigit(s[0]);
      assert !HasPrefix(s, "undefined");
      Decimal.DigitRunOfDigits(d, rest);
      assert s[..|d|] == d && s[|d|..] == rest;
      Decimal.ValueOfShow(n);
  }

  lemma ParseOneShow(f: Field)
    ensures ParseOne(ShowField(f)) == Some(f)
  {
    ParseFieldShow(f, []);
    assert ShowField(f) + [] == ShowField(f);
  }

  /** Reading `a`, then `sep`, then exactly `b`, given how `a` and `b` are read on their own. */
  lemma ParseTwoOf(a: string, sep: string, b: string, f: Field, g: Field)
    requires ParseField(a + (sep + b)) == Some((f, sep + b))
    requires ParseOne(b) == Some(g)
    ensures ParseTwo(a + (sep + b), sep) == Some((f, g))
  {
    assert (sep + b)[..|sep|] == sep && (sep + b)[|sep|..] == b;
  }

  lemma ParseTwoShow(f: Field, sep: string, g: Field)
    requires sep != [] && !Decimal.IsDigit(sep[0])
    ensures ParseTwo(ShowField(f) + (sep + ShowField(g)), sep) == Some((f, g))
  {
    ParseFieldShow(f, sep + ShowField(g));
    ParseOneShow(g);
    ParseTwoOf(ShowField(f), sep, ShowField(g), f, g);
  }

  lemma NotPrefixAtFirst(s: string, p: string)
    requires s != [] && p != [] && s[0] != p[0]
    ensures !HasPrefix(s, p)
  {
  }

  /** `head + body` starts with `head`, and what follows it is `body`. */
  lemma LabelThen(head: string, body: string)
    ensures HasPrefix(head + body, head) && (head + body)[|head|..] == body
  {
    assert (head + body)[..|head|] == head;
  }

  lemma ParseRenderNoteOn(n: Field, v: Field)
    ensures Parse(Render(NoteOn(n, v))) == Some(NoteOn(n, v))
  {
    var body := ShowField(n) + (VELOCITY_SEP + ShowField(v));
    LabelThen(NOTE_ON_LABEL, body);
    ParseTwoShow(n, VELOCITY_SEP, v);
  }

  lemma ParseRenderNoteOff(n: Field)
    ensures Parse(Render(NoteOff(n))) == Some(NoteOff(n))
  {
    var s := NOTE_OFF_LABEL + ShowField(n);
    LabelThen(NOTE_OFF_LABEL, ShowField(n));
    assert s[6] == 'f' && NOTE_ON_LABEL[6] == 'n';
    assert !HasPrefix(s, NOTE_ON_LABEL);
    ParseOneShow(n);
  }

  lemma ParseRenderControlChange(c: Field, v: Field)
    ensures Parse(Render(ControlChange(c, v))) == Some(ControlChange(c, v))
  {
    var body := ShowField(c) + (VALUE_SEP + ShowField(v));
    var s := CONTROL_CHANGE_LABEL + body;
    LabelThen(CONTROL_CHANGE_LABEL, body);
    NotPrefixAtFirst(s, NOTE_ON_LABEL);
    NotPrefixAtFirst(s, NOTE_OFF_LABEL);
    ParseTwoShow(c, VALUE_SEP, v);
  }

  lemma ParseRenderUnhandled(c: Field)
    ensures Parse(Render(Unhandled(c))) == Some(Unhandled(c))
  {
    var s := UNHANDLED_LABEL + ShowField(c);
    LabelThen(UNHANDLED_LABEL, ShowField(c));
    NotPrefixAtFirst(s, NOTE_ON_LABEL);
    NotPrefixAtFirst(s, NOTE_OFF_LABEL);
    NotPrefixAtFirst(s, CONTROL_CHANGE_LABEL);
    ParseOneShow(c);
  }

  /** Every display line is read back to the branch and fields that produced it. */
  lemma ParseRender(d: Decoded)
    ensures Parse(Render(d)) == Some(d)
  {
    match d
    case NoteOn(n, v) => ParseRenderNoteOn(n, v);
    case NoteOff(n) => ParseRenderNoteOff(n);
    case ControlChange(c, v) => ParseRenderControlChange(c, v);
    case Unhandled(c) => ParseRenderUnhandled(c);
  }

  // ---- Properties of the decoder ----

  /** The decoding table, as exact display lines. */
  lemma DecodeTable(data: seq<Byte>)
    ensures |data| > 0 && data[0] == NOTE_ON ==>
      Decode(data) == "Note On: " + (ShowField(FieldAt(data, 1)) + (", Velocity: " + ShowField(FieldAt(data, 2))))
    ensures |data| > 0 && data[0] == NOTE_OFF ==>
      Decode(data) == "Note Off: " + ShowField(FieldAt(data, 1))
    ensures |data| > 0 && data[0] == CONTROL_CHANGE ==>
      Decode(data) == "Control Change: " + (ShowField(FieldAt(data, 1)) + (", Value: " + ShowField(FieldAt(data, 2))))
    ensures (|data| == 0 || data[0] !in {NOTE_ON, NOTE_OFF, CONTROL_CHANGE}) ==>
      Decode(data) == "Unhandled MIDI command: " + ShowField(FieldAt(data, 0))
  {
  }

  /** A full three-byte "Note On" payload shows both bytes in decimal. */
  lemma DecodeNoteOnBytes(note: Byte, velocity: Byte)
    ensures Decode([NOTE_ON, note, velocity]) == "Note On: " + (Decimal.Show(note) + (", Velocity: " + Decimal.Show(velocity)))
  {
  }

  /** An empty payload is still decoded: its command is `undefined`, which no case matches. */
  lemma DecodeEmpty()
    ensures Decode([]) == "Unhandled MIDI command: undefined"
  {
  }

  /** A display line is read back to the branch the payload took and the fields that branch shows. */
  lemma ParseDecode(data: seq<Byte>)
    ensures Parse(Decode(data)) == Some(Classify(data))
  {
    ParseRender(Classify(data));
  }

  /** Two payloads give the same display line exactly when they take the same branch with the same shown fields. */
  lemma {:induction false} DecodeSameLine(a: seq<Byte>, b: seq<Byte>)
    ensures Decode(a) == Decode(b) <==> Classify(a) == Classify(b)
  {
    if Decode(a) == Decode(b) {
      ParseDecode(a);
      ParseDecode(b);
      assert Some(Classify(a)) == Parse(Decode(a)) == Parse(Decode(b)) == Some(Classify(b));
    }
  }

  /** Bytes after the third are never looked at. */
  lemma DecodeIgnoresTail(data: seq<Byte>, tail: seq<Byte>)
    requires |data| >= 3
    ensures Decode(data + tail) == Decode(data)
  {
    assert FieldAt(data + tail, 0) == FieldAt(data, 0);
    assert FieldAt(data + tail, 1) == FieldAt(data, 1);
    assert FieldAt(data + tail, 2) == FieldAt(data, 2);
  }

  // ---- The message log ----

  /**
   * One call of the handler: an absent payload is dropped; a present one,
   * even empty, appends exactly one display line after all earlier lines.
   */
  function HandleMessage(payload: Option<seq<Byte>>, log: seq<string>): (r: seq<string>)
    ensures payload.None? ==> r == log
    ensures payload.Some? ==> |r| == |log| + 1 && r[..|log|] == log
    ensures payload.Some? ==> r[|log|] == Decode(payload.value)
  {
    match payload
    case None => log
    case Some(data) => log + [Decode(data)]
  }

  /** The display lines of a sequence of present payloads, in order. */
  function DecodeAll(payloads: seq<seq<Byte>>): (r: seq<string>)
    ensures |r| == |payloads|
  {
    if payloads == [] then [] else [Decode(payloads[0])] + DecodeAll(payloads[1..])
  }

  /** The payloads of a sequence of events that are present, in order. */
  function Present(events: seq<Option<seq<Byte>>>): seq<seq<Byte>> {
    if events == [] then []
    else (if events[0].Some? then [events[0].value] else []) + Present(events[1..])
  }

  /** The log after the handler has been called once per event, in order. */
  function Replay(log: seq<string>, events: seq<Option<seq<Byte>>>): seq<string>
    decreases events
  {
    if events == [] then log else Replay(HandleMessage(events[0], log), events[1..])
  }

  lemma DecodeAllCons(p: seq<Byte>, ps: seq<seq<Byte>>)
    ensures DecodeAll([p] + ps) == [Decode(p)] + DecodeAll(ps)
  {
    assert ([p] + ps)[1..] == ps;
  }

  lemma PresentCons(e: Option<seq<Byte>>, es: seq<Option<seq<Byte>>>)
    ensures e.None? ==> Present([e] + es) == Present(es)
    ensures e.Some? ==> Present([e] + es) == [e.value] + Present(es)
  {
    assert ([e] + es)[1..] == es;
  }

  lemma AppendOneThen(log: seq<string>, line: string, more: seq<string>)
    ensures (log + [line]) + more == log + ([line] + more)
  {
  }

  /** Handling a run of events keeps the old log as a prefix and appends one line per present payload, in arrival order. */
  lemma {:induction false} ReplayAppends(log: seq<string>, events: seq<Option<seq<Byte>>>)
    ensures Replay(log, events) == log + DecodeAll(Present(events))
    decreases events
  {
    if events != [] {
      var e, rest := events[0], events[1..];
      assert events == [e] + rest;
      PresentCons(e, rest);
      var next := HandleMessage(e, log);
      ReplayAppends(next, rest);
      if e.Some? {
        DecodeAllCons(e.value, Present(rest));
        AppendOneThen(log, Decode(e.value), DecodeAll(Present(rest)));
      }
    }
  }
}
