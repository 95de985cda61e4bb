/**
 * The text lines the activity writes on a connection: the handshake that
 * identifies the device and its sensor, the tap press/release commands of the
 * click button and the recalibration command. Each line is matched by the way a
 * peer reads it back, so that the lines are shown to be unambiguous.
 */
module Wire {
  import opened Text

  /** The protocol tag that opens every handshake. */
  const Tag: string := "RS-AirMouse"

  /** MotionEvent.ACTION_DOWN and MotionEvent.ACTION_UP. */
  const ActionDown: int := 0
  const ActionUp: int := 1

  // ---------------------------------------------------------------------------
  // Handshake

  /** Build.MANUFACTURER + " " + Build.MODEL with every space turned into '_'. */
  function DeviceLabel(manufacturer: string, model: string): (name: string)
    ensures ' ' !in name
    ensures |name| == |manufacturer| + 1 + |model|
    ensures name[|manufacturer|] == '_'
    ensures forall i :: 0 <= i < |manufacturer| ==>
              name[i] == (if manufacturer[i] == ' ' then '_' else manufacturer[i])
    ensures forall i :: 0 <= i < |model| ==>
              name[|manufacturer| + 1 + i] == (if model[i] == ' ' then '_' else model[i])
  {
    var raw := manufacturer + " " + model;
    assert forall i :: 0 <= i < |model| ==> raw[|manufacturer| + 1 + i] == model[i];
    Replace(raw, ' ', '_')
  }

  /**
   * The identity line: the tag, the device label and the 1-based index of the
   * selected sensor, separated by single spaces, so that it splits on ' ' into
   * exactly those three tokens.
   */
  function Handshake(manufacturer: string, model: string, sensor: nat): (line: string)
    ensures Split(line, ' ') == [Tag, DeviceLabel(manufacturer, model), NatToString(sensor + 1)]
  {
    var parts := [Tag, DeviceLabel(manufacturer, model), NatToString(sensor + 1)];
    var line := Tag + " " + DeviceLabel(manufacturer, model) + " " + NatToString(sensor + 1);
    NoSpaceInDigits(parts[2]);
    assert ' ' !in Tag;
    assert Join(parts, ' ') == line by {
      assert parts[1..] == [parts[1], parts[2]];
      assert parts[1..][1..] == [parts[2]];
      assert Join(parts[1..], ' ') == parts[1] + " " + parts[2];
    }
    SplitJoin(parts, ' ');
    line
  }

  datatype Hello = Hello(device: string, sensor: nat)

  /**
   * How a peer reads a handshake: exactly three space-separated tokens, the
   * tag, a label, and a positive decimal sensor number.
   */
  function ParseHandshake(line: string): (h: Option<Hello>)
    ensures h.Some? ==> ' ' !in h.value.device
    ensures h.Some? ==> |line| > |Tag| && line[..|Tag| + 1] == Tag + " "
  {
    var parts := Split(line, ' ');
    if |parts| == 3 && parts[0] == Tag && parts[2] != [] && AllDigits(parts[2]) && DigitsValue(parts[2]) >= 1 then
      JoinSplit(line, ' ');
      assert parts[1..][1..] == [parts[2]];
      assert Join(parts[1..], ' ') == parts[1] + " " + parts[2];
      assert line == Tag + " " + (parts[1] + " " + parts[2]);
      Some(Hello(parts[1], DigitsValue(parts[2]) - 1))
    else
      None
  }

  lemma NoSpaceInDigits(s: string)
    requires AllDigits(s)
    ensures ' ' !in s
  {
  }

  /** A peer recovers the device label and the 0-based sensor index from the handshake. */
  lemma HandshakeRoundTrip(manufacturer: string, model: string, sensor: nat)
    ensures ParseHandshake(Handshake(manufacturer, model, sensor))
         == Some(Hello(DeviceLabel(manufacturer, model), sensor))
  {
    DigitsOfNatToString(sensor + 1);
  }

  /** A device whose manufacturer is "Pixel" and model "7", on the second sensor. */
  lemma ExampleHandshake()
    ensures Handshake("Pixel", "7", 1) == "RS-AirMouse Pixel_7 2"
  {
  }

  // ---------------------------------------------------------------------------
  // Commands

  datatype Command = TapOn | TapOff | Reset

  /** The line written for a command; a peer reads it back as that command. */
  function CommandLine(c: Command): (line: string)
    ensures ParseCommand(line) == Some(c)
  {
    match c
    case TapOn => "tap " + "on"
    case TapOff => "tap " + "off"
    case Reset => "reset"
  }

  /** The click button's touch action as a command: press is TapOn, release TapOff, the rest nothing. */
  function TapCommand(action: int): (c: Option<Command>)
    ensures c.Some? <==> action == ActionDown || action == ActionUp
    ensures c.Some? ==> c.value != Reset
    ensures c == Some(TapOn) <==> action == ActionDown
  {
    if action == ActionDown then Some(TapOn)
    else if action == ActionUp then Some(TapOff)
    else None
  }

  /** How a peer reads a command line. */
  function ParseCommand(line: string): Option<Command>
  {
    if line == "tap on" then Some(TapOn)
    else if line == "tap off" then Some(TapOff)
    else if line == "reset" then Some(Reset)
    else None
  }

  /** A command is never taken for a handshake, and a handshake never for a command. */
  lemma CommandsAreNotHandshakes(c: Command, manufacturer: string, model: string, sensor: nat)
    ensures ParseHandshake(CommandLine(c)) == None
    ensures ParseCommand(Handshake(manufacturer, model, sensor)) == None
  {
  }

  /**
   * The lines on one connection: a handshake first, then only commands. Motion
   * lines written by the sensor handler are not part of this model.
   */
  predicate WellFormedLog(log: seq<string>)
  {
    |log| >= 1 && ParseHandshake(log[0]).Some? &&
    forall i :: 1 <= i < |log| ==> ParseCommand(log[i]).Some?
  }

  lemma WellFormedLogStart(manufacturer: string, model: string, sensor: nat)
    ensures WellFormedLog([Handshake(manufacturer, model, sensor)])
  {
    HandshakeRoundTrip(manufacturer, model, sensor);
  }

  lemma WellFormedLogAppend(log: seq<string>, c: Command)
    requires WellFormedLog(log)
    ensures WellFormedLog(log + [CommandLine(c)])
  {
  }
}
