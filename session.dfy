/**
 * The activity's connection state: the connection it holds, the sensor handler
 * that forwards to it, and the menu and click-button state that follows
 * whether it is connected. Connection and SensorHandler are kept abstract: a
 * connection is its readiness flags and the lines written on it, a sensor
 * handler its selected sensor, whether it is registered, and its connection.
 */
module Session {
  import opened Text
  import opened Wire
  import Dispatch

  /** One socket to one server. */
  class Connection {
    const host: string
    const port: int
    var isConnected: bool
    var canSend: bool
    var disconnected: bool
    var sent: seq<string>
    /** Every line handed to Send, written or dropped. */
    ghost var attempts: seq<string>

    ghost predicate Valid()
      reads this
    {
      (canSend ==> isConnected) && (disconnected ==> !isConnected)
    }

    /** Opening succeeded: the socket is connected, ready, and nothing is written yet. */
    constructor (host: string, port: int)
      ensures Valid()
      ensures this.host == host && this.port == port
      ensures isConnected && canSend && !disconnected && sent == [] && attempts == []
    {
      this.host := host;
      this.port := port;
      isConnected, canSend, disconnected := true, true, false;
      sent, attempts := [], [];
    }

    /** Writes one line; a connection that cannot send drops it. */
    method Send(line: string)
      modifies this`sent, this`attempts
      ensures attempts == old(attempts) + [line]
      ensures sent == if canSend then old(sent) + [line] else old(sent)
    {
      attempts := attempts + [line];
      if canSend {
        sent := sent + [line];
      }
    }

    /** Closes the socket; nothing can be sent afterwards. */
    method Disconnect()
      modifies this`isConnected, this`canSend, this`disconnected
      ensures Valid()
      ensures disconnected && !isConnected && !canSend
    {
      isConnected, canSend, disconnected := false, false, true;
    }

    /** The peer closed the socket or an I/O error was seen. */
    method Lose()
      requires Valid()
      modifies this`isConnected, this`canSend
      ensures Valid()
      ensures !isConnected && !canSend
    {
      isConnected, canSend := false, false;
    }
  }

  /** The motion pipeline's control surface. */
  class SensorHandler {
    var selected: nat
    var registered: bool
    var connection: Connection?
    /** Every sensor the handler has been told to switch to, in order. */
    ghost var switches: seq<nat>
    /** What the attached connection had been sent when it was attached. */
    ghost var writtenBeforeAttach: seq<string>

    constructor (initial: nat)
      ensures selected == initial && !registered && connection == null && switches == []
      ensures writtenBeforeAttach == []
    {
      selected, registered, connection := initial, false, null;
      switches, writtenBeforeAttach := [], [];
    }

    method SetSelectedSensor(which: nat)
      modifies this`selected, this`switches
      ensures selected == which
      ensures switches == old(switches) + [which]
    {
      selected := which;
      switches := switches + [which];
    }

    method RegisterSensor()
      modifies this`registered
      ensures registered
    {
      registered := true;
    }

    method UnregisterSensor()
      modifies this`registered
      ensures !registered
    {
      registered := false;
    }

    method SetConnection(c: Connection?)
      modifies this`connection, this`writtenBeforeAttach
      ensures connection == c
      ensures writtenBeforeAttach == if c == null then [] else c.sent
    {
      connection := c;
      writtenBeforeAttach := if c == null then [] else c.sent;
    }
  }

  const ConnectTitle: string := "Connect"
  const DisconnectTitle: string := "Disconnect"

  /** What the connect menu item does. */
  datatype ConnectStep = Disconnected | NoNetwork | Discover

  class Activity {
    var connection: Connection?
    const sensor: SensorHandler
    var connectTitle: string
    var recalibrateEnabled: bool
    var clickVisible: bool

    /**
     * The sensor handler forwards to the activity's own connection; the connect
     * title, the recalibrate item and the click button change together, and are
     * only ever in their connected state once a connection exists; every line on
     * the connection is the handshake followed by commands.
     */
    ghost predicate Valid()
      reads this, sensor, connection
    {
      sensor.connection == connection &&
      (connection != null ==> connection.Valid() && WellFormedLog(connection.sent)) &&
      recalibrateEnabled == clickVisible &&
      connectTitle == (if clickVisible then DisconnectTitle else ConnectTitle) &&
      (clickVisible ==> connection != null)
    }

    /** The activity is created with no connection and the disconnected menu. */
    constructor (initialSensor: nat)
      ensures Valid() && fresh(sensor)
      ensures connection == null
      ensures sensor.selected == initialSensor && !sensor.registered && sensor.switches == []
      ensures connectTitle == ConnectTitle && !recalibrateEnabled && !clickVisible
    {
      connection := null;
      sensor := new SensorHandler(initialSensor);
      connectTitle := ConnectTitle;
      recalibrateEnabled, clickVisible := false, false;
    }

    /**
     * Puts the menu and the button in their disconnected state, stops the
     * sensor, and closes the connection if there is one.
     */
    method Disconnect()
      requires Valid()
      modifies this`connectTitle, this`recalibrateEnabled, this`clickVisible, sensor`registered, connection
      ensures Valid()
      ensures connectTitle == ConnectTitle && !recalibrateEnabled && !clickVisible && !sensor.registered
      ensures connection != null ==> connection.disconnected && !connection.canSend
      ensures connection != null ==> connection.sent == old(connection.sent)
      ensures connection != null ==> connection.attempts == old(connection.attempts)
    {
      clickVisible := false;
      connectTitle := ConnectTitle;
      recalibrateEnabled := false;
      sensor.UnregisterSensor();
      if connection != null {
        connection.Disconnect();
      }
    }

    /**
     * The connect menu item toggles: a live connection is closed; otherwise,
     * without a network nothing happens, and with one discovery starts.
     */
    method OnConnectAction(networkUp: bool) returns (step: ConnectStep)
      requires Valid()
      modifies this`connectTitle, this`recalibrateEnabled, this`clickVisible, sensor`registered, connection
      ensures Valid()
      ensures step == Disconnected <==> old(connection != null && connection.isConnected)
      ensures step == NoNetwork <==> old(connection == null || !connection.isConnected) && !networkUp
      ensures step == Disconnected ==> !clickVisible && !sensor.registered && connection.disconnected
      ensures connection != null ==> connection.sent == old(connection.sent)
      ensures connection != null ==> connection.attempts == old(connection.attempts)
      ensures step != Disconnected ==> unchanged(this, sensor)
      ensures step != Disconnected && connection != null ==> unchanged(connection)
    {
      if connection != null && connection.isConnected {
        Disconnect();
        return Disconnected;
      }
      if !networkUp {
        return NoNetwork;
      }
      return Discover;
    }

    /**
     * Connecting to a chosen server, as one step: if the socket opens, the
     * handshake is the first line on the new connection, the sensor handler is
     * attached to it, the sensor is registered and the menu and button switch to
     * their connected state; if it does not open, nothing changes.
     */
    method ConnectTo(host: string, port: int, opens: bool, manufacturer: string, model: string)
      returns (ok: bool)
      requires Valid()
      modifies this, sensor
      ensures Valid()
      ensures ok == opens
      ensures sensor.selected == old(sensor.selected) && sensor.switches == old(sensor.switches)
      ensures ok ==> fresh(connection) && connection.host == host && connection.port == port
      ensures ok ==> connection.sent == [Handshake(manufacturer, model, sensor.selected)] && connection.canSend
      ensures ok ==> connection.attempts == connection.sent
      ensures ok ==> sensor.writtenBeforeAttach == [Handshake(manufacturer, model, sensor.selected)]
      ensures ok ==> sensor.registered && connectTitle == DisconnectTitle && recalibrateEnabled && clickVisible
      ensures !ok ==> unchanged(this, sensor)
    {
      if !opens {
        return false;
      }
      var c := new Connection(host, port);
      connection := c;
      c.Send(Handshake(manufacturer, model, sensor.selected));
      sensor.SetConnection(c);
      WellFormedLogStart(manufacturer, model, sensor.selected);
      sensor.RegisterSensor();
      connectTitle := DisconnectTitle;
      recalibrateEnabled := true;
      clickVisible := true;
      return true;
    }

    /**
     * The recalibrate menu item: "reset" is handed to the connection only when
     * one exists and can send.
     */
    method SendRecalibrate()
      requires Valid()
      modifies connection
      ensures Valid()
      ensures connection != null ==>
                connection.attempts == old(connection.attempts) + (if old(connection.canSend) then [CommandLine(Reset)] else [])
      ensures connection != null ==>
                connection.sent == old(connection.sent) + (if connection.canSend then [CommandLine(Reset)] else [])
      ensures connection != null ==>
                connection.canSend == old(connection.canSend) && connection.isConnected == old(connection.isConnected)
                && connection.disconnected == old(connection.disconnected)
    {
      if connection != null && connection.canSend {
        WellFormedLogAppend(connection.sent, Reset);
        connection.Send(CommandLine(Reset));
      }
    }

    /**
     * The click button's touch listener: a press or a release is consumed and,
     * only on a connection that can send, handed to it as "tap on" or "tap
     * off"; any other action is passed on and hands nothing over.
     */
    method OnTouch(action: int) returns (consumed: bool)
      requires Valid()
      modifies connection
      ensures Valid()
      ensures consumed <==> action == ActionDown || action == ActionUp
      ensures connection != null ==>
                connection.attempts == old(connection.attempts) +
                  (if consumed && old(connection.canSend) then [CommandLine(TapCommand(action).value)] else [])
      ensures connection != null ==>
                connection.sent == old(connection.sent) +
                  (if consumed && connection.canSend then [CommandLine(TapCommand(action).value)] else [])
      ensures connection != null ==>
                connection.canSend == old(connection.canSend) && connection.isConnected == old(connection.isConnected)
                && connection.disconnected == old(connection.disconnected)
    {
      var tap := TapCommand(action);
      if tap.None? {
        return false;
      }
      if connection != null && connection.canSend {
        WellFormedLogAppend(connection.sent, tap.value);
        connection.Send(CommandLine(tap.value));
      }
      return true;
    }

    /** The sensor picker: only a different sensor is passed to the sensor handler. */
    method OnSensorChosen(which: nat) returns (switched: bool)
      requires Valid()
      modifies sensor`selected, sensor`switches
      ensures Valid()
      ensures switched <==> which != old(sensor.selected)
      ensures sensor.selected == which
      ensures sensor.switches == old(sensor.switches) + (if switched then [which] else [])
    {
      switched := sensor.selected != which;
      if switched {
        sensor.SetSelectedSensor(which);
      }
    }
  }

  /**
   * A session from the contracts alone: discovery finds one server, the user
   * picks it, the connection opens, the click button is pressed and released,
   * and the connect item is used again to disconnect, after which recalibrating
   * writes nothing.
   */
  method ExampleSession(server: Dispatch.Server, manufacturer: string, model: string, sensor: nat)
  {
    var activity := new Activity(sensor);
    var step := activity.OnConnectAction(true);
    assert step == Discover;

    var outcome := Dispatch.OnDiscoveryResult(None, Some([server]));
    assert outcome == Dispatch.Picker([server]);
    var choice := Dispatch.OnServerChosen(outcome.servers, 0);
    assert choice == Dispatch.ConnectTo(server.host, server.port);

    var ok := activity.ConnectTo(choice.host, choice.port, true, manufacturer, model);
    var c := activity.connection;
    var hello := Handshake(manufacturer, model, sensor);
    assert c.sent == [hello];

    var consumed := activity.OnTouch(ActionDown);
    assert consumed && c.sent == [hello, CommandLine(TapOn)];
    consumed := activity.OnTouch(ActionUp);
    var log := [hello, CommandLine(TapOn), CommandLine(TapOff)];
    assert consumed && c.sent == log;

    step := activity.OnConnectAction(true);
    assert step == Disconnected && !c.canSend;
    activity.SendRecalibrate();
    assert c.sent == log && c.attempts == log;

    var switched := activity.OnSensorChosen(sensor);
    assert !switched && activity.sensor.switches == [];
  }

  /**
   * A connection the liveness watcher has lost while the activity still holds
   * it: a press is still consumed, but neither the tap nor a recalibration is
   * handed to the connection.
   */
  method LostConnectionIsSilent(server: Dispatch.Server, manufacturer: string, model: string, sensor: nat)
  {
    var activity := new Activity(sensor);
    var ok := activity.ConnectTo(server.host, server.port, true, manufacturer, model);
    var c := activity.connection;
    var hello := [Handshake(manufacturer, model, sensor)];
    c.Lose();
    assert activity.Valid();

    var consumed := activity.OnTouch(ActionDown);
    assert consumed && c.attempts == hello;
    activity.SendRecalibrate();
    assert c.attempts == hello && c.sent == hello;
  }
}
