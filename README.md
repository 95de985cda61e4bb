# AirMouse client: connection logic of the main activity

AirMouse turns an Android phone into a remote pointer. The main activity finds a
server on the LAN, connects to it, and then streams lines to it: a handshake
that names the device and the selected motion sensor, `tap on` / `tap off` from
the click button, and `reset` to recalibrate. This project models the logic of
`MainActivity` that decides what happens at each of those steps, and proves
what those steps promise:

- `text.dfy` (module `Text`): the parts of Java's `String` and `Integer` that the
  activity relies on. These are `replace(char, char)`, `trim()`, `Integer.toString`
  and `Integer.parseInt`. There is also a split/join on a separator, which is how
  a peer takes a line apart.
- `wire.dfy` (module `Wire`): the handshake, tap and reset lines. Each comes with
  the parser a peer would use, and round-trip lemmas show that the lines are
  unambiguous. The handshake always has exactly three space-separated tokens.
- `dispatch.dfy` (module `Dispatch`): the four-way table for a discovery result,
  the rows of the server picker and what a tapped row leads to, and the checks on
  a manually entered address and port.
- `session.dfy` (module `Session`): `Connection`, `SensorHandler` and `Activity`
  as classes. `Connection` and `SensorHandler` are abstract: a connection holds
  its `isConnected`/`canSend`/`disconnected` flags and the log of lines written
  on it; a sensor handler holds its selected sensor, its registration flag and
  its connection. The activity's handlers are methods that keep one invariant,
  `Activity.Valid`:
  - the sensor handler forwards to the activity's own connection;
  - the connect title, the recalibrate item and the click button change together;
  - they show the connected state only when a connection exists;
  - every line on the connection is the handshake followed by commands.

  Two scenario methods use the contracts alone. `Session.ExampleSession` walks
  through discovery, picking the server, connecting, a tap, and disconnecting.
  `Session.LostConnectionIsSilent` shows that a lost connection is handed no
  tap and no `reset`.

Each background task (discovery, connecting) is one atomic step. Its result comes
in as a parameter: the `(error, list)` pair for discovery, and whether the socket
opened (`opens`) for connecting. The network check is the boolean `networkUp`.
`Build.MANUFACTURER` and `Build.MODEL` are string parameters.

Three behaviours of the code that a reader might not expect are modelled as written:

- When discovery reports an error together with a non-empty server list, the list
  is dropped. No picker opens and manual entry does not open either
  (`Dispatch.PartialDiscoveryDropsServers`).
- The port typed by hand is not checked to be in 1-65535. Any value
  `Integer.parseInt` accepts is used.
- A port that `Integer.parseInt` rejects is the outcome `PortNotNumber`. The
  source does not catch that exception.

## Model

| member | source | states |
|---|---|---|
| `Text.Replace` | AirMouse/src/main/java/net/rolisoft/airmouse/MainActivity.java:360 | same length; each `from` becomes `to` and every other character is kept; no `from` remains when `from` and `to` differ |
| `Text.NatToString` | AirMouse/src/main/java/net/rolisoft/airmouse/MainActivity.java:360 | the sensor number is written as at least one decimal digit, with no leading zero |
| `Text.DigitsOfNatToString` | AirMouse/src/main/java/net/rolisoft/airmouse/MainActivity.java:360 | reading the decimal digits back gives the number written |
| `Text.IntToString` | AirMouse/src/main/java/net/rolisoft/airmouse/MainActivity.java:204 | a port is written non-empty, starting with `-` exactly when it is negative and otherwise with a digit, and ending with a digit; there is no leading zero except in `0` itself, and none after the minus sign |
| `Text.ParseInt` | AirMouse/src/main/java/net/rolisoft/airmouse/MainActivity.java:285 | a parsed port fits in 32 bits and is negative only after a `-`; the text is an optional sign followed by one or more decimal digits |
| `Text.DigitsValueLeadingZeros` | AirMouse/src/main/java/net/rolisoft/airmouse/MainActivity.java:285 | leading zeros do not change the value of a run of digits |
| `Text.ParseIntSigned` | AirMouse/src/main/java/net/rolisoft/airmouse/MainActivity.java:285 | no sign, `+` or `-` before a run of digits is read as the digits' value, negated after `-`, exactly when that fits in 32 bits |
| `Text.ParseIntDecimal` | AirMouse/src/main/java/net/rolisoft/airmouse/MainActivity.java:285 | a sign or none, any number of leading zeros and the decimal digits of n are read as n, or -n after `-`, whenever that fits in 32 bits |
| `Text.ParseIntOfIntToString` | AirMouse/src/main/java/net/rolisoft/airmouse/MainActivity.java:285 | `parseInt` reads back every 32-bit value `toString` writes |
| `Text.LeadingBlanks` | AirMouse/src/main/java/net/rolisoft/airmouse/MainActivity.java:274 | the count of leading characters at or below U+0020: all of them are blank and the next character, if any, is not |
| `Text.TrailingBlanks` | AirMouse/src/main/java/net/rolisoft/airmouse/MainActivity.java:279 | the count of trailing characters at or below U+0020: all of them are blank and the character before them, if any, is not |
| `Text.Trim` | AirMouse/src/main/java/net/rolisoft/airmouse/MainActivity.java:274-285 | the trimmed text is the slice of the input that starts after its leading blanks and is followed only by blanks; it is empty exactly when the input is all blanks, and otherwise starts and ends with a non-blank |
| `Text.TrimKeepsTrimmed` | AirMouse/src/main/java/net/rolisoft/airmouse/MainActivity.java:285 | text that starts and ends with a non-blank is left as it is |
| `Text.TrimIdempotent` | AirMouse/src/main/java/net/rolisoft/airmouse/MainActivity.java:285 | trimming twice is trimming once |
| `Text.Split` | AirMouse/src/main/java/net/rolisoft/airmouse/MainActivity.java:360 | a line splits into at least one token, and no token contains the separator |
| `Text.SplitJoin` | AirMouse/src/main/java/net/rolisoft/airmouse/MainActivity.java:360 | tokens without the separator, joined and split again, are the same tokens |
| `Text.JoinSplit` | AirMouse/src/main/java/net/rolisoft/airmouse/MainActivity.java:360 | a line split and joined again is the same line |
| `Wire.DeviceLabel` | AirMouse/src/main/java/net/rolisoft/airmouse/MainActivity.java:360 | the label is `MANUFACTURER + " " + MODEL` character for character, except that every space, the joining one included, is `_`; so it has no space |
| `Wire.ParseHandshake` | AirMouse/src/main/java/net/rolisoft/airmouse/MainActivity.java:360 | an accepted line starts with `RS-AirMouse ` and its device label has no space |
| `Wire.Handshake` | AirMouse/src/main/java/net/rolisoft/airmouse/MainActivity.java:360 | the handshake splits on `' '` into exactly three tokens: the tag `RS-AirMouse`, the device label and the 1-based sensor number |
| `Wire.HandshakeRoundTrip` | AirMouse/src/main/java/net/rolisoft/airmouse/MainActivity.java:360 | a peer recovers the device label and the 0-based selected sensor from the handshake |
| `Wire.ExampleHandshake` | AirMouse/src/main/java/net/rolisoft/airmouse/MainActivity.java:360 | manufacturer `Pixel`, model `7` and sensor index 1 give `RS-AirMouse Pixel_7 2` |
| `Wire.TapCommand` | AirMouse/src/main/java/net/rolisoft/airmouse/MainActivity.java:474-481 | only `ACTION_DOWN` and `ACTION_UP` give a command; press is `tap on` and release is `tap off`; neither is `reset` |
| `Wire.CommandLine` | AirMouse/src/main/java/net/rolisoft/airmouse/MainActivity.java:450 | `reset` here and `tap on` / `tap off` at line 481 are each read back by a peer as the command it was written for |
| `Wire.CommandsAreNotHandshakes` | AirMouse/src/main/java/net/rolisoft/airmouse/MainActivity.java:358-361 | no command line reads as a handshake, and no handshake reads as a command |
| `Wire.WellFormedLogStart` | AirMouse/src/main/java/net/rolisoft/airmouse/MainActivity.java:359-360 | a connection whose only line is the handshake has a well-formed log |
| `Wire.WellFormedLogAppend` | AirMouse/src/main/java/net/rolisoft/airmouse/MainActivity.java:448-452 | appending a command to a well-formed log keeps it well formed |
| `Dispatch.OnDiscoveryResult` | AirMouse/src/main/java/net/rolisoft/airmouse/MainActivity.java:162-182 | the error is shown exactly when there is one; manual entry opens exactly when the list is null or empty; the picker opens exactly when there is no error and some server, and it lists those servers |
| `Dispatch.PartialDiscoveryDropsServers` | AirMouse/src/main/java/net/rolisoft/airmouse/MainActivity.java:162-173 | an error with a non-empty list only shows the error |
| `Dispatch.ServerItem` | AirMouse/src/main/java/net/rolisoft/airmouse/MainActivity.java:204 | a server row is the host, then `:`, then the port in decimal; for a 32-bit port, `parseInt` of the text after the colon is that port |
| `Dispatch.ServerItemIsNotManual` | AirMouse/src/main/java/net/rolisoft/airmouse/MainActivity.java:204-207 | no server row reads as the manual-entry row |
| `Dispatch.PickerRows` | AirMouse/src/main/java/net/rolisoft/airmouse/MainActivity.java:201-207 | there are `size + 1` rows; row `i` describes server `i` and the last row is the manual option |
| `Dispatch.PickerItems` | AirMouse/src/main/java/net/rolisoft/airmouse/MainActivity.java:201-207 | the array the loop fills is a new array that holds exactly the picker's rows |
| `Dispatch.OnServerChosen` | AirMouse/src/main/java/net/rolisoft/airmouse/MainActivity.java:213-218 | index `size` leads to manual entry; any other index connects to the server at that index |
| `Dispatch.ChosenRowDescribesChoice` | AirMouse/src/main/java/net/rolisoft/airmouse/MainActivity.java:201-218 | the tapped row is the manual row exactly when manual entry follows; otherwise it names the host and port connected to |
| `Dispatch.OnManualConnect` | AirMouse/src/main/java/net/rolisoft/airmouse/MainActivity.java:274-285 | a blank address is refused first, then a blank port; otherwise the connection uses the trimmed, non-empty address and the port `parseInt` reads from the trimmed port text |
| `Dispatch.ManualEntryReachesServer` | AirMouse/src/main/java/net/rolisoft/airmouse/MainActivity.java:274-285 | typing a server's host and its port, each with any blank padding on either side or none, connects to exactly that server |
| `Dispatch.TrimPadded` | AirMouse/src/main/java/net/rolisoft/airmouse/MainActivity.java:285 | trimming removes blank padding of any lengths on both sides and nothing else |
| `Dispatch.LeadingBlanksPadded` | AirMouse/src/main/java/net/rolisoft/airmouse/MainActivity.java:274 | blank padding before text that starts with a non-blank is counted exactly |
| `Dispatch.TrailingBlanksPadded` | AirMouse/src/main/java/net/rolisoft/airmouse/MainActivity.java:279 | blank padding after text that ends with a non-blank is counted exactly |
| `Dispatch.PaddedPortParses` | AirMouse/src/main/java/net/rolisoft/airmouse/MainActivity.java:285 | a 32-bit port written in decimal, with any blank padding, is read back by trim and `parseInt` as that port |
| `Dispatch.ManualConnectAccepts` | AirMouse/src/main/java/net/rolisoft/airmouse/MainActivity.java:274-285 | a non-empty trimmed address and a port text that parses always lead to a connection with those values |
| `Session.Connection.constructor` | AirMouse/src/main/java/net/rolisoft/airmouse/MainActivity.java:359 | a connection that opened is connected, can send, and has written nothing |
| `Session.Connection.Send` | AirMouse/src/main/java/net/rolisoft/airmouse/MainActivity.java:360 | every line handed over is recorded as an attempt; it is appended to the written log exactly when the connection can send |
| `Session.Connection.Disconnect` | AirMouse/src/main/java/net/rolisoft/airmouse/MainActivity.java:439 | afterwards the connection is disconnected, not connected, and cannot send |
| `Session.SensorHandler.constructor` | AirMouse/src/main/java/net/rolisoft/airmouse/MainActivity.java:48 | a new handler is unregistered and has no connection |
| `Session.SensorHandler.SetSelectedSensor` | AirMouse/src/main/java/net/rolisoft/airmouse/MainActivity.java:311 | the selected sensor becomes the given one and the switch is recorded |
| `Session.SensorHandler.RegisterSensor` | AirMouse/src/main/java/net/rolisoft/airmouse/MainActivity.java:383 | only the registration flag changes, to registered |
| `Session.SensorHandler.UnregisterSensor` | AirMouse/src/main/java/net/rolisoft/airmouse/MainActivity.java:436 | only the registration flag changes, to unregistered |
| `Session.SensorHandler.SetConnection` | AirMouse/src/main/java/net/rolisoft/airmouse/MainActivity.java:361 | only the attached connection changes, and the handler records what that connection had been sent when it was attached |
| `Session.Activity.constructor` | AirMouse/src/main/java/net/rolisoft/airmouse/MainActivity.java:38-49 | the activity starts with no connection, an unregistered sensor, and the disconnected menu and button |
| `Session.Activity.Disconnect` | AirMouse/src/main/java/net/rolisoft/airmouse/MainActivity.java:430-443 | the title becomes `Connect`, recalibrate is disabled, the button is hidden and the sensor unregistered; a connection, if any, is closed without writing anything |
| `Session.Activity.OnConnectAction` | AirMouse/src/main/java/net/rolisoft/airmouse/MainActivity.java:100-115 | with a live connection it disconnects and starts no discovery; otherwise it stops without a network and starts discovery with one, changing nothing |
| `Session.Activity.ConnectTo` | AirMouse/src/main/java/net/rolisoft/airmouse/MainActivity.java:357-390 | on success the handshake is the only line on the new connection, written before the sensor handler is attached to it; the handler is then attached and registered, and the menu and button show the connected state; on failure nothing changes |
| `Session.Activity.SendRecalibrate` | AirMouse/src/main/java/net/rolisoft/airmouse/MainActivity.java:448-452 | `reset` is handed to the connection exactly when one exists and can send, and nothing else is handed over; the invariant is kept |
| `Session.Activity.OnTouch` | AirMouse/src/main/java/net/rolisoft/airmouse/MainActivity.java:473-485 | a press or release is consumed and other events are not; the matching tap line is handed to the connection exactly when the event is consumed and the connection can send |
| `Session.Activity.OnSensorChosen` | AirMouse/src/main/java/net/rolisoft/airmouse/MainActivity.java:309-317 | the handler is told to switch exactly when the chosen sensor differs from the current one, and is then told once; afterwards that sensor is selected |

## Left out

- Dialogs, toasts, progress dialogs, menu inflation, fragments and layouts are not modelled. Only the menu title, the recalibrate flag and the click button's visibility are kept. The error messages shown are not modelled beyond the discovery error text.
- The activity lifecycle (`onResume` registering the sensor, `onPause` unregistering it) is not modelled. The source registers the sensor on resume whether or not a connection exists, so registration is not part of the activity invariant.
- The initial menu title, recalibrate state and button visibility come from resource files that are not part of this model. The model starts in the disconnected state: `Connect`, disabled, hidden.
- `AsyncTask` threading is not modelled. Each background task is one atomic step with its result as a parameter, so races between tasks and user input are not modelled.
- `ConnectivityManager`/`NetworkInfo` is the boolean `networkUp`.
- The internals of `Connection` (sockets, `discoverServers`), `SensorHandler` (sensor registration, filtering, calibration, motion lines) and `Tuple` are not part of this model. A connection that fails to open is the parameter `opens`. The abstract `Send` drops a line when the connection cannot send; the ghost `attempts` log records every line handed to it, so that what the activity hands over can be stated. `Lose` stands for the liveness watcher, which this model cannot see; `Session.LostConnectionIsSilent` uses it to show that a lost connection is handed no tap and no `reset`. Nothing in the visible source calls `disconnect(false)`.
- Motion messages, dead-zone and calibration maths, and discovery deduplication have no visible source and are left out.
- `Session.Activity.Disconnect` drops the `voluntary` flag, which only selects the toast text.
- `Session.Activity.ConnectTo` replaces the held connection without closing the previous one, as the source does. The model does not track the old connection after that.
- `Text.ParseInt` accepts ASCII digits only. Java's `Character.digit` also accepts other Unicode decimal digits.
- `Build.MANUFACTURER` and `Build.MODEL` are arbitrary string parameters. Java strings become Dafny strings of Unicode scalar values: a lone surrogate cannot be written, and a character above U+FFFF is one `char` rather than two, so lengths such as that of the device label count it once. `trim` and `replace(' ', '_')` only inspect characters up to U+0020, so they are unaffected.
- The selected sensor is a `nat`, because the sensor list only reports non-negative indices. The `int` overflow of `getSelectedSensor() + 1` is not modelled.
