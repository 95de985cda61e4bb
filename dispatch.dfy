/**
 * The decisions the activity takes between "connect" and opening a socket:
 * what to show for a discovery result, the rows of the server picker and what a
 * tapped row leads to, and the checks on a manually entered address and port.
 */
module Dispatch {
  import opened Text

  /** A discovered or typed-in endpoint (the source's Tuple<String, Integer>). */
  datatype Server = Server(host: string, port: int)

  // ---------------------------------------------------------------------------
  // Discovery result

  /** What the activity shows once discovery has finished. */
  datatype DiscoveryOutcome =
    | ErrorThenManual(message: string)
    | ErrorOnly(message: string)
    | NoServersThenManual
    | Picker(servers: seq<Server>)

  predicate ShowsError(o: DiscoveryOutcome) {
    o.ErrorThenManual? || o.ErrorOnly?
  }

  predicate OpensManualEntry(o: DiscoveryOutcome) {
    o.ErrorThenManual? || o.NoServersThenManual?
  }

  /** The server list is null or empty. */
  predicate NoServers(servers: Option<seq<Server>>) {
    servers.None? || |servers.value| == 0
  }

  /**
   * The discovery task's (exception, server list) pair. The error is shown
   * exactly when there is one; manual entry opens exactly when no server came
   * back; the picker opens exactly when there is no error and some server.
   */
  function OnDiscoveryResult(error: Option<string>, servers: Option<seq<Server>>): (o: DiscoveryOutcome)
    ensures ShowsError(o) <==> error.Some?
    ensures ShowsError(o) ==> o.message == error.value
    ensures OpensManualEntry(o) <==> NoServers(servers)
    ensures o.Picker? <==> error.None? && !NoServers(servers)
    ensures o.Picker? ==> o.servers == servers.value && |o.servers| >= 1
  {
    if error.Some? then
      if NoServers(servers) then ErrorThenManual(error.value) else ErrorOnly(error.value)
    else
      if NoServers(servers) then NoServersThenManual else Picker(servers.value)
  }

  /** Servers found alongside an error are dropped: neither listed nor followed by manual entry. */
  lemma PartialDiscoveryDropsServers(message: string, servers: seq<Server>)
    requires |servers| >= 1
    ensures OnDiscoveryResult(Some(message), Some(servers)) == ErrorOnly(message)
  {
  }

  // ---------------------------------------------------------------------------
  // Server picker

  const ManualItem: string := "Specify manually ->"

  /**
   * A picker row: the host, a colon, and the port in decimal, which reads back
   * as the port whenever it is a 32-bit value.
   */
  function ServerItem(s: Server): (item: string)
    ensures |item| > |s.host| + 1 && item[|s.host|] == ':'
    ensures item[..|s.host|] == s.host
    ensures item[|s.host| + 1..] == IntToString(s.port)
    ensures InInt32(s.port) ==> ParseInt(item[|s.host| + 1..]) == Some(s.port)
  {
    var item := s.host + ":" + IntToString(s.port);
    assert item[|s.host| + 1..] == IntToString(s.port);
    if InInt32(s.port) then
      ParseIntOfIntToString(s.port);
      item
    else
      item
  }

  lemma ServerItemIsNotManual(s: Server)
    ensures ServerItem(s) != ManualItem
  {
  }

  /** The picker's rows: one per server, in order, then the manual-entry row. */
  function PickerRows(servers: seq<Server>): (rows: seq<string>)
    ensures |rows| == |servers| + 1
    ensures forall i :: 0 <= i < |servers| ==> rows[i] == ServerItem(servers[i])
    ensures rows[|servers|] == ManualItem
  {
    seq(|servers| + 1, k requires 0 <= k <= |servers| => if k < |servers| then ServerItem(servers[k]) else ManualItem)
  }

  /** Fills the picker's item array the way the dialog does, one server per slot. */
  method PickerItems(servers: seq<Server>) returns (items: array<string>)
    ensures fresh(items)
    ensures items[..] == PickerRows(servers)
  {
    items := new string[|servers| + 1];
    var i := 0;
    while i < |servers|
      invariant 0 <= i <= |servers|
      invariant forall k :: 0 <= k < i ==> items[k] == ServerItem(servers[k])
    {
      items[i] := ServerItem(servers[i]);
      i := i + 1;
    }
    items[|servers|] := ManualItem;
    ghost var rows := PickerRows(servers);
    forall k | 0 <= k < items.Length
      ensures items[k] == rows[k]
    {
    }
    assert items[..] == rows;
  }

  /** What a tapped picker row leads to. */
  datatype Choice = ManualEntry | ConnectTo(host: string, port: int)

  /**
   * The picker reports the index of the tapped row; the last row opens manual
   * entry and every other row connects to the server listed at that index.
   */
  function OnServerChosen(servers: seq<Server>, which: int): (c: Choice)
    requires 0 <= which <= |servers|
    ensures c.ManualEntry? <==> which == |servers|
    ensures c.ConnectTo? ==> Server(c.host, c.port) == servers[which]
  {
    if which == |servers| then ManualEntry else ConnectTo(servers[which].host, servers[which].port)
  }

  /** The row the user taps is the row that describes what happens next. */
  lemma ChosenRowDescribesChoice(servers: seq<Server>, which: int)
    requires 0 <= which <= |servers|
    ensures OnServerChosen(servers, which).ManualEntry? <==> PickerRows(servers)[which] == ManualItem
    ensures OnServerChosen(servers, which).ConnectTo? ==>
              PickerRows(servers)[which]
              == ServerItem(Server(OnServerChosen(servers, which).host, OnServerChosen(servers, which).port))
  {
  }

  // ---------------------------------------------------------------------------
  // Manual entry

  /** What the connect button of the manual dialog does. */
  datatype ManualOutcome =
    | AddressEmpty
    | PortEmpty
    | PortNotNumber   // Integer.parseInt throws; the dialog does not catch it
    | Connect(host: string, port: int)

  /**
   * A blank address is refused first, then a blank port; otherwise the trimmed
   * address and the trimmed port, read as a decimal int, are used to connect.
   */
  function OnManualConnect(address: string, portText: string): (o: ManualOutcome)
    ensures o.AddressEmpty? <==> Blank(address)
    ensures o.PortEmpty? <==> !Blank(address) && Blank(portText)
    ensures o.PortNotNumber? <==> !Blank(address) && !Blank(portText) && ParseInt(Trim(portText)).None?
    ensures o.Connect? ==> o.host == Trim(address) && o.host != [] && ParseInt(Trim(portText)) == Some(o.port)
  {
    if |Trim(address)| == 0 then AddressEmpty
    else if |Trim(portText)| == 0 then PortEmpty
    else
      match ParseInt(Trim(portText))
      case None => PortNotNumber
      case Some(p) => Connect(Trim(address), p)
  }

  /**
   * Typing in a server's host and port, each padded with any blanks on either
   * side or not at all, connects to that server.
   */
  lemma ManualEntryReachesServer(s: Server, before: string, after: string, portBefore: string, portAfter: string)
    requires Blank(before) && Blank(after) && Blank(portBefore) && Blank(portAfter)
    requires s.host != [] && !IsSpace(s.host[0]) && !IsSpace(s.host[|s.host| - 1])
    requires InInt32(s.port)
    ensures OnManualConnect(before + s.host + after, portBefore + IntToString(s.port) + portAfter)
         == Connect(s.host, s.port)
  {
    TrimPadded(before, s.host, after);
    PaddedPortParses(portBefore, s.port, portAfter);
    ManualConnectAccepts(before + s.host + after, portBefore + IntToString(s.port) + portAfter, s.host, s.port);
  }

  /** A 32-bit port written in decimal reads back through trim and parseInt, padded or not. */
  lemma PaddedPortParses(before: string, port: int, after: string)
    requires Blank(before) && Blank(after)
    requires InInt32(port)
    ensures ParseInt(Trim(before + IntToString(port) + after)) == Some(port)
  {
    TrimPadded(before, IntToString(port), after);
    ParseIntOfIntToString(port);
  }

  /** A trimmed address that is not empty and a port text that parses lead to a connection. */
  lemma ManualConnectAccepts(address: string, portText: string, host: string, port: int)
    requires Trim(address) == host && host != []
    requires ParseInt(Trim(portText)) == Some(port)
    ensures OnManualConnect(address, portText) == Connect(host, port)
  {
  }

  /** Trimming removes blank padding on both sides, of any lengths, and nothing else. */
  lemma TrimPadded(before: string, s: string, after: string)
    requires Blank(before) && Blank(after)
    requires s != [] && !IsSpace(s[0]) && !IsSpace(s[|s| - 1])
    ensures Trim(before + s + after) == s
  {
    var padded := before + s + after;
    LeadingBlanksPadded(before, s + after);
    assert padded == before + (s + after);
    assert padded[|before|..] == s + after;
    TrailingBlanksPadded(s, after);
  }

  lemma {:induction false} LeadingBlanksPadded(pad: string, s: string)
    requires Blank(pad)
    requires s != [] && !IsSpace(s[0])
    ensures LeadingBlanks(pad + s) == |pad|
    decreases |pad|
  {
    if pad != [] {
      assert (pad + s)[1..] == pad[1..] + s;
      LeadingBlanksPadded(pad[1..], s);
    }
  }

  lemma {:induction false} TrailingBlanksPadded(s: string, pad: string)
    requires Blank(pad)
    requires s != [] && !IsSpace(s[|s| - 1])
    ensures TrailingBlanks(s + pad) == |pad|
    decreases |pad|
  {
    if pad != [] {
      assert (s + pad)[..|s + pad| - 1] == s + pad[..|pad| - 1];
      TrailingBlanksPadded(s, pad[..|pad| - 1]);
    }
  }
}
