/**
 * AR.Network/ARNetwork.cs: the `Drones` collection kept in step with zeroconf discovery. A found
 * service whose address matches no drone gets a new session, which is added if `Connect`
 * succeeds; a lost service removes and disposes the first drone whose address matches.
 *
 * Each event parses its address afresh, and the source compares addresses with `==`, which
 * on `IPAddress` compares object identity. How addresses are compared is therefore a
 * parameter: `ByReference` is the code as written, `ByValue` what it evidently intends.
 */
module ARNetwork {
  import opened Wrappers
  import ARWifiDevice

  /** How two `IPAddress` objects are compared. */
  datatype Equality = ByReference | ByValue

  predicate Same(eq: Equality, a: ARWifiDevice.Address, b: ARWifiDevice.Address)
  {
    match eq
    case ByReference => a.handle == b.handle
    case ByValue => a.text == b.text
  }

  /** A drone in `Drones`: the session object's identity and its `Address`. */
  datatype Drone = Drone(session: nat, address: ARWifiDevice.Address)

  /**
   * The bookkeeping: `drones` is `Drones`, `disposed` the sessions disposed on a lost event,
   * `sessions` how many sessions were created, `handles` how many `IPAddress` objects were
   * parsed, `listening` whether the handlers are still subscribed.
   */
  datatype Discovery = Discovery(drones: seq<Drone>, disposed: seq<nat>, sessions: nat, handles: nat, listening: bool)

  const Initial := Discovery([], [], 0, 0, true)

  /** `IPAddress.Parse`: a new object for the text. */
  function Parsed(s: Discovery, text: string): ARWifiDevice.Address
  {
    ARWifiDevice.Address(s.handles, text)
  }

  /** `FirstOrDefault(d => d.Address == addr)`: the index of the first match. */
  function FirstMatch(drones: seq<Drone>, eq: Equality, addr: ARWifiDevice.Address): (r: Option<nat>)
    ensures r.Some? ==>
      && r.value < |drones| && Same(eq, drones[r.value].address, addr)
      && forall j :: 0 <= j < r.value ==> !Same(eq, drones[j].address, addr)
    ensures r.None? ==> forall j :: 0 <= j < |drones| ==> !Same(eq, drones[j].address, addr)
    decreases |drones|
  {
    if drones == [] then None
    else if Same(eq, drones[0].address, addr) then Some(0)
    else match FirstMatch(drones[1..], eq, addr)
      case None => None
      case Some(i) => Some(i + 1)
  }

  /**
   * `onServiceFound` for a host with address `text`, where `h` and `endpointMessage` decide how
   * the new session's `Connect` goes (see `ARWifiDevice.ConnectError`).
   */
  function Found(s: Discovery, eq: Equality, text: string, h: ARWifiDevice.Handshake, endpointMessage: string): Discovery
  {
    if !s.listening then s
    else
      var addr := Parsed(s, text);
      var s1 := s.(handles := s.handles + 1);
      if FirstMatch(s.drones, eq, addr).Some? then s1
      else
        var s2 := s1.(sessions := s.sessions + 1);
        if ARWifiDevice.ConnectError(h, endpointMessage) == Some("") then
          s2.(drones := s.drones + [Drone(s.sessions, addr)])
        else
          s2
  }

  /** `onServiceLost`: the first match is removed from `Drones`, then disposed. */
  function Lost(s: Discovery, eq: Equality, text: string): Discovery
  {
    if !s.listening then s
    else
      var addr := Parsed(s, text);
      var s1 := s.(handles := s.handles + 1);
      match FirstMatch(s.drones, eq, addr)
      case None => s1
      case Some(i) => s1.(drones := s.drones[..i] + s.drones[i + 1..], disposed := s.disposed + [s.drones[i].session])
  }

  /** `Dispose`: the handlers are unsubscribed once; a second call finds the listener null. */
  function Disposed(s: Discovery): Discovery
  {
    s.(listening := false)
  }

  /** Every address in `Drones` was parsed before, and every session was created before. */
  predicate Valid(s: Discovery)
  {
    forall i :: 0 <= i < |s.drones| ==> s.drones[i].address.handle < s.handles && s.drones[i].session < s.sessions
  }

  /** No two drones in `Drones` have the same address text. */
  predicate Distinct(drones: seq<Drone>)
  {
    forall i, j :: 0 <= i < j < |drones| ==> drones[i].address.text != drones[j].address.text
  }

  /* ---- Properties ---- */

  /**
   * A found event connects a new session only when no drone matches, and adds that session, with
   * the freshly parsed address, exactly when `Connect` returns the empty string; otherwise, and
   * when a drone matches, `Drones` stays as it was.
   */
  lemma FoundAddsOnSuccess(s: Discovery, eq: Equality, text: string, h: ARWifiDevice.Handshake, endpointMessage: string)
    requires s.listening
    ensures var r := Found(s, eq, text, h, endpointMessage);
      && (FirstMatch(s.drones, eq, Parsed(s, text)).Some? ==> r.drones == s.drones && r.sessions == s.sessions)
      && (FirstMatch(s.drones, eq, Parsed(s, text)).None? ==>
            r.sessions == s.sessions + 1
            && (ARWifiDevice.ConnectError(h, endpointMessage) == Some("") <==> |r.drones| == |s.drones| + 1)
            && r.drones[..|s.drones|] == s.drones
            && r.drones == if ARWifiDevice.ConnectError(h, endpointMessage) == Some("")
                           then s.drones + [Drone(s.sessions, Parsed(s, text))]
                           else s.drones)
      && r.disposed == s.disposed
  {
  }

  /**
   * A lost event removes exactly the first matching drone and disposes it; with no match
   * nothing but the parse counter changes.
   */
  lemma LostRemovesFirstMatch(s: Discovery, eq: Equality, text: string)
    requires s.listening
    ensures var r := Lost(s, eq, text);
      match FirstMatch(s.drones, eq, Parsed(s, text))
      case None => r.drones == s.drones && r.disposed == s.disposed
      case Some(i) =>
        && |r.drones| == |s.drones| - 1
        && (forall j :: 0 <= j < i ==> r.drones[j] == s.drones[j])
        && (forall j :: i <= j < |r.drones| ==> r.drones[j] == s.drones[j + 1])
        && r.disposed == s.disposed + [s.drones[i].session]
        && Same(eq, s.drones[i].address, Parsed(s, text))
  {
  }

  /** `Dispose` twice is `Dispose` once, and after it no event changes anything. */
  lemma DisposeIdempotent(s: Discovery, eq: Equality, text: string, h: ARWifiDevice.Handshake, endpointMessage: string)
    ensures Disposed(Disposed(s)) == Disposed(s)
    ensures Found(Disposed(s), eq, text, h, endpointMessage) == Disposed(s)
    ensures Lost(Disposed(s), eq, text) == Disposed(s)
  {
  }

  /** Both events keep every stored address and session older than the counters. */
  lemma EventsKeepValid(s: Discovery, eq: Equality, text: string, h: ARWifiDevice.Handshake, endpointMessage: string)
    requires Valid(s)
    ensures Valid(Found(s, eq, text, h, endpointMessage))
    ensures Valid(Lost(s, eq, text))
  {
    var r := Lost(s, eq, text);
    if s.listening {
      match FirstMatch(s.drones, eq, Parsed(s, text))
      case None =>
      case Some(i) =>
        forall j | 0 <= j < |r.drones|
          ensures r.drones[j].address.handle < r.handles && r.drones[j].session < r.sessions
        {
          if j < i { assert r.drones[j] == s.drones[j]; } else { assert r.drones[j] == s.drones[j + 1]; }
        }
    }
  }

  /**
   * As written: compared by reference, a freshly parsed address matches no drone. So every
   * found event connects a new session, even for a drone already in `Drones`, and no lost
   * event removes or disposes anything.
   */
  lemma ReferenceNeverMatches(s: Discovery, text: string, h: ARWifiDevice.Handshake, endpointMessage: string)
    requires Valid(s) && s.listening
    ensures FirstMatch(s.drones, ByReference, Parsed(s, text)).None?
    ensures Found(s, ByReference, text, h, endpointMessage).sessions == s.sessions + 1
    ensures Lost(s, ByReference, text).drones == s.drones
    ensures Lost(s, ByReference, text).disposed == s.disposed
  {
  }

  /** A drone announced twice, both times with a successful connect, is in `Drones` twice. */
  lemma ReferenceDuplicates()
    ensures var once := Found(Initial, ByReference, "192.168.42.1", ARWifiDevice.NothingRead, "");
      var twice := Found(once, ByReference, "192.168.42.1", ARWifiDevice.NothingRead, "");
      |twice.drones| == 2 && twice.drones[0].address.text == twice.drones[1].address.text
      && !Distinct(twice.drones)
  {
    var once := Found(Initial, ByReference, "192.168.42.1", ARWifiDevice.NothingRead, "");
    assert FirstMatch(once.drones, ByReference, Parsed(once, "192.168.42.1")) == None by {
      assert once.drones[0].address.handle == 0;
    }
  }

  /** Corrected: compared by value, found events never put two drones with one address in `Drones`. */
  lemma ValueKeepsDistinct(s: Discovery, text: string, h: ARWifiDevice.Handshake, endpointMessage: string)
    requires Distinct(s.drones)
    ensures Distinct(Found(s, ByValue, text, h, endpointMessage).drones)
    ensures Distinct(Lost(s, ByValue, text).drones)
  {
    var r := Lost(s, ByValue, text);
    if s.listening {
      match FirstMatch(s.drones, ByValue, Parsed(s, text))
      case None =>
      case Some(i) =>
        forall a, b | 0 <= a < b < |r.drones|
          ensures r.drones[a].address.text != r.drones[b].address.text
        {
          var a' := if a < i then a else a + 1;
          var b' := if b < i then b else b + 1;
          assert r.drones[a] == s.drones[a'] && r.drones[b] == s.drones[b'];
        }
    }
  }

  /** Corrected: a lost event for a drone in `Drones` removes and disposes it. */
  lemma ValueLostRemoves(s: Discovery, text: string, i: nat)
    requires s.listening && Distinct(s.drones) && i < |s.drones| && s.drones[i].address.text == text
    ensures Lost(s, ByValue, text).disposed == s.disposed + [s.drones[i].session]
    ensures |Lost(s, ByValue, text).drones| == |s.drones| - 1
  {
    var m := FirstMatch(s.drones, ByValue, Parsed(s, text));
    assert m.Some?;
    assert m.value == i;
  }

  /** `ARNetwork`: the collection and the listener subscription. */
  class Network {
    const equality: Equality
    var drones: seq<Drone>
    var disposed: seq<nat>
    var sessions: nat
    var handles: nat
    var listening: bool

    function State(): Discovery
      reads this
    {
      Discovery(drones, disposed, sessions, handles, listening)
    }

    constructor (equality: Equality)
      ensures this.equality == equality && State() == Initial
    {
      this.equality := equality;
      drones := [];
      disposed := [];
      sessions := 0;
      handles := 0;
      listening := true;
    }

    method OnServiceFound(text: string, h: ARWifiDevice.Handshake, endpointMessage: string)
      modifies this
      ensures State() == Found(old(State()), equality, text, h, endpointMessage)
    {
      if !listening {
        return;
      }
      var addr := ARWifiDevice.Address(handles, text);
      handles := handles + 1;
      if FirstMatch(drones, equality, addr).None? {
        var session := sessions;
        sessions := sessions + 1;
        var error := ARWifiDevice.ConnectError(h, endpointMessage);
        if error == Some("") {
          drones := drones + [Drone(session, addr)];
        }
      }
    }

    method OnServiceLost(text: string)
      modifies this
      ensures State() == Lost(old(State()), equality, text)
    {
      if !listening {
        return;
      }
      var addr := ARWifiDevice.Address(handles, text);
      handles := handles + 1;
      var found := FirstMatch(drones, equality, addr);
      if found.Some? {
        var drone := drones[found.value];
        drones := drones[..found.value] + drones[found.value + 1..];
        disposed := disposed + [drone.session];
      }
    }

    method Dispose()
      modifies this
      ensures State() == Disposed(old(State()))
    {
      if listening {
        listening := false;
      }
    }
  }
}
