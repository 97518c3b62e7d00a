/** A whole Wi-Fi reading: six exchanges over one socket, of which the two scan dumps must agree and the two
    looks at the interface must be the same. */
module WifiRead {
  import opened Bytes
  import opened WifiAttributes
  import opened WifiExchange
  import opened WifiScan

  // Numbers of the generic netlink controller and of nl80211.
  const CONTROLLER: u16 := 16
  const NEW_FAMILY: byte := 1
  const FAMILY_ID: nat := 1
  const FAMILY_NAME: nat := 2
  const MIN_TYPE: nat := 16
  const NEW_INTERFACE: byte := 7
  const NEW_STATION: byte := 19
  const NEW_SCAN_RESULTS: byte := 34
  const ATTR_WIPHY: nat := 1
  const ATTR_IFNAME: nat := 4
  const ATTR_IFTYPE: nat := 5
  const ATTR_MAC: nat := 6
  const ATTR_WDEV: nat := 153
  const STATION: u32 := 2
  const P2P_CLIENT: u32 := 8
  const EPERM: nat := 1
  const EACCES: nat := 13
  const EOPNOTSUPP: nat := 95

  /** "nl80211" with its terminator. */
  const NL80211: seq<byte> := [110, 108, 56, 48, 50, 49, 49, 0]

  // ---- What single replies must say -----------------------------------------------------------------------

  function Only(payloads: seq<seq<byte>>): seq<byte> {
    if |payloads| == 1 then payloads[0] else []
  }

  function FamilyOf(view: seq<byte>): Option<u16> {
    match (Answer(view, FAMILY_ID), Answer(view, FAMILY_NAME))
    case (Found(id, flags), Found(name, _)) =>
      if |id| != 2 || NetworkOrder(flags) || name != NL80211 || U16(id) < MIN_TYPE then None else Some(U16(id))
    case _ => None
  }

  predicate InterfaceReply(view: seq<byte>, ifindex: u32) {
    Word(view, ATTR_IFINDEX) == Some(Some(ifindex)) && |view| <= MAX_ATTRIBUTES
  }

  /** The field is there on both sides, in the right size and the host's byte order, with the same value. */
  predicate SameField(before: seq<byte>, after: seq<byte>, key: nat, size: nat) {
    match (Answer(before, key), Answer(after, key))
    case (Found(left, f), Found(right, g)) => |left| == size && left == right && !NetworkOrder(f) && !NetworkOrder(g)
    case _ => false
  }

  const KEYS: seq<nat> := [ATTR_IFINDEX, ATTR_IFNAME, ATTR_WDEV, ATTR_WIPHY, ATTR_IFTYPE, ATTR_MAC]

  function SizeOf(name: seq<byte>, i: nat): nat
    requires i < 6
  {
    [4, |name| + 1, 8, 4, 4, 6][i]
  }

  /** The same interface under the given name: number, name, device, radio, type and address are unchanged. */
  predicate SameInterface(before: seq<byte>, after: seq<byte>, name: seq<byte>) {
    (forall i :: 0 <= i < 6 ==> SameField(before, after, KEYS[i], SizeOf(name, i)))
    && match Answer(before, ATTR_IFNAME)
       case Found(left, _) => left == name + [0]
       case _ => false
  }

  method CheckInterface(before: seq<byte>, after: seq<byte>, name: seq<byte>) returns (same: bool)
    ensures same <==> SameInterface(before, after, name)
  {
    for i := 0 to 6
      invariant forall k :: 0 <= k < i ==> SameField(before, after, KEYS[k], SizeOf(name, k))
      invariant i > 1 ==> Answer(before, ATTR_IFNAME).Found? && Answer(before, ATTR_IFNAME).data == name + [0]
    {
      hide Answer;
      var left := Find(before, KEYS[i]);
      var right := Find(after, KEYS[i]);
      if !left.Found? || !right.Found? || |left.data| != SizeOf(name, i) || |right.data| != |left.data|
        || NetworkOrder(left.flags) || NetworkOrder(right.flags) || left.data != right.data {
        assert !SameField(before, after, KEYS[i], SizeOf(name, i));
        return false;
      }
      if KEYS[i] == ATTR_IFNAME && left.data != name + [0] { return false; }
    }
    return true;
  }

  predicate Client(view: seq<byte>) {
    Word(view, ATTR_IFTYPE) in {Some(Some(STATION)), Some(Some(P2P_CLIENT))}
  }

  /** The station reply is about the peer of the first link. */
  predicate StationReply(view: seq<byte>, ifindex: u32, links: seq<Link>) {
    Word(view, ATTR_IFINDEX) == Some(Some(ifindex)) && links != [] && |view| <= MAX_ATTRIBUTES
    && Answer(view, ATTR_MAC).Found? && Answer(view, ATTR_MAC).data == links[0].identity.peer
    && |Answer(view, ATTR_MAC).data| == 6
  }

  // ---- The handlers ------------------------------------------------------------------------------------------

  function FamilyHandler(): Handler { payloads => FamilyOf(Only(payloads)).Some? }

  function InterfaceHandler(ifindex: u32): Handler { payloads => InterfaceReply(Only(payloads), ifindex) }

  function StationHandler(ifindex: u32, links: seq<Link>): Handler {
    payloads => StationReply(Only(payloads), ifindex, links)
  }

  function LinksOf(payloads: seq<seq<byte>>, ifindex: u32): seq<Link> {
    if Links(payloads, ifindex).Some? then Links(payloads, ifindex).value else []
  }

  /** The scan handler in its two passes: what it says depends on the payloads up to the new one. */
  function FirstPass(ifindex: u32): Handler {
    payloads => Links(payloads, ifindex).Some? && Usable(LinksOf(payloads, ifindex))
  }

  function SecondPass(links: seq<Link>, ifindex: u32): Handler {
    payloads => Links(payloads, ifindex).Some? && Confirms(links, LinksOf(payloads, ifindex))
  }

  lemma NoLinks(ifindex: u32)
    ensures Links([], ifindex) == Some([]) && Usable([]) && forall links :: Confirms(links, [])
  {}

  lemma FirstAccepts(payloads: seq<seq<byte>>, ifindex: u32)
    ensures AllAccepted([], payloads, FirstPass(ifindex)) <==>
      Links(payloads, ifindex).Some? && Usable(LinksOf(payloads, ifindex))
  {
    hide Links, Usable;
    NoLinks(ifindex);
    assert payloads[..|payloads|] == payloads && [] + payloads == payloads;
    if Links(payloads, ifindex).Some? && Usable(LinksOf(payloads, ifindex)) {
      forall n | 0 < n <= |payloads| ensures FirstPass(ifindex)([] + payloads[..n]) {
        Hopeless(payloads, ifindex, n, []);
        assert [] + payloads[..n] == payloads[..n];
      }
    }
    if payloads != [] && AllAccepted([], payloads, FirstPass(ifindex)) {
      assert FirstPass(ifindex)([] + payloads[..|payloads|]);
    }
  }

  lemma SecondAccepts(payloads: seq<seq<byte>>, links: seq<Link>, ifindex: u32)
    ensures AllAccepted([], payloads, SecondPass(links, ifindex)) <==>
      Links(payloads, ifindex).Some? && Confirms(links, LinksOf(payloads, ifindex))
  {
    hide Links, Confirms;
    NoLinks(ifindex);
    assert payloads[..|payloads|] == payloads && [] + payloads == payloads;
    if Links(payloads, ifindex).Some? && Confirms(links, LinksOf(payloads, ifindex)) {
      forall n | 0 < n <= |payloads| ensures SecondPass(links, ifindex)([] + payloads[..n]) {
        Hopeless(payloads, ifindex, n, links);
        assert [] + payloads[..n] == payloads[..n];
      }
    }
    if payloads != [] && AllAccepted([], payloads, SecondPass(links, ifindex)) {
      assert SecondPass(links, ifindex)([] + payloads[..|payloads|]);
    }
  }

  // ---- Two dumps, message by message ---------------------------------------------------------------------------

  /** Up to message n, which ends it without an error, a dump is only its own data and messages to be ignored. */
  predicate CleanDump(ms: seq<Message>, q: Query, n: nat) {
    n < |ms| && Ends(ms[n], q) && forall k :: 0 <= k < n ==> Data(ms[k], q) || Ignored(ms[k], q)
  }

  /** Both dumps are about the same associations, in whatever order. */
  predicate SameAssociations(first: seq<seq<byte>>, second: seq<seq<byte>>, ifindex: u32) {
    Links(first, ifindex).Some? && Links(second, ifindex).Some? && Usable(LinksOf(first, ifindex))
    && multiset(Identities(LinksOf(first, ifindex))) == multiset(Identities(LinksOf(second, ifindex)))
  }

  ghost predicate CleanPair(first: seq<Message>, q: Query, n: nat, second: seq<Message>, q': Query, m: nat, ifindex: u32) {
    CleanDump(first, q, n) && CleanDump(second, q', m)
    && SameAssociations(Payloads(first[..n], q), Payloads(second[..m], q'), ifindex)
  }

  /** Two scan dumps pass both checks and the count exactly when both are clean and the associations the second
      one reports are those of the first, rearranged: at most sixteen, no address twice, every detail the same. */
  lemma TwoDumpsMatch(first: seq<Message>, second: seq<Message>, q: Query, q': Query, ifindex: u32)
    requires q.dump && q'.dump
    ensures var a := Run(START, first, q, FirstPass(ifindex));
      var b := Run(START, second, q', SecondPass(LinksOf(a.delivered, ifindex), ifindex));
      (a.verdict.Complete? && b.verdict.Complete? && |LinksOf(a.delivered, ifindex)| == |LinksOf(b.delivered, ifindex)|)
      <==> exists n: nat, m: nat :: CleanPair(first, q, n, second, q', m, ifindex)
  {
    hide Run, Links, Usable, Confirms, Payloads;
    var a := Run(START, first, q, FirstPass(ifindex));
    var links := LinksOf(a.delivered, ifindex);
    var b := Run(START, second, q', SecondPass(links, ifindex));
    DumpComplete(START, first, q, FirstPass(ifindex));
    DumpComplete(START, second, q', SecondPass(links, ifindex));
    assert forall s: seq<seq<byte>> :: [] + s == s;
    if a.verdict.Complete? && b.verdict.Complete? && |links| == |LinksOf(b.delivered, ifindex)| {
      var n: nat :| Dumped(START, first, q, FirstPass(ifindex), n);
      var m: nat :| Dumped(START, second, q', SecondPass(links, ifindex), m);
      var (p, p') := (Payloads(first[..n], q), Payloads(second[..m], q'));
      FirstAccepts(p, ifindex);
      SecondAccepts(p', links, ifindex);
      assert Matched(p, p', ifindex);
      MatchedIsBijection(p, p', ifindex);
      assert CleanPair(first, q, n, second, q', m, ifindex);
    }
    if n: nat, m: nat :| CleanPair(first, q, n, second, q', m, ifindex) {
      var (p, p') := (Payloads(first[..n], q), Payloads(second[..m], q'));
      MatchedIsBijection(p, p', ifindex);
      FirstAccepts(p, ifindex);
      assert Dumped(START, first, q, FirstPass(ifindex), n);
      SecondAccepts(p', LinksOf(p, ifindex), ifindex);
      assert Dumped(START, second, q', SecondPass(links, ifindex), m);
    }
  }

  // ---- The whole reading ------------------------------------------------------------------------------------------

  /** The station part: not asked for, refused in a way that is only noted, or read. */
  datatype StationPart = NotAsked | Noted(errno: nat) | Read(view: seq<byte>)

  datatype Outcome = Outcome(before: seq<byte>, after: seq<byte>, first: seq<seq<byte>>, second: seq<seq<byte>>,
    links: seq<Link>, station: StationPart)

  /** All links are about one peer, and all or none are multi-link. */
  predicate OnePeer(links: seq<Link>) {
    forall l :: 1 <= l < |links| ==>
      links[0].identity.peer == links[l].identity.peer && links[0].identity.mld == links[l].identity.mld
  }

  /** The station part, the socket after it, and the next sequence number. */
  function AskStation(k: Socket, family: u16, sequence: u32, links: seq<Link>, ifindex: u32)
      : (r: Option<(StationPart, Socket, u32)>)
    requires sequence <= 4
    ensures r.Some? ==> sequence <= r.value.2 <= sequence + 1
  {
    if links == [] then Some((NotAsked, k, sequence))
    else if !OnePeer(links) then Some((Noted(EOPNOTSUPP), k, sequence))
    else
      var (s, rest) := RunAll(START, k, Query(family, NEW_STATION, false, sequence), StationHandler(ifindex, links));
      match s.verdict
      case Complete => Some((Read(Only(s.delivered)), rest, sequence + 1))
      case Refused(errno) => if errno in {EPERM, EACCES, EOPNOTSUPP} then Some((Noted(errno), rest, sequence + 1)) else None
      case _ => None
  }

  /** The second half: the interface again, and the dump that must confirm the links. */
  function Confirmation(k: Socket, family: u16, sequence: u32, links: seq<Link>, before: seq<byte>, name: seq<byte>,
      ifindex: u32): Option<(seq<byte>, seq<seq<byte>>)>
    requires sequence <= 5
  {
    var (s, k) := RunAll(START, k, Query(family, NEW_INTERFACE, false, sequence), InterfaceHandler(ifindex));
    var after := Only(s.delivered);
    if !s.verdict.Complete? || !SameInterface(before, after, name) then None
    else
      var (t, _) := RunAll(START, k, Query(family, NEW_SCAN_RESULTS, true, sequence + 1), SecondPass(links, ifindex));
      if !t.verdict.Complete? || |LinksOf(t.delivered, ifindex)| != |links| then None
      else Some((after, t.delivered))
  }

  /** The associations between the two looks at the interface. */
  function Associations(k: Socket, family: u16, before: seq<byte>, name: seq<byte>, ifindex: u32): Option<Outcome> {
    var (s, k) := RunAll(START, k, Query(family, NEW_SCAN_RESULTS, true, 3), FirstPass(ifindex));
    if !s.verdict.Complete? then None
    else
      var links := LinksOf(s.delivered, ifindex);
      var station := AskStation(k, family, 4, links, ifindex);
      if station.None? then None
      else
        var again := Confirmation(station.value.1, family, station.value.2, links, before, name, ifindex);
        if again.None? then None
        else Some(Outcome(before, again.value.0, s.delivered, again.value.1, links, station.value.0))
  }

  function ReadAll(k: Socket, name: seq<byte>, ifindex: u32): Option<Outcome> {
    var (s, k) := RunAll(START, k, Query(CONTROLLER, NEW_FAMILY, false, 1), FamilyHandler());
    var family := FamilyOf(Only(s.delivered));
    if !s.verdict.Complete? || family.None? then None
    else
      var (t, k) := RunAll(START, k, Query(family.value, NEW_INTERFACE, false, 2), InterfaceHandler(ifindex));
      var before := Only(t.delivered);
      if !t.verdict.Complete? || !SameInterface(before, before, name) || !Client(before) then None
      else Associations(k, family.value, before, name, ifindex)
  }

  /** A single reply that completes an exchange is one the handler has accepted. */
  lemma OneReply(k: Socket, q: Query, handler: Handler)
    requires !q.dump && RunAll(START, k, q, handler).0.verdict.Complete?
    ensures var ps := RunAll(START, k, q, handler).0.delivered;
      |ps| == 1 && handler(ps)
  {
    hide RunAll;
    ExchangeAgreed(START, k, q, handler);
    var ps := RunAll(START, k, q, handler).0.delivered;
    assert handler([] + ps[..1]) && [] + ps[..1] == ps;
  }

  lemma AssociationsConsistent(k: Socket, family: u16, before: seq<byte>, name: seq<byte>, ifindex: u32)
    requires Associations(k, family, before, name, ifindex).Some?
    ensures var o := Associations(k, family, before, name, ifindex).value;
      o.before == before && SameInterface(before, o.after, name) && InterfaceReply(o.after, ifindex)
      && SameAssociations(o.first, o.second, ifindex) && o.links == LinksOf(o.first, ifindex)
      && (o.station.Read? ==> OnePeer(o.links) && StationReply(o.station.view, ifindex, o.links))
  {
    hide RunAll, Links, Usable, Confirms, SameInterface, InterfaceReply, StationReply, OnePeer;
    hide FirstPass, SecondPass;
    var q := Query(family, NEW_SCAN_RESULTS, true, 3);
    var (s, k1) := RunAll(START, k, q, FirstPass(ifindex));
    ExchangeAgreed(START, k, q, FirstPass(ifindex));
    FirstAccepts(s.delivered, ifindex);
    var links := LinksOf(s.delivered, ifindex);
    var qs := Query(family, NEW_STATION, false, 4);
    if RunAll(START, k1, qs, StationHandler(ifindex, links)).0.verdict.Complete? {
      OneReply(k1, qs, StationHandler(ifindex, links));
    }
    var (_, k2, sequence) := AskStation(k1, family, 4, links, ifindex).value;
    var q1 := Query(family, NEW_INTERFACE, false, sequence);
    OneReply(k2, q1, InterfaceHandler(ifindex));
    var (_, k3) := RunAll(START, k2, q1, InterfaceHandler(ifindex));
    var q2 := Query(family, NEW_SCAN_RESULTS, true, sequence + 1);
    var (t, _) := RunAll(START, k3, q2, SecondPass(links, ifindex));
    ExchangeAgreed(START, k3, q2, SecondPass(links, ifindex));
    SecondAccepts(t.delivered, links, ifindex);
    assert Matched(s.delivered, t.delivered, ifindex);
    MatchedIsBijection(s.delivered, t.delivered, ifindex);
  }

  /** A reading that succeeds is about one interface of the right name and kind, the same before and after,
      and its links are exactly the associations both dumps agree on. */
  lemma ReadIsConsistent(k: Socket, name: seq<byte>, ifindex: u32)
    requires ReadAll(k, name, ifindex).Some?
    ensures var o := ReadAll(k, name, ifindex).value;
      SameInterface(o.before, o.after, name) && Client(o.before)
      && SameAssociations(o.first, o.second, ifindex) && o.links == LinksOf(o.first, ifindex)
      && InterfaceReply(o.before, ifindex) && InterfaceReply(o.after, ifindex)
      && (o.station.Read? ==> OnePeer(o.links) && StationReply(o.station.view, ifindex, o.links))
  {
    hide RunAll, Links, Usable, Confirms, SameInterface, InterfaceReply, StationReply, OnePeer;
    hide FirstPass, SecondPass;
    var (s, k1) := RunAll(START, k, Query(CONTROLLER, NEW_FAMILY, false, 1), FamilyHandler());
    var family := FamilyOf(Only(s.delivered)).value;
    OneReply(k1, Query(family, NEW_INTERFACE, false, 2), InterfaceHandler(ifindex));
    var (t, k2) := RunAll(START, k1, Query(family, NEW_INTERFACE, false, 2), InterfaceHandler(ifindex));
    AssociationsConsistent(k2, family, Only(t.delivered), name, ifindex);
  }

  method ReadStation(k: Socket, family: u16, links: seq<Link>, ifindex: u32) returns (r: Option<(StationPart, Socket, u32)>)
    ensures r == AskStation(k, family, 4, links, ifindex)
  {
    hide RunAll, StationReply;
    if links == [] { return Some((NotAsked, k, 4)); }
    var onePeer := true;
    for l := 1 to |links|
      invariant onePeer <==> forall i :: 1 <= i < l ==>
        links[0].identity.peer == links[i].identity.peer && links[0].identity.mld == links[i].identity.mld
    {
      if links[0].identity.peer != links[l].identity.peer || links[0].identity.mld != links[l].identity.mld {
        onePeer := false;
      }
    }
    if !onePeer { return Some((Noted(EOPNOTSUPP), k, 4)); }
    var s, rest := Exchange(k, Query(family, NEW_STATION, false, 4), StationHandler(ifindex, links));
    if s.verdict.Complete? { return Some((Read(Only(s.delivered)), rest, 5)); }
    if s.verdict.Refused? && (s.verdict.errno == EPERM || s.verdict.errno == EACCES || s.verdict.errno == EOPNOTSUPP) {
      return Some((Noted(s.verdict.errno), rest, 5));
    }
    r := None;
  }

  lemma NotEmpty(view: seq<byte>, ifindex: u32)
    requires InterfaceReply(view, ifindex)
    ensures view != []
  {}

  /** The second look at the interface and the second dump, against the links of the first. */
  method Confirm(k0: Socket, family: u16, sequence: u32, a: Association, before: seq<byte>, name: seq<byte>,
      first: seq<seq<byte>>, part: StationPart) returns (r: Option<Outcome>)
    requires sequence <= 5 && a.afterSize == 0 && a.InPass(a.links)
    modifies a
    ensures var again := Confirmation(k0, family, sequence, old(a.links), before, name, a.ifindex);
      r == if again.None? then None
        else Some(Outcome(before, again.value.0, first, again.value.1, old(a.links), part))
  {
    hide RunAll, Links, Usable, Confirms, SameInterface, InterfaceReply;
    ghost var links := a.links;
    var q1 := Query(family, NEW_INTERFACE, false, sequence);
    var s, k := Exchange(k0, q1, InterfaceHandler(a.ifindex));
    if !s.verdict.Complete? { return None; }
    OneReply(k0, q1, InterfaceHandler(a.ifindex));
    var after := Only(s.delivered);
    var same := CheckInterface(before, after, name);
    if !same { return None; }
    NotEmpty(after, a.ifindex);
    a.BeginCheck(|after|);
    var q2 := Query(family, NEW_SCAN_RESULTS, true, sequence + 1);
    var t, _ := Exchange(k, q2, SecondPass(a.links, a.ifindex));
    if !t.verdict.Complete? { return None; }
    ExchangeAgreed(START, k, q2, SecondPass(links, a.ifindex));
    SecondAccepts(t.delivered, links, a.ifindex);
    NoLinks(a.ifindex);
    var ok := a.Dump(t.delivered);
    assert ok;
    if a.verifiedLinks != |a.links| { return None; }
    r := Some(Outcome(before, after, first, t.delivered, a.links, part));
  }

  /** Both passes over the scan results, with the interface looked at again between them. */
  method ReadAssociations(k0: Socket, family: u16, before: seq<byte>, name: seq<byte>, ifindex: u32)
    returns (r: Option<Outcome>)
    ensures r == Associations(k0, family, before, name, ifindex)
  {
    hide RunAll, Links, Usable, Confirms, SameInterface, InterfaceReply, Association.Checked, AskStation;
    var q := Query(family, NEW_SCAN_RESULTS, true, 3);
    var s, k := Exchange(k0, q, FirstPass(ifindex));
    if !s.verdict.Complete? { return None; }
    ExchangeAgreed(START, k0, q, FirstPass(ifindex));
    FirstAccepts(s.delivered, ifindex);
    var association := new Association(ifindex);
    NoLinks(ifindex);
    var ok := association.Dump(s.delivered);
    assert ok;
    var station := ReadStation(k, family, association.links, ifindex);
    if station.None? { return None; }
    var part, sequence := station.value.0, station.value.2;
    r := Confirm(station.value.1, family, sequence, association, before, name, s.delivered, part);
  }

  /** `wtop_wifi_read`, on the datagrams that arrive in time. */
  method ReadWifi(queue: seq<Datagram>, name: seq<byte>, ifindex: u32) returns (r: Option<Outcome>)
    ensures r == ReadAll(Socket(queue, 0, 0), name, ifindex)
  {
    hide RunAll, SameInterface, FamilyOf, Associations;
    var s, k := Exchange(Socket(queue, 0, 0), Query(CONTROLLER, NEW_FAMILY, false, 1), FamilyHandler());
    var family := FamilyOf(Only(s.delivered));
    if !s.verdict.Complete? || family.None? { return None; }
    var t;
    t, k := Exchange(k, Query(family.value, NEW_INTERFACE, false, 2), InterfaceHandler(ifindex));
    var before := Only(t.delivered);
    if !t.verdict.Complete? { return None; }
    var same := CheckInterface(before, before, name);
    if !same || !Client(before) { return None; }
    r := ReadAssociations(k, family.value, before, name, ifindex);
  }
}
