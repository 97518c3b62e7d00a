/** The two-pass association check of the Wi-Fi reader: links seen in a first dump of the kernel's
    scan cache must all be seen again, unchanged and once each, in a second one. */
module WifiScan {
  import opened Bytes
  import opened WifiAttributes

  const MAX_LINKS: nat := 16
  const MAX_ATTRIBUTES: nat := 8192

  // Attribute and status numbers of the nl80211 interface.
  const ATTR_IFINDEX: nat := 3
  const ATTR_BSS: nat := 47
  const BSS_BSSID: nat := 1
  const BSS_FREQUENCY: nat := 2
  const BSS_STATUS: nat := 9
  const BSS_FREQUENCY_OFFSET: nat := 20
  const BSS_MLO_LINK_ID: nat := 21
  const BSS_MLD_ADDR: nat := 22
  const ASSOCIATED: u32 := 1

  datatype Identity = Identity(bssid: seq<byte>, peer: seq<byte>, mld: bool, frequency: Option<u32>,
    offset: Option<u32>, linkId: Option<byte>)
  datatype Link = Link(identity: Identity, raw: seq<byte>)

  /** What one scan message says: nothing of interest, an association, or something malformed. */
  datatype Seen = Bad | Skipped | Linked(link: Link)

  function Address(view: seq<byte>, key: nat): Option<Option<seq<byte>>> {
    match Answer(view, key)
    case Malformed => None
    case Absent => Some(None)
    case Found(data, _) => if |data| == 6 then Some(Some(data)) else None
  }

  function LinkNumber(view: seq<byte>): Option<Option<byte>> {
    match Answer(view, BSS_MLO_LINK_ID)
    case Malformed => None
    case Absent => Some(None)
    case Found(data, flags) =>
      if |data| != 1 || NetworkOrder(flags) || data[0] > 15 then None else Some(Some(data[0]))
  }

  function ReadIdentity(bss: seq<byte>): Option<Identity> {
    var (bssid, mld, frequency) := (Address(bss, BSS_BSSID), Address(bss, BSS_MLD_ADDR), Word(bss, BSS_FREQUENCY));
    var (offset, id) := (Word(bss, BSS_FREQUENCY_OFFSET), LinkNumber(bss));
    if bssid.None? || bssid.value.None? || mld.None? || frequency.None? || offset.None? || id.None? then None
    else
      var own := bssid.value.value;
      var peer := if mld.value.Some? then mld.value.value else own;
      Some(Identity(own, peer, mld.value.Some?, frequency.value, offset.value, id.value))
  }

  function ReadMessage(view: seq<byte>, ifindex: u32): Seen {
    if Word(view, ATTR_IFINDEX) != Some(Some(ifindex)) then Bad
    else
      match Answer(view, ATTR_BSS)
      case Malformed => Bad
      case Absent => Skipped
      case Found(bss, _) =>
        if Word(bss, BSS_STATUS).None? then Bad
        else if Word(bss, BSS_STATUS) != Some(Some(ASSOCIATED)) then Skipped
        else
          var identity := ReadIdentity(bss);
          if identity.None? then Bad else Linked(Link(identity.value, bss))
  }

  /** The associations of a dump, in order, if no message of it is malformed. */
  function Links(views: seq<seq<byte>>, ifindex: u32): Option<seq<Link>> {
    if views == [] then Some([])
    else
      var n := |views| - 1;
      var (front, last) := (Links(views[..n], ifindex), ReadMessage(views[n], ifindex));
      if front.None? || last.Bad? then None
      else Some(front.value + if last.Linked? then [last.link] else [])
  }

  lemma LinksMore(views: seq<seq<byte>>, ifindex: u32, n: nat)
    requires n < |views|
    ensures Links(views[..n + 1], ifindex) == (
      var (front, last) := (Links(views[..n], ifindex), ReadMessage(views[n], ifindex));
      if front.None? || last.Bad? then None else Some(front.value + if last.Linked? then [last.link] else []))
  {
    assert views[..n + 1][..n] == views[..n];
  }

  lemma {:induction false} LinksPrefix(views: seq<seq<byte>>, ifindex: u32, n: nat)
    requires n <= |views| && Links(views, ifindex).Some?
    ensures Links(views[..n], ifindex).Some? && Links(views[..n], ifindex).value <= Links(views, ifindex).value
    decreases |views|
  {
    if n < |views| {
      var m := |views| - 1;
      assert views[..m][..n] == views[..n];
      LinksPrefix(views[..m], ifindex, n);
    } else {
      assert views[..n] == views;
    }
  }

  predicate DistinctBssids(links: seq<Link>) {
    forall i, j :: 0 <= i < j < |links| ==> links[i].identity.bssid != links[j].identity.bssid
  }

  /** The first dump is usable: few enough associations, small enough, no address twice. */
  predicate Usable(links: seq<Link>) {
    |links| <= MAX_LINKS && DistinctBssids(links) && forall l :: l in links ==> |l.raw| <= MAX_ATTRIBUTES
  }

  function Identities(links: seq<Link>): (ids: seq<Identity>)
    ensures |ids| == |links| && forall i :: 0 <= i < |ids| ==> ids[i] == links[i].identity
  {
    seq(|links|, i requires 0 <= i < |links| => links[i].identity)
  }

  /** The second dump says nothing new and nothing twice. */
  predicate Confirms(first: seq<Link>, second: seq<Link>) {
    DistinctBssids(second) && forall k :: 0 <= k < |second| ==> second[k].identity in Identities(first)
  }

  // ---- The handler ---------------------------------------------------------------------------------------

  method FindAddress(view: seq<byte>, key: nat) returns (r: Option<Option<seq<byte>>>)
    ensures r == Address(view, key)
  {
    var field := Find(view, key);
    match field {
      case Malformed => r := None;
      case Absent => r := Some(None);
      case Found(data, _) => r := if |data| == 6 then Some(Some(data)) else None;
    }
  }

  method FindLinkNumber(view: seq<byte>) returns (r: Option<Option<byte>>)
    ensures r == LinkNumber(view)
  {
    var field := Find(view, BSS_MLO_LINK_ID);
    match field {
      case Malformed => r := None;
      case Absent => r := Some(None);
      case Found(data, flags) =>
        r := if |data| != 1 || NetworkOrder(flags) || data[0] > 15 then None else Some(Some(data[0]));
    }
  }

  method Message(view: seq<byte>, ifindex: u32) returns (seen: Seen)
    ensures seen == ReadMessage(view, ifindex)
  {
    hide Answer, Word, Address, LinkNumber;
    var index := FindWord(view, ATTR_IFINDEX);
    if index != Some(Some(ifindex)) { return Bad; }
    var bss := Find(view, ATTR_BSS);
    if bss == Malformed { return Bad; }
    if bss == Absent { return Skipped; }
    var status := FindWord(bss.data, BSS_STATUS);
    if status.None? { return Bad; }
    if status != Some(Some(ASSOCIATED)) { return Skipped; }
    var bssid := FindAddress(bss.data, BSS_BSSID);
    if bssid.None? || bssid.value.None? { return Bad; }
    var mld := FindAddress(bss.data, BSS_MLD_ADDR);
    if mld.None? { return Bad; }
    var peer := if mld.value.Some? then mld.value.value else bssid.value.value;
    var frequency := FindWord(bss.data, BSS_FREQUENCY);
    if frequency.None? { return Bad; }
    var offset := FindWord(bss.data, BSS_FREQUENCY_OFFSET);
    if offset.None? { return Bad; }
    var id := FindLinkNumber(bss.data);
    if id.None? { return Bad; }
    seen := Linked(Link(Identity(bssid.value.value, peer, mld.value.Some?, frequency.value, offset.value, id.value), bss.data));
  }

  /** What two successful passes establish. */
  ghost predicate Matched(first: seq<seq<byte>>, second: seq<seq<byte>>, ifindex: u32) {
    var (a, b) := (Links(first, ifindex), Links(second, ifindex));
    a.Some? && b.Some? && Usable(a.value) && Confirms(a.value, b.value) && |b.value| == |a.value|
  }

  lemma NothingSeen()
    ensures forall i: u32 :: Links([], i) == Some([])
  {}

  /** An error in a prefix of a dump cannot be made good later. */
  lemma Hopeless(views: seq<seq<byte>>, ifindex: u32, n: nat, links: seq<Link>)
    requires n <= |views|
    ensures Links(views[..n], ifindex).None? ==> Links(views, ifindex).None?
    ensures Links(views, ifindex).Some? && Usable(Links(views, ifindex).value) ==> Usable(Links(views[..n], ifindex).value)
    ensures Links(views, ifindex).Some? && Confirms(links, Links(views, ifindex).value) ==>
      Confirms(links, Links(views[..n], ifindex).value)
  {
    if Links(views, ifindex).Some? {
      LinksPrefix(views, ifindex, n);
      var (few, all) := (Links(views[..n], ifindex).value, Links(views, ifindex).value);
      assert forall i :: 0 <= i < |few| ==> few[i] == all[i];
    }
  }

  ghost function Members(links: seq<Link>): set<Identity> {
    set l | l in links :: l.identity
  }

  lemma MembersCons(links: seq<Link>)
    requires DistinctBssids(links) && links != []
    ensures DistinctBssids(links[1..])
    ensures Members(links) == Members(links[1..]) + {links[0].identity}
    ensures links[0].identity !in Members(links[1..])
    ensures Identities(links) == [links[0].identity] + Identities(links[1..])
  {}

  lemma {:induction false} MembersSize(links: seq<Link>)
    requires DistinctBssids(links)
    ensures |Members(links)| == |links|
    decreases |links|
  {
    if links != [] {
      MembersCons(links);
      MembersSize(links[1..]);
    }
  }

  lemma SameMembers(first: seq<Link>, second: seq<Link>)
    requires DistinctBssids(first) && Confirms(first, second) && |second| == |first|
    ensures Members(first) == Members(second)
  {
    MembersSize(first);
    MembersSize(second);
    assert Members(second) <= Members(first) by {
      forall m | m in Members(second) ensures m in Members(first) {
        var k :| 0 <= k < |second| && second[k].identity == m;
        var i :| 0 <= i < |first| && Identities(first)[i] == second[k].identity;
        assert first[i] in first;
      }
    }
    var rest := Members(first) - Members(second);
    assert Members(first) == Members(second) + rest;
  }

  lemma AllSeen(first: seq<Link>, second: seq<Link>)
    requires DistinctBssids(first) && Confirms(first, second) && |second| == |first|
    ensures forall l :: 0 <= l < |first| ==> first[l].identity in Identities(second)
  {
    SameMembers(first, second);
    forall l | 0 <= l < |first| ensures first[l].identity in Identities(second) {
      assert first[l].identity in Members(first);
      var k :| 0 <= k < |second| && second[k].identity == first[l].identity;
      assert Identities(second)[k] == first[l].identity;
    }
  }

  lemma Confirmed(links: seq<Link>, second: seq<Link>, link: Link, l: nat)
    requires l < |links| && DistinctBssids(links) && Confirms(links, second)
    requires links[l].identity == link.identity && link.identity !in Identities(second)
    ensures Confirms(links, second + [link])
    ensures Identities(second + [link]) == Identities(second) + [link.identity]
    ensures forall k :: 0 <= k < |links| && k != l ==> links[k].identity != link.identity
  {
    assert Identities(links)[l] == link.identity;
    forall k | 0 <= k < |second| ensures second[k].identity.bssid != link.identity.bssid {
      var i :| 0 <= i < |links| && Identities(links)[i] == second[k].identity;
      assert Identities(second)[k] == second[k].identity;
    }
  }

  lemma Refuted(links: seq<Link>, second: seq<Link>, link: Link, l: nat)
    requires l < |links| && DistinctBssids(links) && Confirms(links, second)
    requires links[l].identity.bssid == link.identity.bssid
    requires links[l].identity in Identities(second) || links[l].identity != link.identity
    ensures !Confirms(links, second + [link])
  {
    var more := second + [link];
    assert more[|second|] == link;
    if links[l].identity in Identities(second) {
      var k :| 0 <= k < |second| && Identities(second)[k] == links[l].identity;
      assert more[k] == second[k];
    } else {
      forall i | 0 <= i < |links| ensures Identities(links)[i] != link.identity {}
    }
  }

  class Association {
    const ifindex: u32
    var links: seq<Link>
    var verified: seq<bool>
    var verifiedLinks: nat
    var afterSize: nat

    constructor (ifindex: u32)
      ensures this.ifindex == ifindex && links == [] && verified == [] && verifiedLinks == 0 && afterSize == 0
    {
      this.ifindex := ifindex;
      links, verified, verifiedLinks, afterSize := [], [], 0, 0;
    }

    /** Holds during the second dump after the associations `second` have been seen. */
    ghost predicate Checked(second: seq<Link>)
      reads this
    {
      |verified| == |links| && Usable(links) && Confirms(links, second) && verifiedLinks == |second|
      && forall l :: 0 <= l < |links| ==> (verified[l] <==> links[l].identity in Identities(second))
    }

    /** First pass: an association becomes a link. */
    method Record(link: Link) returns (ok: bool)
      requires Usable(links)
      modifies this`links, this`verified
      ensures ok <==> Usable(old(links) + [link])
      ensures links == (if ok then old(links) + [link] else old(links))
      ensures |verified| == |links| <== old(|verified| == |links|)
      ensures (forall v :: v in old(verified) ==> !v) ==> forall v :: v in verified ==> !v
    {
      if |links| == MAX_LINKS || |link.raw| > MAX_ATTRIBUTES {
        assert (links + [link])[|links|] == link;
        return false;
      }
      for l := 0 to |links|
        invariant forall k :: 0 <= k < l ==> links[k].identity.bssid != link.identity.bssid
        invariant links == old(links) && verified == old(verified)
      {
        if links[l].identity.bssid == link.identity.bssid {
          ghost var more := links + [link];
          assert more[l] == links[l] && more[|links|] == link;
          return false;
        }
      }
      links, verified := links + [link], verified + [false];
      return true;
    }

    /** Second pass: an association must be a link not yet seen again, in every detail. */
    method Verify(link: Link, ghost second: seq<Link>) returns (ok: bool)
      requires Checked(second)
      modifies this`verified, this`verifiedLinks
      ensures ok <==> Confirms(links, second + [link])
      ensures ok ==> Checked(second + [link])
    {
      for l := 0 to |links|
        invariant forall k :: 0 <= k < l ==> links[k].identity.bssid != link.identity.bssid
        invariant verified == old(verified) && verifiedLinks == old(verifiedLinks)
      {
        if links[l].identity.bssid == link.identity.bssid {
          if verified[l] || links[l].identity != link.identity {
            Refuted(links, second, link, l);
            return false;
          }
          Confirmed(links, second, link, l);
          verified, verifiedLinks := verified[l := true], verifiedLinks + 1;
          return true;
        }
      }
      assert (second + [link])[|second|] == link;
      return false;
    }

    /** The handler of scan messages; which pass it is depends on whether the second interface reply has come. */
    method Scan(view: seq<byte>, ghost before: seq<seq<byte>>) returns (ok: bool)
      requires Links(before, ifindex).Some? && InPass(Links(before, ifindex).value)
      modifies this`links, this`verified, this`verifiedLinks
      ensures afterSize == 0 ==> (ok <==> Links(before + [view], ifindex).Some? && Usable(Links(before + [view], ifindex).value))
      ensures afterSize > 0 ==> links == old(links)
      ensures afterSize > 0 ==>
        (ok <==> Links(before + [view], ifindex).Some? && Confirms(links, Links(before + [view], ifindex).value))
      ensures ok ==> InPass(Links(before + [view], ifindex).value)
    {
      hide Usable, Confirms, Checked, ReadMessage;
      assert (before + [view])[..|before|] == before && (before + [view])[..|before| + 1] == before + [view];
      LinksMore(before + [view], ifindex, |before|);
      ghost var seenBefore := Links(before, ifindex).value;
      var seen := Message(view, ifindex);
      match seen {
        case Bad => ok := false;
        case Skipped => ok := true; assert seenBefore + [] == seenBefore; PassHolds(seenBefore);
        case Linked(link) =>
          if afterSize > 0 { ok := Verify(link, seenBefore); } else { ok := Record(link); }
      }
    }

    /** What the fields hold while a pass has seen these associations. */
    ghost predicate InPass(seen: seq<Link>)
      reads this
    {
      if afterSize > 0 then Checked(seen)
      else links == seen && Usable(links) && |verified| == |links| && verifiedLinks == 0 && forall v :: v in verified ==> !v
    }

    lemma PassHolds(seen: seq<Link>)
      requires InPass(seen)
      ensures afterSize == 0 ==> Usable(seen)
      ensures afterSize > 0 ==> Confirms(links, seen)
    {}

    /** One dump: every message goes through the handler, the first error ends it. */
    method Dump(views: seq<seq<byte>>) returns (ok: bool)
      requires InPass([])
      modifies this`links, this`verified, this`verifiedLinks
      ensures afterSize == 0 ==> (ok <==> Links(views, ifindex).Some? && Usable(Links(views, ifindex).value))
      ensures afterSize > 0 ==> links == old(links)
      ensures afterSize > 0 ==> (ok <==> Links(views, ifindex).Some? && Confirms(links, Links(views, ifindex).value))
      ensures ok ==> InPass(Links(views, ifindex).value)
    {
      hide Usable, Confirms, Checked, Links;
      NothingSeen();
      assert views[..0] == [];
      for n := 0 to |views|
        invariant Links(views[..n], ifindex).Some? && InPass(Links(views[..n], ifindex).value)
        invariant afterSize > 0 ==> links == old(links)
      {
        assert views[..n] + [views[n]] == views[..n + 1];
        var good := Scan(views[n], views[..n]);
        if !good {
          Hopeless(views, ifindex, n + 1, links);
          return false;
        }
      }
      assert views[..|views|] == views;
      PassHolds(Links(views, ifindex).value);
      return true;
    }

    /** The second interface reply has come: from now on associations are checked. */
    method BeginCheck(size: nat)
      requires afterSize == 0 && size > 0 && InPass(links)
      modifies this`afterSize
      ensures afterSize > 0 && InPass([])
    {
      afterSize := size;
      forall l | 0 <= l < |links| ensures !verified[l] && links[l].identity !in Identities([]) {
        assert verified[l] in verified;
      }
      assert Checked([]);
    }

    /** Both dumps around a second look at the interface, then the count. It succeeds exactly when the first
        dump is usable and the second one repeats its associations, each once and none missing. */
    method Read(first: seq<seq<byte>>, interface: nat, second: seq<seq<byte>>) returns (ok: bool)
      requires links == [] && verified == [] && verifiedLinks == 0 && afterSize == 0 && interface > 0
      modifies this
      ensures ok <==> Matched(first, second, ifindex)
      ensures ok ==> links == Links(first, ifindex).value && |verified| == |links| && forall v :: v in verified ==> v
    {
      hide Links;
      NothingSeen();
      ok := Dump(first);
      if !ok { return; }
      BeginCheck(interface);
      ok := Dump(second);
      if !ok { return; }
      ok := verifiedLinks == |links|;
      if ok { AllSeen(links, Links(second, ifindex).value); }
    }
  }

  // ---- The bijection --------------------------------------------------------------------------------------------

  lemma OneMore<T>(x: T, s: seq<T>, all: set<T>)
    requires multiset(s) == multiset(all) && x !in all
    ensures multiset([x] + s) == multiset(all + {x})
  {}

  lemma {:induction false} MembersCount(links: seq<Link>)
    requires DistinctBssids(links)
    ensures multiset(Identities(links)) == multiset(Members(links))
    decreases |links|
  {
    if links != [] {
      hide *;
      MembersCons(links);
      MembersCount(links[1..]);
      OneMore(links[0].identity, Identities(links[1..]), Members(links[1..]));
    } else {
      assert Members(links) == {};
    }
  }

  lemma TwiceCounts<T>(s: seq<T>, i: nat, j: nat)
    requires i < j < |s|
    ensures s[i] == s[j] ==> multiset(s)[s[i]] >= 2
  {
    assert s == s[..i] + [s[i]] + s[i + 1..j] + [s[j]] + s[j + 1..];
  }

  lemma {:induction false} OnceCounts(links: seq<Link>, id: Identity)
    requires DistinctBssids(links)
    ensures multiset(Identities(links))[id] <= 1
  {
    MembersCount(links);
  }

  lemma Rearranged(first: seq<Link>, second: seq<Link>)
    requires DistinctBssids(first) && multiset(Identities(first)) == multiset(Identities(second))
    ensures Confirms(first, second) && |second| == |first|
  {
    var (a, b) := (Identities(first), Identities(second));
    assert |multiset(a)| == |a| && |multiset(b)| == |b|;
    forall k | 0 <= k < |second| ensures second[k].identity in a {
      assert b[k] in multiset(b);
    }
    forall i, j | 0 <= i < j < |second| ensures second[i].identity.bssid != second[j].identity.bssid {
      TwiceCounts(b, i, j);
      OnceCounts(first, b[i]);
      assert b[i] in multiset(a) && b[j] in multiset(a);
      var p :| 0 <= p < |first| && a[p] == b[i];
      var q :| 0 <= q < |first| && a[q] == b[j];
    }
  }

  /** The check succeeds exactly when the second dump's associations are a rearrangement of the first's:
      at most sixteen, no address twice, and every detail the same. */
  lemma MatchedIsBijection(first: seq<seq<byte>>, second: seq<seq<byte>>, ifindex: u32)
    ensures Matched(first, second, ifindex) <==> (
      var (a, b) := (Links(first, ifindex), Links(second, ifindex));
      a.Some? && b.Some? && Usable(a.value) && multiset(Identities(a.value)) == multiset(Identities(b.value)))
  {
    hide Links;
    var (a, b) := (Links(first, ifindex), Links(second, ifindex));
    if Matched(first, second, ifindex) {
      SameMembers(a.value, b.value);
      MembersCount(a.value);
      MembersCount(b.value);
    } else if a.Some? && b.Some? && Usable(a.value) && multiset(Identities(a.value)) == multiset(Identities(b.value)) {
      Rearranged(a.value, b.value);
    }
  }
}
