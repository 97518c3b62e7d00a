/** What a Wi-Fi reading reports, in terms of the attributes its messages carry: which access points are the
    station's associations and what is said about each. The results name attributes by their numbers in nl80211. */
module WifiReports {
  import opened Bytes
  import opened WifiAttributes
  import opened WifiExchange
  import opened WifiScan
  import opened WifiRead

  // ---- Attributes ----------------------------------------------------------------------------------------------

  predicate Alone(attributes: seq<Attribute>, key: nat, i: nat) {
    i < |attributes| && attributes[i].kind % 0x4000 == key
    && forall j :: 0 <= j < |attributes| && j != i ==> attributes[j].kind % 0x4000 != key
  }

  /** The view is a list of aligned attributes, and this is the only one under the key. */
  ghost predicate Carries(view: seq<byte>, key: nat, a: Attribute) {
    exists attributes: seq<Attribute>, i: nat :: Tiles(attributes, view) && Alone(attributes, key, i) && attributes[i] == a
  }

  predicate NoneUnder(attributes: seq<Attribute>, key: nat) {
    forall j :: 0 <= j < |attributes| ==> attributes[j].kind % 0x4000 != key
  }

  /** The view is a list of aligned attributes, none of them under the key. */
  ghost predicate Lacks(view: seq<byte>, key: nat) {
    exists attributes: seq<Attribute> :: Tiles(attributes, view) && NoneUnder(attributes, key)
  }

  /** The high bits of a type. */
  function FlagsOf(a: Attribute): nat {
    a.kind - a.kind % 0x4000
  }

  ghost predicate HasData(view: seq<byte>, key: nat, data: seq<byte>) {
    exists a: Attribute :: Carries(view, key, a) && a.data == data
  }

  /** In the host's byte order: bit 14 of the type is not set. */
  ghost predicate HasHostData(view: seq<byte>, key: nat, data: seq<byte>) {
    exists a: Attribute :: Carries(view, key, a) && a.data == data && (a.kind / 0x4000) % 2 == 0
  }

  ghost predicate HasWord(view: seq<byte>, key: nat, word: u32) {
    HasHostData(view, key, ToLE(word, 4))
  }

  lemma {:induction false} SelectedAlone(attributes: seq<Attribute>, key: nat, i: nat)
    requires Alone(attributes, key, i)
    ensures Select(attributes, key) == [attributes[i]]
    decreases i
  {
    if i == 0 {
      SelectNone(attributes[1..], key);
    } else {
      assert Alone(attributes[1..], key, i - 1) by {
        assert forall j :: 0 <= j < |attributes| - 1 ==> attributes[1..][j] == attributes[j + 1];
      }
      SelectedAlone(attributes[1..], key, i - 1);
    }
  }

  lemma {:induction false} NotSelected(attributes: seq<Attribute>, key: nat)
    requires Select(attributes, key) == []
    ensures forall j :: 0 <= j < |attributes| ==> attributes[j].kind % 0x4000 != key
    decreases |attributes|
  {
    if attributes != [] {
      NotSelected(attributes[1..], key);
      assert forall j :: 0 <= j < |attributes| - 1 ==> attributes[1..][j] == attributes[j + 1];
    }
  }

  lemma {:induction false} AloneSelected(attributes: seq<Attribute>, key: nat) returns (i: nat)
    requires |Select(attributes, key)| == 1
    ensures Alone(attributes, key, i) && Select(attributes, key) == [attributes[i]]
    decreases |attributes|
  {
    var rest := attributes[1..];
    assert forall j :: 0 <= j < |rest| ==> rest[j] == attributes[j + 1];
    if attributes[0].kind % 0x4000 == key {
      NotSelected(rest, key);
      i := 0;
    } else {
      i := AloneSelected(rest, key);
      i := i + 1;
    }
  }

  lemma AloneKey(attributes: seq<Attribute>, key: nat, i: nat)
    requires Alone(attributes, key, i)
    ensures Masked(attributes[i]) == key
  {}

  lemma CarriedFound(view: seq<byte>, key: nat, a: Attribute)
    requires Carries(view, key, a)
    ensures Answer(view, key) == Found(a.data, FlagsOf(a))
  {
    hide Answer, Tiles, Select;
    AnswerExact(view, key);
    var attributes: seq<Attribute>, i: nat :| Tiles(attributes, view) && Alone(attributes, key, i) && attributes[i] == a;
    SelectedAlone(attributes, key, i);
    assert Masked(a) == key by { AloneKey(attributes, key, i); }
  }

  lemma LackedAbsent(view: seq<byte>, key: nat)
    requires Lacks(view, key)
    ensures Answer(view, key) == Absent
  {
    hide Answer, Tiles, Select;
    AnswerExact(view, key);
    var attributes: seq<Attribute> :| Tiles(attributes, view) && NoneUnder(attributes, key);
    SelectNone(attributes, key);
  }

  lemma MaskedIs(a: Attribute)
    ensures Masked(a) == a.kind % 0x4000
  {}

  lemma AnsweredSo(view: seq<byte>, key: nat)
    requires Answer(view, key) != Malformed
    ensures Answer(view, key) == Absent ==> Lacks(view, key)
    ensures Answer(view, key).Found? ==>
      exists a :: Carries(view, key, a) && Answer(view, key) == Found(a.data, FlagsOf(a))
  {
    hide Answer, Tiles, Select, Alone, Masked;
    AnswerExact(view, key);
    var attributes :| Tiles(attributes, view) && |Select(attributes, key)| <= 1;
    if Select(attributes, key) == [] {
      NotSelected(attributes, key);
      assert NoneUnder(attributes, key);
    } else {
      var i := AloneSelected(attributes, key);
      assert Carries(view, key, attributes[i]);
      AloneKey(attributes, key, i);
      MaskedIs(attributes[i]);
    }
  }

  /** The three things a lookup can answer, and when. */
  lemma AnswerMeans(view: seq<byte>, key: nat, data: seq<byte>)
    ensures Answer(view, key) == Absent <==> Lacks(view, key)
    ensures Answer(view, key).Found? && Answer(view, key).data == data <==> HasData(view, key, data)
    ensures Answer(view, key).Found? && Answer(view, key).data == data && !NetworkOrder(Answer(view, key).flags)
      <==> HasHostData(view, key, data)
  {
    hide Answer, Carries, Lacks;
    if Answer(view, key) != Malformed { AnsweredSo(view, key); }
    if Lacks(view, key) { LackedAbsent(view, key); }
    forall a | Carries(view, key, a) ensures Answer(view, key) == Found(a.data, FlagsOf(a)) {
      CarriedFound(view, key, a);
    }
  }

  lemma WordMeans(view: seq<byte>, key: nat, word: u32)
    ensures Word(view, key) == Some(None) <==> Lacks(view, key)
    ensures Word(view, key) == Some(Some(word)) <==> HasWord(view, key, word)
  {
    hide Answer, Lacks, HasHostData, ToLE, FromLE, NetworkOrder;
    Widths();
    FromToLE(word, 4);
    AnswerMeans(view, key, ToLE(word, 4));
    if Answer(view, key).Found? && |Answer(view, key).data| == 4 { ToFromLE(Answer(view, key).data); }
  }

  // ---- Scan messages -------------------------------------------------------------------------------------------

  ghost predicate MayHaveWord(view: seq<byte>, key: nat, word: Option<u32>) {
    if word.Some? then HasWord(view, key, word.value) else Lacks(view, key)
  }

  /** An access point's entry (attribute 47) with these identities: its address (1), the peer's address, which is the
      multi-link address (22) if there is one, frequency (2), offset (20) and link number (21). */
  ghost predicate Describes(bss: seq<byte>, id: Identity) {
    |id.bssid| == 6 && HasData(bss, 1, id.bssid)
    && (if id.mld then |id.peer| == 6 && HasData(bss, 22, id.peer) else Lacks(bss, 22) && id.peer == id.bssid)
    && MayHaveWord(bss, 2, id.frequency) && MayHaveWord(bss, 20, id.offset)
    && if id.linkId.Some? then id.linkId.value <= 15 && HasHostData(bss, 21, [id.linkId.value]) else Lacks(bss, 21)
  }

  /** The message is about this interface (attribute 3), and its access point has status (9) associated (1). */
  ghost predicate Reports(view: seq<byte>, ifindex: u32, link: Link) {
    HasWord(view, 3, ifindex) && HasData(view, 47, link.raw) && HasWord(link.raw, 9, 1) && Describes(link.raw, link.identity)
  }

  ghost predicate Unassociated(bss: seq<byte>) {
    Lacks(bss, 9) || exists status: u32 :: status != 1 && HasWord(bss, 9, status)
  }

  /** The message is about this interface, and its access point, if it has one, has no status or another one. */
  ghost predicate Quiet(view: seq<byte>, ifindex: u32) {
    HasWord(view, 3, ifindex)
    && (Lacks(view, 47) || exists bss :: HasData(view, 47, bss) && Unassociated(bss))
  }

  lemma AddressMeans(view: seq<byte>, key: nat, address: seq<byte>)
    ensures Address(view, key) == Some(None) <==> Lacks(view, key)
    ensures Address(view, key) == Some(Some(address)) <==> |address| == 6 && HasData(view, key, address)
  {
    hide Answer, Lacks, HasData;
    AnswerMeans(view, key, address);
  }

  lemma LinkNumberMeans(view: seq<byte>, id: byte)
    ensures LinkNumber(view) == Some(None) <==> Lacks(view, 21)
    ensures LinkNumber(view) == Some(Some(id)) <==> id <= 15 && HasHostData(view, 21, [id])
  {
    hide Answer, Lacks, HasHostData, NetworkOrder;
    AnswerMeans(view, 21, [id]);
  }

  lemma IdentityMeans(bss: seq<byte>, id: Identity)
    ensures ReadIdentity(bss) == Some(id) <==> Describes(bss, id)
  {
    hide Address, Word, LinkNumber, Lacks, HasData, HasWord, HasHostData;
    AddressMeans(bss, 1, id.bssid);
    AddressMeans(bss, 22, id.peer);
    WordMeans(bss, 2, if id.frequency.Some? then id.frequency.value else 0);
    WordMeans(bss, 20, if id.offset.Some? then id.offset.value else 0);
    LinkNumberMeans(bss, if id.linkId.Some? then id.linkId.value else 0);
  }

  lemma StatusMeans(bss: seq<byte>)
    ensures Word(bss, BSS_STATUS) == Some(Some(ASSOCIATED)) <==> HasWord(bss, 9, 1)
    ensures Word(bss, BSS_STATUS).Some? && Word(bss, BSS_STATUS) != Some(Some(ASSOCIATED)) <==> Unassociated(bss)
  {
    hide Word, Lacks, HasWord;
    WordMeans(bss, 9, 1);
    forall v: u32 ensures HasWord(bss, 9, v) <==> Word(bss, 9) == Some(Some(v)) { WordMeans(bss, 9, v); }
    var status := Word(bss, 9);
    if status.Some? && status.value.Some? { assert HasWord(bss, 9, status.value.value); }
  }

  /** Exactly which messages are taken for an association, with what is remembered of it, and which are passed over;
      all others fail the dump. */
  lemma MessageMeans(view: seq<byte>, ifindex: u32, link: Link)
    ensures ReadMessage(view, ifindex) == Linked(link) <==> Reports(view, ifindex, link)
    ensures ReadMessage(view, ifindex) == Skipped <==> Quiet(view, ifindex)
  {
    hide Word, Answer, ReadIdentity, Lacks, HasData, HasWord, Unassociated, Describes;
    WordMeans(view, 3, ifindex);
    AnswerMeans(view, 47, link.raw);
    forall bss ensures Answer(view, 47).Found? && Answer(view, 47).data == bss <==> HasData(view, 47, bss) {
      AnswerMeans(view, 47, bss);
    }
    if Answer(view, 47).Found? {
      StatusMeans(Answer(view, 47).data);
    }
    StatusMeans(link.raw);
    IdentityMeans(link.raw, link.identity);
  }

  // ---- Written messages ----------------------------------------------------------------------------------------

  /** A field to be written under its key, if it has a value. */
  datatype Entry = Entry(key: u16, data: Option<seq<byte>>)

  predicate Writable(entries: seq<Entry>) {
    (forall i :: 0 <= i < |entries| ==> entries[i].key < 0x4000 && (entries[i].data.Some? ==> |entries[i].data.value| <= 0xFFFB))
    && forall i, j :: 0 <= i < j < |entries| ==> entries[i].key != entries[j].key
  }

  function Packed(entries: seq<Entry>): seq<Attribute> {
    if entries == [] then []
    else (if entries[0].data.Some? then [Made(entries[0].key, entries[0].data.value)] else []) + Packed(entries[1..])
  }

  function Written(entries: seq<Entry>): seq<byte> {
    WireAll(Packed(entries))
  }

  lemma MadeFits(e: Entry)
    requires e.data.Some? ==> |e.data.value| <= 0xFFFB
    ensures e.data.Some? ==> Fits(Made(e.key, e.data.value))
  {}

  lemma {:induction false} PackedFits(entries: seq<Entry>)
    requires Writable(entries)
    ensures AllFit(Packed(entries))
    decreases |entries|
  {
    if entries != [] {
      PackedFits(entries[1..]);
      MadeFits(entries[0]);
    }
  }

  lemma {:induction false} PackedElsewhere(entries: seq<Entry>, key: nat)
    requires Writable(entries) && forall i :: 0 <= i < |entries| ==> entries[i].key != key
    ensures NoneUnder(Packed(entries), key)
    decreases |entries|
  {
    if entries != [] { PackedElsewhere(entries[1..], key); }
  }

  ghost predicate PackedHas(entries: seq<Entry>, key: u16, data: seq<byte>) {
    exists i: nat :: Alone(Packed(entries), key, i) && Packed(entries)[i] == Made(key, data)
  }

  lemma {:induction false} PackedAlone(entries: seq<Entry>, k: nat)
    requires Writable(entries) && k < |entries|
    ensures if entries[k].data.None? then NoneUnder(Packed(entries), entries[k].key)
      else PackedHas(entries, entries[k].key, entries[k].data.value)
    decreases |entries|
  {
    var (e, rest) := (entries[0], entries[1..]);
    var front := if e.data.Some? then [Made(e.key, e.data.value)] else [];
    assert Packed(entries) == front + Packed(rest);
    if k == 0 {
      PackedElsewhere(rest, e.key);
      if e.data.Some? { assert Alone(Packed(entries), e.key, 0); }
    } else {
      PackedAlone(rest, k - 1);
      assert rest[k - 1] == entries[k] && e.key != entries[k].key;
      if entries[k].data.Some? {
        var i: nat :| Alone(Packed(rest), entries[k].key, i) && Packed(rest)[i] == Made(entries[k].key, entries[k].data.value);
        assert Alone(Packed(entries), entries[k].key, i + |front|);
      }
    }
  }

  /** What was written under distinct keys is carried under them, and what was left out is lacking. */
  lemma WrittenCarries(entries: seq<Entry>, k: nat)
    requires Writable(entries) && k < |entries|
    ensures if entries[k].data.Some? then HasHostData(Written(entries), entries[k].key, entries[k].data.value)
      else Lacks(Written(entries), entries[k].key)
  {
    hide WireAll;
    PackedFits(entries);
    PackedAlone(entries, k);
    assert Tiles(Packed(entries), Written(entries));
    if entries[k].data.Some? {
      var i: nat :| Alone(Packed(entries), entries[k].key, i)
        && Packed(entries)[i] == Made(entries[k].key, entries[k].data.value);
      assert Carries(Written(entries), entries[k].key, Packed(entries)[i]);
    }
  }

  lemma HostDataIsData(view: seq<byte>, key: nat, data: seq<byte>)
    requires HasHostData(view, key, data)
    ensures HasData(view, key, data)
  {}

  function WordOf(word: Option<u32>): Option<seq<byte>> {
    if word.Some? then Some(ToLE(word.value, 4)) else None
  }

  /** An access point's entry, written with these identities and status. */
  function BssEntries(id: Identity, status: Option<u32>): seq<Entry> {
    [Entry(1, Some(id.bssid)), Entry(2, WordOf(id.frequency)), Entry(9, WordOf(status)), Entry(20, WordOf(id.offset)),
      Entry(21, if id.linkId.Some? then Some([id.linkId.value]) else None),
      Entry(22, if id.mld then Some(id.peer) else None)]
  }

  function MessageEntries(ifindex: u32, bss: Option<seq<byte>>): seq<Entry> {
    [Entry(3, Some(ToLE(ifindex, 4))), Entry(47, bss)]
  }

  /** Six-byte addresses, a link number below sixteen, and the peer's address the access point's own unless there is a
      multi-link address. */
  predicate Sound(id: Identity) {
    |id.bssid| == 6 && |id.peer| == 6 && (!id.mld ==> id.peer == id.bssid) && (id.linkId.Some? ==> id.linkId.value <= 15)
  }

  lemma WrittenDescribes(id: Identity, status: Option<u32>)
    requires Sound(id)
    ensures Describes(Written(BssEntries(id, status)), id) && MayHaveWord(Written(BssEntries(id, status)), 9, status)
  {
    hide HasHostData, HasData, Lacks, Written, ToLE;
    var entries := BssEntries(id, status);
    WrittenCarries(entries, 0);
    WrittenCarries(entries, 1);
    WrittenCarries(entries, 2);
    WrittenCarries(entries, 3);
    WrittenCarries(entries, 4);
    WrittenCarries(entries, 5);
    HostDataIsData(Written(entries), 1, id.bssid);
    if id.mld { HostDataIsData(Written(entries), 22, id.peer); }
  }

  lemma {:induction false} WrittenSize(entries: seq<Entry>)
    requires Writable(entries)
    ensures |Written(entries)| % 4 == 0
    ensures (forall i :: 0 <= i < |entries| && entries[i].data.Some? ==> |entries[i].data.value| <= 8) ==>
      |Written(entries)| <= 12 * |entries|
    decreases |entries|
  {
    hide ToLE;
    if entries != [] {
      WrittenSize(entries[1..]);
      if entries[0].data.Some? {
        var packed := Packed(entries);
        assert packed[0] == Made(entries[0].key, entries[0].data.value) && packed[1..] == Packed(entries[1..]);
      } else {
        assert Packed(entries) == Packed(entries[1..]);
      }
    }
  }

  /** A written message comes back as the association it describes if its status is associated, and is passed over
      with another status, without one, or without an access point. */
  lemma WrittenReports(ifindex: u32, id: Identity, status: Option<u32>)
    requires Sound(id)
    ensures var bss := Written(BssEntries(id, status));
      ReadMessage(Written(MessageEntries(ifindex, Some(bss))), ifindex)
        == (if status == Some(1) then Linked(Link(id, bss)) else Skipped)
      && ReadMessage(Written(MessageEntries(ifindex, None)), ifindex) == Skipped
  {
    hide HasHostData, HasData, Lacks, Written, ToLE, ReadMessage, Describes;
    var bss := Written(BssEntries(id, status));
    WrittenDescribes(id, status);
    WrittenSize(BssEntries(id, status));
    var entries := MessageEntries(ifindex, Some(bss));
    WrittenCarries(entries, 0);
    WrittenCarries(entries, 1);
    HostDataIsData(Written(entries), 47, bss);
    MessageMeans(Written(entries), ifindex, Link(id, bss));
    var none := MessageEntries(ifindex, None);
    WrittenCarries(none, 0);
    WrittenCarries(none, 1);
    MessageMeans(Written(none), ifindex, Link(id, bss));
  }

  // ---- A whole reading -----------------------------------------------------------------------------------------

  /** Where in a dump the links were reported: each by one message, in order, all other messages passed over. */
  ghost predicate ReportedAt(views: seq<seq<byte>>, ifindex: u32, links: seq<Link>, at: seq<nat>) {
    |at| == |links|
    && (forall l :: 0 <= l < |at| ==> at[l] < |views| && Reports(views[at[l]], ifindex, links[l]))
    && (forall l, m :: 0 <= l < m < |at| ==> at[l] < at[m])
    && (forall n: nat :: n < |views| && n !in at ==> Quiet(views[n], ifindex))
  }

  ghost predicate ReportedBy(views: seq<seq<byte>>, ifindex: u32, links: seq<Link>) {
    exists at: seq<nat> :: ReportedAt(views, ifindex, links, at)
  }

  lemma ReportedMore(front: seq<seq<byte>>, view: seq<byte>, ifindex: u32, links: seq<Link>, at: seq<nat>)
    requires ReportedAt(front, ifindex, links, at)
    ensures Quiet(view, ifindex) ==> ReportedAt(front + [view], ifindex, links, at)
    ensures forall link :: Reports(view, ifindex, link) ==>
      ReportedAt(front + [view], ifindex, links + [link], at + [|front|])
  {
    hide Quiet, Reports;
    var views := front + [view];
    assert views[|front|] == view;
    assert forall n :: 0 <= n < |front| ==> views[n] == front[n];
    forall link | Reports(view, ifindex, link) ensures ReportedAt(views, ifindex, links + [link], at + [|front|]) {
      var (more, where) := (links + [link], at + [|front|]);
      forall l | 0 <= l < |where| ensures where[l] < |views| && Reports(views[where[l]], ifindex, more[l]) {
        if l < |at| { assert where[l] == at[l] && more[l] == links[l]; }
      }
      forall n: nat | n < |views| && n !in where ensures Quiet(views[n], ifindex) {
        assert where[|at|] == |front| && at == where[..|at|];
      }
    }
  }

  lemma NothingReported(ifindex: u32)
    ensures ReportedAt([], ifindex, [], [])
  {}

  /** The associations of a dump are what its messages report. */
  lemma {:induction false} LinksReported(views: seq<seq<byte>>, ifindex: u32)
    requires Links(views, ifindex).Some?
    ensures ReportedBy(views, ifindex, Links(views, ifindex).value)
    decreases |views|
  {
    hide ReadMessage, Reports, Quiet, ReportedAt;
    if views == [] {
      assert ReportedAt(views, ifindex, [], []) by { NothingReported(ifindex); }
    } else {
      var n := |views| - 1;
      LinksReported(views[..n], ifindex);
      var links := Links(views[..n], ifindex).value;
      var at: seq<nat> :| ReportedAt(views[..n], ifindex, links, at);
      var last := ReadMessage(views[n], ifindex);
      ReportedMore(views[..n], views[n], ifindex, links, at);
      assert views[..n] + [views[n]] == views;
      MessageMeans(views[n], ifindex, if last.Linked? then last.link else Link(Identity([], [], false, None, None, None), []));
      if last.Skipped? { assert links + [] == links; }
    }
  }

  /** A link reported by the last message is the last link. */
  lemma LastReported(views: seq<seq<byte>>, ifindex: u32, links: seq<Link>, at: seq<nat>, l: nat)
    requires ReportedAt(views, ifindex, links, at) && l < |at| && at[l] == |views| - 1
    ensures l == |links| - 1
  {
    hide Quiet, Reports;
    assert at[|at| - 1] <= at[l];
  }

  lemma FrontReported(views: seq<seq<byte>>, ifindex: u32, links: seq<Link>, at: seq<nat>)
    requires ReportedAt(views, ifindex, links, at) && at != [] && at[|at| - 1] == |views| - 1
    ensures ReportedAt(views[..|views| - 1], ifindex, links[..|links| - 1], at[..|at| - 1])
  {
    hide Quiet, Reports;
    var (front, n, fewer) := (views[..|views| - 1], |views| - 1, at[..|at| - 1]);
    forall v: nat | v < n && v !in fewer ensures Quiet(front[v], ifindex) {
      assert at == fewer + [n];
      assert v !in at;
    }
  }

  lemma ReportedLess(views: seq<seq<byte>>, ifindex: u32, links: seq<Link>, at: seq<nat>)
    requires ReportedAt(views, ifindex, links, at) && views != []
    ensures var (front, n) := (views[..|views| - 1], |views| - 1);
      (Quiet(views[n], ifindex) && ReportedBy(front, ifindex, links))
      || (links != [] && Reports(views[n], ifindex, links[|links| - 1])
        && ReportedBy(front, ifindex, links[..|links| - 1]))
  {
    hide Quiet, Reports;
    var (front, n) := (views[..|views| - 1], |views| - 1);
    if n !in at {
      assert ReportedAt(front, ifindex, links, at);
    } else {
      var l: nat :| l < |at| && at[l] == n;
      LastReported(views, ifindex, links, at, l);
      FrontReported(views, ifindex, links, at);
    }
  }

  lemma NothingToReport(views: seq<seq<byte>>, ifindex: u32, links: seq<Link>, at: seq<nat>)
    requires ReportedAt(views, ifindex, links, at)
    ensures links != [] ==> views != []
  {
    assert links != [] ==> at[0] < |views|;
  }

  /** The messages of a dump report one list of associations at most. */
  lemma {:induction false} ReportedAreLinks(views: seq<seq<byte>>, ifindex: u32, links: seq<Link>)
    requires ReportedBy(views, ifindex, links)
    ensures Links(views, ifindex) == Some(links)
    decreases |views|
  {
    hide ReadMessage, Reports, Quiet, ReportedAt;
    var at: seq<nat> :| ReportedAt(views, ifindex, links, at);
    if views == [] {
      NothingToReport(views, ifindex, links, at);
    } else {
      var n := |views| - 1;
      ReportedLess(views, ifindex, links, at);
      var none := Link(Identity([], [], false, None, None, None), []);
      MessageMeans(views[n], ifindex, if links != [] then links[|links| - 1] else none);
      if Quiet(views[n], ifindex) && ReportedBy(views[..n], ifindex, links) {
        ReportedAreLinks(views[..n], ifindex, links);
        assert links + [] == links;
      } else {
        ReportedAreLinks(views[..n], ifindex, links[..|links| - 1]);
        assert links[..|links| - 1] + [links[|links| - 1]] == links;
      }
    }
  }

  /** At most sixteen links with entries of at most 8192 bytes, no two for one access point. */
  predicate Acceptable(links: seq<Link>) {
    |links| <= 16
    && (forall l :: 0 <= l < |links| ==> |links[l].raw| <= 8192)
    && forall l, m :: 0 <= l < m < |links| ==> links[l].identity.bssid != links[m].identity.bssid
  }

  ghost predicate SameReports(first: seq<seq<byte>>, second: seq<seq<byte>>, ifindex: u32, links: seq<Link>, again: seq<Link>) {
    ReportedBy(first, ifindex, links) && ReportedBy(second, ifindex, again) && Acceptable(links)
    && multiset(Identities(links)) == multiset(Identities(again))
  }

  /** Two dumps are about the same associations exactly if their messages report the same identities, in whatever
      order. */
  lemma SameReported(first: seq<seq<byte>>, second: seq<seq<byte>>, ifindex: u32)
    ensures SameAssociations(first, second, ifindex) <==> exists links, again :: SameReports(first, second, ifindex, links, again)
  {
    hide Links, ReportedBy;
    if SameAssociations(first, second, ifindex) {
      var (links, again) := (Links(first, ifindex).value, Links(second, ifindex).value);
      LinksReported(first, ifindex);
      LinksReported(second, ifindex);
      assert forall l :: 0 <= l < |links| ==> links[l] in links;
      assert SameReports(first, second, ifindex, links, again);
    }
    if links, again :| SameReports(first, second, ifindex, links, again) {
      ReportedAreLinks(first, ifindex, links);
      ReportedAreLinks(second, ifindex, again);
    }
  }

  /** Both sides carry the same value of this size. */
  ghost predicate Agree(before: seq<byte>, after: seq<byte>, key: nat, size: nat) {
    exists data: seq<byte> :: |data| == size && HasHostData(before, key, data) && HasHostData(after, key, data)
  }

  lemma FieldMeans(before: seq<byte>, after: seq<byte>, key: nat, size: nat)
    ensures SameField(before, after, key, size) <==> Agree(before, after, key, size)
  {
    hide Answer, HasHostData, NetworkOrder;
    forall view, data ensures HasHostData(view, key, data)
      <==> Answer(view, key).Found? && Answer(view, key).data == data && !NetworkOrder(Answer(view, key).flags)
    {
      AnswerMeans(view, key, data);
    }
    if SameField(before, after, key, size) {
      var data := Answer(before, key).data;
      assert HasHostData(before, key, data) && HasHostData(after, key, data);
    }
  }

  /** The interface is the same: number (3), name (4), device (153), radio (1), type (5) and address (6). */
  ghost predicate Unchanged(before: seq<byte>, after: seq<byte>, name: seq<byte>) {
    Agree(before, after, 3, 4) && Agree(before, after, 4, |name| + 1) && HasHostData(before, 4, name + [0])
    && Agree(before, after, 153, 8) && Agree(before, after, 1, 4) && Agree(before, after, 5, 4) && Agree(before, after, 6, 6)
  }

  lemma OnTheLeft(before: seq<byte>, after: seq<byte>, key: nat, size: nat)
    requires SameField(before, after, key, size)
    ensures Answer(before, key).Found? && !NetworkOrder(Answer(before, key).flags)
  {}

  lemma InterfaceMeans(before: seq<byte>, after: seq<byte>, name: seq<byte>)
    ensures SameInterface(before, after, name) <==> Unchanged(before, after, name)
  {
    hide Answer, Agree, HasHostData, SameField;
    FieldMeans(before, after, 3, 4);
    FieldMeans(before, after, 4, |name| + 1);
    FieldMeans(before, after, 153, 8);
    FieldMeans(before, after, 1, 4);
    FieldMeans(before, after, 5, 4);
    FieldMeans(before, after, 6, 6);
    AnswerMeans(before, 4, name + [0]);
    if SameField(before, after, 4, |name| + 1) { OnTheLeft(before, after, 4, |name| + 1); }
    assert (forall i :: 0 <= i < 6 ==> SameField(before, after, KEYS[i], SizeOf(name, i))) <==> (
      SameField(before, after, 3, 4) && SameField(before, after, 4, |name| + 1) && SameField(before, after, 153, 8)
      && SameField(before, after, 1, 4) && SameField(before, after, 5, 4) && SameField(before, after, 6, 6)) by
    {
      assert KEYS[0] == 3 && KEYS[1] == 4 && KEYS[2] == 153 && KEYS[3] == 1 && KEYS[4] == 5 && KEYS[5] == 6;
    }
  }

  lemma RepliesMean(view: seq<byte>, ifindex: u32, links: seq<Link>, id: u16)
    ensures Client(view) <==> HasWord(view, 5, 2) || HasWord(view, 5, 8)
    ensures InterfaceReply(view, ifindex) <==> HasWord(view, 3, ifindex) && |view| <= 8192
    ensures StationReply(view, ifindex, links) <==> (links != [] && HasWord(view, 3, ifindex) && |view| <= 8192
      && |links[0].identity.peer| == 6 && HasData(view, 6, links[0].identity.peer))
  {
    hide Word, Answer, HasWord, HasData;
    WordMeans(view, 5, 2);
    WordMeans(view, 5, 8);
    WordMeans(view, 3, ifindex);
    if links != [] { AnswerMeans(view, 6, links[0].identity.peer); }
  }

  /** The family's number (1) is at least 16, and its name (2) is that of nl80211. */
  lemma FamilyMeans(view: seq<byte>, id: u16)
    ensures FamilyOf(view) == Some(id) <==>
      id >= 16 && HasHostData(view, 1, ToLE(id, 2)) && HasData(view, 2, [110, 108, 56, 48, 50, 49, 49, 0])
  {
    hide Answer, HasHostData, HasData, ToLE, FromLE, NetworkOrder;
    Widths();
    FromToLE(id, 2);
    AnswerMeans(view, 1, ToLE(id, 2));
    AnswerMeans(view, 2, [110, 108, 56, 48, 50, 49, 49, 0]);
    if Answer(view, 1).Found? && |Answer(view, 1).data| == 2 { ToFromLE(Answer(view, 1).data); }
  }

  /** All links go to one peer, in one way. */
  predicate Together(links: seq<Link>) {
    forall l, m :: 0 <= l < |links| && 0 <= m < |links| ==>
      links[l].identity.peer == links[m].identity.peer && links[l].identity.mld == links[m].identity.mld
  }

  /** Without links the station is not asked for; with links to different peers it is noted as not supported; otherwise
      one exchange decides: a reply is kept, three refusals are noted, and everything else ends the reading. */
  lemma StationMeans(k: Socket, family: u16, sequence: u32, links: seq<Link>, ifindex: u32)
    requires sequence <= 4
    ensures var r := AskStation(k, family, sequence, links, ifindex);
      var (s, rest) := RunAll(START, k, Query(family, 19, false, sequence), StationHandler(ifindex, links));
      if links == [] then r == Some((NotAsked, k, sequence))
      else if !Together(links) then r == Some((Noted(95), k, sequence))
      else if s.verdict.Complete? then
        r.Some? && r.value.0.Read? && s.delivered == [r.value.0.view] && r.value.1 == rest && r.value.2 == sequence + 1
        && HasWord(r.value.0.view, 3, ifindex) && HasData(r.value.0.view, 6, links[0].identity.peer)
      else if s.verdict in {Refused(1), Refused(13), Refused(95)} then
        r == Some((Noted(s.verdict.errno), rest, sequence + 1))
      else r == None
  {
    hide RunAll, StationReply, HasWord, HasData;
    var q := Query(family, NEW_STATION, false, sequence);
    var s := RunAll(START, k, q, StationHandler(ifindex, links)).0;
    if s.verdict.Complete? {
      OneReply(k, q, StationHandler(ifindex, links));
      RepliesMean(Only(s.delivered), ifindex, links, 0);
    }
  }

  /** What a reading that succeeds says about the station. */
  ghost predicate StationSays(station: StationPart, links: seq<Link>, ifindex: u32) {
    match station
    case NotAsked => links == []
    case Noted(errno) => links != [] && (if Together(links) then errno in {1, 13, 95} else errno == 95)
    case Read(view) =>
      links != [] && Together(links) && HasWord(view, 3, ifindex) && HasData(view, 6, links[0].identity.peer)
  }

  lemma StationOf(k: Socket, name: seq<byte>, ifindex: u32)
    requires ReadAll(k, name, ifindex).Some?
    ensures var o := ReadAll(k, name, ifindex).value; StationSays(o.station, o.links, ifindex)
  {
    hide RunAll, HasWord, HasData, AskStation, Confirmation, FirstPass, Links, FamilyHandler, InterfaceHandler;
    var (s, k1) := RunAll(START, k, Query(CONTROLLER, NEW_FAMILY, false, 1), FamilyHandler());
    var family := FamilyOf(Only(s.delivered)).value;
    var (t, k2) := RunAll(START, k1, Query(family, NEW_INTERFACE, false, 2), InterfaceHandler(ifindex));
    var (u, k3) := RunAll(START, k2, Query(family, NEW_SCAN_RESULTS, true, 3), FirstPass(ifindex));
    StationMeans(k3, family, 4, LinksOf(u.delivered, ifindex), ifindex);
  }

  lemma ReportedOnce(first: seq<seq<byte>>, second: seq<seq<byte>>, ifindex: u32, links: seq<Link>, again: seq<Link>)
    requires SameReports(first, second, ifindex, links, again)
    ensures LinksOf(first, ifindex) == links
  {
    hide Links, ReportedBy;
    ReportedAreLinks(first, ifindex, links);
  }

  /** A reading that succeeds found one unchanged client interface; its links are what the messages of the first dump
      report, those of the second report the same identities, and the station part fits the links. */
  lemma ReadingMeans(k: Socket, name: seq<byte>, ifindex: u32)
    requires ReadAll(k, name, ifindex).Some?
    ensures var o := ReadAll(k, name, ifindex).value;
      Unchanged(o.before, o.after, name) && HasWord(o.before, 3, ifindex)
      && (HasWord(o.before, 5, 2) || HasWord(o.before, 5, 8))
      && (exists again :: SameReports(o.first, o.second, ifindex, o.links, again))
      && StationSays(o.station, o.links, ifindex)
  {
    hide ReadAll, Links, SameInterface, HasWord, Unchanged, StationSays, SameReports, ReportedBy, Usable;
    hide StationReply, InterfaceReply, Client;
    var o := ReadAll(k, name, ifindex).value;
    ReadIsConsistent(k, name, ifindex);
    StationOf(k, name, ifindex);
    InterfaceMeans(o.before, o.after, name);
    RepliesMean(o.before, ifindex, [], 0);
    SameReported(o.first, o.second, ifindex);
    var links, again :| SameReports(o.first, o.second, ifindex, links, again);
    ReportedOnce(o.first, o.second, ifindex, links, again);
  }
}
