/** Merging the topology facts reported by federation nodes into one canonical export. */
module FactMerge {
  import opened SsamTypes
  import opened Ordering
  import opened Text

  // ----- facts -----

  datatype PolicyFact = PolicyFact(source: string, dest: string, allow: bool)

  datatype HostFact = HostFact(
    id: string, ips: seq<string>, subnets: seq<string>, zone: string, ssam: real, forwards: bool, statefulInput: bool,
    inbound: seq<PolicyFact>, outbound: seq<PolicyFact>, links: Option<map<string, bool>>)

  /** The network a CIDR string denotes, written canonically, if it parses as one. */
  type NetParser = string -> Option<string>

  // ----- subnets -----

  function NormalSubnet(s: string, net: NetParser): string {
    var t := TrimSpace(s);
    if t == "" then t
    else match net(t)
      case Some(n) => n
      case None => t
  }

  /** Two spellings of one network become one text, the network's own; what denotes no network is only trimmed. */
  lemma OneNetworkOneText(x: string, y: string, net: NetParser)
    ensures TrimSpace(x) != "" && net(TrimSpace(x)).Some? && net(TrimSpace(x)) == net(TrimSpace(y))
            && TrimSpace(y) != "" ==>
              NormalSubnet(x, net) == NormalSubnet(y, net) == net(TrimSpace(x)).value
    ensures TrimSpace(x) == "" || net(TrimSpace(x)).None? ==> NormalSubnet(x, net) == TrimSpace(x)
  {
  }

  /** The non-empty strings of a list. */
  function NonEmpty(s: seq<string>): set<string> {
    set x | x in s && x != ""
  }

  function NormalSubnets(s: seq<string>, net: NetParser): set<string> {
    set x | x in s && NormalSubnet(x, net) != "" :: NormalSubnet(x, net)
  }

  /** Normalises, drops blanks and repeats, keeps the order of first occurrence. */
  method NormalizeFactSubnets(s: seq<string>, net: NetParser) returns (out: seq<string>)
    ensures Distinct(out) && NonEmpty(out) == NormalSubnets(s, net)
  {
    out := [];
    var seen: set<string> := {};
    for i := 0 to |s|
      invariant Distinct(out) && seen == Elements(out) && NonEmpty(out) == NormalSubnets(s[..i], net)
    {
      assert s[..i + 1] == s[..i] + [s[i]];
      NormalSubnetsSnoc(s[..i], s[i], net);
      var x := TrimSpace(s[i]);
      if x == "" {
        continue;
      }
      match net(x) {
        case Some(n) => x := n;
        case None =>
      }
      if x in seen {
        assert x in out;
        continue;
      }
      seen := seen + {x};
      NonEmptySnoc(out, x);
      out := out + [x];
    }
    assert s[..|s|] == s;
  }

  lemma NormalSubnetsSnoc(s: seq<string>, x: string, net: NetParser)
    ensures NormalSubnets(s + [x], net) == NormalSubnets(s, net)
            + (if NormalSubnet(x, net) != "" then {NormalSubnet(x, net)} else {})
  {
    assert forall y :: y in s + [x] <==> y in s || y == x;
    hide NormalSubnet;
  }

  lemma NonEmptySnoc(s: seq<string>, x: string)
    ensures NonEmpty(s + [x]) == NonEmpty(s) + (if x != "" then {x} else {})
    ensures Elements(s + [x]) == Elements(s) + {x}
  {
    assert forall y :: y in s + [x] <==> y in s || y == x;
  }

  /** The sorted duplicate-free union, blanks dropped. */
  method UnionStrings(a: seq<string>, b: seq<string>) returns (out: seq<string>)
    ensures out == SortedListing(NonEmpty(a) + NonEmpty(b))
  {
    var both := a + b;
    var seen: set<string> := {};
    var found: seq<string> := [];
    for i := 0 to |both|
      invariant Distinct(found) && seen == Elements(found) && Elements(found) == NonEmpty(both[..i])
    {
      assert both[..i + 1] == both[..i] + [both[i]];
      NonEmptySnoc(both[..i], both[i]);
      if both[i] == "" || both[i] in seen {
        continue;
      }
      seen := seen + {both[i]};
      NonEmptySnoc(found, both[i]);
      assert both[i] !in found;
      found := found + [both[i]];
    }
    assert both[..|both|] == both;
    assert NonEmpty(both) == NonEmpty(a) + NonEmpty(b);
    out := SortStrings(found);
    ListingIs(out, NonEmpty(a) + NonEmpty(b));
  }

  lemma NonEmptyListing(xs: set<string>)
    requires "" !in xs
    ensures NonEmpty(SortedListing(xs)) == xs
  {
    assert forall x :: x in SortedListing(xs) <==> x in Elements(SortedListing(xs));
  }

  // ----- what the facts say about one host -----

  function Ids(fs: seq<HostFact>): set<string> {
    set f | f in fs :: f.id
  }

  function IpsOf(fs: seq<HostFact>, id: string): set<string> {
    set f, x | f in fs && f.id == id && x in f.ips && x != "" :: x
  }

  function SubnetsOf(fs: seq<HostFact>, id: string, net: NetParser): set<string> {
    set f, x | f in fs && f.id == id && x in f.subnets && NormalSubnet(x, net) != "" :: NormalSubnet(x, net)
  }

  predicate AnyForwards(fs: seq<HostFact>, id: string) {
    exists f :: f in fs && f.id == id && f.forwards
  }

  predicate AnyStateful(fs: seq<HostFact>, id: string) {
    exists f :: f in fs && f.id == id && f.statefulInput
  }

  /** The last non-empty zone reported for the host. */
  function ZoneOf(fs: seq<HostFact>, id: string): string {
    if fs == [] then ""
    else
      var f := fs[|fs| - 1];
      if f.id == id && f.zone != "" then f.zone else ZoneOf(fs[..|fs| - 1], id)
  }

  /** The first score reported for the host. */
  function SsamOf(fs: seq<HostFact>, id: string): Option<real> {
    if fs == [] then None
    else
      var before := SsamOf(fs[..|fs| - 1], id);
      var f := fs[|fs| - 1];
      if before.None? && f.id == id then Some(f.ssam) else before
  }

  function InboundOf(fs: seq<HostFact>, id: string): seq<PolicyFact> {
    if fs == [] then []
    else InboundOf(fs[..|fs| - 1], id) + if fs[|fs| - 1].id == id then fs[|fs| - 1].inbound else []
  }

  function OutboundOf(fs: seq<HostFact>, id: string): seq<PolicyFact> {
    if fs == [] then []
    else OutboundOf(fs[..|fs| - 1], id) + if fs[|fs| - 1].id == id then fs[|fs| - 1].outbound else []
  }

  /** Links accumulate, later ones winning. A host's first fact decides whether it has a link table at all
      until a non-empty one arrives. */
  function LinksOf(fs: seq<HostFact>, id: string): Option<map<string, bool>> {
    if fs == [] then None
    else
      var before := LinksOf(fs[..|fs| - 1], id);
      var f := fs[|fs| - 1];
      if f.id != id then before
      else if id !in Ids(fs[..|fs| - 1]) then f.links
      else if f.links.None? || |f.links.value| == 0 then before
      else Some((if before.Some? then before.value else map[]) + f.links.value)
  }

  ghost function MergedHost(fs: seq<HostFact>, id: string, net: NetParser): HostFact {
    HostFact(id, SortedListing(IpsOf(fs, id)), SortedListing(SubnetsOf(fs, id, net)), ZoneOf(fs, id),
             if SsamOf(fs, id).Some? then SsamOf(fs, id).value else 0.0,
             AnyForwards(fs, id), AnyStateful(fs, id), InboundOf(fs, id), OutboundOf(fs, id), LinksOf(fs, id))
  }

  // ----- policies -----

  function NormalPolicy(p: PolicyFact, net: NetParser): PolicyFact {
    PolicyFact(NormalSubnet(p.source, net), NormalSubnet(p.dest, net), p.allow)
  }

  function PolicyKey(p: PolicyFact): string {
    p.source + "|" + p.dest + "|" + if p.allow then "1" else "0"
  }

  function PolicyMap(ps: seq<PolicyFact>, net: NetParser): map<string, PolicyFact> {
    if ps == [] then map[]
    else
      var p := NormalPolicy(ps[|ps| - 1], net);
      PolicyMap(ps[..|ps| - 1], net)[PolicyKey(p) := p]
  }

  // ----- the merge -----

  /** One record per reported id, holding what the facts say about it. */
  ghost predicate Records(hosts: map<string, HostFact>, fs: seq<HostFact>, net: NetParser) {
    hosts.Keys == Ids(fs) && forall id :: id in hosts ==> hosts[id] == MergedHost(fs, id, net)
  }

  /** The two maps `mergedFactsFrom` fills. `facts` and `rules` record what has gone in. */
  class Merger {
    const net: NetParser
    var hosts: map<string, HostFact>
    var policies: map<string, PolicyFact>
    ghost var facts: seq<HostFact>
    ghost var rules: seq<PolicyFact>

    ghost predicate Valid()
      reads this
    {
      && Records(hosts, facts, net)
      && policies == PolicyMap(rules, net)
    }

    constructor (net: NetParser)
      ensures Valid() && facts == [] && rules == [] && this.net == net
    {
      this.net := net;
      hosts, policies, facts, rules := map[], map[], [], [];
    }

    method MergeHost(h: HostFact)
      requires Valid()
      modifies this
      ensures Valid() && facts == old(facts) + [h] && rules == old(rules)
    {
      hide MergedHost, Ids, PolicyMap, PolicyKey;
      IdsSnoc(facts, h);
      var record: HostFact;
      if h.id !in hosts {
        record := FirstRecord(h, net, facts);
      } else {
        record := JoinRecord(hosts[h.id], h, net, facts);
      }
      forall id | id in hosts && id != h.id ensures hosts[id] == MergedHost(facts + [h], id, net) {
        OtherHost(facts, h, id, net);
      }
      hosts := hosts[h.id := record];
      facts := facts + [h];
    }

    method MergePolicy(p: PolicyFact)
      requires Valid()
      modifies this
      ensures Valid() && facts == old(facts) && rules == old(rules) + [p]
    {
      hide Records, NormalSubnet, PolicyKey;
      var q := PolicyFact(NormalSubnet(p.source, net), NormalSubnet(p.dest, net), p.allow);
      policies := policies[PolicyKey(q) := q];
      rules := rules + [p];
      assert rules[..|rules| - 1] == old(rules);
    }

    method MergeHosts(hs: seq<HostFact>)
      requires Valid()
      modifies this
      ensures Valid() && facts == old(facts) + hs && rules == old(rules)
    {
      hide Records, PolicyMap;
      for i := 0 to |hs|
        invariant Valid() && facts == old(facts) + hs[..i] && rules == old(rules)
      {
        MergeHost(hs[i]);
        assert hs[..i + 1] == hs[..i] + [hs[i]];
      }
      assert hs[..|hs|] == hs;
    }

    method MergePolicies(ps: seq<PolicyFact>)
      requires Valid()
      modifies this
      ensures Valid() && facts == old(facts) && rules == old(rules) + ps
    {
      hide Records, PolicyMap;
      for i := 0 to |ps|
        invariant Valid() && facts == old(facts) && rules == old(rules) + ps[..i]
      {
        MergePolicy(ps[i]);
        assert ps[..i + 1] == ps[..i] + [ps[i]];
      }
      assert ps[..|ps|] == ps;
    }
  }

  lemma IdsSnoc(fs: seq<HostFact>, h: HostFact)
    ensures Ids(fs + [h]) == Ids(fs) + {h.id}
  {
    assert forall f :: f in fs + [h] <==> f in fs || f == h;
  }

  lemma {:induction false} NothingYet(fs: seq<HostFact>, id: string)
    requires id !in Ids(fs)
    ensures ZoneOf(fs, id) == "" && SsamOf(fs, id).None? && InboundOf(fs, id) == [] && OutboundOf(fs, id) == []
            && LinksOf(fs, id).None?
  {
    if fs != [] {
      var n := |fs| - 1;
      assert fs == fs[..n] + [fs[n]];
      IdsSnoc(fs[..n], fs[n]);
      NothingYet(fs[..n], id);
    }
  }

  lemma {:induction false} ScoreKnown(fs: seq<HostFact>, id: string)
    ensures SsamOf(fs, id).Some? <==> id in Ids(fs)
  {
    if fs != [] {
      var n := |fs| - 1;
      assert fs == fs[..n] + [fs[n]];
      IdsSnoc(fs[..n], fs[n]);
      ScoreKnown(fs[..n], id);
    }
  }

  lemma SetsSnoc(fs: seq<HostFact>, h: HostFact, id: string, net: NetParser)
    ensures IpsOf(fs + [h], id) == IpsOf(fs, id) + if h.id == id then NonEmpty(h.ips) else {}
    ensures SubnetsOf(fs + [h], id, net) == SubnetsOf(fs, id, net)
            + if h.id == id then NormalSubnets(h.subnets, net) else {}
    ensures AnyForwards(fs + [h], id) <==> AnyForwards(fs, id) || (h.id == id && h.forwards)
    ensures AnyStateful(fs + [h], id) <==> AnyStateful(fs, id) || (h.id == id && h.statefulInput)
  {
    hide NormalSubnet;
    var all := fs + [h];
    assert forall f :: f in all <==> f in fs || f == h;
    assert h in all;
    assert forall f :: f in fs ==> f in all;
  }

  lemma FirstFact(fs: seq<HostFact>, h: HostFact, net: NetParser)
    requires h.id !in Ids(fs)
    ensures IpsOf(fs + [h], h.id) == NonEmpty(h.ips) && SubnetsOf(fs + [h], h.id, net) == NormalSubnets(h.subnets, net)
    ensures AnyForwards(fs + [h], h.id) == h.forwards && AnyStateful(fs + [h], h.id) == h.statefulInput
    ensures ZoneOf(fs + [h], h.id) == h.zone && SsamOf(fs + [h], h.id) == Some(h.ssam)
    ensures InboundOf(fs + [h], h.id) == h.inbound && OutboundOf(fs + [h], h.id) == h.outbound
            && LinksOf(fs + [h], h.id) == h.links
  {
    assert (fs + [h])[..|fs|] == fs;
    NothingYet(fs, h.id);
    SetsSnoc(fs, h, h.id, net);
    assert forall f :: f in fs ==> f.id in Ids(fs);
    assert IpsOf(fs, h.id) == {} && SubnetsOf(fs, h.id, net) == {};
    assert [] + h.inbound == h.inbound && [] + h.outbound == h.outbound;
  }

  lemma LaterFact(fs: seq<HostFact>, h: HostFact, net: NetParser)
    requires h.id in Ids(fs)
    ensures IpsOf(fs + [h], h.id) == IpsOf(fs, h.id) + NonEmpty(h.ips)
    ensures SubnetsOf(fs + [h], h.id, net) == SubnetsOf(fs, h.id, net) + NormalSubnets(h.subnets, net)
    ensures AnyForwards(fs + [h], h.id) == (AnyForwards(fs, h.id) || h.forwards)
    ensures AnyStateful(fs + [h], h.id) == (AnyStateful(fs, h.id) || h.statefulInput)
    ensures ZoneOf(fs + [h], h.id) == if h.zone != "" then h.zone else ZoneOf(fs, h.id)
    ensures SsamOf(fs + [h], h.id) == SsamOf(fs, h.id)
    ensures InboundOf(fs + [h], h.id) == InboundOf(fs, h.id) + h.inbound
    ensures OutboundOf(fs + [h], h.id) == OutboundOf(fs, h.id) + h.outbound
    ensures LinksOf(fs + [h], h.id) ==
      if h.links.None? || |h.links.value| == 0 then LinksOf(fs, h.id)
      else Some((if LinksOf(fs, h.id).Some? then LinksOf(fs, h.id).value else map[]) + h.links.value)
  {
    assert (fs + [h])[..|fs|] == fs;
    ScoreKnown(fs, h.id);
    SetsSnoc(fs, h, h.id, net);
  }

  lemma OtherHostOrdered(fs: seq<HostFact>, h: HostFact, id: string)
    requires id != h.id
    ensures ZoneOf(fs + [h], id) == ZoneOf(fs, id) && SsamOf(fs + [h], id) == SsamOf(fs, id)
    ensures InboundOf(fs + [h], id) == InboundOf(fs, id) && OutboundOf(fs + [h], id) == OutboundOf(fs, id)
    ensures LinksOf(fs + [h], id) == LinksOf(fs, id)
  {
    hide Ids;
    var all := fs + [h];
    assert all[..|all| - 1] == fs && all[|all| - 1] == h;
    assert InboundOf(fs, id) + [] == InboundOf(fs, id) && OutboundOf(fs, id) + [] == OutboundOf(fs, id);
  }

  lemma OtherHost(fs: seq<HostFact>, h: HostFact, id: string, net: NetParser)
    requires id != h.id
    ensures MergedHost(fs + [h], id, net) == MergedHost(fs, id, net)
  {
    OtherHostOrdered(fs, h, id);
    SetsSnoc(fs, h, id, net);
    hide ZoneOf, SsamOf, InboundOf, OutboundOf, LinksOf, IpsOf, SubnetsOf, AnyForwards, AnyStateful, NonEmpty,
      NormalSubnets;
    assert IpsOf(fs, id) + {} == IpsOf(fs, id) && SubnetsOf(fs, id, net) + {} == SubnetsOf(fs, id, net);
  }

  /** The record a host's first fact leaves. */
  method FirstRecord(h: HostFact, net: NetParser, ghost before: seq<HostFact>) returns (record: HostFact)
    requires h.id !in Ids(before)
    ensures record == MergedHost(before + [h], h.id, net)
  {
    var subnets := NormalizeFactSubnets(h.subnets, net);
    var ips := UnionStrings([], h.ips);
    var nets := UnionStrings([], subnets);
    FirstFact(before, h, net);
    assert NonEmpty([]) == {};
    hide ZoneOf, SsamOf, InboundOf, OutboundOf, LinksOf, IpsOf, SubnetsOf, AnyForwards, AnyStateful, NonEmpty,
      NormalSubnets;
    assert {} + NonEmpty(h.ips) == IpsOf(before + [h], h.id);
    assert {} + NonEmpty(subnets) == SubnetsOf(before + [h], h.id, net);
    record := h.(ips := ips, subnets := nets);
  }

  /** The record after one more fact about a known host. */
  method JoinRecord(cur: HostFact, h: HostFact, net: NetParser, ghost before: seq<HostFact>) returns (record: HostFact)
    requires h.id in Ids(before) && cur == MergedHost(before, h.id, net)
    ensures record == MergedHost(before + [h], h.id, net)
  {
    hide Ids, SortedListing, MergedHost, NonEmpty, NormalSubnets;
    var subnets := NormalizeFactSubnets(h.subnets, net);
    var nets := UnionStrings(cur.subnets, subnets);
    var ips := UnionStrings(cur.ips, h.ips);
    var links := cur.links;
    if h.links.Some? && |h.links.value| > 0 {
      links := Some((if links.Some? then links.value else map[]) + h.links.value);
    }
    record := cur.(
      subnets := nets, ips := ips, zone := if h.zone != "" then h.zone else cur.zone,
      forwards := cur.forwards || h.forwards, statefulInput := cur.statefulInput || h.statefulInput,
      inbound := cur.inbound + h.inbound, outbound := cur.outbound + h.outbound, links := links);
    JoinedRecord(cur, h, net, before);
  }

  /** What `JoinRecord` writes, field by field, is the record of one more fact. */
  lemma JoinedRecord(cur: HostFact, h: HostFact, net: NetParser, before: seq<HostFact>)
    requires h.id in Ids(before) && cur == MergedHost(before, h.id, net)
    ensures MergedHost(before + [h], h.id, net) ==
            cur.(subnets := SortedListing(NonEmpty(cur.subnets) + NormalSubnets(h.subnets, net)),
                 ips := SortedListing(NonEmpty(cur.ips) + NonEmpty(h.ips)),
                 zone := if h.zone != "" then h.zone else cur.zone,
                 forwards := cur.forwards || h.forwards, statefulInput := cur.statefulInput || h.statefulInput,
                 inbound := cur.inbound + h.inbound, outbound := cur.outbound + h.outbound,
                 links := if h.links.None? || |h.links.value| == 0 then cur.links
                          else Some((if cur.links.Some? then cur.links.value else map[]) + h.links.value))
  {
    BlanksDropped(before, h.id, net);
    LaterFact(before, h, net);
    hide Ids, SortedListing, ZoneOf, SsamOf, InboundOf, OutboundOf, LinksOf, IpsOf, SubnetsOf, AnyForwards, AnyStateful,
      NonEmpty, NormalSubnets;
  }

  lemma BlanksDropped(fs: seq<HostFact>, id: string, net: NetParser)
    ensures NonEmpty(SortedListing(IpsOf(fs, id))) == IpsOf(fs, id)
    ensures NonEmpty(SortedListing(SubnetsOf(fs, id, net))) == SubnetsOf(fs, id, net)
  {
    hide NormalSubnet;
    NonEmptyListing(IpsOf(fs, id));
    NonEmptyListing(SubnetsOf(fs, id, net));
  }

  // ----- the export -----

  datatype ExportedHost = ExportedHost(
    id: string, ips: seq<string>, subnets: seq<string>, zone: string, forwards: bool, statefulInput: bool,
    inbound: seq<PolicyFact>, outbound: seq<PolicyFact>, links: Option<map<string, bool>>)

  datatype TopologyExport = TopologyExport(policyKnown: bool, policies: seq<PolicyFact>, hosts: seq<ExportedHost>)

  function Exported(h: HostFact): ExportedHost {
    ExportedHost(h.id, h.ips, h.subnets, h.zone, h.forwards, h.statefulInput, h.inbound, h.outbound, h.links)
  }

  ghost function ExportOf(fs: seq<HostFact>, ps: seq<PolicyFact>, known: bool, net: NetParser): TopologyExport {
    var ids, keys := SortedListing(Ids(fs)), SortedListing(PolicyMap(ps, net).Keys);
    assert forall i :: 0 <= i < |keys| ==> keys[i] in Elements(keys);
    TopologyExport(known, seq(|keys|, i requires 0 <= i < |keys| => PolicyMap(ps, net)[keys[i]]),
                   seq(|ids|, i requires 0 <= i < |ids| => Exported(MergedHost(fs, ids[i], net))))
  }

  /** Collects the keys of a map in whatever order it yields them. */
  method KeysOf<V>(m: map<string, V>) returns (ids: seq<string>)
    ensures Distinct(ids) && Elements(ids) == m.Keys
  {
    ids := [];
    var todo := m.Keys;
    while todo != {}
      invariant todo <= m.Keys && Distinct(ids) && Elements(ids) == m.Keys - todo
      decreases todo
    {
      var id :| id in todo;
      assert id !in Elements(ids);
      assert Elements(ids + [id]) == Elements(ids) + {id};
      ids := ids + [id];
      todo := todo - {id};
    }
  }

  method SortedKeys<V>(m: map<string, V>) returns (keys: seq<string>)
    ensures keys == SortedListing(m.Keys)
    ensures forall i :: 0 <= i < |keys| ==> keys[i] in m
  {
    keys := KeysOf(m);
    keys := SortStrings(keys);
    ListingIs(keys, m.Keys);
    hide SortedListing;
    assert forall i :: 0 <= i < |keys| ==> keys[i] in Elements(keys);
  }

  method ExportHosts(records: map<string, HostFact>) returns (ids: seq<string>, hosts: seq<ExportedHost>)
    ensures ids == SortedListing(records.Keys) && |hosts| == |ids|
    ensures forall i :: 0 <= i < |ids| ==> ids[i] in records && hosts[i] == Exported(records[ids[i]])
  {
    hide SortedListing;
    ids := SortedKeys(records);
    hosts := [];
    for i := 0 to |ids|
      invariant |hosts| == i && forall j :: 0 <= j < i ==> hosts[j] == Exported(records[ids[j]])
    {
      var h := records[ids[i]];
      hosts := hosts
        + [ExportedHost(h.id, h.ips, h.subnets, h.zone, h.forwards, h.statefulInput, h.inbound, h.outbound, h.links)];
    }
  }

  method ExportPolicies(policies: map<string, PolicyFact>) returns (keys: seq<string>, out: seq<PolicyFact>)
    ensures keys == SortedListing(policies.Keys) && |out| == |keys|
    ensures forall i :: 0 <= i < |keys| ==> keys[i] in policies && out[i] == policies[keys[i]]
  {
    hide SortedListing;
    keys := SortedKeys(policies);
    out := [];
    for i := 0 to |keys|
      invariant |out| == i && forall j :: 0 <= j < i ==> out[j] == policies[keys[j]]
    {
      out := out + [policies[keys[i]]];
    }
  }

  method ExportFromFacts(m: Merger, known: bool) returns (out: TopologyExport)
    requires m.Valid()
    ensures out == ExportOf(m.facts, m.rules, known, m.net)
  {
    hide SortedListing, MergedHost, PolicyMap, Ids, PolicyKey;
    var ids, hosts := ExportHosts(m.hosts);
    var keys, policies := ExportPolicies(m.policies);
    assert hosts == ExportOf(m.facts, m.rules, known, m.net).hosts;
    assert policies == ExportOf(m.facts, m.rules, known, m.net).policies;
    out := TopologyExport(known, policies, hosts);
  }

  // ----- what the export says -----

  lemma ExportedId(fs: seq<HostFact>, id: string, net: NetParser)
    ensures HostId(Exported(MergedHost(fs, id, net))) == id
  {
  }

  /** The exported hosts are the sorted union of the reported ids. */
  lemma ExportedIds(fs: seq<HostFact>, ps: seq<PolicyFact>, known: bool, net: NetParser)
    ensures var hs := ExportOf(fs, ps, known, net).hosts;
            StrictlySorted(Keys(hs, HostId)) && Elements(Keys(hs, HostId)) == Ids(fs)
  {
    hide PolicyMap, SortedListing, MergedHost, Exported;
    var ids, hs := SortedListing(Ids(fs)), ExportOf(fs, ps, known, net).hosts;
    forall i | 0 <= i < |ids| ensures HostId(hs[i]) == ids[i] { ExportedId(fs, ids[i], net); }
    assert Keys(hs, HostId) == ids;
  }

  /** Addresses and subnets come out as sorted duplicate-free unions, the two flags as disjunctions. */
  lemma ExportedHostSays(fs: seq<HostFact>, ps: seq<PolicyFact>, known: bool, net: NetParser, i: nat)
    requires i < |ExportOf(fs, ps, known, net).hosts|
    ensures var h := ExportOf(fs, ps, known, net).hosts[i];
            && StrictlySorted(h.ips)
            && (forall x :: x in h.ips <==> x != "" && exists f :: f in fs && f.id == h.id && x in f.ips)
            && StrictlySorted(h.subnets)
            && (forall x :: x in h.subnets <==>
                            x != "" && exists f, y ::
                                         f in fs && f.id == h.id && y in f.subnets && x == NormalSubnet(y, net))
            && (h.forwards <==> exists f :: f in fs && f.id == h.id && f.forwards)
            && (h.statefulInput <==> exists f :: f in fs && f.id == h.id && f.statefulInput)
  {
    hide PolicyMap, SortedListing, StrictlySorted, NormalSubnet;
    var h := ExportOf(fs, ps, known, net).hosts[i];
    assert forall x :: x in h.ips <==> x in Elements(h.ips);
    assert forall x :: x in h.subnets <==> x in Elements(h.subnets);
  }

  /** Reordering the facts leaves each host's addresses, subnets, flags and directed policy counts alone. */
  lemma FactOrderIrrelevant(fs: seq<HostFact>, gs: seq<HostFact>, id: string, p: PolicyFact, net: NetParser)
    requires multiset(fs) == multiset(gs)
    ensures var m, n := MergedHost(fs, id, net), MergedHost(gs, id, net);
            && m.ips == n.ips && m.subnets == n.subnets && m.forwards == n.forwards
            && m.statefulInput == n.statefulInput
            && Count(m.inbound, p) == Count(n.inbound, p) && Count(m.outbound, p) == Count(n.outbound, p)
  {
    hide NormalSubnet, SortedListing;
    assert forall f :: f in fs <==> f in multiset(fs);
    assert forall f :: f in gs <==> f in multiset(gs);
    assert IpsOf(fs, id) == IpsOf(gs, id) && SubnetsOf(fs, id, net) == SubnetsOf(gs, id, net);
    DirectedFactsConserved(fs, id, p);
    DirectedFactsConserved(gs, id, p);
    ReportedCountsReorder(fs, gs, id, p);
  }

  lemma {:induction false} ReportedCountsReorder(fs: seq<HostFact>, gs: seq<HostFact>, id: string, p: PolicyFact)
    requires multiset(fs) == multiset(gs)
    ensures ReportedInbound(fs, id, p) == ReportedInbound(gs, id, p)
            && ReportedOutbound(fs, id, p) == ReportedOutbound(gs, id, p)
  {
    hide Count;
    if fs == [] {
      assert |gs| == |multiset(gs)| == 0;
    } else {
      var k := LastElsewhere(fs, gs);
      ReportedCountsReorder(fs[..|fs| - 1], gs[..k] + gs[k + 1..], id, p);
      CountsSkip(gs, k, id, p);
    }
  }

  lemma {:induction false} CountsSkip(gs: seq<HostFact>, k: nat, id: string, p: PolicyFact)
    requires k < |gs|
    ensures ReportedInbound(gs, id, p)
            == ReportedInbound(gs[..k] + gs[k + 1..], id, p) + if gs[k].id == id then Count(gs[k].inbound, p) else 0
    ensures ReportedOutbound(gs, id, p)
            == ReportedOutbound(gs[..k] + gs[k + 1..], id, p) + if gs[k].id == id then Count(gs[k].outbound, p) else 0
  {
    hide Count;
    var n := |gs| - 1;
    if k == n {
      assert gs[..k] + gs[k + 1..] == gs[..n];
    } else {
      CountsSkip(gs[..n], k, id, p);
      WithoutSnoc(gs, k);
    }
  }

  /** A host keeps the score of the first fact about it. */
  lemma {:induction false} FirstScoreKept(fs: seq<HostFact>, k: nat, id: string)
    requires k < |fs| && fs[k].id == id && forall j :: 0 <= j < k ==> fs[j].id != id
    ensures SsamOf(fs, id) == Some(fs[k].ssam)
  {
    var n := |fs| - 1;
    if k < n {
      FirstScoreKept(fs[..n], k, id);
    } else {
      assert id !in Ids(fs[..n]);
      ScoreKnown(fs[..n], id);
    }
  }

  function HostId(h: ExportedHost): string {
    h.id
  }

  function Count(ps: seq<PolicyFact>, p: PolicyFact): nat {
    multiset(ps)[p]
  }

  function ReportedInbound(fs: seq<HostFact>, id: string, p: PolicyFact): nat {
    if fs == [] then 0
    else ReportedInbound(fs[..|fs| - 1], id, p) + if fs[|fs| - 1].id == id then Count(fs[|fs| - 1].inbound, p) else 0
  }

  function ReportedOutbound(fs: seq<HostFact>, id: string, p: PolicyFact): nat {
    if fs == [] then 0
    else ReportedOutbound(fs[..|fs| - 1], id, p) + if fs[|fs| - 1].id == id then Count(fs[|fs| - 1].outbound, p) else 0
  }

  /** No inbound or outbound fact is lost or invented: each occurs as often as it was reported for the host. */
  lemma {:induction false} DirectedFactsConserved(fs: seq<HostFact>, id: string, p: PolicyFact)
    ensures Count(InboundOf(fs, id), p) == ReportedInbound(fs, id, p)
    ensures Count(OutboundOf(fs, id), p) == ReportedOutbound(fs, id, p)
  {
    if fs != [] {
      DirectedFactsConserved(fs[..|fs| - 1], id, p);
    }
  }

  /** The link's state in the last fact about the host that mentions it. */
  function LastLink(fs: seq<HostFact>, id: string, k: string): Option<bool> {
    if fs == [] then None
    else
      var f := fs[|fs| - 1];
      if f.id == id && f.links.Some? && k in f.links.value then Some(f.links.value[k])
        else LastLink(fs[..|fs| - 1], id, k)
  }

  /** A link is exported exactly when some fact mentions it, with the state last reported. */
  lemma {:induction false} LinksLastWins(fs: seq<HostFact>, id: string, k: string)
    ensures LastLink(fs, id, k) ==
      if LinksOf(fs, id).Some? && k in LinksOf(fs, id).value then Some(LinksOf(fs, id).value[k]) else None
  {
    if fs != [] {
      var init := fs[..|fs| - 1];
      LinksLastWins(init, id, k);
      if id !in Ids(init) { NothingYet(init, id); }
      hide Ids;
    }
  }

  // ----- forward policies -----

  function NormalTriples(ps: seq<PolicyFact>, net: NetParser): set<PolicyFact> {
    set p | p in ps :: NormalPolicy(p, net)
  }

  /** No two different triples share a key. */
  ghost predicate KeysTellApart(ps: seq<PolicyFact>, net: NetParser) {
    forall p, q :: p in NormalTriples(ps, net) && q in NormalTriples(ps, net) && PolicyKey(p) == PolicyKey(q) ==> p == q
  }

  lemma {:induction false} PolicyMapEntries(ps: seq<PolicyFact>, net: NetParser)
    ensures forall k :: k in PolicyMap(ps, net) ==>
            PolicyMap(ps, net)[k] in NormalTriples(ps, net) && PolicyKey(PolicyMap(ps, net)[k]) == k
    ensures forall p :: p in NormalTriples(ps, net) ==> PolicyKey(p) in PolicyMap(ps, net)
  {
    hide NormalPolicy, PolicyKey;
    if ps != [] {
      var n := |ps| - 1;
      PolicyMapEntries(ps[..n], net);
      assert ps == ps[..n] + [ps[n]];
      assert NormalTriples(ps, net) == NormalTriples(ps[..n], net) + {NormalPolicy(ps[n], net)};
    }
  }

  /** The exported forward policies, without repeats, are exactly the normalised triples if and only if
      keys tell the triples apart. */
  lemma PoliciesAreTriplesIff(fs: seq<HostFact>, ps: seq<PolicyFact>, known: bool, net: NetParser)
    ensures var out := ExportOf(fs, ps, known, net).policies;
            Distinct(out) && (Elements(out) == NormalTriples(ps, net) <==> KeysTellApart(ps, net))
  {
    PolicyMapEntries(ps, net);
    var m := PolicyMap(ps, net);
    var keys := SortedListing(m.Keys);
    hide MergedHost, PolicyMap, NormalPolicy, PolicyKey, NormalTriples;
    var out := ExportOf(fs, ps, known, net).policies;
    assert forall i :: 0 <= i < |keys| ==> keys[i] in Elements(keys);
    assert forall i :: 0 <= i < |out| ==> out[i] == m[keys[i]] && PolicyKey(out[i]) == keys[i];
    forall p ensures p in Elements(out) <==> PolicyKey(p) in m && m[PolicyKey(p)] == p {
      if PolicyKey(p) in m && m[PolicyKey(p)] == p {
        assert PolicyKey(p) in Elements(keys);
        var i :| 0 <= i < |keys| && keys[i] == PolicyKey(p);
        assert out[i] == p;
      }
    }
    if Elements(out) == NormalTriples(ps, net) {
      forall p, q | p in NormalTriples(ps, net) && q in NormalTriples(ps, net) && PolicyKey(p) == PolicyKey(q)
        ensures p == q
      {
        assert p in Elements(out) && q in Elements(out);
      }
    }
    if KeysTellApart(ps, net) {
      forall p | p in NormalTriples(ps, net) ensures p in Elements(out) {
        assert m[PolicyKey(p)] in NormalTriples(ps, net);
      }
      forall p | p in Elements(out) ensures p in NormalTriples(ps, net) {
        assert m[PolicyKey(p)] == p;
      }
    }
  }

  function BarAt(s: string): nat {
    if s == [] || s[0] == '|' then 0 else 1 + BarAt(s[1..])
  }

  lemma {:induction false} FirstBar(a: string, x: string)
    requires '|' !in a
    ensures BarAt(a + "|" + x) == |a|
  {
    if a != [] {
      assert a[0] in a && (a + "|" + x)[0] == a[0] && (a + "|" + x)[1..] == a[1..] + "|" + x;
      FirstBar(a[1..], x);
    }
  }

  lemma SplitAtBar(a: string, x: string, b: string, y: string)
    requires '|' !in a && '|' !in b && a + "|" + x == b + "|" + y
    ensures a == b && x == y
  {
    FirstBar(a, x);
    FirstBar(b, y);
    assert a == (a + "|" + x)[..|a|] && b == (b + "|" + y)[..|b|];
    assert x == (a + "|" + x)[|a| + 1..] && y == (b + "|" + y)[|b| + 1..];
  }

  lemma KeyInjective(p: PolicyFact, q: PolicyFact)
    requires '|' !in p.source && '|' !in q.source && PolicyKey(p) == PolicyKey(q)
    ensures p == q
  {
    var x, y := p.dest + "|" + (if p.allow then "1" else "0"), q.dest + "|" + (if q.allow then "1" else "0");
    assert PolicyKey(p) == p.source + "|" + x && PolicyKey(q) == q.source + "|" + y;
    SplitAtBar(p.source, x, q.source, y);
    assert x[|x| - 1] == (if p.allow then '1' else '0') && y[|y| - 1] == (if q.allow then '1' else '0');
    assert x[..|x| - 2] == p.dest && y[..|y| - 2] == q.dest;
  }

  /** Sources without a vertical bar, as every CIDR is, keep the keys apart. */
  lemma NoBarsNoCollisions(ps: seq<PolicyFact>, net: NetParser)
    requires forall p :: p in ps ==> '|' !in NormalPolicy(p, net).source
    ensures KeysTellApart(ps, net)
  {
    hide NormalPolicy;
    forall p, q | p in NormalTriples(ps, net) && q in NormalTriples(ps, net) && PolicyKey(p) == PolicyKey(q)
      ensures p == q
    {
      KeyInjective(p, q);
    }
  }

  /** A bar in a source can merge two different policies into one. */
  lemma BarsCollide()
    ensures var p, q := PolicyFact("a|b", "c", true), PolicyFact("a", "b|c", true);
            p != q && PolicyKey(p) == PolicyKey(q)
  {
    assert PolicyKey(PolicyFact("a|b", "c", true)) == "a|b|c|1";
    assert PolicyKey(PolicyFact("a", "b|c", true)) == "a|b|c|1";
  }
}
