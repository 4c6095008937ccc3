/** The master's registry of node reports and the merged export built from it. */
module FederationCollector {
  import opened SsamTypes
  import opened Ordering
  import opened FactMerge
  import opened Text

  /** Times are seconds; `None` is the zero time. `rest` stands for the fields the merge never reads. */
  datatype NodeReport = NodeReport(
    nodeId: string, hostFacts: seq<HostFact>, policyFacts: seq<PolicyFact>, policyKnown: bool,
    reportedAt: Option<int>, receivedAt: Option<int>, rest: string)

  /** A report together with the master's clock when it came in. */
  datatype Arrival = Arrival(report: NodeReport, now: int)

  function Sender(a: Arrival): string {
    TrimSpace(a.report.nodeId)
  }

  function Stamped(a: Arrival): NodeReport {
    a.report.(nodeId := Sender(a), receivedAt := Some(a.now),
              reportedAt := if a.report.reportedAt.None? then Some(a.now) else a.report.reportedAt)
  }

  /** The last arrival from a node. */
  function LastFrom(history: seq<Arrival>, id: string): Option<Arrival> {
    if history == [] then None
    else
      var n := |history| - 1;
      if Sender(history[n]) == id then Some(history[n]) else LastFrom(history[..n], id)
  }

  function Senders(history: seq<Arrival>): set<string> {
    set a | a in history && Sender(a) != "" :: Sender(a)
  }

  /** Each named sender is registered under its own id with its last report, stamped. */
  ghost predicate HoldsLast(nodes: map<string, NodeReport>, history: seq<Arrival>) {
    && nodes.Keys == Senders(history)
    && forall id :: id in nodes ==> LastFrom(history, id).Some? && nodes[id] == Stamped(LastFrom(history, id).value)
  }

  function NodeId(r: NodeReport): string {
    r.nodeId
  }

  class Collector {
    var nodes: map<string, NodeReport>
    var updatedAt: Option<int>
    ghost var history: seq<Arrival>

    ghost predicate Valid()
      reads this
    {
      && HoldsLast(nodes, history)
      && forall id :: id in nodes ==> nodes[id].nodeId == id
    }

    constructor ()
      ensures Valid() && history == [] && updatedAt.None?
    {
      nodes, updatedAt, history := map[], None, [];
    }

    /** Rejects a report without a node id; otherwise registers it in place of the node's earlier one. */
    method Apply(report: NodeReport, now: int) returns (accepted: bool)
      requires Valid()
      modifies this
      ensures Valid() && history == old(history) + [Arrival(report, now)]
      ensures accepted <==> TrimSpace(report.nodeId) != ""
      ensures updatedAt == if accepted then Some(now) else old(updatedAt)
      ensures !accepted ==> nodes == old(nodes)
    {
      RegistrySnoc(history, Arrival(report, now), nodes);
      ghost var arrival := Arrival(report, now);
      history := history + [arrival];
      var r := report.(nodeId := TrimSpace(report.nodeId));
      if r.nodeId == "" {
        return false;
      }
      if r.reportedAt.None? {
        r := r.(reportedAt := Some(now));
      }
      r := r.(receivedAt := Some(now));
      nodes := nodes[r.nodeId := r];
      updatedAt := Some(now);
      assert r == Stamped(arrival);
      return true;
    }

    /** The registered reports in order of node id. */
    method Nodes() returns (out: seq<NodeReport>)
      requires Valid()
      ensures out == Listing(history)
    {
      hide HoldsLast, Listing;
      var found := CopyReports(nodes);
      out := SortByKey(found, NodeId);
      SameMembers(found, out);
      forall r | r in out ensures r.nodeId in nodes && r == nodes[r.nodeId] {
        assert r in found;
      }
      ListingIsSorted(nodes, history, out);
    }
  }

  /** Copies the registered reports out in whatever order the map yields them. */
  method CopyReports(nodes: map<string, NodeReport>) returns (out: seq<NodeReport>)
    requires forall id :: id in nodes ==> nodes[id].nodeId == id
    ensures Distinct(Keys(out, NodeId)) && Elements(Keys(out, NodeId)) == nodes.Keys
    ensures forall i :: 0 <= i < |out| ==> out[i].nodeId in nodes && out[i] == nodes[out[i].nodeId]
  {
    out := [];
    var todo := nodes.Keys;
    while todo != {}
      invariant todo <= nodes.Keys && Distinct(Keys(out, NodeId)) && Elements(Keys(out, NodeId)) == nodes.Keys - todo
      invariant forall i :: 0 <= i < |out| ==> out[i].nodeId in nodes && out[i] == nodes[out[i].nodeId]
      decreases todo
    {
      var id :| id in todo;
      KeysSnoc(out, nodes[id]);
      out := out + [nodes[id]];
      todo := todo - {id};
    }
  }

  lemma KeysSnoc(rs: seq<NodeReport>, r: NodeReport)
    requires Distinct(Keys(rs, NodeId)) && r.nodeId !in Elements(Keys(rs, NodeId))
    ensures Distinct(Keys(rs + [r], NodeId))
    ensures Elements(Keys(rs + [r], NodeId)) == Elements(Keys(rs, NodeId)) + {r.nodeId}
  {
    var ids, more := Keys(rs, NodeId), Keys(rs + [r], NodeId);
    forall i | 0 <= i < |more| ensures more[i] == (ids + [r.nodeId])[i] {
      assert more[i] == NodeId((rs + [r])[i]);
      assert i < |rs| ==> (rs + [r])[i] == rs[i] && ids[i] == NodeId(rs[i]);
    }
    assert more == ids + [r.nodeId];
    assert forall id :: id in Keys(rs, NodeId) <==> id in Elements(Keys(rs, NodeId));
  }

  lemma RegistrySnoc(history: seq<Arrival>, a: Arrival, nodes: map<string, NodeReport>)
    requires HoldsLast(nodes, history)
    ensures Sender(a) == "" ==> HoldsLast(nodes, history + [a])
    ensures Sender(a) != "" ==> HoldsLast(nodes[Sender(a) := Stamped(a)], history + [a])
  {
    hide Stamped, Sender, Senders;
    SendersSnoc(history, a);
    var all := history + [a];
    assert all[..|all| - 1] == history && all[|all| - 1] == a;
    assert forall id :: LastFrom(all, id) == if Sender(a) == id then Some(a) else LastFrom(history, id);
    hide LastFrom;
    assert Sender(a) == "" ==> Sender(a) !in nodes by { SenderNamed(history); }
  }

  lemma SenderNamed(history: seq<Arrival>)
    ensures "" !in Senders(history)
  {
    hide Sender;
  }

  lemma SendersSnoc(history: seq<Arrival>, a: Arrival)
    ensures Senders(history + [a]) == Senders(history) + if Sender(a) != "" then {Sender(a)} else {}
  {
    hide Sender;
    assert forall x :: x in history + [a] <==> x in history || x == a;
  }

  /** The last stamped report of every node, in order of node id. */
  ghost function Listing(history: seq<Arrival>): seq<NodeReport> {
    var ids := SortedListing(Senders(history));
    seq(|ids|, i requires 0 <= i < |ids| => LatestOr(history, ids[i]))
  }

  ghost function LatestOr(history: seq<Arrival>, id: string): NodeReport {
    match LastFrom(history, id)
    case Some(a) => Stamped(a)
    case None => NodeReport(id, [], [], false, None, None, "")
  }

  lemma ListingIsSorted(nodes: map<string, NodeReport>, history: seq<Arrival>, out: seq<NodeReport>)
    requires HoldsLast(nodes, history)
    requires StrictlySorted(Keys(out, NodeId)) && Elements(Keys(out, NodeId)) == nodes.Keys
    requires forall r :: r in out ==> r.nodeId in nodes && r == nodes[r.nodeId]
    ensures out == Listing(history)
  {
    hide SortedListing, StrictlySorted, Senders, LastFrom, Stamped;
    var ids := Keys(out, NodeId);
    ListingIs(ids, nodes.Keys);
    assert ids == SortedListing(Senders(history));
    forall i | 0 <= i < |out| ensures out[i] == Listing(history)[i] {
      assert out[i] in out && ids[i] == out[i].nodeId;
    }
    assert out == Listing(history);
  }

  /** What the registry lists: for each node its last report, under the trimmed id, received at the master's time and
      reported at the node's own, or the master's where it gave none; everything else as it came. */
  lemma ListedReportIs(history: seq<Arrival>, i: nat)
    requires i < |Listing(history)|
    ensures var r := Listing(history)[i];
            && r.nodeId != "" && LastFrom(history, r.nodeId).Some?
            && var a := LastFrom(history, r.nodeId).value;
               && r == a.report.(nodeId := TrimSpace(a.report.nodeId), receivedAt := Some(a.now),
                                 reportedAt := if a.report.reportedAt.Some? then a.report.reportedAt else Some(a.now))
  {
    var ids := SortedListing(Senders(history));
    assert ids[i] in Elements(ids);
    hide SortedListing, LastFrom, Senders;
    SenderNamed(history);
    SenderHasLast(history, ids[i]);
    LastIsFrom(history, ids[i]);
  }

  /** The last arrival from a node comes from it, and none after it does. */
  lemma {:induction false} LastIsFrom(history: seq<Arrival>, id: string)
    ensures LastFrom(history, id).Some? ==>
              exists i :: 0 <= i < |history| && history[i] == LastFrom(history, id).value && Sender(history[i]) == id
                          && forall j :: i < j < |history| ==> Sender(history[j]) != id
    ensures LastFrom(history, id).Some? ==> Sender(LastFrom(history, id).value) == id
    ensures LastFrom(history, id).None? ==> forall j :: 0 <= j < |history| ==> Sender(history[j]) != id
  {
    hide Sender;
    if history != [] { LastIsFrom(history[..|history| - 1], id); }
  }

  // ----- the export -----

  function AllHostFacts(rs: seq<NodeReport>): seq<HostFact> {
    if rs == [] then [] else AllHostFacts(rs[..|rs| - 1]) + rs[|rs| - 1].hostFacts
  }

  function AllPolicyFacts(rs: seq<NodeReport>): seq<PolicyFact> {
    if rs == [] then [] else AllPolicyFacts(rs[..|rs| - 1]) + rs[|rs| - 1].policyFacts
  }

  predicate AnyPolicyKnown(rs: seq<NodeReport>) {
    exists r :: r in rs && r.policyKnown
  }

  datatype LocalFacts = LocalFacts(hosts: seq<HostFact>, policies: seq<PolicyFact>, known: bool)

  ghost function MergedExport(rs: seq<NodeReport>, local: LocalFacts, net: NetParser): TopologyExport {
    ExportOf(AllHostFacts(rs) + local.hosts, AllPolicyFacts(rs) + local.policies,
             AnyPolicyKnown(rs) || local.known, net)
  }

  /** Merges the reports in the order given, then the local facts, and exports the result. */
  method MergedTopologyWithLocal(rs: seq<NodeReport>, local: LocalFacts, net: NetParser) returns (out: TopologyExport)
    ensures out == MergedExport(rs, local, net)
  {
    hide ExportOf;
    var m := new Merger(net);
    var known := false;
    for i := 0 to |rs|
      invariant m.Valid() && fresh(m) && m.net == net
      invariant m.facts == AllHostFacts(rs[..i]) && m.rules == AllPolicyFacts(rs[..i])
                && known == AnyPolicyKnown(rs[..i])
    {
      assert rs[..i + 1][..i] == rs[..i] && rs[..i + 1] == rs[..i] + [rs[i]];
      KnownSnoc(rs[..i], rs[i]);
      known := known || rs[i].policyKnown;
      m.MergeHosts(rs[i].hostFacts);
      m.MergePolicies(rs[i].policyFacts);
    }
    assert rs[..|rs|] == rs;
    m.MergeHosts(local.hosts);
    m.MergePolicies(local.policies);
    if local.known {
      known := true;
    }
    out := ExportFromFacts(m, known);
  }

  // ----- the export depends on the last reports alone -----

  /** What a node said about the topology in its last report. */
  datatype Said = Said(hosts: seq<HostFact>, policies: seq<PolicyFact>, known: bool)

  function LastSaid(history: seq<Arrival>, id: string): Option<Said> {
    match LastFrom(history, id)
    case Some(a) => Some(Said(a.report.hostFacts, a.report.policyFacts, a.report.policyKnown))
    case None => None
  }

  /** The reports of one node, oldest first, without the clock readings. */
  function Stream(history: seq<Arrival>, id: string): seq<Said> {
    if history == [] then []
    else
      var a := history[|history| - 1];
      Stream(history[..|history| - 1], id) +
      if Sender(a) == id then [Said(a.report.hostFacts, a.report.policyFacts, a.report.policyKnown)] else []
  }

  lemma {:induction false} LastOfStream(history: seq<Arrival>, id: string)
    ensures LastSaid(history, id)
            == if Stream(history, id) == [] then None else Some(Stream(history, id)[|Stream(history, id)| - 1])
  {
    hide TrimSpace;
    if history != [] { LastOfStream(history[..|history| - 1], id); }
  }

  lemma {:induction false} SenderHasLast(history: seq<Arrival>, id: string)
    requires id != ""
    ensures id in Senders(history) <==> LastFrom(history, id).Some?
  {
    hide TrimSpace;
    if history != [] {
      var n := |history| - 1;
      SenderHasLast(history[..n], id);
      assert history == history[..n] + [history[n]];
    }
  }

  /** Two reports that say the same. */
  predicate SameWords(r: NodeReport, s: NodeReport) {
    r.hostFacts == s.hostFacts && r.policyFacts == s.policyFacts && r.policyKnown == s.policyKnown
  }

  lemma KnownSnoc(rs: seq<NodeReport>, r: NodeReport)
    ensures AnyPolicyKnown(rs + [r]) <==> AnyPolicyKnown(rs) || r.policyKnown
  {
    assert forall x :: x in rs + [r] <==> x in rs || x == r;
  }

  lemma {:induction false} FlatteningAgrees(rs: seq<NodeReport>, ss: seq<NodeReport>)
    requires |rs| == |ss| && forall i :: 0 <= i < |rs| ==> SameWords(rs[i], ss[i])
    ensures AllHostFacts(rs) == AllHostFacts(ss) && AllPolicyFacts(rs) == AllPolicyFacts(ss)
    ensures AnyPolicyKnown(rs) == AnyPolicyKnown(ss)
  {
    if rs != [] {
      var n := |rs| - 1;
      FlatteningAgrees(rs[..n], ss[..n]);
      KnownSnoc(rs[..n], rs[n]);
      KnownSnoc(ss[..n], ss[n]);
      hide AnyPolicyKnown;
      assert rs == rs[..n] + [rs[n]] && ss == ss[..n] + [ss[n]];
    }
  }

  /** Whatever arrived in whatever order: if each node's last words agree, so does the export. */
  lemma ExportNeedsLastReportsOnly(a: seq<Arrival>, b: seq<Arrival>, local: LocalFacts, net: NetParser)
    requires forall id :: id != "" ==> LastSaid(a, id) == LastSaid(b, id)
    ensures MergedExport(Listing(a), local, net) == MergedExport(Listing(b), local, net)
  {
    forall id ensures id in Senders(a) <==> id in Senders(b) {
      if id != "" {
        SenderHasLast(a, id);
        SenderHasLast(b, id);
        assert LastSaid(a, id) == LastSaid(b, id);
      }
    }
    assert Senders(a) == Senders(b);
    var ids := SortedListing(Senders(a));
    forall i | 0 <= i < |ids| ensures SameWords(Listing(a)[i], Listing(b)[i]) {
      assert ids[i] in Elements(ids);
      assert LastSaid(a, ids[i]) == LastSaid(b, ids[i]);
    }
    hide ExportOf, SortedListing;
    FlatteningAgrees(Listing(a), Listing(b));
  }

  /** Interleaving the nodes' report streams differently changes nothing. */
  lemma InterleavingIrrelevant(a: seq<Arrival>, b: seq<Arrival>, local: LocalFacts, net: NetParser)
    requires forall id :: id != "" ==> Stream(a, id) == Stream(b, id)
    ensures MergedExport(Listing(a), local, net) == MergedExport(Listing(b), local, net)
  {
    forall id | id != "" ensures LastSaid(a, id) == LastSaid(b, id) {
      LastOfStream(a, id);
      LastOfStream(b, id);
    }
    ExportNeedsLastReportsOnly(a, b, local, net);
  }

  // ----- which report decides a host's zone and score -----

  /** The host facts of a node's last report. */
  function LastHosts(history: seq<Arrival>, node: string): seq<HostFact> {
    match LastFrom(history, node)
    case Some(a) => a.report.hostFacts
    case None => []
  }

  /** The zone a node's last report gives a host, if any. */
  function ZoneSaid(history: seq<Arrival>, node: string, id: string): string {
    ZoneOf(LastHosts(history, node), id)
  }

  ghost function ExportedHostOf(history: seq<Arrival>, id: string, local: LocalFacts, net: NetParser): HostFact {
    MergedHost(AllHostFacts(Listing(history)) + local.hosts, id, net)
  }

  lemma {:induction false} ZoneOfAppend(fs: seq<HostFact>, gs: seq<HostFact>, id: string)
    ensures ZoneOf(fs + gs, id) == if ZoneOf(gs, id) != "" then ZoneOf(gs, id) else ZoneOf(fs, id)
  {
    if gs == [] {
      assert fs + gs == fs;
    } else {
      var n := |gs| - 1;
      ZoneOfAppend(fs, gs[..n], id);
      assert (fs + gs)[..|fs + gs| - 1] == fs + gs[..n];
    }
  }

  lemma {:induction false} ScoreOfAppend(fs: seq<HostFact>, gs: seq<HostFact>, id: string)
    ensures SsamOf(fs + gs, id) == if SsamOf(fs, id).Some? then SsamOf(fs, id) else SsamOf(gs, id)
  {
    if gs == [] {
      assert fs + gs == fs;
    } else {
      var n := |gs| - 1;
      ScoreOfAppend(fs, gs[..n], id);
      assert (fs + gs)[..|fs + gs| - 1] == fs + gs[..n];
    }
  }

  lemma {:induction false} LastNamingDecides(rs: seq<NodeReport>, k: nat, id: string)
    requires k < |rs| && forall j :: k < j < |rs| ==> ZoneOf(rs[j].hostFacts, id) == ""
    requires ZoneOf(rs[k].hostFacts, id) != ""
    ensures ZoneOf(AllHostFacts(rs), id) == ZoneOf(rs[k].hostFacts, id)
  {
    hide ZoneOf;
    var n := |rs| - 1;
    ZoneOfAppend(AllHostFacts(rs[..n]), rs[n].hostFacts, id);
    if k < n { LastNamingDecides(rs[..n], k, id); }
  }

  lemma {:induction false} FirstMentionDecides(rs: seq<NodeReport>, k: nat, id: string)
    requires k < |rs| && forall j :: 0 <= j < k ==> SsamOf(rs[j].hostFacts, id).None?
    requires SsamOf(rs[k].hostFacts, id).Some?
    ensures SsamOf(AllHostFacts(rs), id) == SsamOf(rs[k].hostFacts, id)
  {
    hide SsamOf;
    var n := |rs| - 1;
    ScoreOfAppend(AllHostFacts(rs[..n]), rs[n].hostFacts, id);
    if k < n { FirstMentionDecides(rs[..n], k, id); } else { NoMention(rs[..n], id); }
  }

  lemma {:induction false} NoMention(rs: seq<NodeReport>, id: string)
    requires forall j :: 0 <= j < |rs| ==> SsamOf(rs[j].hostFacts, id).None?
    ensures SsamOf(AllHostFacts(rs), id).None?
  {
    if rs != [] {
      var n := |rs| - 1;
      NoMention(rs[..n], id);
      ScoreOfAppend(AllHostFacts(rs[..n]), rs[n].hostFacts, id);
    }
    hide SsamOf;
  }

  /** Each listed report holds its node's last facts, and the nodes stand in order of id. */
  lemma ListedInOrder(history: seq<Arrival>)
    ensures var ids := SortedListing(Senders(history));
            && |Listing(history)| == |ids| && StrictlySorted(ids)
            && (forall i :: 0 <= i < |ids| ==>
                ids[i] != "" && Listing(history)[i].hostFacts == LastHosts(history, ids[i]))
            && (forall node :: node != "" && LastHosts(history, node) != [] ==> node in ids)
  {
    var ids := SortedListing(Senders(history));
    assert forall i :: 0 <= i < |ids| ==> ids[i] in Elements(ids);
    forall node | node != "" && LastHosts(history, node) != [] ensures node in ids {
      SenderHasLast(history, node);
      assert node in Elements(ids);
    }
    hide SortedListing, Stamped;
    forall i | 0 <= i < |ids| ensures Listing(history)[i].hostFacts == LastHosts(history, ids[i]) {
      assert Listing(history)[i] == LatestOr(history, ids[i]);
    }
  }

  /** Of the nodes whose last report gives the host a zone, `m` has the greatest id. */
  ghost predicate IsGreatestNaming(history: seq<Arrival>, m: string, id: string) {
    m != "" && ZoneSaid(history, m, id) != "" && forall n :: StrLess(m, n) ==> ZoneSaid(history, n, id) == ""
  }

  /** Without a zone among the local facts, the exported zone is the one given by the node of greatest id among those
      whose last report gives one, whenever it reported. */
  lemma ZoneFollowsNodeOrder(history: seq<Arrival>, m: string, id: string, local: LocalFacts, net: NetParser)
    requires IsGreatestNaming(history, m, id) && ZoneOf(local.hosts, id) == ""
    ensures ExportedHostOf(history, id, local, net).zone == ZoneSaid(history, m, id)
  {
    ListedInOrder(history);
    var rs, ids := Listing(history), SortedListing(Senders(history));
    assert LastHosts(history, m) != [];
    var k :| 0 <= k < |ids| && ids[k] == m;
    hide ZoneOf, Listing, SortedListing, StrLess, LastHosts;
    forall j | k < j < |rs| ensures ZoneOf(rs[j].hostFacts, id) == "" {
      assert StrLess(ids[k], ids[j]);
      assert ZoneSaid(history, ids[j], id) == "";
    }
    LastNamingDecides(rs, k, id);
    ZoneOfAppend(AllHostFacts(rs), local.hosts, id);
  }

  /** A zone among the local facts overrides every node's. */
  lemma LocalZoneWins(history: seq<Arrival>, id: string, local: LocalFacts, net: NetParser)
    requires ZoneOf(local.hosts, id) != ""
    ensures ExportedHostOf(history, id, local, net).zone == ZoneOf(local.hosts, id)
  {
    ZoneOfAppend(AllHostFacts(Listing(history)), local.hosts, id);
  }

  lemma {:induction false} GreatestIndex(ids: seq<string>, k: nat, history: seq<Arrival>, id: string) returns (g: nat)
    requires k < |ids| && ZoneSaid(history, ids[k], id) != ""
    ensures k <= g < |ids| && ZoneSaid(history, ids[g], id) != ""
    ensures forall i :: g < i < |ids| ==> ZoneSaid(history, ids[i], id) == ""
  {
    hide ZoneSaid;
    var n := |ids| - 1;
    if k == n || ZoneSaid(history, ids[n], id) != "" {
      return n;
    }
    g := GreatestIndex(ids[..n], k, history, id);
  }

  lemma NamedIsListed(history: seq<Arrival>, n: string, id: string)
    requires n != "" && ZoneSaid(history, n, id) != ""
    ensures n in SortedListing(Senders(history))
  {
    ListedInOrder(history);
    assert LastHosts(history, n) != [];
  }

  lemma ListedAreNamed(history: seq<Arrival>)
    ensures forall i :: 0 <= i < |SortedListing(Senders(history))| ==> SortedListing(Senders(history))[i] != ""
  {
    ListedInOrder(history);
  }

  lemma InOrder(ids: seq<string>, k: nat, g: nat)
    requires StrictlySorted(ids) && k <= g < |ids|
    ensures StrLeq(ids[k], ids[g])
  {
    StrLeqReflexive(ids[k]);
    assert k < g ==> StrLess(ids[k], ids[g]);
  }

  lemma LaterInOrder(ids: seq<string>, g: nat, n: string)
    requires StrictlySorted(ids) && g < |ids| && n in ids && StrLess(ids[g], n)
    ensures exists i :: g < i < |ids| && ids[i] == n
  {
    var i :| 0 <= i < |ids| && ids[i] == n;
    if i < g {
      assert StrLess(ids[i], ids[g]);
      StrLeqAntisymmetric(ids[g], n);
    }
  }

  /** If some node's last report gives the host a zone, one such node has the greatest id. */
  lemma GreatestNaming(history: seq<Arrival>, l: string, id: string) returns (m: string)
    requires l != "" && ZoneSaid(history, l, id) != ""
    ensures IsGreatestNaming(history, m, id) && StrLeq(l, m)
  {
    hide SortedListing, StrLeq, ZoneSaid, Senders, StrictlySorted;
    NamedIsListed(history, l, id);
    ListedAreNamed(history);
    var ids := SortedListing(Senders(history));
    var k: nat :| k < |ids| && ids[k] == l;
    var g := GreatestIndex(ids, k, history, id);
    m := ids[g];
    InOrder(ids, k, g);
    forall n | StrLess(m, n) ensures ZoneSaid(history, n, id) == "" {
      BlankIsLeast(m, n);
      if ZoneSaid(history, n, id) != "" {
        NamedIsListed(history, n, id);
        LaterInOrder(ids, g, n);
      }
    }
  }

  lemma BlankIsLeast(m: string, n: string)
    requires StrLess(m, n)
    ensures n != ""
  {
  }

  lemma GreatestIsUnique(history: seq<Arrival>, m: string, n: string, id: string)
    requires IsGreatestNaming(history, m, id) && IsGreatestNaming(history, n, id)
    ensures m == n
  {
    StrLeqTotal(m, n);
  }

  /** The zone a node gives, be its report the latest or not, is exported if and only if the node of greatest id gives
      the same one; where all nodes differ, if and only if no node of greater id gives any. */
  lemma NodeZoneExportedIff(history: seq<Arrival>, l: string, id: string, local: LocalFacts, net: NetParser)
    requires l != "" && ZoneSaid(history, l, id) != "" && ZoneOf(local.hosts, id) == ""
    ensures ExportedHostOf(history, id, local, net).zone == ZoneSaid(history, l, id)
            <==> exists m :: IsGreatestNaming(history, m, id) && ZoneSaid(history, m, id) == ZoneSaid(history, l, id)
    ensures (forall n :: n != "" && n != l && ZoneSaid(history, n, id) != "" ==>
                           ZoneSaid(history, n, id) != ZoneSaid(history, l, id)) ==>
              (ExportedHostOf(history, id, local, net).zone == ZoneSaid(history, l, id)
               <==> forall n :: StrLess(l, n) ==> ZoneSaid(history, n, id) == "")
  {
    hide ZoneSaid, ExportedHostOf;
    var m := GreatestNaming(history, l, id);
    ZoneFollowsNodeOrder(history, m, id, local, net);
    assert l != m ==> StrLess(l, m);
    forall n | IsGreatestNaming(history, n, id) ensures n == m { GreatestIsUnique(history, m, n, id); }
  }

  function OneFactReport(node: string, f: HostFact): NodeReport {
    NodeReport(node, [f], [], false, None, None, "")
  }

  /** So the later report can lose: node "b" reports a zone for a host, then node "a" reports another, and the
      export keeps the first. */
  lemma LaterReportLoses(f: HostFact, early: string, late: string, net: NetParser)
    requires early != "" && late != "" && early != late
    ensures var history := [Arrival(OneFactReport("b", f.(zone := early)), 1),
                            Arrival(OneFactReport("a", f.(zone := late)), 2)];
            && ZoneSaid(history, Sender(history[1]), f.id) == late
            && ExportedHostOf(history, f.id, LocalFacts([], [], false), net).zone == early
  {
    var history := [Arrival(OneFactReport("b", f.(zone := early)), 1),
                    Arrival(OneFactReport("a", f.(zone := late)), 2)];
    assert Sender(history[0]) == "b" && Sender(history[1]) == "a";
    assert history[..1][..0] == [] && LastFrom(history[..1], "b") == Some(history[0]);
    assert LastHosts(history, "b") == [f.(zone := early)] && LastHosts(history, "a") == [f.(zone := late)];
    assert StrLess("a", "b");
    forall n | StrLess("b", n) ensures ZoneSaid(history, n, f.id) == "" {
      StrLeqReflexive("b");
      if n == "a" { StrLeqAntisymmetric("a", "b"); }
      assert LastFrom(history[..1], n) == None;
    }
    hide ExportedHostOf, Sender;
    ZoneFollowsNodeOrder(history, "b", f.id, LocalFacts([], [], false), net);
  }

  /** A host's merged score is the one in the report of the node with the smallest id that mentions the host. */
  lemma ScoreFollowsNodeOrder(history: seq<Arrival>, m: string, id: string, local: LocalFacts, net: NetParser)
    requires m != "" && id in Ids(LastHosts(history, m))
    requires forall n :: n != "" && StrLess(n, m) ==> id !in Ids(LastHosts(history, n))
    ensures SsamOf(LastHosts(history, m), id) == Some(ExportedHostOf(history, id, local, net).ssam)
  {
    ListedInOrder(history);
    ScoreKnown(LastHosts(history, m), id);
    var rs, ids := Listing(history), SortedListing(Senders(history));
    assert LastHosts(history, m) != [];
    var k :| 0 <= k < |ids| && ids[k] == m;
    hide SsamOf, Listing, SortedListing, StrLess, LastHosts, Ids;
    forall j | 0 <= j < k ensures SsamOf(rs[j].hostFacts, id).None? {
      assert StrLess(ids[j], ids[k]);
      ScoreKnown(LastHosts(history, ids[j]), id);
    }
    FirstMentionDecides(rs, k, id);
    ScoreOfAppend(AllHostFacts(rs), local.hosts, id);
  }
}
