/** The merged export in terms of what the nodes last reported: nothing a node or the master itself said is lost,
    and nothing is invented. */
module FederationExport {
  import opened SsamTypes
  import opened Ordering
  import opened FactMerge
  import opened FederationCollector

  /** Some node's last report, or the master itself, states the policy. */
  ghost predicate PolicySaid(history: seq<Arrival>, local: LocalFacts, p: PolicyFact) {
    || p in local.policies
    || exists n :: n != "" && LastFrom(history, n).Some? && p in LastFrom(history, n).value.report.policyFacts
  }

  /** Some node's last report, or the master itself, holds the host fact. */
  ghost predicate HostSaid(history: seq<Arrival>, local: LocalFacts, f: HostFact) {
    || f in local.hosts
    || exists n :: n != "" && LastFrom(history, n).Some? && f in LastFrom(history, n).value.report.hostFacts
  }

  ghost predicate KnownSaid(history: seq<Arrival>, local: LocalFacts) {
    || local.known
    || exists n :: n != "" && LastFrom(history, n).Some? && LastFrom(history, n).value.report.policyKnown
  }

  // ----- what has been gathered -----

  lemma {:induction false} PolicyGathered(rs: seq<NodeReport>, p: PolicyFact)
    ensures p in AllPolicyFacts(rs) <==> exists i :: 0 <= i < |rs| && p in rs[i].policyFacts
  {
    if rs != [] {
      var n := |rs| - 1;
      PolicyGathered(rs[..n], p);
      assert forall i :: 0 <= i < n ==> rs[..n][i] == rs[i];
    }
  }

  lemma {:induction false} HostGathered(rs: seq<NodeReport>, f: HostFact)
    ensures f in AllHostFacts(rs) <==> exists i :: 0 <= i < |rs| && f in rs[i].hostFacts
  {
    if rs != [] {
      var n := |rs| - 1;
      HostGathered(rs[..n], f);
      assert forall i :: 0 <= i < n ==> rs[..n][i] == rs[i];
    }
  }

  lemma KnownGathered(rs: seq<NodeReport>)
    ensures AnyPolicyKnown(rs) <==> exists i :: 0 <= i < |rs| && rs[i].policyKnown
  {
    if AnyPolicyKnown(rs) {
      var r :| r in rs && r.policyKnown;
      var i :| 0 <= i < |rs| && rs[i] == r;
    }
    if i :| 0 <= i < |rs| && rs[i].policyKnown { assert rs[i] in rs; }
  }

  /** Each listed report holds the last words of a node ... */
  lemma WordsOf(history: seq<Arrival>, i: nat) returns (n: string)
    requires i < |Listing(history)|
    ensures n != "" && LastFrom(history, n).Some? && SameWords(Listing(history)[i], LastFrom(history, n).value.report)
  {
    var ids := SortedListing(Senders(history));
    n := ids[i];
    assert n in Elements(ids);
    hide SortedListing, LastFrom, Senders;
    SenderNamed(history);
    SenderHasLast(history, n);
  }

  /** ... and each node that has reported is listed. */
  lemma ListedAt(history: seq<Arrival>, n: string) returns (i: nat)
    requires n != "" && LastFrom(history, n).Some?
    ensures i < |Listing(history)| && SameWords(Listing(history)[i], LastFrom(history, n).value.report)
  {
    var ids := SortedListing(Senders(history));
    SenderHasLast(history, n);
    assert n in Elements(ids);
    i :| 0 <= i < |ids| && ids[i] == n;
    hide SortedListing, LastFrom, Senders;
  }

  lemma PoliciesSaid(history: seq<Arrival>, local: LocalFacts, p: PolicyFact)
    ensures p in AllPolicyFacts(Listing(history)) + local.policies <==> PolicySaid(history, local, p)
  {
    hide Listing, LastFrom, AllPolicyFacts;
    var rs := Listing(history);
    PolicyGathered(rs, p);
    if i :| 0 <= i < |rs| && p in rs[i].policyFacts { var n := WordsOf(history, i); }
    if n :| n != "" && LastFrom(history, n).Some? && p in LastFrom(history, n).value.report.policyFacts {
      var i := ListedAt(history, n);
    }
  }

  lemma HostsSaid(history: seq<Arrival>, local: LocalFacts, f: HostFact)
    ensures f in AllHostFacts(Listing(history)) + local.hosts <==> HostSaid(history, local, f)
  {
    hide Listing, LastFrom, AllHostFacts;
    var rs := Listing(history);
    HostGathered(rs, f);
    if i :| 0 <= i < |rs| && f in rs[i].hostFacts { var n := WordsOf(history, i); }
    if n :| n != "" && LastFrom(history, n).Some? && f in LastFrom(history, n).value.report.hostFacts {
      var i := ListedAt(history, n);
    }
  }

  lemma KnowledgeSaid(history: seq<Arrival>, local: LocalFacts)
    ensures AnyPolicyKnown(Listing(history)) || local.known <==> KnownSaid(history, local)
  {
    hide Listing, LastFrom, AnyPolicyKnown;
    var rs := Listing(history);
    KnownGathered(rs);
    if i :| 0 <= i < |rs| && rs[i].policyKnown { var n := WordsOf(history, i); }
    if n :| n != "" && LastFrom(history, n).Some? && LastFrom(history, n).value.report.policyKnown {
      var i := ListedAt(history, n);
    }
  }

  lemma GatheredIsSaid(history: seq<Arrival>, local: LocalFacts)
    ensures forall p :: p in AllPolicyFacts(Listing(history)) + local.policies <==> PolicySaid(history, local, p)
    ensures forall f :: f in AllHostFacts(Listing(history)) + local.hosts <==> HostSaid(history, local, f)
    ensures AnyPolicyKnown(Listing(history)) || local.known <==> KnownSaid(history, local)
  {
    hide Listing, PolicySaid, HostSaid, KnownSaid, AnyPolicyKnown, AllPolicyFacts, AllHostFacts;
    forall p { PoliciesSaid(history, local, p); }
    forall f { HostsSaid(history, local, f); }
    KnowledgeSaid(history, local);
  }

  // ----- policies -----

  /** Both ends normalised, the verdict kept. */
  ghost predicate IsNormalised(q: PolicyFact, p: PolicyFact, net: NetParser) {
    q.source == NormalSubnet(p.source, net) && q.dest == NormalSubnet(p.dest, net) && q.allow == p.allow
  }

  /** No two policies that were said and differ once normalised join to one key. */
  ghost predicate SaidKeysTellApart(history: seq<Arrival>, local: LocalFacts, net: NetParser) {
    forall p, p', q, q' ::
      && PolicySaid(history, local, p) && IsNormalised(q, p, net)
      && PolicySaid(history, local, p') && IsNormalised(q', p', net)
      && PolicyKey(q) == PolicyKey(q')
      ==> q == q'
  }

  lemma NormalisedTriple(ps: seq<PolicyFact>, q: PolicyFact, net: NetParser)
    ensures q in NormalTriples(ps, net) <==> exists p :: p in ps && IsNormalised(q, p, net)
  {
    hide NormalSubnet;
    if q in NormalTriples(ps, net) {
      var p :| p in ps && NormalPolicy(p, net) == q;
      assert IsNormalised(q, p, net);
    }
    if exists p :: p in ps && IsNormalised(q, p, net) {
      var p :| p in ps && IsNormalised(q, p, net);
      assert NormalPolicy(p, net) == q;
    }
  }

  /** The exported forward policies are exactly those that some node's last report or the master states, normalised,
      if and only if keys tell these apart. */
  lemma NodesPoliciesExportedIff(history: seq<Arrival>, local: LocalFacts, net: NetParser)
    ensures var out := MergedExport(Listing(history), local, net).policies;
            && Distinct(out)
            && ((forall q :: q in out <==> exists p :: PolicySaid(history, local, p) && IsNormalised(q, p, net))
                <==> SaidKeysTellApart(history, local, net))
  {
    hide Listing, ExportOf, PolicySaid, HostSaid, KnownSaid, IsNormalised, NormalTriples, AnyPolicyKnown, PolicyKey,
      KeysTellApart, SaidKeysTellApart;
    GatheredIsSaid(history, local);
    var ps := AllPolicyFacts(Listing(history)) + local.policies;
    var fs := AllHostFacts(Listing(history)) + local.hosts;
    var known := AnyPolicyKnown(Listing(history)) || local.known;
    PoliciesAreTriplesIff(fs, ps, known, net);
    forall q
      ensures q in NormalTriples(ps, net) <==> exists p :: PolicySaid(history, local, p) && IsNormalised(q, p, net)
    {
      NormalisedTriple(ps, q, net);
    }
    var out := MergedExport(Listing(history), local, net).policies;
    assert out == ExportOf(fs, ps, known, net).policies;
    SameMembersIff(out, NormalTriples(ps, net));
    SaidKeys(history, local, ps, net);
  }

  lemma SameMembersIff(out: seq<PolicyFact>, xs: set<PolicyFact>)
    ensures Elements(out) == xs <==> forall q :: q in out <==> q in xs
  {
    assert forall q :: q in Elements(out) <==> q in out;
  }

  lemma SaidKeys(history: seq<Arrival>, local: LocalFacts, ps: seq<PolicyFact>, net: NetParser)
    requires forall q ::
               q in NormalTriples(ps, net) <==> exists p :: PolicySaid(history, local, p) && IsNormalised(q, p, net)
    ensures KeysTellApart(ps, net) <==> SaidKeysTellApart(history, local, net)
  {
    hide NormalTriples, PolicySaid, IsNormalised, PolicyKey;
  }

  lemma KnownWhenSaid(history: seq<Arrival>, local: LocalFacts, net: NetParser)
    ensures MergedExport(Listing(history), local, net).policyKnown <==> KnownSaid(history, local)
  {
    GatheredIsSaid(history, local);
    hide Listing, KnownSaid, AnyPolicyKnown;
  }

  // ----- hosts -----

  /** A host is exported exactly when some node's last report or the master has a fact about it. */
  lemma NodesHostsExported(history: seq<Arrival>, local: LocalFacts, net: NetParser, id: string)
    ensures id in Keys(MergedExport(Listing(history), local, net).hosts, HostId)
            <==> exists f :: HostSaid(history, local, f) && f.id == id
  {
    GatheredIsSaid(history, local);
    var ps := AllPolicyFacts(Listing(history)) + local.policies;
    var fs := AllHostFacts(Listing(history)) + local.hosts;
    var known := AnyPolicyKnown(Listing(history)) || local.known;
    ExportedIds(fs, ps, known, net);
    hide Listing, ExportOf, HostSaid, AnyPolicyKnown;
    var hs := MergedExport(Listing(history), local, net).hosts;
    assert hs == ExportOf(fs, ps, known, net).hosts;
    assert id in Elements(Keys(hs, HostId)) <==> id in Keys(hs, HostId);
  }

  lemma {:induction false} DirectedMember(fs: seq<HostFact>, id: string, p: PolicyFact)
    ensures p in InboundOf(fs, id) <==> exists f :: f in fs && f.id == id && p in f.inbound
    ensures p in OutboundOf(fs, id) <==> exists f :: f in fs && f.id == id && p in f.outbound
  {
    if fs != [] {
      var n := |fs| - 1;
      DirectedMember(fs[..n], id, p);
      assert fs == fs[..n] + [fs[n]];
    }
  }

  /** What an exported host says is what the last reports and the master's own facts say of it. */
  lemma NodesFactsExported(history: seq<Arrival>, local: LocalFacts, net: NetParser, i: nat)
    requires i < |MergedExport(Listing(history), local, net).hosts|
    ensures var h := MergedExport(Listing(history), local, net).hosts[i];
            && (forall x :: x in h.ips
                            <==> x != "" && exists f :: HostSaid(history, local, f) && f.id == h.id && x in f.ips)
            && (forall x :: x in h.subnets <==>
                            x != "" && exists f, y :: HostSaid(history, local, f) && f.id == h.id && y in f.subnets
                                                      && x == NormalSubnet(y, net))
            && (h.forwards <==> exists f :: HostSaid(history, local, f) && f.id == h.id && f.forwards)
            && (h.statefulInput <==> exists f :: HostSaid(history, local, f) && f.id == h.id && f.statefulInput)
            && (forall p :: p in h.inbound <==>
                  exists f :: HostSaid(history, local, f) && f.id == h.id && p in f.inbound)
            && (forall p :: p in h.outbound
                            <==> exists f :: HostSaid(history, local, f) && f.id == h.id && p in f.outbound)
  {
    GatheredIsSaid(history, local);
    var ps := AllPolicyFacts(Listing(history)) + local.policies;
    var fs := AllHostFacts(Listing(history)) + local.hosts;
    var known := AnyPolicyKnown(Listing(history)) || local.known;
    ExportedHostSays(fs, ps, known, net, i);
    ExportedDirected(fs, ps, known, net, i);
    hide Listing, ExportOf, HostSaid, AnyPolicyKnown, NormalSubnet;
    assert MergedExport(Listing(history), local, net).hosts == ExportOf(fs, ps, known, net).hosts;
  }

  lemma ExportedDirected(fs: seq<HostFact>, ps: seq<PolicyFact>, known: bool, net: NetParser, i: nat)
    requires i < |ExportOf(fs, ps, known, net).hosts|
    ensures var h := ExportOf(fs, ps, known, net).hosts[i];
            && h.inbound == InboundOf(fs, h.id) && h.outbound == OutboundOf(fs, h.id)
            && h.links == LinksOf(fs, h.id) && h.zone == ZoneOf(fs, h.id)
            && (forall p :: p in h.inbound <==> exists f :: f in fs && f.id == h.id && p in f.inbound)
            && (forall p :: p in h.outbound <==> exists f :: f in fs && f.id == h.id && p in f.outbound)
  {
    var h := ExportOf(fs, ps, known, net).hosts[i];
    hide PolicyMap, SortedListing, InboundOf, OutboundOf, IpsOf, SubnetsOf;
    forall p { DirectedMember(fs, h.id, p); }
  }

  /** How often the last reports of these nodes state an inbound fact about a host. */
  function InboundSaid(history: seq<Arrival>, nodes: seq<string>, id: string, p: PolicyFact): nat {
    if nodes == [] then 0
    else InboundSaid(history, nodes[..|nodes| - 1], id, p)
         + ReportedInbound(LastHosts(history, nodes[|nodes| - 1]), id, p)
  }

  function OutboundSaid(history: seq<Arrival>, nodes: seq<string>, id: string, p: PolicyFact): nat {
    if nodes == [] then 0
    else OutboundSaid(history, nodes[..|nodes| - 1], id, p)
         + ReportedOutbound(LastHosts(history, nodes[|nodes| - 1]), id, p)
  }

  lemma {:induction false} CountsAppend(fs: seq<HostFact>, gs: seq<HostFact>, id: string, p: PolicyFact)
    ensures ReportedInbound(fs + gs, id, p) == ReportedInbound(fs, id, p) + ReportedInbound(gs, id, p)
    ensures ReportedOutbound(fs + gs, id, p) == ReportedOutbound(fs, id, p) + ReportedOutbound(gs, id, p)
  {
    hide Count;
    if gs == [] {
      assert fs + gs == fs;
    } else {
      var n := |gs| - 1;
      CountsAppend(fs, gs[..n], id, p);
      assert (fs + gs)[..|fs + gs| - 1] == fs + gs[..n];
    }
  }

  lemma {:induction false} CountsGathered(rs: seq<NodeReport>, history: seq<Arrival>, nodes: seq<string>, id: string,
                                          p: PolicyFact)
    requires |rs| == |nodes| && forall i :: 0 <= i < |rs| ==> rs[i].hostFacts == LastHosts(history, nodes[i])
    ensures ReportedInbound(AllHostFacts(rs), id, p) == InboundSaid(history, nodes, id, p)
    ensures ReportedOutbound(AllHostFacts(rs), id, p) == OutboundSaid(history, nodes, id, p)
  {
    hide ReportedInbound, ReportedOutbound, LastHosts;
    if rs == [] {
      NothingCounted(id, p);
    } else {
      var n := |rs| - 1;
      CountsGathered(rs[..n], history, nodes[..n], id, p);
      CountsAppend(AllHostFacts(rs[..n]), rs[n].hostFacts, id, p);
    }
  }

  lemma NothingCounted(id: string, p: PolicyFact)
    ensures ReportedInbound([], id, p) == 0 && ReportedOutbound([], id, p) == 0
  {
  }

  /** ... and each directed fact is exported as often as the nodes' last reports and the master together state it. */
  lemma NodesDirectedCounted(history: seq<Arrival>, local: LocalFacts, net: NetParser, i: nat, p: PolicyFact)
    requires i < |MergedExport(Listing(history), local, net).hosts|
    ensures var h, nodes := MergedExport(Listing(history), local, net).hosts[i], SortedListing(Senders(history));
            && Count(h.inbound, p) == InboundSaid(history, nodes, h.id, p) + ReportedInbound(local.hosts, h.id, p)
            && Count(h.outbound, p) == OutboundSaid(history, nodes, h.id, p) + ReportedOutbound(local.hosts, h.id, p)
  {
    ListedInOrder(history);
    var rs, nodes := Listing(history), SortedListing(Senders(history));
    var ps, fs := AllPolicyFacts(rs) + local.policies, AllHostFacts(rs) + local.hosts;
    var known := AnyPolicyKnown(rs) || local.known;
    ExportedDirected(fs, ps, known, net, i);
    hide Listing, ExportOf, AnyPolicyKnown, SortedListing, InboundOf, OutboundOf, Count, ReportedInbound,
      ReportedOutbound;
    var h := MergedExport(rs, local, net).hosts[i];
    assert h == ExportOf(fs, ps, known, net).hosts[i];
    DirectedFactsConserved(fs, h.id, p);
    CountsAppend(AllHostFacts(rs), local.hosts, h.id, p);
    CountsGathered(rs, history, nodes, h.id, p);
  }
}
