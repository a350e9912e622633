/**
  The graph the crawl writes, and the effect of each of its Cypher writes:
  `MERGE` on a key, then `SET`, then (for officers and PSCs) `MATCH` of the
  main company and `MERGE` of the edge from it.

  Company nodes are a sequence: a node's position is its identity, and no
  node is ever deleted. Neither `company_number` nor `name` is unique among
  them (a node merged on its name gets whatever registration number the
  officer record carries, a node merged on its number starts without a
  name), so `MERGE` and `MATCH` act on every node that matches. Officer and
  Individual nodes are only ever created by the `MERGE` on their key pair,
  so they are maps from that pair.

  A `MERGE` whose key property is null is refused by the database and the
  write fails; the merge functions return `None` for it.
*/
module Store {
  import opened Wrappers
  import opened Records

  /** A Company node's properties; `None` is an absent property. */
  datatype CompanyNode = CompanyNode(
    companyNumber: Option<string>,
    name: Option<string>,
    status: Option<string>,
    address: Option<string>,
    incorporationDate: Option<string>)

  /** The merge key of Officer nodes, (name, officer_id), and of Individual nodes, (name, psc_id). */
  type NodeKey = (string, string)

  datatype OfficerNode = OfficerNode(appointedOn: Option<string>, resignedOn: Option<string>, role: Option<string>)

  datatype IndividualNode = IndividualNode(notifiedOn: Option<string>, ceasedOn: Option<string>)

  datatype Graph = Graph(
    companies: seq<CompanyNode>,
    officers: map<NodeKey, OfficerNode>,
    individuals: map<NodeKey, IndividualNode>,
    hasOfficer: set<(nat, NodeKey)>,
    hasCorporateOfficer: set<(nat, nat)>,
    hasPsc: set<(nat, NodeKey)>,
    hasCorporatePsc: set<(nat, nat)>)

  const EmptyGraph: Graph := Graph([], map[], map[], {}, {}, {}, {})

  /** Every edge joins nodes that exist. */
  ghost predicate WellFormed(g: Graph) {
    && (forall e :: e in g.hasOfficer ==> e.0 < |g.companies| && e.1 in g.officers)
    && (forall e :: e in g.hasCorporateOfficer ==> e.0 < |g.companies| && e.1 < |g.companies|)
    && (forall e :: e in g.hasPsc ==> e.0 < |g.companies| && e.1 in g.individuals)
    && (forall e :: e in g.hasCorporatePsc ==> e.0 < |g.companies| && e.1 < |g.companies|)
  }

  /** The graph only grows: no node and no edge is removed. */
  ghost predicate Grows(g: Graph, g': Graph) {
    && |g.companies| <= |g'.companies|
    && g.officers.Keys <= g'.officers.Keys
    && g.individuals.Keys <= g'.individuals.Keys
    && g.hasOfficer <= g'.hasOfficer
    && g.hasCorporateOfficer <= g'.hasCorporateOfficer
    && g.hasPsc <= g'.hasPsc
    && g.hasCorporatePsc <= g'.hasCorporatePsc
  }

  predicate HasNumber(nodes: seq<CompanyNode>, number: string) {
    exists i :: 0 <= i < |nodes| && nodes[i].companyNumber == Some(number)
  }

  predicate HasName(nodes: seq<CompanyNode>, name: string) {
    exists i :: 0 <= i < |nodes| && nodes[i].name == Some(name)
  }

  /** `MATCH (c:Company {company_number: $number})`; a null number matches nothing. */
  function Matching(nodes: seq<CompanyNode>, number: Option<string>): set<nat> {
    set c: nat | c < |nodes| && number.Some? && nodes[c].companyNumber == number
  }

  /** The Company nodes a `MERGE (co:Company {name: $name})` binds. */
  function Named(nodes: seq<CompanyNode>, name: string): set<nat> {
    set c: nat | c < |nodes| && nodes[c].name == Some(name)
  }

  /** Every pair of a matched main company and a target, as the edge `MERGE` makes them. */
  function Links<T>(sources: set<nat>, targets: set<T>): set<(nat, T)> {
    set c, t | c in sources && t in targets :: (c, t)
  }

  /**
    The edges after an edge `MERGE` from the main company: the old edges, and
    an edge from each Company node with the main company's number to each
    target, and no other.
  */
  ghost predicate LinkedFromMain<T(!new)>(before: set<(nat, T)>, after: set<(nat, T)>,
                                    nodes: seq<CompanyNode>, main: Option<string>, targets: set<T>)
  {
    && before <= after
    && (forall c, t :: (c, t) in after && (c, t) !in before ==> c in Matching(nodes, main) && t in targets)
    && (forall c, t :: c in Matching(nodes, main) && t in targets ==> (c, t) in after)
  }

  /** What `create_company_node` leaves on a node with the profile's number. */
  function ProfileNode(number: string, profile: Profile): CompanyNode {
    CompanyNode(Some(number), profile.companyName, profile.companyStatus, Some(Address(profile)), profile.dateOfCreation)
  }

  /** `MERGE (c:Company {company_number: $number}) SET c.name = ..., ...`. */
  function MergeCompanyNodes(nodes: seq<CompanyNode>, number: string, profile: Profile): (r: seq<CompanyNode>)
    ensures |r| == |nodes| + (if HasNumber(nodes, number) then 0 else 1)
    ensures HasNumber(r, number)
    ensures forall i :: 0 <= i < |r| && r[i].companyNumber == Some(number) ==> r[i] == ProfileNode(number, profile)
    ensures forall i :: 0 <= i < |nodes| && nodes[i].companyNumber != Some(number) ==> r[i] == nodes[i]
  {
    var base := if HasNumber(nodes, number) then nodes else nodes + [CompanyNode(Some(number), None, None, None, None)];
    var r := seq(|base|, i requires 0 <= i < |base| =>
      if base[i].companyNumber == Some(number) then ProfileNode(number, profile) else base[i]);
    assert HasNumber(r, number) by {
      if HasNumber(nodes, number) {
        var i :| 0 <= i < |nodes| && nodes[i].companyNumber == Some(number);
        assert r[i].companyNumber == Some(number);
      } else {
        assert r[|nodes|].companyNumber == Some(number);
      }
    }
    r
  }

  /**
    `create_company_node`: an upsert keyed by `company_number`. Afterwards a
    node with the profile's number exists and every such node carries exactly
    the profile's attributes; a node is added only when none had the number;
    nothing else in the graph changes. A profile without a number is refused.
  */
  function MergeCompany(g: Graph, profile: Profile): (r: Option<Graph>)
    ensures r.None? <==> profile.companyNumber.None?
    ensures r.Some? ==>
      var number := profile.companyNumber.value;
      var nodes := r.value.companies;
      && |nodes| == |g.companies| + (if HasNumber(g.companies, number) then 0 else 1)
      && HasNumber(nodes, number)
      && (forall i :: 0 <= i < |nodes| && nodes[i].companyNumber == Some(number) ==> nodes[i] == ProfileNode(number, profile))
      && (forall i :: 0 <= i < |g.companies| && g.companies[i].companyNumber != Some(number) ==> nodes[i] == g.companies[i])
      && r.value.(companies := g.companies) == g
  {
    match profile.companyNumber
    case None => None
    case Some(number) => Some(g.(companies := MergeCompanyNodes(g.companies, number, profile)))
  }

  /** `MERGE (co:Company {name: $name}) SET co.company_number = $number`. */
  function UpsertByName(nodes: seq<CompanyNode>, name: string, number: Option<string>): (r: seq<CompanyNode>)
    ensures |r| == |nodes| + (if HasName(nodes, name) then 0 else 1)
    ensures Named(r, name) == if HasName(nodes, name) then Named(nodes, name) else Named(nodes, name) + {|nodes|}
    ensures forall i :: 0 <= i < |r| && r[i].name == Some(name) ==> r[i].companyNumber == number
    ensures forall i :: 0 <= i < |nodes| ==> r[i] == nodes[i].(companyNumber := r[i].companyNumber)
    ensures forall i :: 0 <= i < |nodes| && nodes[i].name != Some(name) ==> r[i] == nodes[i]
    ensures !HasName(nodes, name) ==> r[|nodes|] == CompanyNode(number, Some(name), None, None, None)
  {
    var base := if HasName(nodes, name) then nodes else nodes + [CompanyNode(None, Some(name), None, None, None)];
    var r := seq(|base|, i requires 0 <= i < |base| =>
      if base[i].name == Some(name) then base[i].(companyNumber := number) else base[i]);
    assert Named(r, name) == Named(base, name);
    r
  }

  /**
    The corporate half of `create_officer_or_corporate_officer`: the Company
    node named like the officer is upserted whatever the main company, and the
    HAS_CORPORATE_OFFICER edge comes from every node that, after that upsert,
    has the main company's number (none when no such node exists).
  */
  function MergeCorporateOfficer(g: Graph, main: Profile, officer: Officer): (r: Option<Graph>)
    ensures r.None? <==> officer.name.None?
    ensures r.Some? ==>
      var nodes := r.value.companies;
      && HasName(nodes, officer.name.value)
      && (forall i :: 0 <= i < |nodes| && nodes[i].name == officer.name ==> nodes[i].companyNumber == officer.registrationNumber)
      && |nodes| == |g.companies| + (if HasName(g.companies, officer.name.value) then 0 else 1)
      && (forall i :: 0 <= i < |g.companies| && g.companies[i].name != officer.name ==> nodes[i] == g.companies[i])
      && (forall i :: 0 <= i < |g.companies| ==> nodes[i] == g.companies[i].(companyNumber := nodes[i].companyNumber))
      && (!HasName(g.companies, officer.name.value) ==>
            nodes[|g.companies|] == CompanyNode(officer.registrationNumber, officer.name, None, None, None))
      && LinkedFromMain(g.hasCorporateOfficer, r.value.hasCorporateOfficer, nodes, main.companyNumber, Named(nodes, officer.name.value))
      && r.value.(companies := g.companies, hasCorporateOfficer := g.hasCorporateOfficer) == g
  {
    match officer.name
    case None => None
    case Some(name) =>
      var nodes := UpsertByName(g.companies, name, officer.registrationNumber);
      Some(g.(companies := nodes,
              hasCorporateOfficer := g.hasCorporateOfficer + Links(Matching(nodes, main.companyNumber), Named(nodes, name))))
  }

  /** The key an individual officer is merged on, when both parts are present. */
  function OfficerKey(officer: Officer): (r: Option<NodeKey>)
    ensures r.Some? <==> officer.name.Some?
    ensures r.Some? ==> r.value.0 == officer.name.value
    ensures r.Some? && officer.officerId.None? ==> r.value.1 == officer.name.value
    ensures r.Some? && officer.officerId.Some? ==> r.value.1 == officer.officerId.value
  {
    if officer.name.Some? && OfficerId(officer).Some? then Some((officer.name.value, OfficerId(officer).value)) else None
  }

  /**
    The individual half of `create_officer_or_corporate_officer`: the Officer
    node keyed by (name, officer_id) gets the record's dates and role, and the
    HAS_OFFICER edge comes from every node with the main company's number.
  */
  function MergeIndividualOfficer(g: Graph, main: Profile, officer: Officer): (r: Option<Graph>)
    ensures r.None? <==> OfficerKey(officer).None?
    ensures r.Some? ==>
      var key := OfficerKey(officer).value;
      && key in r.value.officers
      && r.value.officers[key] == OfficerNode(officer.appointedOn, officer.resignedOn, officer.officerRole)
      && (forall k :: k in g.officers && k != key ==> k in r.value.officers && r.value.officers[k] == g.officers[k])
      && r.value.officers.Keys == g.officers.Keys + {key}
      && LinkedFromMain(g.hasOfficer, r.value.hasOfficer, g.companies, main.companyNumber, {key})
      && r.value.(officers := g.officers, hasOfficer := g.hasOfficer) == g
  {
    match OfficerKey(officer)
    case None => None
    case Some(key) =>
      Some(g.(officers := g.officers[key := OfficerNode(officer.appointedOn, officer.resignedOn, officer.officerRole)],
              hasOfficer := g.hasOfficer + Links(Matching(g.companies, main.companyNumber), {key})))
  }

  /** `create_officer_or_corporate_officer`: the branch is chosen by `is_corporate_officer`. */
  function MergeOfficer(g: Graph, main: Profile, officer: Officer): (r: Option<Graph>)
    ensures r.Some? ==> Grows(g, r.value) && (WellFormed(g) ==> WellFormed(r.value))
  {
    if officer.isCorporateOfficer then MergeCorporateOfficer(g, main, officer)
    else MergeIndividualOfficer(g, main, officer)
  }

  /** The corporate half of `create_psc_node_and_relationship`, with HAS_CORPORATE_PSC. */
  function MergeCorporatePsc(g: Graph, main: Profile, psc: Psc): (r: Option<Graph>)
    ensures r.None? <==> psc.name.None?
    ensures r.Some? ==>
      var nodes := r.value.companies;
      && HasName(nodes, psc.name.value)
      && (forall i :: 0 <= i < |nodes| && nodes[i].name == psc.name ==> nodes[i].companyNumber == psc.registrationNumber)
      && |nodes| == |g.companies| + (if HasName(g.companies, psc.name.value) then 0 else 1)
      && (forall i :: 0 <= i < |g.companies| && g.companies[i].name != psc.name ==> nodes[i] == g.companies[i])
      && (forall i :: 0 <= i < |g.companies| ==> nodes[i] == g.companies[i].(companyNumber := nodes[i].companyNumber))
      && (!HasName(g.companies, psc.name.value) ==>
            nodes[|g.companies|] == CompanyNode(psc.registrationNumber, psc.name, None, None, None))
      && LinkedFromMain(g.hasCorporatePsc, r.value.hasCorporatePsc, nodes, main.companyNumber, Named(nodes, psc.name.value))
      && r.value.(companies := g.companies, hasCorporatePsc := g.hasCorporatePsc) == g
  {
    match psc.name
    case None => None
    case Some(name) =>
      var nodes := UpsertByName(g.companies, name, psc.registrationNumber);
      Some(g.(companies := nodes,
              hasCorporatePsc := g.hasCorporatePsc + Links(Matching(nodes, main.companyNumber), Named(nodes, name))))
  }

  /** The key an individual PSC is merged on: (name, links.self). */
  function PscKey(psc: Psc): (r: Option<NodeKey>)
    ensures r.Some? <==> psc.name.Some? && psc.selfLink.Some?
    ensures r.Some? ==> r.value == (psc.name.value, psc.selfLink.value)
  {
    if psc.name.Some? && psc.selfLink.Some? then Some((psc.name.value, psc.selfLink.value)) else None
  }

  /** The individual half of `create_psc_node_and_relationship`, with HAS_PSC. */
  function MergeIndividualPsc(g: Graph, main: Profile, psc: Psc): (r: Option<Graph>)
    ensures r.None? <==> PscKey(psc).None?
    ensures r.Some? ==>
      var key := PscKey(psc).value;
      && key in r.value.individuals
      && r.value.individuals[key] == IndividualNode(psc.notifiedOn, psc.ceasedOn)
      && (forall k :: k in g.individuals && k != key ==> k in r.value.individuals && r.value.individuals[k] == g.individuals[k])
      && r.value.individuals.Keys == g.individuals.Keys + {key}
      && LinkedFromMain(g.hasPsc, r.value.hasPsc, g.companies, main.companyNumber, {key})
      && r.value.(individuals := g.individuals, hasPsc := g.hasPsc) == g
  {
    match PscKey(psc)
    case None => None
    case Some(key) =>
      Some(g.(individuals := g.individuals[key := IndividualNode(psc.notifiedOn, psc.ceasedOn)],
              hasPsc := g.hasPsc + Links(Matching(g.companies, main.companyNumber), {key})))
  }

  /** `create_psc_node_and_relationship`: the branch is chosen by the PSC's `kind`. */
  function MergePsc(g: Graph, main: Profile, psc: Psc): (r: Option<Graph>)
    ensures r.Some? ==> Grows(g, r.value) && (WellFormed(g) ==> WellFormed(r.value))
  {
    if IsCorporatePsc(psc) then MergeCorporatePsc(g, main, psc)
    else MergeIndividualPsc(g, main, psc)
  }
}

module StoreFacts {
  import opened Wrappers
  import opened Records
  import opened Store

  /**
    Merging the same profile twice is the same as merging it once; in
    particular, when no node had the number before, both leave exactly one
    node with it.
  */
  lemma MergeCompanyIdempotent(g: Graph, profile: Profile)
    requires profile.companyNumber.Some?
    ensures MergeCompany(g, profile).Some?
    ensures MergeCompany(MergeCompany(g, profile).value, profile) == MergeCompany(g, profile)
    ensures !HasNumber(g.companies, profile.companyNumber.value) ==>
      Matching(MergeCompany(g, profile).value.companies, profile.companyNumber) == {|g.companies|}
  {
    var number := profile.companyNumber.value;
    var once := MergeCompany(g, profile).value;
    var twice := MergeCompany(once, profile).value;
    assert twice.companies == once.companies by {
      forall i | 0 <= i < |once.companies|
        ensures twice.companies[i] == once.companies[i]
      {
        if once.companies[i].companyNumber == Some(number) {
          assert twice.companies[i].companyNumber == Some(number);
        }
      }
    }
    if !HasNumber(g.companies, number) {
      assert once.companies[|g.companies|].companyNumber == Some(number) by {
        var i :| 0 <= i < |once.companies| && once.companies[i].companyNumber == Some(number);
        if i < |g.companies| {
          assert once.companies[i] == g.companies[i];
        }
      }
    }
  }

  /** Merging the same officer record twice is the same as merging it once. */
  lemma MergeOfficerIdempotent(g: Graph, main: Profile, officer: Officer)
    requires MergeOfficer(g, main, officer).Some?
    ensures MergeOfficer(MergeOfficer(g, main, officer).value, main, officer) == MergeOfficer(g, main, officer)
  {
    var once := MergeOfficer(g, main, officer).value;
    if officer.isCorporateOfficer {
      var name := officer.name.value;
      var twice := MergeCorporateOfficer(once, main, officer).value;
      assert twice.companies == once.companies by {
        forall i | 0 <= i < |once.companies| ensures twice.companies[i] == once.companies[i] {
          if once.companies[i].name != Some(name) {
          } else {
            assert twice.companies[i] == once.companies[i].(companyNumber := twice.companies[i].companyNumber);
          }
        }
      }
      assert twice.hasCorporateOfficer == once.hasCorporateOfficer;
    } else {
      var key := OfficerKey(officer).value;
      var twice := MergeIndividualOfficer(once, main, officer).value;
      assert twice.officers == once.officers;
      assert twice.hasOfficer == once.hasOfficer;
    }
  }

  /** Merging the same PSC record twice is the same as merging it once. */
  lemma MergePscIdempotent(g: Graph, main: Profile, psc: Psc)
    requires MergePsc(g, main, psc).Some?
    ensures MergePsc(MergePsc(g, main, psc).value, main, psc) == MergePsc(g, main, psc)
  {
    var once := MergePsc(g, main, psc).value;
    if IsCorporatePsc(psc) {
      var name := psc.name.value;
      var twice := MergeCorporatePsc(once, main, psc).value;
      assert twice.companies == once.companies by {
        forall i | 0 <= i < |once.companies| ensures twice.companies[i] == once.companies[i] {
          if once.companies[i].name != Some(name) {
          } else {
            assert twice.companies[i] == once.companies[i].(companyNumber := twice.companies[i].companyNumber);
          }
        }
      }
      assert twice.hasCorporatePsc == once.hasCorporatePsc;
    } else {
      var key := PscKey(psc).value;
      var twice := MergeIndividualPsc(once, main, psc).value;
      assert twice.individuals == once.individuals;
      assert twice.hasPsc == once.hasPsc;
    }
  }

  /**
    A corporate officer's Company node is upserted even when the main company
    is not in the graph; the HAS_CORPORATE_OFFICER edge is added only when,
    after that upsert, some node carries the main company's number.
  */
  lemma CorporateOfficerEdgeNeedsMain(g: Graph, main: Profile, officer: Officer)
    requires officer.isCorporateOfficer && officer.name.Some?
    ensures MergeOfficer(g, main, officer).Some?
    ensures
      var g' := MergeOfficer(g, main, officer).value;
      && Named(g'.companies, officer.name.value) != {}
      && (Matching(g'.companies, main.companyNumber) == {} ==> g'.hasCorporateOfficer == g.hasCorporateOfficer)
      && (forall c, co :: c in Matching(g'.companies, main.companyNumber) && co in Named(g'.companies, officer.name.value)
            ==> (c, co) in g'.hasCorporateOfficer)
  {
    var g' := MergeOfficer(g, main, officer).value;
    var i :| 0 <= i < |g'.companies| && g'.companies[i].name == officer.name;
    assert i in Named(g'.companies, officer.name.value);
  }

  /** The same rule for a corporate PSC and its HAS_CORPORATE_PSC edge. */
  lemma CorporatePscEdgeNeedsMain(g: Graph, main: Profile, psc: Psc)
    requires IsCorporatePsc(psc) && psc.name.Some?
    ensures MergePsc(g, main, psc).Some?
    ensures
      var g' := MergePsc(g, main, psc).value;
      && Named(g'.companies, psc.name.value) != {}
      && (Matching(g'.companies, main.companyNumber) == {} ==> g'.hasCorporatePsc == g.hasCorporatePsc)
      && (forall c, co :: c in Matching(g'.companies, main.companyNumber) && co in Named(g'.companies, psc.name.value)
            ==> (c, co) in g'.hasCorporatePsc)
  {
    var g' := MergePsc(g, main, psc).value;
    var i :| 0 <= i < |g'.companies| && g'.companies[i].name == psc.name;
    assert i in Named(g'.companies, psc.name.value);
  }

  /**
    An individual officer is keyed by its name and its id, the id falling
    back to the name; the Officer node is upserted whatever the main company,
    and the HAS_OFFICER edge is added only when a node has the main number.
  */
  lemma IndividualOfficerKeyed(g: Graph, main: Profile, officer: Officer)
    requires !officer.isCorporateOfficer && officer.name.Some?
    ensures MergeOfficer(g, main, officer).Some?
    ensures
      var g' := MergeOfficer(g, main, officer).value;
      var id := if officer.officerId.Some? then officer.officerId.value else officer.name.value;
      && (officer.name.value, id) in g'.officers
      && (Matching(g.companies, main.companyNumber) == {} ==> g'.hasOfficer == g.hasOfficer)
      && (forall c :: c in Matching(g.companies, main.companyNumber) ==> (c, (officer.name.value, id)) in g'.hasOfficer)
  {
  }
}
