/** Two concrete runs of the crawl, worked out on the specification. */
module Scenarios {
  import opened Wrappers
  import opened Records
  import opened Store
  import opened Crawl
  import opened CrawlFacts

  function CorporateOfficer(name: string, number: string): Officer {
    Officer(Some(name), None, true, Some(number), None, None, None)
  }

  function BareProfile(number: string, name: string): Profile {
    Profile(Some(number), Some(name), Some("active"), [], None)
  }

  /** Two companies, each the corporate officer of the other. */
  function CycleRegistry(): Registry {
    map[
      "A" := Entry(Some(BareProfile("A", "A LTD")), Some([CorporateOfficer("B LTD", "B")]), None),
      "B" := Entry(Some(BareProfile("B", "B LTD")), Some([CorporateOfficer("A LTD", "A")]), None)]
  }

  /** The events of a fresh call on `number` up to and including its one officer's write. */
  function FetchesThenWrites(number: string, profile: Profile, officer: Officer): seq<Event> {
    [FetchedCompany(number), FetchedOfficers(number), FetchedPscs(number),
     WroteCompany(profile), WroteOfficer(profile, officer)]
  }

  /**
    A company whose only officer is a corporate officer, and which has no PSC
    list: its call writes the company and the officer, then calls on the
    officer's number.
  */
  lemma OneCorporateOfficer(registry: Registry, st: Run, number: string, profile: Profile, officer: Officer)
      returns (wrote: Run)
    requires Lookup(registry, number) == Entry(Some(profile), Some([officer]), None)
    requires profile.companyNumber.Some? && officer.isCorporateOfficer && officer.name.Some?
    requires CorporateOfficerNumber(officer).Some?
    requires !st.crashed && number !in st.visited
    ensures !wrote.crashed
    ensures wrote.visited == st.visited + {number}
    ensures wrote.trace == st.trace + FetchesThenWrites(number, profile, officer)
    ensures Visit(registry, st, number) == Visit(registry, wrote, CorporateOfficerNumber(officer).value)
  {
    var written := WriteCompany(Fetch(st, number), profile);
    wrote := WriteOfficer(written, profile, officer);
    assert Visit(registry, st, number) == Expand(registry, Fetch(st, number), Lookup(registry, number));
    SingleOfficer(registry, written, profile, officer);
  }

  /**
    Two companies that are each other's only (corporate) officer: a crawl
    from a fresh process on the first, whatever the database holds, fetches
    each of them once, writes each company and its officer, and the second
    call on the first company is only skipped, so the cycle ends with
    exactly the two numbers visited.
  */
  lemma TwoCycleTerminates(registry: Registry, a: string, b: string, pA: Profile, pB: Profile, oA: Officer, oB: Officer,
                           database: Graph)
    requires a != b && a != "" && b != ""
    requires Lookup(registry, a) == Entry(Some(pA), Some([oB]), None)
    requires Lookup(registry, b) == Entry(Some(pB), Some([oA]), None)
    requires pA.companyNumber.Some? && pB.companyNumber.Some?
    requires oA.isCorporateOfficer && oA.name.Some? && oA.registrationNumber == Some(a)
    requires oB.isCorporateOfficer && oB.name.Some? && oB.registrationNumber == Some(b)
    ensures
      var r := Visit(registry, Start(database), a);
      && r.visited == {a, b}
      && !r.crashed
      && r.trace == FetchesThenWrites(a, pA, oB) + FetchesThenWrites(b, pB, oA) + [Skipped(a)]
  {
    var atB := OneCorporateOfficer(registry, Start(database), a, pA, oB);
    var atA := OneCorporateOfficer(registry, atB, b, pB, oA);
    VisitedIsSkipped(registry, atA, a);
    Concatenated(Start(database).trace, atB.trace, atA.trace, FetchesThenWrites(a, pA, oB), FetchesThenWrites(b, pB, oA), [Skipped(a)]);
  }

  lemma Concatenated<T>(t0: seq<T>, t1: seq<T>, t2: seq<T>, x: seq<T>, y: seq<T>, z: seq<T>)
    requires t0 == [] && t1 == t0 + x && t2 == t1 + y
    ensures t2 + z == x + y + z
  {
  }

  /** The two-company cycle on concrete numbers "A" and "B". */
  lemma CycleTerminates()
    ensures
      var r := Visit(CycleRegistry(), Start(EmptyGraph), "A");
      && r.visited == {"A", "B"}
      && !r.crashed
      && r.trace == FetchesThenWrites("A", BareProfile("A", "A LTD"), CorporateOfficer("B LTD", "B"))
                  + FetchesThenWrites("B", BareProfile("B", "B LTD"), CorporateOfficer("A LTD", "A"))
                  + [Skipped("A")]
  {
    var pA := BareProfile("A", "A LTD");
    var pB := BareProfile("B", "B LTD");
    var oB := CorporateOfficer("B LTD", "B");
    var oA := CorporateOfficer("A LTD", "A");
    TwoCycleTerminates(CycleRegistry(), "A", "B", pA, pB, oA, oB, EmptyGraph);
  }

  /** A fresh company whose officer and PSC lists are both empty: its call fetches it and writes the company only. */
  lemma LeafCompany(registry: Registry, st: Run, number: string, profile: Profile)
    requires Lookup(registry, number) == Entry(Some(profile), Some([]), Some([]))
    requires !st.crashed && number !in st.visited
    ensures Visit(registry, st, number) == WriteCompany(Fetch(st, number), profile)
  {
    assert Visit(registry, st, number) == Expand(registry, Fetch(st, number), Lookup(registry, number));
  }

  /** The graph the worked example builds, one write at a time. */
  lemma ExampleWrites(n1: string, n2: string, p1: Profile, p2: Profile, officer: Officer, psc: Psc)
    requires n1 != n2
    requires p1.companyNumber == Some(n1) && p2.companyNumber == Some(n2)
    requires !officer.isCorporateOfficer && officer.name.Some?
    requires psc.kind == Some(CorporatePscKind) && psc.name.Some? && psc.registrationNumber == Some(n2)
    requires p1.companyName != psc.name
    ensures MergeCompany(EmptyGraph, p1).Some?
    ensures MergeOfficer(MergeCompany(EmptyGraph, p1).value, p1, officer).Some?
    ensures MergePsc(MergeOfficer(MergeCompany(EmptyGraph, p1).value, p1, officer).value, p1, psc).Some?
    ensures MergeCompany(MergePsc(MergeOfficer(MergeCompany(EmptyGraph, p1).value, p1, officer).value, p1, psc).value, p2)
      == Some(ExampleGraph(n1, n2, p1, p2, officer))
  {
    var key := OfficerKey(officer).value;
    var g1 := MergeCompany(EmptyGraph, p1).value;
    assert g1.companies == [ProfileNode(n1, p1)];
    var g2 := MergeOfficer(g1, p1, officer).value;
    assert Matching(g1.companies, Some(n1)) == {0};
    assert g2.hasOfficer == {(0, key)};
    var g3 := MergePsc(g2, p1, psc).value;
    var acme := CompanyNode(Some(n2), psc.name, None, None, None);
    assert g3.companies == [ProfileNode(n1, p1), acme];
    assert Matching(g3.companies, Some(n1)) == {0};
    assert Named(g3.companies, psc.name.value) == {1};
    assert g3.hasCorporatePsc == {(0, 1)};
    var g4 := MergeCompany(g3, p2).value;
    assert g4.companies == [ProfileNode(n1, p1), ProfileNode(n2, p2)];
  }

  /** Two Company nodes, one Officer node, a HAS_OFFICER and a HAS_CORPORATE_PSC edge from node 0. */
  function ExampleGraph(n1: string, n2: string, p1: Profile, p2: Profile, officer: Officer): Graph
    requires officer.name.Some?
  {
    var key := OfficerKey(officer).value;
    Graph([ProfileNode(n1, p1), ProfileNode(n2, p2)],
          map[key := OfficerNode(officer.appointedOn, officer.resignedOn, officer.officerRole)],
          map[], {(0, key)}, {}, {}, {(0, 1)})
  }

  /** A one-item officer list is one officer step. */
  lemma SingleOfficer(registry: Registry, st: Run, main: Profile, officer: Officer)
    requires !st.crashed
    ensures VisitOfficers(registry, st, main, [officer], 0) == OfficerStep(registry, st, main, officer)
  {
    var step := OfficerStep(registry, st, main, officer);
    assert VisitOfficers(registry, st, main, [officer], 0) == VisitOfficers(registry, step, main, [officer], 1);
  }

  /** A one-item PSC list is one PSC step. */
  lemma SinglePsc(registry: Registry, st: Run, main: Profile, psc: Psc)
    requires !st.crashed
    ensures VisitPscs(registry, st, main, [psc], 0) == PscStep(registry, st, main, psc)
  {
    var step := PscStep(registry, st, main, psc);
    assert VisitPscs(registry, st, main, [psc], 0) == VisitPscs(registry, step, main, [psc], 1);
  }

  /** A fresh number with a profile and both lists: the company write, the officer loop, then the PSC loop. */
  lemma FreshWithLists(registry: Registry, st: Run, number: string)
    requires !st.crashed && number !in st.visited
    requires
      var entry := Lookup(registry, number);
      entry.profile.Some? && entry.officers.Some? && entry.pscs.Some?
    ensures
      var entry := Lookup(registry, number);
      var profile := entry.profile.value;
      var written := WriteCompany(Fetch(st, number), profile);
      Visit(registry, st, number)
        == VisitPscs(registry, VisitOfficers(registry, written, profile, entry.officers.value, 0), profile, entry.pscs.value, 0)
  {
    assert Visit(registry, st, number) == Expand(registry, Fetch(st, number), Lookup(registry, number));
  }

  /** The steps the worked example's crawl takes, in order. */
  function ExampleSteps(n1: string, n2: string, p1: Profile, p2: Profile, officer: Officer, psc: Psc): Run
    requires n1 != n2
  {
    var written := WriteCompany(Fetch(Start(EmptyGraph), n1), p1);
    if written.crashed then written
    else
    var officerDone := WriteOfficer(written, p1, officer);
    if officerDone.crashed then officerDone
    else
      var pscDone := WritePsc(officerDone, p1, psc);
      if pscDone.crashed || n2 in pscDone.visited then pscDone
      else WriteCompany(Fetch(pscDone, n2), p2)
  }

  /**
    The control flow of the worked example: the company write, the officer's
    write without recursion, the PSC's write, then the crawl of the PSC's
    number, which only writes that company.
  */
  lemma ExampleFlow(registry: Registry, n1: string, n2: string, p1: Profile, p2: Profile, officer: Officer, psc: Psc)
    requires n1 != n2 && n2 != ""
    requires Lookup(registry, n1) == Entry(Some(p1), Some([officer]), Some([psc]))
    requires Lookup(registry, n2) == Entry(Some(p2), Some([]), Some([]))
    requires !officer.isCorporateOfficer && officer.name.Some?
    requires psc.kind == Some(CorporatePscKind) && psc.registrationNumber == Some(n2)
    requires p1.companyNumber.Some? && psc.name.Some?
    ensures Visit(registry, Start(EmptyGraph), n1) == ExampleSteps(n1, n2, p1, p2, officer, psc)
  {
    FreshWithLists(registry, Start(EmptyGraph), n1);
    var written := WriteCompany(Fetch(Start(EmptyGraph), n1), p1);
    SingleOfficer(registry, written, p1, officer);
    var officerDone := WriteOfficer(written, p1, officer);
    assert OfficerStep(registry, written, p1, officer) == officerDone;
    SinglePsc(registry, officerDone, p1, psc);
    var pscDone := WritePsc(officerDone, p1, psc);
    assert PscStep(registry, officerDone, p1, psc) == Visit(registry, pscDone, n2);
    LeafCompany(registry, pscDone, n2, p2);
  }

  /** The state the worked example's steps reach. */
  lemma ExampleState(n1: string, n2: string, p1: Profile, p2: Profile, officer: Officer, psc: Psc)
    requires n1 != n2
    requires p1.companyNumber == Some(n1) && p2.companyNumber == Some(n2)
    requires !officer.isCorporateOfficer && officer.name.Some?
    requires psc.kind == Some(CorporatePscKind) && psc.name.Some? && psc.registrationNumber == Some(n2)
    requires p1.companyName != psc.name
    ensures
      var r := ExampleSteps(n1, n2, p1, p2, officer, psc);
      && !r.crashed
      && r.visited == {n1, n2}
      && r.graph == ExampleGraph(n1, n2, p1, p2, officer)
  {
    ExampleWrites(n1, n2, p1, p2, officer, psc);
  }

  /**
    A company with one individual officer and one corporate PSC whose own
    company has empty officer and PSC lists. A crawl from a fresh process
    over an empty database leaves two Company nodes, the main one and the
    PSC's, each carrying its own fetched profile; one Officer node with a HAS_OFFICER edge from the
    main company; one HAS_CORPORATE_PSC edge from the main company to the
    PSC's node; and exactly the two numbers visited.
  */
  lemma OfficerAndCorporatePsc(registry: Registry, n1: string, n2: string, p1: Profile, p2: Profile,
                               officer: Officer, psc: Psc)
    requires n1 != n2 && n2 != ""
    requires Lookup(registry, n1) == Entry(Some(p1), Some([officer]), Some([psc]))
    requires Lookup(registry, n2) == Entry(Some(p2), Some([]), Some([]))
    requires p1.companyNumber == Some(n1) && p2.companyNumber == Some(n2)
    requires !officer.isCorporateOfficer && officer.name.Some?
    requires psc.kind == Some(CorporatePscKind) && psc.name.Some? && psc.registrationNumber == Some(n2)
    requires p1.companyName != psc.name
    ensures
      var r := Visit(registry, Start(EmptyGraph), n1);
      && !r.crashed
      && r.visited == {n1, n2}
      && r.graph == ExampleGraph(n1, n2, p1, p2, officer)
  {
    ExampleFlow(registry, n1, n2, p1, p2, officer, psc);
    ExampleState(n1, n2, p1, p2, officer, psc);
  }

  /** The worked example: company 00000001, its director Jane Doe and its corporate PSC Acme Holdings Ltd. */
  lemma JaneDoeAndAcme()
    ensures
      var jane := Officer(Some("Jane Doe"), None, false, None, None, None, Some("director"));
      var r := Visit(ExampleRegistry(), Start(EmptyGraph), "00000001");
      && !r.crashed
      && r.visited == {"00000001", "00000002"}
      && r.graph == ExampleGraph("00000001", "00000002", BareProfile("00000001", "EXAMPLE LTD"),
                                 BareProfile("00000002", "Acme Holdings Ltd"), jane)
      && OfficerKey(jane) == Some(("Jane Doe", "Jane Doe"))
  {
    var jane := Officer(Some("Jane Doe"), None, false, None, None, None, Some("director"));
    OfficerAndCorporatePsc(ExampleRegistry(), "00000001", "00000002",
      BareProfile("00000001", "EXAMPLE LTD"), BareProfile("00000002", "Acme Holdings Ltd"), jane, AcmePsc());
  }

  function AcmePsc(): Psc {
    Psc(Some("Acme Holdings Ltd"), Some(CorporatePscKind), Some("00000002"), None, None, None)
  }

  /** Company 00000001 with director Jane Doe and corporate PSC Acme Holdings Ltd (00000002), which has no officers or PSCs. */
  function ExampleRegistry(): Registry {
    map[
      "00000001" := Entry(Some(BareProfile("00000001", "EXAMPLE LTD")),
                          Some([Officer(Some("Jane Doe"), None, false, None, None, None, Some("director"))]),
                          Some([AcmePsc()])),
      "00000002" := Entry(Some(BareProfile("00000002", "Acme Holdings Ltd")), Some([]), Some([]))]
  }
}
