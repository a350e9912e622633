/**
  The recursive ownership crawl of `store_in_neo4j`: a depth-first,
  pre-order traversal over company numbers that writes each company, its
  officers and its PSCs to the graph and recurses into every corporate
  officer or PSC that carries a registration number. The set of visited
  numbers makes each number processed at most once and breaks ownership
  cycles.

  `Visit` and its companions are the specification: one run of the crawl as a
  function from the state before a call to the state after it. The class
  `Crawler` is the crawl itself, a recursive method over mutable state, proved
  to end in the state `Visit` gives.

  A write whose `MERGE` key is null raises in the database, and the exception
  ends the whole run; a `crashed` run state (in the methods, a false `ok`)
  stands for that exception on its way out.
*/
module Crawl {
  import opened Wrappers
  import opened Records
  import opened Store

  /** What one run does that can be observed from outside, in order. */
  datatype Event =
    | Skipped(number: string)           // the "already processed" notice
    | FetchedCompany(number: string)
    | FetchedOfficers(number: string)
    | FetchedPscs(number: string)
    | WroteCompany(profile: Profile)    // one write transaction each
    | WroteOfficer(main: Profile, officer: Officer)
    | WrotePsc(main: Profile, psc: Psc)
  {
    predicate IsFetch() {
      FetchedCompany? || FetchedOfficers? || FetchedPscs?
    }
  }

  /** A call of the crawl on `number` begins with the skip notice or with the first fetch. */
  predicate Enters(e: Event, number: string) {
    e == Skipped(number) || e == FetchedCompany(number)
  }

  /** The state a run threads through its calls. */
  datatype Run = Run(visited: set<string>, graph: Graph, trace: seq<Event>, crashed: bool)

  /**
    A fresh process: nothing visited and nothing done yet. The graph is the
    database as earlier runs left it; only the visited set is per process.
  */
  function Start(database: Graph): (r: Run)
    ensures r.visited == {} && r.trace == [] && !r.crashed && r.graph == database
  {
    Run({}, database, [], false)
  }

  /** Every fetch so far was of a visited number, and no fetch was made twice. */
  ghost predicate FetchLog(st: Run) {
    && (forall i :: 0 <= i < |st.trace| && st.trace[i].IsFetch() ==> st.trace[i].number in st.visited)
    && (forall i, j :: 0 <= i < j < |st.trace| && st.trace[i].IsFetch() ==> st.trace[i] != st.trace[j])
  }

  ghost predicate Invariant(st: Run) {
    FetchLog(st) && WellFormed(st.graph)
  }

  /**
    A later state of the same run: nothing leaves the visited set, the trace
    only gets longer, the graph only grows, and after a crash nothing happens.
  */
  ghost predicate Extends(st: Run, r: Run) {
    && st.visited <= r.visited
    && st.trace <= r.trace
    && Grows(st.graph, r.graph)
    && (st.crashed ==> r == st)
  }

  /** The numbers whose profile the registry has: the only ones whose call goes past the fetches. */
  function Profiled(registry: Registry): set<string> {
    set number | number in registry && registry[number].profile.Some?
  }

  /** The termination measure: numbers that could still be expanded. */
  function Unexplored(registry: Registry, visited: set<string>): nat {
    |Profiled(registry) - visited|
  }

  lemma UnexploredShrinks(registry: Registry, visited: set<string>, visited': set<string>)
    requires visited <= visited'
    ensures Unexplored(registry, visited') <= Unexplored(registry, visited)
  {
    var before := Profiled(registry) - visited;
    var after := Profiled(registry) - visited';
    assert before == after + (before - after);
  }

  lemma UnexploredDrops(registry: Registry, visited: set<string>, number: string)
    requires number in Profiled(registry) && number !in visited
    ensures Unexplored(registry, visited + {number}) < Unexplored(registry, visited)
  {
    assert Profiled(registry) - visited == (Profiled(registry) - (visited + {number})) + {number};
  }

  lemma ExtendsTransitive(a: Run, b: Run, c: Run)
    requires Extends(a, b) && Extends(b, c)
    ensures Extends(a, c)
  {
  }

  /** Appending events that are not fetches keeps the fetch log. */
  lemma AppendKeepsLog(st: Run, events: seq<Event>)
    requires FetchLog(st)
    requires forall k :: 0 <= k < |events| ==> !events[k].IsFetch()
    ensures FetchLog(st.(trace := st.trace + events))
  {
    var t := st.trace + events;
    forall i, j | 0 <= i < j < |t| && t[i].IsFetch() ensures t[i] != t[j] {
      if j >= |st.trace| {
        assert !t[j].IsFetch();
      }
    }
  }

  /** The skip notice for a number already visited. */
  function Skip(st: Run, number: string): (r: Run)
    requires !st.crashed
    ensures Extends(st, r)
    ensures Invariant(st) ==> Invariant(r)
    ensures r.visited == st.visited && r.graph == st.graph && r.trace == st.trace + [Skipped(number)]
    ensures !r.crashed
  {
    var r := st.(trace := st.trace + [Skipped(number)]);
    assert Invariant(st) ==> Invariant(r) by {
      if Invariant(st) { AppendKeepsLog(st, [Skipped(number)]); }
    }
    r
  }

  /** Mark the number visited, then fetch its profile, its officers and its PSCs. */
  function Fetch(st: Run, number: string): (r: Run)
    requires number !in st.visited
    ensures !st.crashed ==> Extends(st, r)
    ensures Invariant(st) ==> Invariant(r)
    ensures r.visited == st.visited + {number} && r.graph == st.graph && r.crashed == st.crashed
    ensures r.trace == st.trace + [FetchedCompany(number), FetchedOfficers(number), FetchedPscs(number)]
  {
    var r := st.(visited := st.visited + {number},
                 trace := st.trace + [FetchedCompany(number), FetchedOfficers(number), FetchedPscs(number)]);
    assert Invariant(st) ==> Invariant(r) by {
      if Invariant(st) {
        var t := r.trace;
        forall i, j | 0 <= i < j < |t| && t[i].IsFetch() ensures t[i] != t[j] {
          if j >= |st.trace| && i < |st.trace| {
            assert t[i].number in st.visited;
          }
        }
      }
    }
    r
  }

  /** `session.write_transaction(create_company_node, ...)`. */
  function WriteCompany(st: Run, profile: Profile): (r: Run)
    requires !st.crashed
    ensures r.visited == st.visited && r.trace == st.trace + [WroteCompany(profile)]
    ensures r.crashed <==> MergeCompany(st.graph, profile).None?
    ensures r.graph == if r.crashed then st.graph else MergeCompany(st.graph, profile).value
    ensures Extends(st, r)
    ensures Invariant(st) ==> Invariant(r)
  {
    var logged := st.(trace := st.trace + [WroteCompany(profile)]);
    assert Invariant(st) ==> FetchLog(logged) by {
      if Invariant(st) { AppendKeepsLog(st, [WroteCompany(profile)]); }
    }
    match MergeCompany(st.graph, profile)
    case Some(g) => logged.(graph := g)
    case None => logged.(crashed := true)
  }

  /** `session.write_transaction(create_officer_or_corporate_officer, ...)`. */
  function WriteOfficer(st: Run, main: Profile, officer: Officer): (r: Run)
    requires !st.crashed
    ensures r.visited == st.visited && r.trace == st.trace + [WroteOfficer(main, officer)]
    ensures r.crashed <==> MergeOfficer(st.graph, main, officer).None?
    ensures r.graph == if r.crashed then st.graph else MergeOfficer(st.graph, main, officer).value
    ensures Extends(st, r)
    ensures Invariant(st) ==> Invariant(r)
  {
    var logged := st.(trace := st.trace + [WroteOfficer(main, officer)]);
    assert Invariant(st) ==> FetchLog(logged) by {
      if Invariant(st) { AppendKeepsLog(st, [WroteOfficer(main, officer)]); }
    }
    match MergeOfficer(st.graph, main, officer)
    case Some(g) => logged.(graph := g)
    case None => logged.(crashed := true)
  }

  /** `session.write_transaction(create_psc_node_and_relationship, ...)`. */
  function WritePsc(st: Run, main: Profile, psc: Psc): (r: Run)
    requires !st.crashed
    ensures r.visited == st.visited && r.trace == st.trace + [WrotePsc(main, psc)]
    ensures r.crashed <==> MergePsc(st.graph, main, psc).None?
    ensures r.graph == if r.crashed then st.graph else MergePsc(st.graph, main, psc).value
    ensures Extends(st, r)
    ensures Invariant(st) ==> Invariant(r)
  {
    var logged := st.(trace := st.trace + [WrotePsc(main, psc)]);
    assert Invariant(st) ==> FetchLog(logged) by {
      if Invariant(st) { AppendKeepsLog(st, [WrotePsc(main, psc)]); }
    }
    match MergePsc(st.graph, main, psc)
    case Some(g) => logged.(graph := g)
    case None => logged.(crashed := true)
  }

  /**
    One call of the crawl on `number`. A visited number only gets the skip
    notice. A fresh one is marked visited, then fetched three times; without
    a profile that is all. With one, the call goes on as `Expand`.
  */
  function Visit(registry: Registry, st: Run, number: string): (r: Run)
    decreases Unexplored(registry, st.visited), 0, 0
    ensures Extends(st, r)
    ensures Invariant(st) ==> Invariant(r)
    ensures !st.crashed ==> number in r.visited && |r.trace| > |st.trace| && Enters(r.trace[|st.trace|], number)
  {
    if st.crashed then st
    else if number in st.visited then Skip(st, number)
    else
      var fetched := Fetch(st, number);
      var entry := Lookup(registry, number);
      if entry.profile.None? then fetched
      else
        UnexploredDrops(registry, st.visited, number);
        var r := Expand(registry, fetched, entry);
        ExtendsTransitive(st, fetched, r);
        r
  }

  /** After the fetches of a number with a profile: the company is written, then its officers and PSCs are handled. */
  function Expand(registry: Registry, fetched: Run, entry: Entry): (r: Run)
    requires !fetched.crashed && entry.profile.Some?
    decreases Unexplored(registry, fetched.visited), 5, 0
    ensures Extends(fetched, r)
    ensures Invariant(fetched) ==> Invariant(r)
    ensures |r.trace| > |fetched.trace| && r.trace[|fetched.trace|] == WroteCompany(entry.profile.value)
  {
    var written := WriteCompany(fetched, entry.profile.value);
    var r := AfterCompany(registry, written, entry.profile.value, entry);
    ExtendsTransitive(fetched, written, r);
    r
  }

  /** After the company write: each officer in turn, then each PSC in turn. */
  function AfterCompany(registry: Registry, written: Run, profile: Profile, entry: Entry): (r: Run)
    decreases Unexplored(registry, written.visited), 4, 0
    ensures Extends(written, r)
    ensures Invariant(written) ==> Invariant(r)
  {
    var afterOfficers := Officers(registry, written, profile, entry.officers);
    UnexploredShrinks(registry, written.visited, afterOfficers.visited);
    var afterPscs := Pscs(registry, afterOfficers, profile, entry.pscs);
    ExtendsTransitive(written, afterOfficers, afterPscs);
    afterPscs
  }

  /** The officer loop, run only when the officer list was fetched with its `items`. */
  function Officers(registry: Registry, st: Run, main: Profile, officers: Option<seq<Officer>>): (r: Run)
    decreases Unexplored(registry, st.visited), 3, 0
    ensures officers.None? ==> r == st
    ensures officers.Some? ==> r == VisitOfficers(registry, st, main, officers.value, 0)
  {
    match officers
    case None => st
    case Some(items) => VisitOfficers(registry, st, main, items, 0)
  }

  /** The PSC loop, run only when the PSC list was fetched with its `items`. */
  function Pscs(registry: Registry, st: Run, main: Profile, pscs: Option<seq<Psc>>): (r: Run)
    decreases Unexplored(registry, st.visited), 3, 0
    ensures pscs.None? ==> r == st
    ensures pscs.Some? ==> r == VisitPscs(registry, st, main, pscs.value, 0)
  {
    match pscs
    case None => st
    case Some(items) => VisitPscs(registry, st, main, items, 0)
  }

  /** One officer: its write, then, for a corporate officer with a number, the whole call on that number. */
  function OfficerStep(registry: Registry, st: Run, main: Profile, officer: Officer): (r: Run)
    requires !st.crashed
    decreases Unexplored(registry, st.visited), 1, 0
    ensures Extends(st, r)
    ensures Invariant(st) ==> Invariant(r)
    ensures |r.trace| > |st.trace| && r.trace[|st.trace|] == WroteOfficer(main, officer)
  {
    var written := WriteOfficer(st, main, officer);
    if written.crashed then written
    else match CorporateOfficerNumber(officer)
      case None => written
      case Some(number) =>
        var visited := Visit(registry, written, number);
        ExtendsTransitive(st, written, visited);
        visited
  }

  /** The officer loop, from item `i` on. */
  function VisitOfficers(registry: Registry, st: Run, main: Profile, items: seq<Officer>, i: nat): (r: Run)
    requires i <= |items|
    decreases Unexplored(registry, st.visited), 2, |items| - i
    ensures Extends(st, r)
    ensures Invariant(st) ==> Invariant(r)
    ensures i == |items| ==> r == st
    ensures !st.crashed && i < |items| ==> |r.trace| > |st.trace| && r.trace[|st.trace|] == WroteOfficer(main, items[i])
  {
    if st.crashed || i == |items| then st
    else
      var next := OfficerStep(registry, st, main, items[i]);
      UnexploredShrinks(registry, st.visited, next.visited);
      var rest := VisitOfficers(registry, next, main, items, i + 1);
      ExtendsTransitive(st, next, rest);
      rest
  }

  /** One PSC: its write, then, for a corporate PSC with a number, the whole call on that number. */
  function PscStep(registry: Registry, st: Run, main: Profile, psc: Psc): (r: Run)
    requires !st.crashed
    decreases Unexplored(registry, st.visited), 1, 0
    ensures Extends(st, r)
    ensures Invariant(st) ==> Invariant(r)
    ensures |r.trace| > |st.trace| && r.trace[|st.trace|] == WrotePsc(main, psc)
  {
    var written := WritePsc(st, main, psc);
    if written.crashed then written
    else match CorporatePscNumber(psc)
      case None => written
      case Some(number) =>
        var visited := Visit(registry, written, number);
        ExtendsTransitive(st, written, visited);
        visited
  }

  /** The PSC loop, from item `i` on. */
  function VisitPscs(registry: Registry, st: Run, main: Profile, items: seq<Psc>, i: nat): (r: Run)
    requires i <= |items|
    decreases Unexplored(registry, st.visited), 2, |items| - i
    ensures Extends(st, r)
    ensures Invariant(st) ==> Invariant(r)
    ensures i == |items| ==> r == st
    ensures !st.crashed && i < |items| ==> |r.trace| > |st.trace| && r.trace[|st.trace|] == WrotePsc(main, items[i])
  {
    if st.crashed || i == |items| then st
    else
      var next := PscStep(registry, st, main, items[i]);
      UnexploredShrinks(registry, st.visited, next.visited);
      var rest := VisitPscs(registry, next, main, items, i + 1);
      ExtendsTransitive(st, next, rest);
      rest
  }

  /**
    The crawl as the source runs it: the visited set and the graph are
    updated in place, and `StoreInNeo4j` recurses. A false `ok` is the
    database exception that ends the run.
  */
  class Crawler {
    const registry: Registry
    var visited: set<string>
    var graph: Graph
    // what the run has done so far, for the specification only
    ghost var trace: seq<Event>

    ghost function Snapshot(crashed: bool): Run
      reads this
    {
      Run(visited, graph, trace, crashed)
    }

    /** A fresh process over the database as it stands: the module-level visited set starts empty. */
    constructor (registry: Registry, database: Graph)
      ensures this.registry == registry && Snapshot(false) == Start(database)
    {
      this.registry := registry;
      visited := {};
      graph := database;
      trace := [];
    }

    method CreateCompanyNode(companyData: Profile) returns (ok: bool)
      modifies this`graph
      ensures ok <==> MergeCompany(old(graph), companyData).Some?
      ensures graph == if ok then MergeCompany(old(graph), companyData).value else old(graph)
    {
      var merged := MergeCompany(graph, companyData);
      ok := merged.Some?;
      if ok {
        graph := merged.value;
      }
    }

    method CreateOfficerOrCorporateOfficer(companyData: Profile, officerData: Officer) returns (ok: bool)
      modifies this`graph
      ensures ok <==> MergeOfficer(old(graph), companyData, officerData).Some?
      ensures graph == if ok then MergeOfficer(old(graph), companyData, officerData).value else old(graph)
    {
      var merged := MergeOfficer(graph, companyData, officerData);
      ok := merged.Some?;
      if ok {
        graph := merged.value;
      }
    }

    method CreatePscNodeAndRelationship(companyData: Profile, pscData: Psc) returns (ok: bool)
      modifies this`graph
      ensures ok <==> MergePsc(old(graph), companyData, pscData).Some?
      ensures graph == if ok then MergePsc(old(graph), companyData, pscData).value else old(graph)
    {
      var merged := MergePsc(graph, companyData, pscData);
      ok := merged.Some?;
      if ok {
        graph := merged.value;
      }
    }

    /** `store_in_neo4j`: ends in the state `Visit` gives for the state it started in. */
    method StoreInNeo4j(companyNumber: string) returns (ok: bool)
      modifies this
      decreases Unexplored(registry, visited), 0
      ensures Snapshot(!ok) == Visit(registry, old(Snapshot(false)), companyNumber)
    {
      if companyNumber in visited {
        trace := trace + [Skipped(companyNumber)];
        return true;
      }
      visited := visited + {companyNumber};
      var entry := Lookup(registry, companyNumber);
      trace := trace + [FetchedCompany(companyNumber), FetchedOfficers(companyNumber), FetchedPscs(companyNumber)];
      if entry.profile.None? {
        return true;
      }
      var companyData := entry.profile.value;
      trace := trace + [WroteCompany(companyData)];
      ok := CreateCompanyNode(companyData);
      if !ok {
        return;
      }
      UnexploredDrops(registry, old(visited), companyNumber);
      ok := StoreAfterCompany(companyData, entry);
    }

    /** The rest of `store_in_neo4j` once the company is written: its officers, then its PSCs. */
    method StoreAfterCompany(companyData: Profile, entry: Entry) returns (ok: bool)
      modifies this
      decreases Unexplored(registry, visited), 4
      ensures Snapshot(!ok) == AfterCompany(registry, old(Snapshot(false)), companyData, entry)
    {
      if entry.officers.Some? {
        ok := StoreOfficers(companyData, entry.officers.value);
        if !ok {
          return;
        }
      }
      UnexploredShrinks(registry, old(visited), visited);
      ok := true;
      if entry.pscs.Some? {
        ok := StorePscs(companyData, entry.pscs.value);
      }
    }

    /** The officer loop of `store_in_neo4j`: each officer is written, and a corporate one with a number is crawled, in list order. */
    method StoreOfficers(companyData: Profile, items: seq<Officer>) returns (ok: bool)
      modifies this
      decreases Unexplored(registry, visited), 2
      ensures Snapshot(!ok) == VisitOfficers(registry, old(Snapshot(false)), companyData, items, 0)
    {
      for i := 0 to |items|
        invariant VisitOfficers(registry, old(Snapshot(false)), companyData, items, 0)
               == VisitOfficers(registry, Snapshot(false), companyData, items, i)
        invariant old(visited) <= visited
      {
        UnexploredShrinks(registry, old(visited), visited);
        ok := StoreOfficer(companyData, items[i]);
        if !ok {
          return;
        }
      }
      return true;
    }

    /** One pass of the officer loop: the officer's write, then the crawl of its number when it is a corporate officer with one. */
    method StoreOfficer(companyData: Profile, officer: Officer) returns (ok: bool)
      modifies this
      decreases Unexplored(registry, visited), 1
      ensures Snapshot(!ok) == OfficerStep(registry, old(Snapshot(false)), companyData, officer)
    {
      trace := trace + [WroteOfficer(companyData, officer)];
      ok := CreateOfficerOrCorporateOfficer(companyData, officer);
      assert Snapshot(!ok) == WriteOfficer(old(Snapshot(false)), companyData, officer);
      if !ok {
        return;
      }
      var corporateNumber := CorporateOfficerNumber(officer);
      if corporateNumber.Some? {
        ok := StoreInNeo4j(corporateNumber.value);
      }
    }

    /** The PSC loop of `store_in_neo4j`: the same for the PSCs, after all officers. */
    method StorePscs(companyData: Profile, items: seq<Psc>) returns (ok: bool)
      modifies this
      decreases Unexplored(registry, visited), 2
      ensures Snapshot(!ok) == VisitPscs(registry, old(Snapshot(false)), companyData, items, 0)
    {
      for i := 0 to |items|
        invariant VisitPscs(registry, old(Snapshot(false)), companyData, items, 0)
               == VisitPscs(registry, Snapshot(false), companyData, items, i)
        invariant old(visited) <= visited
      {
        UnexploredShrinks(registry, old(visited), visited);
        ok := StorePsc(companyData, items[i]);
        if !ok {
          return;
        }
      }
      return true;
    }

    /** One pass of the PSC loop: the PSC's write, then the crawl of its number when it is a corporate PSC with one. */
    method StorePsc(companyData: Profile, psc: Psc) returns (ok: bool)
      modifies this
      decreases Unexplored(registry, visited), 1
      ensures Snapshot(!ok) == PscStep(registry, old(Snapshot(false)), companyData, psc)
    {
      trace := trace + [WrotePsc(companyData, psc)];
      ok := CreatePscNodeAndRelationship(companyData, psc);
      assert Snapshot(!ok) == WritePsc(old(Snapshot(false)), companyData, psc);
      if !ok {
        return;
      }
      var corporateNumber := CorporatePscNumber(psc);
      if corporateNumber.Some? {
        ok := StoreInNeo4j(corporateNumber.value);
      }
    }
  }
}
