/** What one run of the crawl guarantees, stated on the specification in module Crawl. */
module CrawlFacts {
  import opened Wrappers
  import opened Records
  import opened Store
  import opened Crawl

  /**
    A call on a number already visited fetches nothing, writes nothing and
    recurses nowhere: it leaves the visited set and the graph as they were
    and only adds the skip notice.
  */
  lemma VisitedIsSkipped(registry: Registry, st: Run, number: string)
    requires !st.crashed && number in st.visited
    ensures
      var r := Visit(registry, st, number);
      && r.visited == st.visited
      && r.graph == st.graph
      && r.trace == st.trace + [Skipped(number)]
      && !r.crashed
  {
  }

  /**
    A fresh number whose profile is missing is still marked visited and
    fetched three times, and that is all: nothing is written and nothing is
    crawled, even when its officer or PSC list was fetched.
  */
  lemma MissingProfileWritesNothing(registry: Registry, st: Run, number: string)
    requires !st.crashed && number !in st.visited
    requires Lookup(registry, number).profile.None?
    ensures
      var r := Visit(registry, st, number);
      && r.visited == st.visited + {number}
      && r.graph == st.graph
      && r.trace == st.trace + [FetchedCompany(number), FetchedOfficers(number), FetchedPscs(number)]
      && !r.crashed
  {
  }

  /**
    A number, once called on, stays visited for the rest of the run: any
    later call on it, from any later state of the run, is only skipped; in
    particular a number whose profile fetch failed is never fetched again.
  */
  lemma NeverRetried(registry: Registry, st: Run, number: string, later: Run)
    requires !st.crashed && !later.crashed
    requires Extends(Visit(registry, st, number), later)
    ensures Visit(registry, later, number) == later.(trace := later.trace + [Skipped(number)])
  {
    assert number in later.visited;
  }

  /**
    A fresh number with a profile: the number is fetched three times, and
    the company write comes next, before any officer or PSC write and any
    recursion.
  */
  lemma CompanyWrittenFirst(registry: Registry, st: Run, number: string)
    requires !st.crashed && number !in st.visited
    requires Lookup(registry, number).profile.Some?
    ensures
      var r := Visit(registry, st, number);
      var n := |st.trace|;
      && |r.trace| >= n + 4
      && r.trace[n..n + 4] == [FetchedCompany(number), FetchedOfficers(number), FetchedPscs(number),
                               WroteCompany(Lookup(registry, number).profile.value)]
  {
    var profile := Lookup(registry, number).profile.value;
    var written := WriteCompany(Fetch(st, number), profile);
    var r := Visit(registry, st, number);
    assert r == Expand(registry, Fetch(st, number), Lookup(registry, number));
    assert Extends(written, r);
    assert written.trace <= r.trace;
    assert r.trace[..|written.trace|] == written.trace;
    assert r.trace[|st.trace|..|st.trace| + 4] == written.trace[|st.trace|..];
  }

  /**
    In the officer loop of `store_in_neo4j`: after an officer's write, the crawl recurses exactly when
    the officer is corporate and has a truthy registration number; the
    recursive call's first event comes right after the write. A write that
    fails ends the run there.
  */
  lemma OfficerRecursesIffCorporate(registry: Registry, st: Run, main: Profile, officer: Officer)
    requires !st.crashed
    ensures
      var r := OfficerStep(registry, st, main, officer);
      var n := |st.trace|;
      && r.trace[n] == WroteOfficer(main, officer)
      && (MergeOfficer(st.graph, main, officer).None? ==> r.crashed && |r.trace| == n + 1)
      && (MergeOfficer(st.graph, main, officer).Some? ==>
            && (|r.trace| > n + 1 <==> officer.isCorporateOfficer && Truthy(officer.registrationNumber))
            && (|r.trace| > n + 1 ==> Enters(r.trace[n + 1], officer.registrationNumber.value)))
  {
  }

  /** In the PSC loop, the same rule for a PSC, whose corporate test is its `kind`. */
  lemma PscRecursesIffCorporate(registry: Registry, st: Run, main: Profile, psc: Psc)
    requires !st.crashed
    ensures
      var r := PscStep(registry, st, main, psc);
      var n := |st.trace|;
      && r.trace[n] == WrotePsc(main, psc)
      && (MergePsc(st.graph, main, psc).None? ==> r.crashed && |r.trace| == n + 1)
      && (MergePsc(st.graph, main, psc).Some? ==>
            && (|r.trace| > n + 1 <==> psc.kind == Some(CorporatePscKind) && Truthy(psc.registrationNumber))
            && (|r.trace| > n + 1 ==> Enters(r.trace[n + 1], psc.registrationNumber.value)))
  {
  }

  /**
    Depth first: the write of officer i and the whole recursive call it may
    start are finished before officer i + 1 is written.
  */
  lemma NextOfficerAfterRecursion(registry: Registry, st: Run, main: Profile, items: seq<Officer>, i: nat)
    requires i + 1 < |items|
    requires !st.crashed && !OfficerStep(registry, st, main, items[i]).crashed
    ensures
      var step := OfficerStep(registry, st, main, items[i]);
      var r := VisitOfficers(registry, st, main, items, i);
      && step.trace <= r.trace
      && |r.trace| > |step.trace|
      && r.trace[|step.trace|] == WroteOfficer(main, items[i + 1])
  {
    var step := OfficerStep(registry, st, main, items[i]);
    var next := OfficerStep(registry, step, main, items[i + 1]);
    var r := VisitOfficers(registry, st, main, items, i);
    assert r == VisitOfficers(registry, step, main, items, i + 1);
    assert Extends(next, r);
    assert next.trace <= r.trace;
    assert r.trace[|step.trace|] == next.trace[|step.trace|];
  }

  /** The same for PSCs. */
  lemma NextPscAfterRecursion(registry: Registry, st: Run, main: Profile, items: seq<Psc>, i: nat)
    requires i + 1 < |items|
    requires !st.crashed && !PscStep(registry, st, main, items[i]).crashed
    ensures
      var step := PscStep(registry, st, main, items[i]);
      var r := VisitPscs(registry, st, main, items, i);
      && step.trace <= r.trace
      && |r.trace| > |step.trace|
      && r.trace[|step.trace|] == WrotePsc(main, items[i + 1])
  {
    var step := PscStep(registry, st, main, items[i]);
    var next := PscStep(registry, step, main, items[i + 1]);
    var r := VisitPscs(registry, st, main, items, i);
    assert r == VisitPscs(registry, step, main, items, i + 1);
    assert Extends(next, r);
    assert next.trace <= r.trace;
    assert r.trace[|step.trace|] == next.trace[|step.trace|];
  }

  /**
    All officers before any PSC: the whole officer loop, recursion included,
    is a prefix of the call's trace, and the first PSC write comes right
    after it.
  */
  lemma PscsAfterOfficers(registry: Registry, st: Run, number: string)
    requires !st.crashed && number !in st.visited
    requires
      var entry := Lookup(registry, number);
      entry.profile.Some? && entry.officers.Some? && entry.pscs.Some? && |entry.pscs.value| > 0
    requires
      var entry := Lookup(registry, number);
      var written := WriteCompany(Fetch(st, number), entry.profile.value);
      !VisitOfficers(registry, written, entry.profile.value, entry.officers.value, 0).crashed
    ensures
      var entry := Lookup(registry, number);
      var written := WriteCompany(Fetch(st, number), entry.profile.value);
      var officers := VisitOfficers(registry, written, entry.profile.value, entry.officers.value, 0);
      var r := Visit(registry, st, number);
      && officers.trace <= r.trace
      && |r.trace| > |officers.trace|
      && r.trace[|officers.trace|] == WrotePsc(entry.profile.value, entry.pscs.value[0])
  {
    var entry := Lookup(registry, number);
    var profile := entry.profile.value;
    var written := WriteCompany(Fetch(st, number), profile);
    var officers := VisitOfficers(registry, written, profile, entry.officers.value, 0);
    var r := Visit(registry, st, number);
    assert r == Expand(registry, Fetch(st, number), entry);
    assert r == AfterCompany(registry, written, profile, entry);
    assert Officers(registry, written, profile, entry.officers) == officers;
    assert r == Pscs(registry, officers, profile, entry.pscs);
    assert r == VisitPscs(registry, officers, profile, entry.pscs.value, 0);
  }

  /**
    In a whole run from a fresh process, over the database as earlier runs
    left it, each fetch is made at most once (so each company number is
    fetched at most once), every fetched number is in the visited set, and
    every edge still joins existing nodes. A graph database never holds an
    edge without both its nodes, so the requirement excludes no database.
  */
  lemma EachNumberFetchedAtMostOnce(registry: Registry, database: Graph, number: string)
    requires WellFormed(database)
    ensures
      var r := Visit(registry, Start(database), number);
      && (forall i, j :: 0 <= i < j < |r.trace| && r.trace[i].IsFetch() ==> r.trace[i] != r.trace[j])
      && (forall i :: 0 <= i < |r.trace| && r.trace[i].IsFetch() ==> r.trace[i].number in r.visited)
      && WellFormed(r.graph)
  {
    assert Invariant(Start(database));
  }
}
