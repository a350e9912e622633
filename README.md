# Companies House ownership crawl, modelled in Dafny

The system fetches a UK company's profile, its officers and its persons with
significant control (PSCs) from the Companies House registry and writes them
into a Neo4j graph. Every corporate officer or corporate PSC is itself a
company, and the crawl recurses into it by its registration number. A
process-wide set of visited company numbers makes each number processed at
most once. It also breaks ownership cycles such as A -> B -> A.

This project models that crawl (`store_in_neo4j` in `src/graph.py`) and its
three write transactions (`create_company_node`,
`create_officer_or_corporate_officer`, `create_psc_node_and_relationship`).

- `records.dfy` (module `Records`) covers the registry records as the crawl
  reads them. It also holds the pure parameter extraction:
  - the corporate/individual tests
  - the nested registration number
  - the `officer_id` fallback to the name
  - the `", "`-join of the registered office address
- `store.dfy` (module `Store`) is the graph and the effect of each Cypher
  `MERGE ... SET ... MATCH ... MERGE` write.
  - Company nodes are a sequence, where a node's position is its identity.
    Neither `company_number` nor `name` is unique, so `MERGE`/`MATCH` act on
    every matching node.
  - Officer and Individual nodes are maps from their merge-key pair.
  - Each of the four relationship kinds is a set of edges.
  - A `MERGE` on a null key fails.

  Module `StoreFacts` holds idempotence and the edge rules.
- `crawl.dfy` (module `Crawl`):
  - `Visit` / `Expand` / `AfterCompany` / `OfficerStep` / `VisitOfficers` /
    `PscStep` / `VisitPscs` are
    the specification. They give one call of the crawl as a function of the
    run state: visited set, graph, trace of observable events, and whether a
    write has failed.
  - Class `Crawler` is the crawl as the source runs it. It has a mutable
    visited set and graph, and a recursive `StoreInNeo4j` with `for` loops
    over the officers and PSCs, proved to end in the state `Visit` gives.
  - Termination is by the number of registry numbers that have a profile and
    are not yet visited, then the position in the loops.
- `crawl_facts.dfy` (module `CrawlFacts`) covers the skip rule, the
  recursion rule, the pre-order ordering and at-most-once fetching.
- `scenarios.dfy` (module `Scenarios`) works out two runs:
  - the A -> B -> A cycle
  - a company with an individual director and a corporate PSC

The registry is an abstract map from company number to what the three HTTP
fetches return. A failed fetch, a falsy profile and an officer/PSC body
without `items` are all `None`.

A write whose `MERGE` key property is null raises in the database. Nothing
catches the exception, so it ends the whole run. The model carries that as
a `crashed` run state; in the methods it is a false `ok`.

The graph is the persistent database: a new process starts with an empty
visited set, but with every node and edge that earlier runs wrote.

The graph node for the main company is matched by the `company_number` field
of the fetched profile, not by the number the crawl was called on, as the
code does.

## Model

| member | source | states |
|---|---|---|
| Records.CorporateOfficerNumber | src/graph.py:36-40 | an officer yields a number to recurse on iff `is_corporate_officer` is truthy and the nested registration number is present and non-empty; the number is that registration number |
| Records.CorporatePscNumber | src/graph.py:50-57 | a PSC yields a number iff its kind is the corporate PSC kind and its registration number is present and non-empty |
| Records.OfficerId | src/graph.py:115-117 | the officer id merge parameter is the record's id when present, its name otherwise |
| Records.Join | src/graph.py:77 | an empty value list joins to the empty string; a non-empty one starts with its first value |
| Records.Address | src/graph.py:77 | the address of a profile without address values is empty; otherwise every value sits, unchanged, at its offset in the address |
| Records.JoinLayout | src/graph.py:77 | for a non-empty value list, the `", "`-join places every address value at its offset, in order, with the separator between consecutive values and nothing after the last (the empty list is `Join`'s own contract) |
| Records.JoinPart | src/graph.py:77 | every address value appears, unchanged, at its offset in the joined address |
| Records.JoinSeparator | src/graph.py:77 | the `", "` separator sits between each value and the next |
| Records.JoinLast | src/graph.py:77 | the last address value ends the joined address |
| Records.Lookup | src/graph.py:17-19 | a number absent from the registry fails all three fetches; a present one returns its record |
| Store.MergeCompany | src/graph.py:63-79 | upsert keyed by `company_number`: fails iff the number is null; afterwards a node with the number exists and every such node has exactly the profile's name, status, joined address and creation date; a node is added only when none had the number; nothing else changes |
| Store.MergeCompanyNodes | src/graph.py:66-70 | the node-level `MERGE ... SET`: adds one node iff none had the number; every node with the number gets the profile's properties; other nodes are unchanged |
| Store.UpsertByName | src/graph.py:87-88 | `MERGE` on `name` then `SET company_number`: adds one node iff none had the name, and that node has only the name and the registration number; every node with the name gets the registration number; no other property of any node changes, and other nodes are unchanged |
| Store.MergeCorporateOfficer | src/graph.py:84-100 | fails iff the officer's name is null; the Company node named like the officer is upserted with the registration number (one node added, with only name and number, iff none had the name; other nodes unchanged; no other property changes); HAS_CORPORATE_OFFICER edges go from exactly the nodes with the main number to the named nodes; nothing else changes |
| Store.OfficerKey | src/graph.py:104-117 | the Officer merge key is (name, officer id), the id falling back to the name; it exists iff the name is present |
| Store.MergeIndividualOfficer | src/graph.py:101-122 | fails iff the key is null; the Officer node under (name, officer id) gets the dates and role; other Officer nodes are unchanged; HAS_OFFICER edges go from exactly the nodes with the main number |
| Store.MergeOfficer | src/graph.py:82-122 | the branch is chosen by `is_corporate_officer`; a write never removes a node or an edge and keeps every edge between existing nodes |
| Store.MergeCorporatePsc | src/graph.py:127-143 | as for a corporate officer, with HAS_CORPORATE_PSC |
| Store.PscKey | src/graph.py:147-157 | the Individual merge key is (name, `links.self`), present iff both are |
| Store.MergeIndividualPsc | src/graph.py:144-161 | fails iff the key is null; the Individual node gets the notified and ceased dates; HAS_PSC edges go from exactly the nodes with the main number |
| Store.MergePsc | src/graph.py:125-161 | the branch is chosen by `kind`; a write never removes a node or an edge and keeps every edge between existing nodes |
| StoreFacts.MergeCompanyIdempotent | src/graph.py:63-79 | merging the same profile twice equals merging it once; from a graph without the number, exactly one node carries it |
| StoreFacts.MergeOfficerIdempotent | src/graph.py:82-122 | writing the same officer record twice equals writing it once |
| StoreFacts.MergePscIdempotent | src/graph.py:125-161 | writing the same PSC record twice equals writing it once |
| StoreFacts.CorporateOfficerEdgeNeedsMain | src/graph.py:87-91 | the corporate officer's Company node is upserted even when the main company is absent; the edge is added only from nodes with the main number, and then to every named node |
| StoreFacts.CorporatePscEdgeNeedsMain | src/graph.py:130-134 | the same for a corporate PSC |
| StoreFacts.IndividualOfficerKeyed | src/graph.py:104-117 | an individual officer's node exists under (name, id or name); the edge is added only from nodes with the main number |
| Crawl.Skip | src/graph.py:11-13 | the skip notice changes neither the visited set nor the graph, and does not end the run |
| Crawl.Fetch | src/graph.py:15-19 | the number is marked visited, then fetched three times; no fetch is ever repeated |
| Crawl.Start | src/graph.py:6 | a fresh process has visited nothing and done nothing, and sees the database as it stands |
| Crawl.WriteCompany | src/graph.py:27 | one write transaction: the run fails iff the merge fails; otherwise the graph becomes the merge's result, and after a failure it is unchanged; the visited set is kept and the run only grows |
| Crawl.WriteOfficer | src/graph.py:31-33 | the same for an officer, with `MergeOfficer` |
| Crawl.WritePsc | src/graph.py:45-47 | the same for a PSC, with `MergePsc` |
| Crawl.Visit | src/graph.py:9-58 | a call never shrinks the visited set, the trace or the graph, and keeps the fetch log and edge well-formedness; a call that has not failed leaves its number visited and starts with the skip notice or the first fetch of that number |
| Crawl.Expand | src/graph.py:21-58 | for a number with a profile, the company write is the first thing that happens, and the run only grows and keeps its invariant |
| Crawl.OfficerStep | src/graph.py:30-41 | one officer: its write is the first thing that happens |
| Crawl.AfterCompany | src/graph.py:29-58 | after the company write, the officer loop and then the PSC loop only grow the run and keep its invariant |
| Crawl.VisitOfficers | src/graph.py:29-41 | the officer loop from item i: nothing happens at the end of the list; otherwise item i's write comes first; the run only grows and keeps its invariant |
| Crawl.PscStep | src/graph.py:44-58 | one PSC: its write is the first thing that happens |
| Crawl.VisitPscs | src/graph.py:43-58 | the PSC loop from item i: nothing happens at the end of the list; otherwise item i's write comes first; the run only grows and keeps its invariant |
| Crawl.UnexploredDrops | src/graph.py:15 | marking a fresh number that has a profile lowers the termination measure |
| Crawl.Crawler.constructor | src/graph.py:6 | a fresh process starts with an empty visited set over the database as earlier runs left it |
| Crawl.Crawler.CreateCompanyNode | src/graph.py:63-79 | updates the graph in place as `MergeCompany` says, or leaves it and reports failure |
| Crawl.Crawler.CreateOfficerOrCorporateOfficer | src/graph.py:82-122 | updates the graph in place as `MergeOfficer` says, or reports failure |
| Crawl.Crawler.CreatePscNodeAndRelationship | src/graph.py:125-161 | updates the graph in place as `MergePsc` says, or reports failure |
| Crawl.Crawler.StoreInNeo4j | src/graph.py:9-58 | the in-place recursive crawl ends in exactly the visited set, graph and trace that `Visit` gives, and reports failure iff `Visit` crashes |
| Crawl.Crawler.StoreAfterCompany | src/graph.py:29-58 | the officer and PSC loops, run in place after the company write, end in the state `AfterCompany` gives and report failure iff it crashes |
| Crawl.Crawler.StoreOfficers | src/graph.py:29-41 | the officer loop ends in the state `VisitOfficers` gives |
| Crawl.Crawler.StoreOfficer | src/graph.py:31-41 | one officer's write and, for a corporate officer with a number, its crawl end in the state `OfficerStep` gives |
| Crawl.Crawler.StorePscs | src/graph.py:43-58 | the PSC loop ends in the state `VisitPscs` gives |
| Crawl.Crawler.StorePsc | src/graph.py:45-58 | one PSC's write and, for a corporate PSC with a number, its crawl end in the state `PscStep` gives |
| CrawlFacts.VisitedIsSkipped | src/graph.py:11-13 | a call on a visited number fetches nothing, writes nothing, recurses nowhere and leaves the visited set unchanged |
| CrawlFacts.MissingProfileWritesNothing | src/graph.py:15-21 | a fresh number without a profile is still marked visited and fetched three times, and nothing is written or crawled |
| CrawlFacts.NeverRetried | src/graph.py:11-15 | once called on, a number is only ever skipped later in the run, even when its fetch failed |
| CrawlFacts.CompanyWrittenFirst | src/graph.py:17-27 | for a fresh number with a profile, the three fetches and then the company write come before anything else |
| CrawlFacts.OfficerRecursesIffCorporate | src/graph.py:30-41 | after an officer's write, the crawl recurses iff the officer is corporate with a non-empty registration number, and the recursive call comes right after the write; a failed write ends the run |
| CrawlFacts.PscRecursesIffCorporate | src/graph.py:44-58 | the same for a PSC, with the corporate PSC kind |
| CrawlFacts.NextOfficerAfterRecursion | src/graph.py:30-41 | the write of officer i and its whole recursive call finish before officer i + 1 is written |
| CrawlFacts.NextPscAfterRecursion | src/graph.py:44-58 | the same for PSCs |
| CrawlFacts.PscsAfterOfficers | src/graph.py:29-47 | the whole officer loop, recursion included, comes before the first PSC write |
| CrawlFacts.EachNumberFetchedAtMostOnce | src/graph.py:6-19 | in a run from a fresh process over any database, no fetch is made twice, every fetched number is visited, and every edge still joins existing nodes |
| Scenarios.OneCorporateOfficer | src/graph.py:27-41 | a company whose only officer is corporate and which has no PSC list: the call fetches it, writes the company and the officer without failing, then crawls the officer's number |
| Scenarios.TwoCycleTerminates | src/graph.py:6-41 | two companies that are each other's corporate officer, whatever the database holds: the crawl ends with both visited, each fetched once, and the second call on the first only skipped |
| Scenarios.CycleTerminates | src/graph.py:6-41 | the same for concrete numbers "A" and "B" over an empty database |
| Scenarios.SingleOfficer | src/graph.py:30-41 | a one-item officer list is exactly one officer step |
| Scenarios.SinglePsc | src/graph.py:44-58 | a one-item PSC list is exactly one PSC step |
| Scenarios.FreshWithLists | src/graph.py:15-47 | for a fresh number with a profile and both lists, the call is the company write, then the officer loop, then the PSC loop |
| Scenarios.LeafCompany | src/graph.py:15-47 | a fresh company with empty officer and PSC lists is fetched and written, and nothing else happens |
| Scenarios.ExampleFlow | src/graph.py:9-58 | the worked example's crawl is the company write, the officer write without recursion, the PSC write, then the crawl of the PSC's number |
| Scenarios.ExampleState | src/graph.py:63-161 | those steps do not fail, visit exactly the two numbers and build the expected graph |
| Scenarios.ExampleWrites | src/graph.py:63-161 | company, individual officer, corporate PSC, then the PSC's own profile give two Company nodes, one Officer node, one HAS_OFFICER and one HAS_CORPORATE_PSC edge |
| Scenarios.OfficerAndCorporatePsc | src/graph.py:9-58 | the crawl of such a company ends with those nodes and edges, the PSC's node carrying its own fetched profile, and exactly the two numbers visited |
| Scenarios.JaneDoeAndAcme | src/graph.py:9-58 | the same for company 00000001, director Jane Doe, and corporate PSC Acme Holdings Ltd (00000002) |

## Left out

- HTTP fetches (`src/companies_house_api.py`) are not modelled. They become the abstract registry map; status codes, authentication and error printing are not modelled.
- Configuration (`src/config.py`) and the CLI entry point (`main.py`) are not part of this model.
- The Neo4j driver and session lifecycle (src/graph.py:22-26, 60) are not modelled. This includes a failing driver creation and connection errors; the graph is in-memory values.
- Records.Lookup: a falsy but non-null profile (an empty JSON object) is folded into `None`, the same as a failed fetch, because the crawl treats both alike.
- Records.Lookup: an officer or PSC body whose `items` is present but not a list would raise when iterated. That case is not modelled; such a body is taken as absent.
- Records.OfficerId: an `officer_id` key present with a null value is not told apart from an absent one. Python's `dict.get` returns the null, and the model falls back to the name.
- Records.Officer: an `identification` present with a null value would raise `AttributeError` in the crawl (src/graph.py:37) and in the write (src/graph.py:96). The model takes the registration number as absent.
- Records.Psc: a null `identification` on a PSC raises `AttributeError` in the crawl (src/graph.py:54) and in the write (src/graph.py:139). A null `links` raises in the individual PSC write (src/graph.py:157). The model takes the registration number, or the self link, as absent.
- Records.Profile: a null `registered_office_address` raises `AttributeError` at the join (src/graph.py:77). The model takes it as no address values.
- Records.Address: values of `registered_office_address` are taken as strings. A non-string value would make the join raise.
- Console output: the printed text is not modelled. The "already processed" notice is kept only as the `Skipped` event.
- Transactions: each write either applies in full or fails and ends the run. Partial effects of a failed transaction, and retries by the driver, are not modelled.
- Cypher is modelled only for the `MERGE`/`SET`/`MATCH`/`MERGE` pattern these four queries use.
- Crawl.Visit: concurrent runs sharing the module-level visited set are not modelled. A run is one sequential call tree. A new process starts from `Start` over whatever graph the database already holds.
- Crawl.Visit: Python's recursion limit is not modelled. A chain of about a thousand nested corporate hops would raise `RecursionError` and end the run; the model's recursion is unbounded.
