/** The directory search page (src/search.js): the employee list is loaded page by
    page and sorted by name, and the grid shows the records that match the quick
    search term and the advanced filters (job title, skills, clients, client
    industries), sorted by name. The page keeps its list, its filters and the
    client-to-industry dictionary as module state; here they are the fields of
    `DirectoryPage`. */
module Directory {
  import opened Wrappers
  import opened Text
  import opened Ordering
  import opened Records
  import Paging
  import Dictionary

  /** A 'Client Experience' record as the page reads it: its id and its 'Industry'. */
  datatype Client = Client(id: string, industry: Option<string>)

  /** The advanced filters. `jobTitle` is `None` when the job-title input was missing
      (the optional chain gives `undefined`). */
  datatype Filters = Filters(jobTitle: Option<string>, skills: seq<string>, clients: seq<string>, industries: seq<string>)

  /** `clientIndustryMap[id]`: absent ids and ids whose record had no industry both read
      as `undefined`. */
  function IndustryOf(clientIndustry: map<string, Option<string>>, id: string): Option<string> {
    if id in clientIndustry then clientIndustry[id] else None
  }

  /** `!filter.length || ids.some(id => filter.includes(id))`. */
  predicate AnyIn(ids: seq<string>, filter: seq<string>) {
    |filter| == 0 || exists i :: 0 <= i < |ids| && ids[i] in filter
  }

  /** The industry filter: some client of the record maps to a listed industry. */
  predicate AnyIndustryIn(ids: seq<string>, filter: seq<string>, clientIndustry: map<string, Option<string>>) {
    |filter| == 0 || exists i :: 0 <= i < |ids| && MapsInto(clientIndustry, ids[i], filter)
  }

  predicate MapsInto(clientIndustry: map<string, Option<string>>, id: string, filter: seq<string>) {
    IndustryOf(clientIndustry, id).Some? && IndustryOf(clientIndustry, id).value in filter
  }

  /** The `filter` callback of `renderGrid` for the lower-cased, trimmed term. */
  predicate Keep(e: Employee, term: string, filters: Filters, clientIndustry: map<string, Option<string>>) {
    var skills := e.skills.GetOr([]);
    var clients := e.clients.GetOr([]);
    && Contains(Lower(NameOf(e)), term)
    && AnyIn(skills, filters.skills)
    && AnyIn(clients, filters.clients)
    && AnyIndustryIn(clients, filters.industries, clientIndustry)
    && (filters.jobTitle.None? || filters.jobTitle.value == ""
        || Contains(Lower(e.jobTitle.GetOr("")), filters.jobTitle.value))
  }

  /** `records.filter(keep)`: the kept records, in their order. */
  function FilterBy(es: seq<Employee>, keep: Employee -> bool): (r: seq<Employee>)
    ensures |r| <= |es|
    ensures forall i :: 0 <= i < |r| ==> keep(r[i]) && r[i] in es
    ensures forall i :: 0 <= i < |es| && keep(es[i]) ==> es[i] in r
    ensures forall x :: multiset(r)[x] == if keep(x) then multiset(es)[x] else 0
  {
    if es == [] then []
    else
      var pre := es[..|es| - 1];
      var rest := FilterBy(pre, keep);
      var last := es[|es| - 1];
      assert es == pre + [last];
      assert multiset(es) == multiset(pre) + multiset{last};
      if keep(last) then rest + [last] else rest
  }

  /** Filtering keeps the order: the kept records of two lists, one after the other. */
  lemma {:induction false} FilterByAppend(a: seq<Employee>, b: seq<Employee>, keep: Employee -> bool)
    ensures FilterBy(a + b, keep) == FilterBy(a, keep) + FilterBy(b, keep)
  {
    if b == [] {
      assert a + b == a;
    } else {
      var b' := b[..|b| - 1];
      assert (a + b)[..|a + b| - 1] == a + b';
      assert (a + b)[|a + b| - 1] == b[|b| - 1];
      FilterByAppend(a, b', keep);
    }
  }

  /** One record is kept exactly when it passes. */
  lemma FilterByOne(e: Employee, keep: Employee -> bool)
    ensures FilterBy([e], keep) == if keep(e) then [e] else []
  {
    assert [e][..0] == [];
  }

  /** The records `renderGrid` keeps for a term, in their order. */
  function Matching(records: seq<Employee>, term: string, filters: Filters,
                    clientIndustry: map<string, Option<string>>): (r: seq<Employee>)
    ensures forall e :: e in r <==> e in records && Keep(e, term, filters, clientIndustry)
    ensures forall e :: multiset(r)[e] == if Keep(e, term, filters, clientIndustry) then multiset(records)[e] else 0
  {
    var r := FilterBy(records, e => Keep(e, term, filters, clientIndustry));
    assert forall e :: e in r ==> e in records && Keep(e, term, filters, clientIndustry);
    r
  }

  /** What the grid shows: the cards, in order, and whether "no results" is visible. */
  datatype Grid = Grid(shown: seq<Employee>, noResults: bool)

  /** `renderGrid(records)` for the quick-search input's value (`''` when empty). */
  function RenderGrid(records: seq<Employee>, quickSearch: string, filters: Filters,
                      clientIndustry: map<string, Option<string>>): (g: Grid)
    ensures SortedBy(g.shown, NameOf)
    ensures forall e :: e in g.shown <==> e in records && Keep(e, Lower(Trim(quickSearch)), filters, clientIndustry)
    ensures forall e :: (multiset(g.shown)[e] ==
      if Keep(e, Lower(Trim(quickSearch)), filters, clientIndustry) then multiset(records)[e] else 0)
    ensures g.noResults <==> g.shown == []
  {
    var term := Lower(Trim(quickSearch));
    var kept := Matching(records, term, filters, clientIndustry);
    var shown := SortByName(kept);
    SameMembers(kept, shown);
    Grid(shown, shown == [])
  }

  /** With an empty term and no filters every record is shown: the grid is the list
      sorted by name. */
  lemma NoFiltersShowAll(records: seq<Employee>, quickSearch: string, clientIndustry: map<string, Option<string>>)
    requires Trim(quickSearch) == ""
    ensures var g := RenderGrid(records, quickSearch, Filters(Some(""), [], [], []), clientIndustry);
      forall e :: e in g.shown <==> e in records
  {
    forall e: Employee ensures Keep(e, Lower(Trim(quickSearch)), Filters(Some(""), [], [], []), clientIndustry) {
      ContainsEmpty(Lower(NameOf(e)));
    }
  }

  /** An unmapped client id never satisfies a non-empty industry filter. */
  lemma UnmappedNeverMatches(id: string, filter: seq<string>, clientIndustry: map<string, Option<string>>)
    requires |filter| > 0 && id !in clientIndustry
    ensures !AnyIndustryIn([id], filter, clientIndustry)
  {
  }

  /** `r.fields['Industry']` for each client, with the falsy ones dropped. */
  function TruthyIndustries(clients: seq<Client>): (r: seq<string>)
    ensures forall s :: s in r <==> s != "" && exists i :: 0 <= i < |clients| && clients[i].industry == Some(s)
  {
    if clients == [] then []
    else
      var rest := TruthyIndustries(clients[1..]);
      assert forall s :: (exists i :: 0 <= i < |clients| && clients[i].industry == Some(s)) <==>
        (clients[0].industry == Some(s) || exists i :: 0 <= i < |clients[1..]| && clients[1..][i].industry == Some(s)) by {
        forall s ensures (exists i :: 0 <= i < |clients| && clients[i].industry == Some(s)) ==>
          (clients[0].industry == Some(s) || exists i :: 0 <= i < |clients[1..]| && clients[1..][i].industry == Some(s)) {
          if i :| 0 <= i < |clients| && clients[i].industry == Some(s) {
            if i > 0 { assert clients[1..][i - 1] == clients[i]; }
          }
        }
        forall s ensures (exists i :: 0 <= i < |clients[1..]| && clients[1..][i].industry == Some(s)) ==>
          (exists i :: 0 <= i < |clients| && clients[i].industry == Some(s)) {
          if i :| 0 <= i < |clients[1..]| && clients[1..][i].industry == Some(s) {
            assert clients[i + 1] == clients[1..][i];
          }
        }
      }
      match clients[0].industry
      case Some(s) => if s != "" then [s] + rest else rest
      case None => rest
  }

  /** `[...new Set(industries.filter(Boolean))].sort()`. */
  function IndustryOptions(clients: seq<Client>): seq<string> {
    SortBy(Dedup(TruthyIndustries(clients)), s => s)
  }

  /** The industry options are the truthy industries of the clients, each once, in
      strictly increasing order. */
  lemma IndustryOptionsSpec(clients: seq<Client>)
    ensures var r := IndustryOptions(clients);
      && Distinct(r)
      && (forall i, j :: 0 <= i < j < |r| ==> LexLe(r[i], r[j]) && !LexLe(r[j], r[i]))
      && (forall s :: s in r <==> s != "" && exists i :: 0 <= i < |clients| && clients[i].industry == Some(s))
  {
    var t := TruthyIndustries(clients);
    var d := Dedup(t);
    var r := IndustryOptions(clients);
    DistinctPermutation(d, r);
    SortedDistinctStrict(r);
    forall s ensures s in r <==> s in d {
      assert s in multiset(r) <==> s in multiset(d);
    }
    forall s ensures s in d <==> s in t {
      if s in t {
        var i :| 0 <= i < |t| && t[i] == s;
      }
      if s in d {
        var j :| 0 <= j < |d| && d[j] == s;
      }
    }
  }

  /** The page's state. */
  class DirectoryPage {
    var employees: seq<Employee>
    var filters: Filters
    var clientIndustry: map<string, Option<string>>

    /** The state at load: no employees, no filters, an empty dictionary. */
    constructor ()
      ensures employees == [] && filters == Filters(Some(""), [], [], []) && clientIndustry == map[]
    {
      employees := [];
      filters := Filters(Some(""), [], [], []);
      clientIndustry := map[];
    }

    /** The dictionary assignments `clientIndustryMap[r.id] = r.fields['Industry']`. */
    static function IndustryPairs(clients: seq<Client>): (r: seq<(string, Option<string>)>)
      ensures |r| == |clients|
      ensures forall i :: 0 <= i < |clients| ==> r[i] == (clients[i].id, clients[i].industry)
    {
      seq(|clients|, i requires 0 <= i < |clients| => (clients[i].id, clients[i].industry))
    }

    /** After the assignments a client id reads the 'Industry' of its last record on
        the page; an id not on the page reads what it read before. */
    static lemma ClientIndustryLookup(m: map<string, Option<string>>, clients: seq<Client>, id: string)
      ensures var a := Dictionary.Assigned(m, IndustryPairs(clients));
        && (id in a <==> id in m || exists j :: 0 <= j < |clients| && clients[j].id == id)
        && (forall j :: 0 <= j < |clients| && clients[j].id == id && (forall k :: j < k < |clients| ==> clients[k].id != id)
              ==> IndustryOf(a, id) == clients[j].industry)
        && ((forall j :: 0 <= j < |clients| ==> clients[j].id != id) ==> IndustryOf(a, id) == IndustryOf(m, id))
    {
      var pairs := IndustryPairs(clients);
      Dictionary.AssignedKeys(m, pairs, id);
      assert (exists i :: 0 <= i < |pairs| && pairs[i].0 == id) <==> exists j :: 0 <= j < |clients| && clients[j].id == id;
      forall j | 0 <= j < |clients| && clients[j].id == id && (forall k :: j < k < |clients| ==> clients[k].id != id)
        ensures IndustryOf(Dictionary.Assigned(m, pairs), id) == clients[j].industry
      {
        Dictionary.AssignedLast(m, pairs, id, j);
      }
      if forall j :: 0 <= j < |clients| ==> clients[j].id != id {
        Dictionary.AssignedUntouched(m, pairs, id);
      }
    }

    /** `loadAllClients`: one page of clients, each assigned into the dictionary. */
    method LoadAllClients(clients: seq<Client>)
      modifies this
      ensures clientIndustry == Dictionary.Assigned(old(clientIndustry), IndustryPairs(clients))
      ensures employees == old(employees) && filters == old(filters)
    {
      clientIndustry := Dictionary.Fill(clientIndustry, IndustryPairs(clients));
    }

    /** The grid for the current state and the quick-search input. */
    function Render(quickSearch: string): Grid
      reads this
    {
      RenderGrid(employees, quickSearch, filters, clientIndustry)
    }

    /** `loadDirectory`: the clients, then every employee page until one has no
        offset; the list is sorted by name and rendered. */
    method LoadDirectory(clients: seq<Client>, pages: seq<Paging.Page<Employee>>, quickSearch: string)
      returns (g: Grid)
      requires Paging.Terminates(pages)
      modifies this
      ensures clientIndustry == Dictionary.Assigned(old(clientIndustry), IndustryPairs(clients))
      ensures employees == SortByName(Paging.Loaded(pages))
      ensures filters == old(filters)
      ensures g == Render(quickSearch)
    {
      LoadAllClients(clients);
      var all, _ := Paging.FetchAll(pages);
      employees := SortByName(all);
      g := Render(quickSearch);
    }

    /** The Apply button: the job-title input trimmed and lower-cased, the checked
        boxes as the filters, then a re-render. */
    method ApplyAdvanced(jobTitleInput: Option<string>, skills: seq<string>, clients: seq<string>,
                         industries: seq<string>, quickSearch: string) returns (g: Grid)
      modifies this
      ensures filters.jobTitle == (if jobTitleInput.Some? then Some(Lower(Trim(jobTitleInput.value))) else None)
      ensures filters.skills == skills && filters.clients == clients && filters.industries == industries
      ensures employees == old(employees) && clientIndustry == old(clientIndustry)
      ensures g == Render(quickSearch)
    {
      var jobInput := if jobTitleInput.Some? then Some(Lower(Trim(jobTitleInput.value))) else None;
      filters := Filters(jobInput, skills, clients, industries);
      g := Render(quickSearch);
    }
  }
}
