/** `JiraFetcher.search_issues` and `JiraFetcher.get_project_issues`: a JQL
    search whose hits are fetched one by one with `get_issue` and whose error
    records are dropped, and the JQL query that lists a project's issues. */
module IssueSearch {
  import opened Values
  import opened IssueRecords

  /** The records without an `"error"` member, in their original order. */
  function Filter(ds: seq<IssueDoc>): (r: seq<IssueDoc>)
    ensures |r| <= |ds|
    ensures forall k :: 0 <= k < |r| ==> !HasError(r[k])
    ensures forall k :: 0 <= k < |r| ==> r[k] in ds
    decreases |ds|
  {
    if ds == [] then []
    else (if HasError(ds[0]) then [] else [ds[0]]) + Filter(ds[1..])
  }

  /** Filtering a concatenation filters each part. */
  lemma {:induction false} FilterAppend(a: seq<IssueDoc>, b: seq<IssueDoc>)
    ensures Filter(a + b) == Filter(a) + Filter(b)
    decreases |a|
  {
    if a != [] {
      assert (a + b)[0] == a[0];
      assert (a + b)[1..] == a[1..] + b;
      FilterAppend(a[1..], b);
    } else {
      assert a + b == b;
    }
  }

  /** A record survives the filter exactly when it was there and has no error. */
  lemma {:induction false} FilterMembers(ds: seq<IssueDoc>, d: IssueDoc)
    ensures d in Filter(ds) <==> d in ds && !HasError(d)
    decreases |ds|
  {
    if ds != [] {
      FilterMembers(ds[1..], d);
      assert ds == [ds[0]] + ds[1..];
    }
  }

  /** A list without error records passes the filter unchanged. */
  lemma {:induction false} FilterKeepsClean(ds: seq<IssueDoc>)
    requires forall k :: 0 <= k < |ds| ==> !HasError(ds[k])
    ensures Filter(ds) == ds
    decreases |ds|
  {
    if ds != [] {
      FilterKeepsClean(ds[1..]);
      assert ds == [ds[0]] + ds[1..];
    }
  }

  /** Arguments of `self.jira.jql`. */
  datatype JqlQuery = JqlQuery(jql: string, fields: string, start: int, limit: int, expand: Option<string>)

  /** `search_issues(jql)` with every other argument left at its default. */
  function DefaultQuery(jql: string): JqlQuery {
    JqlQuery(jql, "*all", 0, 50, None)
  }

  /** The hits the search loop visits, or None when `search_issues` returns `[]`
      before the loop: the client raised, the answer is falsy or has no
      `"issues"` member, or `results.get("issues")` cannot be iterated.
      A truthy answer that is not a dict either has no `"issues"` key or
      makes `in`/`.get` raise, so it gives `[]` as well. */
  function SearchItems(results: Call<Json>): (r: Option<seq<Json>>)
    ensures r.Some? <==> results.Returned? && results.value.Obj? && "issues" in results.value.members
                         && Items(results.value.members["issues"]).Returned?
    ensures r.Some? ==> r.value == Items(results.value.members["issues"]).value
    ensures (results.Returned? && results.value.Obj? && "issues" in results.value.members
             && results.value.members["issues"].Arr?) ==> r == Some(results.value.members["issues"].items)
  {
    if results.Raised? then None
    else
      var v := results.value;
      if !Truthy(v) || !v.Obj? || "issues" !in v.members then None
      else
        match Items(v.members["issues"])
        case Raised(_) => None
        case Returned(xs) => Some(xs)
  }

  /** `issue.get("key", "UNKNOWN")` on a hit that is a dict. */
  function ItemKey(item: Json): (r: Json)
    requires item.Obj?
    ensures "key" in item.members ==> r == item.members["key"]
    ensures "key" !in item.members ==> r == Str("UNKNOWN")
  {
    Lookup(item.members, "key", Str("UNKNOWN"))
  }

  /** The key as `get_issue` uses it: a string key is itself, any other value
      is rendered by `show`, Python's `str`. */
  function KeyText(k: Json, show: Json -> string): (r: string)
    ensures k.Str? ==> r == k.s
  {
    if k.Str? then k.s else show(k)
  }

  /** `get_issue` as the search calls it: with the hit's key and the search's
      `expand`, on what the client returns for them. */
  function IssueFetch(server: string, respond: (string, Option<string>) -> Call<Json>,
                      parseDate: string -> Option<string>, show: Json -> string, expand: Option<string>): Json -> IssueDoc
  {
    k => NormalizeIssue(server, KeyText(k, show), respond(KeyText(k, show), expand), parseDate)
  }

  /** One fetched record per hit, in order. */
  function Fetched(items: seq<Json>, fetch: Json -> IssueDoc): (r: seq<IssueDoc>)
    requires AllDicts(items)
    ensures |r| == |items|
    ensures forall k :: 0 <= k < |items| ==> r[k] == fetch(ItemKey(items[k]))
    decreases |items|
  {
    if items == [] then []
    else
      var init := items[..|items| - 1];
      assert forall k :: 0 <= k < |init| ==> init[k] == items[k];
      Fetched(init, fetch) + [fetch(ItemKey(items[|items| - 1]))]
  }

  /** `search_issues` on the client's answer `results`, fetching each hit with
      `fetch`: the error-free records of the hits, in order, or `[]` when the
      search fails or some hit is not a dict (`.get` on it raises). */
  function Search(results: Call<Json>, fetch: Json -> IssueDoc): (r: seq<IssueDoc>)
    ensures forall k :: 0 <= k < |r| ==> !HasError(r[k])
    ensures SearchItems(results).None? ==> r == []
    ensures SearchItems(results).Some? ==> |r| <= |SearchItems(results).value|
    ensures SearchItems(results).Some? && !AllDicts(SearchItems(results).value) ==> r == []
    ensures SearchItems(results).Some? && AllDicts(SearchItems(results).value)
            ==> r == Filter(Fetched(SearchItems(results).value, fetch))
  {
    match SearchItems(results)
    case None => []
    case Some(items) => if AllDicts(items) then Filter(Fetched(items, fetch)) else []
  }

  /** A record is in the search result exactly when it is the error-free
      record fetched for one of the hits, and every hit is a dict. */
  lemma SearchMembers(results: Call<Json>, fetch: Json -> IssueDoc, d: IssueDoc)
    ensures d in Search(results, fetch)
            <==> SearchItems(results).Some? && AllDicts(SearchItems(results).value) && !HasError(d)
                 && exists k :: 0 <= k < |SearchItems(results).value|
                                && d == fetch(ItemKey(SearchItems(results).value[k]))
  {
    if SearchItems(results).Some? && AllDicts(SearchItems(results).value) {
      var items := SearchItems(results).value;
      FilterMembers(Fetched(items, fetch), d);
      if d in Fetched(items, fetch) {
        var k :| 0 <= k < |items| && Fetched(items, fetch)[k] == d;
      }
    }
  }

  /** When no hit fails, the search returns one record per hit, in order. */
  lemma SearchWithoutErrors(results: Call<Json>, fetch: Json -> IssueDoc)
    requires SearchItems(results).Some? && AllDicts(SearchItems(results).value)
    requires forall k :: 0 <= k < |SearchItems(results).value| ==> !HasError(fetch(ItemKey(SearchItems(results).value[k])))
    ensures Search(results, fetch) == Fetched(SearchItems(results).value, fetch)
  {
    FilterKeepsClean(Fetched(SearchItems(results).value, fetch));
  }

  /** With `get_issue` as the fetch, every record the search returns is an
      issue record whose key is the key of one of the hits, with that key's
      browse link. */
  lemma SearchedIssues(results: Call<Json>, server: string, respond: (string, Option<string>) -> Call<Json>,
                       parseDate: string -> Option<string>, show: Json -> string, expand: Option<string>, d: IssueDoc)
    requires d in Search(results, IssueFetch(server, respond, parseDate, show, expand))
    ensures d.Found? && d.issue.link == BrowseLink(server, d.issue.key)
    ensures exists k :: 0 <= k < |SearchItems(results).value|
                        && d.issue.key == KeyText(ItemKey(SearchItems(results).value[k]), show)
  {
    var fetch := IssueFetch(server, respond, parseDate, show, expand);
    SearchMembers(results, fetch, d);
    var items := SearchItems(results).value;
    var k :| 0 <= k < |items| && d == fetch(ItemKey(items[k]));
    var key := KeyText(ItemKey(items[k]), show);
    assert d == NormalizeIssue(server, key, respond(key, expand), parseDate);
  }

  /** One more hit that is a dict adds its record unless it is an error record. */
  lemma FetchedStep(items: seq<Json>, i: nat, fetch: Json -> IssueDoc)
    requires i < |items|
    requires forall k :: 0 <= k <= i ==> items[k].Obj?
    ensures AllDicts(items[..i]) && AllDicts(items[..i + 1])
    ensures var d := fetch(ItemKey(items[i]));
            Filter(Fetched(items[..i + 1], fetch))
            == Filter(Fetched(items[..i], fetch)) + (if HasError(d) then [] else [d])
  {
    var d := fetch(ItemKey(items[i]));
    assert Filter([d]) == (if HasError(d) then [] else [d]) by {
      assert [d][1..] == [];
    }
    assert items[..i + 1][..i] == items[..i];
    assert Fetched(items[..i + 1], fetch) == Fetched(items[..i], fetch) + [fetch(ItemKey(items[i]))];
    FilterAppend(Fetched(items[..i], fetch), [fetch(ItemKey(items[i]))]);
  }

  /** The body of the search loop for a hit that is a dict:
      `get_issue(issue.get("key", "UNKNOWN"), expand=expand)`. */
  method FetchHit(fetcher: Fetcher, issue: Json, expand: Option<string>,
                  respond: (string, Option<string>) -> Call<Json>, parseDate: string -> Option<string>,
                  show: Json -> string)
    returns (doc: IssueDoc)
    requires issue.Obj?
    ensures doc == IssueFetch(fetcher.server, respond, parseDate, show, expand)(ItemKey(issue))
  {
    var key := KeyText(Lookup(issue.members, "key", Str("UNKNOWN")), show);
    doc := GetIssue(fetcher, key, respond(key, expand), parseDate);
  }

  /** The `for` loop of `search_issues`: each hit fetched with `get_issue`
      and kept unless it is an error record; a hit that is not a dict makes
      `.get` raise, and the search then returns `[]`. */
  method FetchHits(fetcher: Fetcher, items: seq<Json>, expand: Option<string>,
                   respond: (string, Option<string>) -> Call<Json>, parseDate: string -> Option<string>,
                   show: Json -> string)
    returns (documents: seq<IssueDoc>)
    ensures !AllDicts(items) ==> documents == []
    ensures AllDicts(items) ==> documents == Filter(Fetched(items, IssueFetch(fetcher.server, respond, parseDate, show, expand)))
  {
    ghost var fetch := IssueFetch(fetcher.server, respond, parseDate, show, expand);
    documents := [];
    var i := 0;
    while i < |items|
      invariant 0 <= i <= |items|
      invariant forall k :: 0 <= k < i ==> items[k].Obj?
      invariant AllDicts(items[..i])
      invariant documents == Filter(Fetched(items[..i], fetch))
    {
      var issue := items[i];
      if !issue.Obj? {
        return [];
      }
      var doc := FetchHit(fetcher, issue, expand, respond, parseDate, show);
      FetchedStep(items, i, fetch);
      if !HasError(doc) {
        documents := documents + [doc];
      }
      i := i + 1;
    }
    assert items[..i] == items;
  }

  /** `JiraFetcher.search_issues`, given the client's answer to the JQL query
      and its answer for each issue key. */
  method SearchIssues(fetcher: Fetcher, query: JqlQuery, client: JqlQuery -> Call<Json>,
                      respond: (string, Option<string>) -> Call<Json>, parseDate: string -> Option<string>,
                      show: Json -> string)
    returns (documents: seq<IssueDoc>)
    ensures documents == Search(client(query), IssueFetch(fetcher.server, respond, parseDate, show, query.expand))
  {
    var results := client(query);
    if results.Raised? || !Truthy(results.value) || !results.value.Obj? || "issues" !in results.value.members {
      return [];
    }
    var issues := Items(results.value.members["issues"]);
    if issues.Raised? {
      return [];
    }
    documents := FetchHits(fetcher, issues.value, query.expand, respond, parseDate, show);
  }

  const ProjectPrefix := "project = "
  const ProjectSuffix := " ORDER BY created DESC"

  /** The JQL query for a project's issues, newest first. */
  function ProjectJql(projectKey: string): (r: string)
    ensures |r| == |ProjectPrefix| + |projectKey| + |ProjectSuffix|
    ensures r[..|ProjectPrefix|] == ProjectPrefix
    ensures r[|ProjectPrefix|..|r| - |ProjectSuffix|] == projectKey
    ensures r[|r| - |ProjectSuffix|..] == ProjectSuffix
  {
    ProjectPrefix + projectKey + ProjectSuffix
  }

  /** The project key a query of that form names, or None for any other query. */
  function ProjectKeyOf(jql: string): (r: Option<string>)
    ensures r.Some? ==> ProjectJql(r.value) == jql
  {
    var n := |ProjectPrefix|;
    var m := |ProjectSuffix|;
    if |jql| >= n + m && jql[..n] == ProjectPrefix && jql[|jql| - m..] == ProjectSuffix then
      var key := jql[n..|jql| - m];
      assert jql == jql[..n] + key + jql[|jql| - m..];
      Some(key)
    else None
  }

  /** The key can be read back from its query, so distinct projects get
      distinct queries. */
  lemma ProjectJqlRoundTrip(projectKey: string)
    ensures ProjectKeyOf(ProjectJql(projectKey)) == Some(projectKey)
  {
    var q := ProjectJql(projectKey);
    var n := |ProjectPrefix|;
    assert q[..n] == ProjectPrefix;
    assert q[|q| - |ProjectSuffix|..] == ProjectSuffix;
    assert q[n..|q| - |ProjectSuffix|] == projectKey;
  }

  lemma ProjectJqlInjective(a: string, b: string)
    requires ProjectJql(a) == ProjectJql(b)
    ensures a == b
  {
    ProjectJqlRoundTrip(a);
    ProjectJqlRoundTrip(b);
  }

  /** The search `get_project_issues` runs. */
  function ProjectQuery(projectKey: string, start: int, limit: int): (r: JqlQuery)
    ensures ProjectKeyOf(r.jql) == Some(projectKey)
    ensures r == DefaultQuery(r.jql).(start := start, limit := limit)
  {
    ProjectJqlRoundTrip(projectKey);
    JqlQuery(ProjectJql(projectKey), "*all", start, limit, None)
  }

  /** `JiraFetcher.get_project_issues`. */
  method GetProjectIssues(fetcher: Fetcher, projectKey: string, start: int, limit: int, client: JqlQuery -> Call<Json>,
                          respond: (string, Option<string>) -> Call<Json>, parseDate: string -> Option<string>,
                          show: Json -> string)
    returns (documents: seq<IssueDoc>)
    ensures documents == Search(client(ProjectQuery(projectKey, start, limit)),
                                IssueFetch(fetcher.server, respond, parseDate, show, None))
  {
    var jql := ProjectJql(projectKey);
    documents := SearchIssues(fetcher, JqlQuery(jql, "*all", start, limit, None), client, respond, parseDate, show);
  }
}
