/** `JiraFetcher` itself and `JiraFetcher.get_issue`: the credential check
    made when a fetcher is created, and the normalisation of one issue, as
    the Jira client returns it, into a flat record, or into an error record
    holding only the requested key and an error. */
module IssueRecords {
  import opened Values
  import opened TextCleaner

  const NotFoundMessage := "Issue not found or missing data"
  const MissingFieldsMessage := "Issue missing fields"
  /** The timestamp used when an issue or a comment has no `created` member. */
  const DefaultCreated := "1970-01-01T00:00:00.000+0000"

  const NoSummary := "No Summary"
  const UnknownName := "Unknown"
  const NoPriority := "None"
  const Unassigned := "Unassigned"
  const UnknownReporter := "Unknown Reporter"
  const UnknownAuthor := "Unknown"

  /** A fetcher's settings. The client object built from them is not part of
      the model: what it returns is passed to each operation. */
  datatype Fetcher = Fetcher(server: string, email: string, apiToken: string)

  /** `JiraFetcher.__init__` given the three values it reads from the
      environment: it refuses to build a fetcher when any of them is empty. */
  function Connect(server: string, email: string, apiToken: string): (r: Option<Fetcher>)
    ensures r.Some? <==> server != "" && email != "" && apiToken != ""
    ensures r.Some? ==> r.value.server == server && r.value.email == email && r.value.apiToken == apiToken
  {
    if server == "" || email == "" || apiToken == "" then None
    else Some(Fetcher(server, email, apiToken))
  }

  datatype Comment = Comment(body: string, created: string, author: Json)

  /** The flat record of a successfully normalised issue. The members the
      code copies without looking at them keep whatever JSON value Jira sent. */
  datatype Issue = Issue(
    key: string,
    title: Json,
    issueType: Json,
    status: Json,
    created: string,
    priority: Json,
    description: string,
    assignee: Json,
    reporter: Json,
    comments: seq<Comment>,
    link: string)

  /** The `"error"` member of an error record: one of the two fixed messages,
      or the exception that was caught. */
  datatype Reason = Message(text: string) | Exception(fault: Fault)

  /** What `get_issue` returns: a record, or `{"key": key, "error": ...}`. */
  datatype IssueDoc = Found(issue: Issue) | Failed(key: string, error: Reason)

  /** The record has an `"error"` member. */
  predicate HasError(d: IssueDoc) {
    d.Failed?
  }

  /** `s.replace("Z", "+00:00")`. */
  function ReplaceZ(s: string): (r: string)
    ensures forall k :: 0 <= k < |r| ==> r[k] != 'Z'
    ensures 'Z' !in s ==> r == s
  {
    if 'Z' in s then ReplaceEachZ(s) else s
  }

  function ReplaceEachZ(s: string): (r: string)
    ensures forall k :: 0 <= k < |r| ==> r[k] != 'Z'
    decreases |s|
  {
    if s == [] then []
    else (if s[0] == 'Z' then "+00:00" else [s[0]]) + ReplaceEachZ(s[1..])
  }

  /** `datetime.fromisoformat(v.replace("Z", "+00:00")).strftime("%Y-%m-%d")`.
      The date library is the parameter `parseDate`, which answers None for a
      string it refuses. */
  function FormatDate(v: Json, parseDate: string -> Option<string>): (r: Call<string>)
    ensures !v.Str? ==> r == Raised(AttributeError)
    ensures v.Str? && parseDate(ReplaceZ(v.s)).None? ==> r == Raised(ValueError)
    ensures v.Str? && parseDate(ReplaceZ(v.s)).Some? ==> r == Returned(parseDate(ReplaceZ(v.s)).value)
  {
    if !v.Str? then Raised(AttributeError)
    else
      match parseDate(ReplaceZ(v.s))
      case None => Raised(ValueError)
      case Some(d) => Returned(d)
  }

  /** `s.rstrip('/')`. */
  function TrimSlashes(s: string): (r: string)
    ensures |r| <= |s| && r == s[..|r|]
    ensures r == [] || r[|r| - 1] != '/'
    ensures forall k :: |r| <= k < |s| ==> s[k] == '/'
    decreases |s|
  {
    if s != [] && s[|s| - 1] == '/' then TrimSlashes(s[..|s| - 1]) else s
  }

  /** The browse link of an issue on a server: the server setting without
      its trailing slashes, then `/browse/` and the key. */
  function BrowseLink(server: string, key: string): (r: string)
    ensures |r| >= |key| + 8 && r[|r| - |key| - 8..] == "/browse/" + key
    ensures var base := |r| - |key| - 8;
            base <= |server| && r[..base] == server[..base]
            && (base == 0 || server[base - 1] != '/')
            && forall k :: base <= k < |server| ==> server[k] == '/'
  {
    TrimSlashes(server) + "/browse/" + key
  }

  /** `fields.get(outer, {})` is a dict, so calling `.get` on it succeeds. */
  predicate Shaped(fields: map<string, Json>, outer: string) {
    outer !in fields || fields[outer].Obj?
  }

  /** `fields.get(outer, {}).get(inner, ...)` falls back to its default. */
  predicate Absent(fields: map<string, Json>, outer: string, inner: string) {
    outer !in fields || (fields[outer].Obj? && inner !in fields[outer].members)
  }

  /** `fields.get(outer, {}).get(inner, ...)` finds a value. */
  predicate Present(fields: map<string, Json>, outer: string, inner: string) {
    outer in fields && fields[outer].Obj? && inner in fields[outer].members
  }

  /** `fields.get(outer, {}).get(inner, fallback)`. */
  function Nested(fields: map<string, Json>, outer: string, inner: string, fallback: Json): (r: Call<Json>)
    ensures r.Returned? <==> Shaped(fields, outer)
    ensures r.Raised? ==> r.fault == AttributeError
    ensures Absent(fields, outer, inner) ==> r == Returned(fallback)
    ensures Present(fields, outer, inner) ==> r == Returned(fields[outer].members[inner])
  {
    GetMember(Lookup(fields, outer, EmptyObj), inner, fallback)
  }

  /** The body of the comment loop for one comment (`get_issue`, one
      iteration): its cleaned body, its formatted date and its author's
      display name, or the exception one of them raises. */
  function NormalizeComment(c: Json, parseDate: string -> Option<string>): (r: Call<Comment>)
    ensures r.Returned? <==> c.Obj? && CleanValue(Lookup(c.members, "body", Str(""))).Returned?
                             && FormatDate(Lookup(c.members, "created", Str(DefaultCreated)), parseDate).Returned?
                             && Shaped(c.members, "author")
    ensures !c.Obj? ==> r == Raised(AttributeError)
    ensures c.Obj? && CleanValue(Lookup(c.members, "body", Str(""))).Raised? ==> r == Raised(TypeError)
    ensures c.Obj? && CleanValue(Lookup(c.members, "body", Str(""))).Returned?
            && FormatDate(Lookup(c.members, "created", Str(DefaultCreated)), parseDate).Raised?
            ==> r == Raised(FormatDate(Lookup(c.members, "created", Str(DefaultCreated)), parseDate).fault)
    ensures r.Raised? && c.Obj? && CleanValue(Lookup(c.members, "body", Str(""))).Returned?
            && FormatDate(Lookup(c.members, "created", Str(DefaultCreated)), parseDate).Returned?
            ==> r == Raised(AttributeError)
    ensures r.Returned? ==> c.Obj? && Shaped(c.members, "author")
    ensures r.Returned? && "body" !in c.members ==> r.value.body == ""
    ensures r.Returned? && "body" in c.members && c.members["body"].Str? ==> r.value.body == Clean(c.members["body"].s)
    ensures r.Returned? && "body" in c.members && !Truthy(c.members["body"]) ==> r.value.body == ""
    ensures r.Returned? ==> FormatDate(Lookup(c.members, "created", Str(DefaultCreated)), parseDate) == Returned(r.value.created)
    ensures r.Returned? && Absent(c.members, "author", "displayName") ==> r.value.author == Str(UnknownAuthor)
    ensures r.Returned? && Present(c.members, "author", "displayName") ==> r.value.author == c.members["author"].members["displayName"]
  {
    if !c.Obj? then Raised(AttributeError)
    else
      var m := c.members;
      var body :- CleanValue(Lookup(m, "body", Str("")));
      var created :- FormatDate(Lookup(m, "created", Str(DefaultCreated)), parseDate);
      var author :- Nested(m, "author", "displayName", Str(UnknownAuthor));
      Returned(Comment(body, created, author))
  }

  /** The body of the comment loop, as a function of one comment. */
  function CommentStep(parseDate: string -> Option<string>): Json -> Call<Comment> {
    c => NormalizeComment(c, parseDate)
  }

  /** The comments the loop visits: those of `fields["comment"]["comments"]`
      when `fields["comment"]` is a dict, otherwise none. */
  function CommentItems(fields: map<string, Json>): (r: Call<seq<Json>>)
    ensures "comment" !in fields ==> r == Returned([])
    ensures "comment" in fields && !fields["comment"].Obj? ==> r == Returned([])
    ensures "comment" in fields && fields["comment"].Obj?
            ==> r == Items(Lookup(fields["comment"].members, "comments", Arr([])))
  {
    if "comment" in fields && fields["comment"].Obj? then
      Items(Lookup(fields["comment"].members, "comments", Arr([])))
    else Returned([])
  }

  /** The members of the record read from nested dicts. */
  datatype Names = Names(issueType: Json, status: Json, priority: Json, assignee: Json, reporter: Json)

  /** `fields.get("issuetype", {}).get("name", "Unknown")` and the four
      look-ups like it, in the order the record lists them. */
  function NamesOf(fields: map<string, Json>): (r: Call<Names>)
    ensures r.Returned? <==> Shaped(fields, "issuetype") && Shaped(fields, "status") && Shaped(fields, "priority")
                             && Shaped(fields, "assignee") && Shaped(fields, "reporter")
    ensures r.Raised? ==> r.fault == AttributeError
    ensures r.Returned? && Absent(fields, "issuetype", "name") ==> r.value.issueType == Str(UnknownName)
    ensures r.Returned? && Present(fields, "issuetype", "name") ==> r.value.issueType == fields["issuetype"].members["name"]
    ensures r.Returned? && Absent(fields, "status", "name") ==> r.value.status == Str(UnknownName)
    ensures r.Returned? && Present(fields, "status", "name") ==> r.value.status == fields["status"].members["name"]
    ensures r.Returned? && Absent(fields, "priority", "name") ==> r.value.priority == Str(NoPriority)
    ensures r.Returned? && Present(fields, "priority", "name") ==> r.value.priority == fields["priority"].members["name"]
    ensures r.Returned? && Absent(fields, "assignee", "displayName") ==> r.value.assignee == Str(Unassigned)
    ensures r.Returned? && Present(fields, "assignee", "displayName") ==> r.value.assignee == fields["assignee"].members["displayName"]
    ensures r.Returned? && Absent(fields, "reporter", "displayName") ==> r.value.reporter == Str(UnknownReporter)
    ensures r.Returned? && Present(fields, "reporter", "displayName") ==> r.value.reporter == fields["reporter"].members["displayName"]
  {
    var issueType :- Nested(fields, "issuetype", "name", Str(UnknownName));
    var status :- Nested(fields, "status", "name", Str(UnknownName));
    var priority :- Nested(fields, "priority", "name", Str(NoPriority));
    var assignee :- Nested(fields, "assignee", "displayName", Str(Unassigned));
    var reporter :- Nested(fields, "reporter", "displayName", Str(UnknownReporter));
    Returned(Names(issueType, status, priority, assignee, reporter))
  }

  /** The members of the record that the code computes before it builds the
      record. */
  datatype Content = Content(description: string, comments: seq<Comment>, created: string)

  /** The cleaned description, the comment loop and the formatted creation
      date, in that order. */
  function ContentOf(fields: map<string, Json>, parseDate: string -> Option<string>): (r: Call<Content>)
    ensures r.Returned? <==> CleanValue(Lookup(fields, "description", Str(""))).Returned?
                             && CommentItems(fields).Returned?
                             && MapCalls(CommentItems(fields).value, CommentStep(parseDate)).Returned?
                             && FormatDate(Lookup(fields, "created", Str(DefaultCreated)), parseDate).Returned?
    ensures r.Returned? ==> CleanValue(Lookup(fields, "description", Str(""))) == Returned(r.value.description)
    ensures r.Returned? ==> MapCalls(CommentItems(fields).value, CommentStep(parseDate)) == Returned(r.value.comments)
    ensures r.Returned? ==> FormatDate(Lookup(fields, "created", Str(DefaultCreated)), parseDate) == Returned(r.value.created)
  {
    var description :- CleanValue(Lookup(fields, "description", Str("")));
    var items :- CommentItems(fields);
    var comments :- MapCalls(items, CommentStep(parseDate));
    var created :- FormatDate(Lookup(fields, "created", Str(DefaultCreated)), parseDate);
    Returned(Content(description, comments, created))
  }

  /** The record `get_issue` builds from a dict of fields, or the exception
      raised while building it. */
  function BuildIssue(server: string, key: string, fields: map<string, Json>, parseDate: string -> Option<string>): (r: Call<Issue>)
    ensures r.Returned? <==> ContentOf(fields, parseDate).Returned? && NamesOf(fields).Returned?
    ensures r.Raised? && ContentOf(fields, parseDate).Returned? ==> r.fault == AttributeError
    ensures r.Returned? ==> r.value.key == key && r.value.link == BrowseLink(server, key)
    ensures r.Returned? && "summary" !in fields ==> r.value.title == Str(NoSummary)
    ensures r.Returned? && "summary" in fields ==> r.value.title == fields["summary"]
    ensures r.Returned? && "description" !in fields ==> r.value.description == ""
    ensures r.Returned? && "description" in fields && fields["description"].Str?
            ==> r.value.description == Clean(fields["description"].s)
    ensures r.Returned? && "description" in fields && !Truthy(fields["description"]) ==> r.value.description == ""
    ensures r.Returned? ==> MapCalls(CommentItems(fields).value, CommentStep(parseDate)) == Returned(r.value.comments)
    ensures r.Returned? ==> FormatDate(Lookup(fields, "created", Str(DefaultCreated)), parseDate) == Returned(r.value.created)
    ensures r.Returned? ==> NamesOf(fields) == Returned(Names(r.value.issueType, r.value.status, r.value.priority,
                                                              r.value.assignee, r.value.reporter))
  {
    var content :- ContentOf(fields, parseDate);
    var names :- NamesOf(fields);
    Returned(Issue(key, Lookup(fields, "summary", Str(NoSummary)), names.issueType, names.status, content.created,
                   names.priority, content.description, names.assignee, names.reporter, content.comments,
                   BrowseLink(server, key)))
  }

  /** `issue` is a non-empty dict: `not issue or not isinstance(issue, dict)`
      is false. */
  predicate IsRecord(issue: Json)
    ensures IsRecord(issue) <==> issue.Obj? && issue.members != map[]
  {
    Truthy(issue) && issue.Obj?
  }

  /** `issue.get("fields", {})`. */
  function FieldsOf(issue: Json): (r: Json)
    requires issue.Obj?
    ensures "fields" in issue.members ==> r == issue.members["fields"]
    ensures "fields" !in issue.members ==> r == EmptyObj
  {
    Lookup(issue.members, "fields", EmptyObj)
  }

  /** `get_issue(key)` on the client's answer `response` for that key: the
      record, or an error record holding the key and what went wrong. */
  function NormalizeIssue(server: string, key: string, response: Call<Json>, parseDate: string -> Option<string>): (r: IssueDoc)
    ensures r.Failed? ==> r.key == key
    ensures r.Found? ==> r.issue.key == key && r.issue.link == BrowseLink(server, key)
    ensures response.Raised? ==> r == Failed(key, Exception(response.fault))
    ensures response.Returned? && !IsRecord(response.value) ==> r == Failed(key, Message(NotFoundMessage))
    ensures response.Returned? && IsRecord(response.value) && !FieldsOf(response.value).Obj?
            ==> r == Failed(key, Message(MissingFieldsMessage))
    ensures r.Found? <==> response.Returned? && IsRecord(response.value) && FieldsOf(response.value).Obj?
                          && BuildIssue(server, key, FieldsOf(response.value).members, parseDate).Returned?
    ensures r.Found? ==> BuildIssue(server, key, FieldsOf(response.value).members, parseDate) == Returned(r.issue)
  {
    match response
    case Raised(f) => Failed(key, Exception(f))
    case Returned(issue) =>
      if !IsRecord(issue) then Failed(key, Message(NotFoundMessage))
      else
        var fields := FieldsOf(issue);
        if !fields.Obj? then Failed(key, Message(MissingFieldsMessage))
        else
          match BuildIssue(server, key, fields.members, parseDate)
          case Raised(f) => Failed(key, Exception(f))
          case Returned(record) => Found(record)
  }

  /** The comment loop of `get_issue`: the loop body `step` (in `get_issue`,
      `CommentStep`) applied to each comment and its result appended, until
      one of them raises. */
  method CommentLoop(items: seq<Json>, step: Json -> Call<Comment>) returns (result: Call<seq<Comment>>)
    ensures result == MapCalls(items, step)
  {
    var comments: seq<Comment> := [];
    var i := 0;
    while i < |items|
      invariant 0 <= i <= |items|
      invariant MapCalls(items[..i], step) == Returned(comments)
    {
      var comment := step(items[i]);
      assert items[..i + 1][..i] == items[..i];
      if comment.Raised? {
        RaisedPrefix(items, i + 1, step);
        return Raised(comment.fault);
      }
      comments := comments + [comment.value];
      i := i + 1;
    }
    assert items[..i] == items;
    result := Returned(comments);
  }

  /** The part of `get_issue` that runs once `fields` is known to be a dict:
      the record, or the exception raised while it is being built. */
  method BuildRecord(fetcher: Fetcher, key: string, fields: map<string, Json>, parseDate: string -> Option<string>)
    returns (result: Call<Issue>)
    ensures result == BuildIssue(fetcher.server, key, fields, parseDate)
  {
    var description := CleanValue(Lookup(fields, "description", Str("")));
    if description.Raised? {
      return Raised(description.fault);
    }
    var items := CommentItems(fields);
    if items.Raised? {
      return Raised(items.fault);
    }
    var comments := CommentLoop(items.value, CommentStep(parseDate));
    if comments.Raised? {
      return Raised(comments.fault);
    }
    var created := FormatDate(Lookup(fields, "created", Str(DefaultCreated)), parseDate);
    if created.Raised? {
      return Raised(created.fault);
    }
    var issueType := Nested(fields, "issuetype", "name", Str(UnknownName));
    if issueType.Raised? {
      return Raised(issueType.fault);
    }
    var status := Nested(fields, "status", "name", Str(UnknownName));
    if status.Raised? {
      return Raised(status.fault);
    }
    var priority := Nested(fields, "priority", "name", Str(NoPriority));
    if priority.Raised? {
      return Raised(priority.fault);
    }
    var assignee := Nested(fields, "assignee", "displayName", Str(Unassigned));
    if assignee.Raised? {
      return Raised(assignee.fault);
    }
    var reporter := Nested(fields, "reporter", "displayName", Str(UnknownReporter));
    if reporter.Raised? {
      return Raised(reporter.fault);
    }
    var link := TrimSlashes(fetcher.server) + "/browse/" + key;
    result := Returned(Issue(key, Lookup(fields, "summary", Str(NoSummary)), issueType.value, status.value,
                             created.value, priority.value, description.value, assignee.value, reporter.value,
                             comments.value, link));
  }

  /** `JiraFetcher.get_issue`, with the comment list built by a loop as the
      code does, given what the client returned for the key. */
  method GetIssue(fetcher: Fetcher, key: string, response: Call<Json>, parseDate: string -> Option<string>)
    returns (doc: IssueDoc)
    ensures doc == NormalizeIssue(fetcher.server, key, response, parseDate)
  {
    if response.Raised? {
      return Failed(key, Exception(response.fault));
    }
    var issue := response.value;
    if !Truthy(issue) || !issue.Obj? {
      return Failed(key, Message(NotFoundMessage));
    }
    var fieldsValue := Lookup(issue.members, "fields", EmptyObj);
    if !fieldsValue.Obj? {
      return Failed(key, Message(MissingFieldsMessage));
    }
    var record := BuildRecord(fetcher, key, fieldsValue.members, parseDate);
    if record.Raised? {
      return Failed(key, Exception(record.fault));
    }
    doc := Found(record.value);
  }

  /** `"1970-01-01T00:00:00.000+0000"` has no `Z`, so it reaches the date
      library unchanged. */
  lemma DefaultCreatedHasNoZ()
    ensures ReplaceZ(DefaultCreated) == DefaultCreated
  {
    assert forall k :: 0 <= k < |DefaultCreated| ==> DefaultCreated[k] != 'Z';
  }

  /** The default timestamp is formatted as the date library formats it. */
  lemma DefaultDate(parseDate: string -> Option<string>, day: string)
    requires parseDate(DefaultCreated) == Some(day)
    ensures FormatDate(Str(DefaultCreated), parseDate) == Returned(day)
  {
    DefaultCreatedHasNoZ();
  }

  /** Fields without a description, comments or creation date give an empty
      description, no comments and the default date. */
  lemma DefaultContent(fields: map<string, Json>, parseDate: string -> Option<string>, day: string)
    requires "description" !in fields && "comment" !in fields && "created" !in fields
    requires parseDate(DefaultCreated) == Some(day)
    ensures ContentOf(fields, parseDate) == Returned(Content("", [], day))
  {
    assert CleanValue(Lookup(fields, "description", Str(""))) == Returned("") by {}
    assert CommentItems(fields) == Returned([]) by {}
    assert MapCalls([], CommentStep(parseDate)) == Returned([]) by {}
    assert FormatDate(Lookup(fields, "created", Str(DefaultCreated)), parseDate) == Returned(day) by {
      DefaultDate(parseDate, day);
    }
  }

  /** An issue without a `fields` member gets every default: the fields
      default to an empty dict. */
  lemma BareIssue(server: string, key: string, issue: Json, parseDate: string -> Option<string>, day: string)
    requires issue.Obj? && issue.members != map[] && "fields" !in issue.members
    requires parseDate(DefaultCreated) == Some(day)
    ensures NormalizeIssue(server, key, Returned(issue), parseDate)
            == Found(Issue(key, Str(NoSummary), Str(UnknownName), Str(UnknownName), day, Str(NoPriority), "",
                           Str(Unassigned), Str(UnknownReporter), [], BrowseLink(server, key)))
  {
    var fields: map<string, Json> := map[];
    assert IsRecord(issue) && FieldsOf(issue) == Obj(fields);
    DefaultContent(fields, parseDate, day);
    assert NamesOf(fields) == Returned(Names(Str(UnknownName), Str(UnknownName), Str(NoPriority),
                                             Str(Unassigned), Str(UnknownReporter)));
  }

  /** A comment with only a body is cleaned, dated with the default timestamp
      and attributed to `Unknown`. */
  lemma PlainComment(b: string, parseDate: string -> Option<string>, day: string)
    requires parseDate(DefaultCreated) == Some(day)
    ensures NormalizeComment(Obj(map["body" := Str(b)]), parseDate) == Returned(Comment(Clean(b), day, Str(UnknownAuthor)))
  {
    var m := map["body" := Str(b)];
    assert CleanValue(Lookup(m, "body", Str(""))) == Returned(Clean(b));
    assert FormatDate(Lookup(m, "created", Str(DefaultCreated)), parseDate) == Returned(day) by {
      DefaultDate(parseDate, day);
    }
    assert Nested(m, "author", "displayName", Str(UnknownAuthor)) == Returned(Str(UnknownAuthor));
  }

  /** An issue whose fields can be built into a record is found with that
      record. */
  lemma FoundWhenBuilt(server: string, key: string, fields: map<string, Json>, parseDate: string -> Option<string>)
    requires BuildIssue(server, key, fields, parseDate).Returned?
    ensures NormalizeIssue(server, key, Returned(Obj(map["fields" := Obj(fields)])), parseDate)
            == Found(BuildIssue(server, key, fields, parseDate).value)
  {
    var issue := Obj(map["fields" := Obj(fields)]);
    assert "fields" in issue.members;
    assert IsRecord(issue) && FieldsOf(issue) == Obj(fields);
  }

  /** Fields without description or creation date whose `comment` member
      holds the list `cs` give an empty description, the default date and the
      comments the loop makes of that very list. */
  lemma CommentedContent(fields: map<string, Json>, cs: seq<Json>, parseDate: string -> Option<string>, day: string)
    requires "description" !in fields && "created" !in fields
    requires "comment" in fields && fields["comment"] == Obj(map["comments" := Arr(cs)])
    requires parseDate(DefaultCreated) == Some(day)
    requires MapCalls(cs, CommentStep(parseDate)).Returned?
    ensures ContentOf(fields, parseDate) == Returned(Content("", MapCalls(cs, CommentStep(parseDate)).value, day))
  {
    assert CommentItems(fields) == Returned(cs) by {
      assert "comments" in fields["comment"].members;
    }
    assert CleanValue(Lookup(fields, "description", Str(""))) == Returned("");
    assert FormatDate(Lookup(fields, "created", Str(DefaultCreated)), parseDate) == Returned(day) by {
      DefaultDate(parseDate, day);
    }
  }

  /** An issue whose fields hold the comment list `cs`, readable names and no
      description or creation date is found when the comment loop succeeds on
      that list. Its record holds one comment per comment of the list, in
      order, each the normalised comment. */
  lemma CommentedIssue(server: string, key: string, fields: map<string, Json>, cs: seq<Json>,
                       parseDate: string -> Option<string>, day: string)
    requires "description" !in fields && "created" !in fields
    requires "comment" in fields && fields["comment"] == Obj(map["comments" := Arr(cs)])
    requires NamesOf(fields).Returned?
    requires parseDate(DefaultCreated) == Some(day)
    requires MapCalls(cs, CommentStep(parseDate)).Returned?
    ensures BuildIssue(server, key, fields, parseDate).Returned?
    ensures NormalizeIssue(server, key, Returned(Obj(map["fields" := Obj(fields)])), parseDate)
            == Found(BuildIssue(server, key, fields, parseDate).value)
    ensures Returned(BuildIssue(server, key, fields, parseDate).value.comments) == MapCalls(cs, CommentStep(parseDate))
  {
    CommentedContent(fields, cs, parseDate, day);
    FoundWhenBuilt(server, key, fields, parseDate);
  }

  /** An unassigned issue, which Jira reports as `"assignee": null`, does not
      get the `Unassigned` default: `.get` on None raises, and `get_issue`
      returns an error record. */
  lemma UnassignedIssueFails(server: string, key: string, parseDate: string -> Option<string>, day: string)
    requires parseDate(DefaultCreated) == Some(day)
    ensures var fields := Obj(map["assignee" := Null]);
            NormalizeIssue(server, key, Returned(Obj(map["fields" := fields])), parseDate)
            == Failed(key, Exception(AttributeError))
  {
    var fields := map["assignee" := Null];
    var issue := Obj(map["fields" := Obj(fields)]);
    assert "fields" in issue.members;
    assert IsRecord(issue) && FieldsOf(issue) == Obj(fields);
    assert !Shaped(fields, "assignee");
    assert NamesOf(fields) == Raised(AttributeError);
    assert ContentOf(fields, parseDate).Returned? by {
      DefaultContent(fields, parseDate, day);
    }
    assert BuildIssue(server, key, fields, parseDate) == Raised(AttributeError);
  }

  /** Replacing splits over concatenation. */
  lemma {:induction false} ReplaceEachZAppend(a: string, b: string)
    ensures ReplaceEachZ(a + b) == ReplaceEachZ(a) + ReplaceEachZ(b)
    decreases |a|
  {
    if a == [] {
      assert a + b == b;
    } else {
      assert (a + b)[0] == a[0] && (a + b)[1..] == a[1..] + b;
      ReplaceEachZAppend(a[1..], b);
    }
  }

  /** A text without `Z` is not changed by replacing. */
  lemma {:induction false} ReplaceEachZKeepsPlain(s: string)
    requires 'Z' !in s
    ensures ReplaceEachZ(s) == s
    decreases |s|
  {
    if s != [] {
      assert s == [s[0]] + s[1..];
      assert 'Z' !in s[1..] by {
        forall k | 0 <= k < |s[1..]|
          ensures s[1..][k] != 'Z'
        {
          assert s[1..][k] == s[k + 1];
        }
      }
      ReplaceEachZKeepsPlain(s[1..]);
    }
  }

  /** Skipping the scan when there is no `Z` gives the same text. */
  lemma ReplaceZIsReplaceEach(s: string)
    ensures ReplaceZ(s) == ReplaceEachZ(s)
  {
    if 'Z' !in s {
      ReplaceEachZKeepsPlain(s);
    }
  }

  /** `s.replace("Z", "+00:00")` turns each `Z` into `+00:00` and keeps what
      lies around it; with `ReplaceZ` keeping a `Z`-free text, this fixes the
      replacement on every text. */
  lemma ReplaceZSplit(a: string, b: string)
    ensures ReplaceZ(a + "Z" + b) == ReplaceZ(a) + "+00:00" + ReplaceZ(b)
  {
    ReplaceZIsReplaceEach(a);
    ReplaceZIsReplaceEach(b);
    ReplaceZIsReplaceEach(a + "Z" + b);
    ReplaceEachZAppend(a + "Z", b);
    ReplaceEachZAppend(a, "Z");
    assert ReplaceEachZ("Z") == "+00:00";
  }

  /** The reason for the replacement: a timestamp ending in Jira's `Z` is
      formatted as the same timestamp with the explicit offset `+00:00`. */
  lemma UtcSuffix(stamp: string, parseDate: string -> Option<string>)
    requires 'Z' !in stamp
    ensures FormatDate(Str(stamp + "Z"), parseDate) == FormatDate(Str(stamp + "+00:00"), parseDate)
  {
    var utc := stamp + "+00:00";
    assert ReplaceZ(stamp + "Z") == utc by {
      ReplaceZSplit(stamp, "");
      assert stamp + "Z" + "" == stamp + "Z";
      assert ReplaceZ("") == "";
    }
    assert 'Z' !in utc by {
      forall k | 0 <= k < |utc|
        ensures utc[k] != 'Z'
      {
        if k < |stamp| { assert utc[k] == stamp[k]; }
      }
    }
    assert ReplaceZ(utc) == utc;
  }

  /** Trailing slashes on the server setting do not change the link. */
  lemma {:induction false} LinkIgnoresTrailingSlash(server: string, key: string)
    ensures BrowseLink(server + "/", key) == BrowseLink(server, key)
  {
    assert TrimSlashes(server + "/") == TrimSlashes(server) by {
      assert (server + "/")[..|server|] == server;
    }
  }
}
