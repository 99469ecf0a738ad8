# A verified model of the Jira fetcher of `mcp-jira`

`JiraFetcher` (`src/mcp-jira/jira.py`) has four parts:

- It reads three credentials and refuses to start when one is empty.
- It cleans Jira wiki markup out of text (`_clean_text`).
- It turns one issue, as the Jira client returns it, into a flat record (`get_issue`).
- It runs a JQL search and fetches every hit with `get_issue`. A project's issues are one such search (`get_project_issues`), and the project list is reduced to keys and names (`get_all_projects`).

The model has seven modules:

- `Values`: the JSON values Jira returns, and a `Call` outcome that is either a value or the exception a Python expression raised. It also gives the Python semantics the fetcher depends on:
  - `dict.get` and truthiness;
  - `.get` on a non-dict, which raises AttributeError;
  - a `for` loop over a value, and a loop whose body may raise.
- `TextCleaner`: the cleaner. Each of the five substitutions is a leftmost-first, non-overlapping scan driven by a per-pattern matcher, which says what the regular expression would match at the head of a string. Then come newline-run collapsing and Python's `str.strip` with Python's whitespace set.
- `TextCleanerProperties`: what the cleaner does to text where no match starts, to colour tags, code blocks, images and links, and to text that is already collapsed and stripped.
- `MatchShapes`: each of the five regular expressions written as the set of texts it accepts. The matcher is proved to pick exactly the match Python's engine picks: an accepted text, and no accepted prefix shorter than it. A link gets the shortest display text. When the matcher finds nothing, no prefix is accepted.
- `IssueRecords`:
  - the credential check;
  - `get_issue` as a specification function (`NormalizeIssue`) and as methods that follow the statements of the code, with its comment loop (`GetIssue`, `BuildRecord`, `CommentLoop`);
  - the defaults table, the date formatting and the browse link.
  Every path that catches an exception is modelled: an exception in the client, a fault in the comment loop, a date that will not parse, and `.get` on a member that is not a dict. Each one gives an error record `{"key", "error"}`.
- `IssueSearch`: `search_issues` as a function (`Search`) and as a method with the loop of the code that calls `GetIssue` for every hit. Also the error filter and its laws, and the JQL query of `get_project_issues` with a parser that reads the project key back.
- `Projects`: `get_all_projects`, one `{key, name}` summary per project, or `[]`.

A consequence of the code as written is worth knowing. For an unassigned issue Jira sends `"assignee": null`. Then `fields.get("assignee", {})` is `None`, and calling `.get` on it raises. `get_issue` therefore returns an error record instead of the `Unassigned` default, and `search_issues` drops the issue. `IssueRecords.UnassignedIssueFails` states this.

The image pattern `!\[?[^\]]*?!` needs no brackets: any two `!` with no `]` between them make a match. Prose loses everything from one exclamation mark to the next, so the image pass turns `Great! Thanks!` into `Great`. `TextCleanerProperties.ProseBetweenBangsRemoved` and `GreatThanks` state this.

The passes run in the code's order, and the two colour passes come before the code-block pass. A colour tag inside a code block is therefore removed first, and what is left may no longer be a block: `{{color:x}}` cleans to `{}`. `TextCleanerProperties.CleanCodeBlock` excludes a body that starts with `color` for this reason.

## Model

| member | source | states |
|---|---|---|
| `Values.GetMember` | src/mcp-jira/jira.py:60 | `.get(k, d)` raises AttributeError exactly on a non-dict; on a dict it gives the member when present (even null), otherwise the fallback |
| `Values.Truthy` | src/mcp-jira/jira.py:38 | `not v` holds exactly for None, False, 0, `""`, `[]` and `{}` (the test at lines 38, 56, 109 and 140) |
| `Values.Lookup` | src/mcp-jira/jira.py:60 | `d.get(k, fallback)` on a dict is the member when the key is present (even if it is null), otherwise the fallback |
| `Values.Items` | src/mcp-jira/jira.py:72 | a list yields its elements. An empty str or dict yields nothing. A non-empty str or dict raises AttributeError, which is the loop body's `.get` on its first item (see Left out). Null, a boolean or a number is not iterable (TypeError) |
| `Values.MapCalls` | src/mcp-jira/jira.py:70-77 | an append loop whose body may raise: one result per item, in order, each the body's result on that item; or the exception of the first item that raises, all earlier items having succeeded; it succeeds when every item does |
| `Values.RaisedPrefix` | src/mcp-jira/jira.py:72-77 | once the loop has raised on a prefix, the whole loop raises that same exception: later items are never visited |
| `TextCleaner.MatchAt` | src/mcp-jira/jira.py:41-46 | a match starts with the pattern's first character, is non-empty, fits in the text and is longer than its replacement |
| `TextCleaner.LinkFrom` | src/mcp-jira/jira.py:46 | the bar of a link is reached without crossing a newline, and the `]` that closes it is the first after the bar, with at least one character between them |
| `TextCleaner.Substitute` | src/mcp-jira/jira.py:41-46 | a leftmost-first substitution never lengthens the text |
| `TextCleaner.CollapseNewlines` | src/mcp-jira/jira.py:48 | after collapsing, no newline follows another; the text does not grow and keeps its first character |
| `TextCleaner.StripLeft` | src/mcp-jira/jira.py:48 | removes exactly the longest whitespace prefix (`str.isspace` characters) |
| `TextCleaner.StripRight` | src/mcp-jira/jira.py:48 | removes exactly the longest whitespace suffix |
| `TextCleaner.IsSpace` | src/mcp-jira/jira.py:48 | the characters Python's `str.isspace` accepts, which `str.strip()` removes. It has no contract of its own |
| `TextCleaner.Strip` | src/mcp-jira/jira.py:48 | the result has no whitespace at either end, is no longer than the input and keeps the no-double-newline property |
| `TextCleaner.StripsToMiddle` | src/mcp-jira/jira.py:48 | stripping the left end and then the right end gives a slice of the input, kept unchanged, with only whitespace before and after it (`Middle`) |
| `TextCleaner.StripKeepsMiddle` | src/mcp-jira/jira.py:48 | `strip()` keeps the middle of the text unchanged and removes only whitespace around it. With `Trimmed`, exactly the surrounding whitespace is removed |
| `TextCleaner.Clean` | src/mcp-jira/jira.py:36-48 | empty text gives `""`; the cleaned text is no longer than the input, has no whitespace at either end and no newline run. What each of the five passes does in the whole cleaner is stated by `PlainText`, `CleanColorSpan`, `CleanCodeBlock`, `ProseBetweenBangsRemoved` and `CleanLink` |
| `TextCleaner.CleanValue` | src/mcp-jira/jira.py:38-39 | a falsy value gives `""`, a string is cleaned, and any other value makes `re.sub` raise TypeError |
| `TextCleanerProperties.PlainPassesThrough` | src/mcp-jira/jira.py:41-46 | a text without the pattern's first character is left unchanged by that pattern's substitution |
| `TextCleanerProperties.UnmatchedStretch` | src/mcp-jira/jira.py:41-46 | a stretch of text where no match starts is copied unchanged, and the scan resumes after it |
| `TextCleanerProperties.SkipUnmatched` | src/mcp-jira/jira.py:41-46 | a character where no match starts is copied, and the scan moves on by one |
| `TextCleanerProperties.UnmatchedPrefix` | src/mcp-jira/jira.py:41-46 | a prefix with no match starting at any of its positions is kept as it is, even when it holds `{`, `!` or `[` |
| `TextCleanerProperties.PlainPrefix` | src/mcp-jira/jira.py:41-46 | a markup-free prefix is copied and the scan resumes right after it |
| `TextCleanerProperties.MatchAfterPrefix` | src/mcp-jira/jira.py:41-46 | a match after a markup-free prefix is replaced and the scan continues after the match |
| `TextCleanerProperties.PlainText` | src/mcp-jira/jira.py:36-48 | text without `{`, `!` or `[` only has its newline runs collapsed and its ends stripped |
| `TextCleanerProperties.LinkSkipsLabel` | src/mcp-jira/jira.py:46 | the lazy label scan passes over characters that are neither newline nor bar |
| `TextCleanerProperties.LinkMatch` | src/mcp-jira/jira.py:46 | an opening `[`, a newline- and bar-free label, a bar, a non-empty target without `]` and a closing `]` form one match, replaced by the label |
| `TextCleanerProperties.LinkReplaced` | src/mcp-jira/jira.py:46 | such a link after link-free text becomes its display text; the text before it is unchanged |
| `TextCleanerProperties.CleanLink` | src/mcp-jira/jira.py:41-48 | the whole cleaner on text whose only markup is one link gives the display text in place of the link, collapsed and stripped |
| `TextCleanerProperties.ImageMatch` | src/mcp-jira/jira.py:45 | `!alt!` with no `!` or `]` in `alt` is one image match |
| `TextCleanerProperties.ImageRemoved` | src/mcp-jira/jira.py:45 | such an image after image-free text is removed |
| `TextCleanerProperties.LoneBangKept` | src/mcp-jira/jira.py:45 | a single `!` with no second `!` after it starts no image, so the text is unchanged (`Done! Bye`) |
| `TextCleanerProperties.ProseBetweenBangsRemoved` | src/mcp-jira/jira.py:36-48 | in text without other markup, everything from one `!` to the next is removed: `pre!mid!` cleans to `pre`, collapsed and stripped |
| `TextCleanerProperties.GreatThanks` | src/mcp-jira/jira.py:45 | the image pass turns the prose `Great! Thanks!` into `Great` |
| `TextCleanerProperties.CodeBlockMatch` | src/mcp-jira/jira.py:44 | `{{body}}` is one code-block match when the first `}}` is the closing one |
| `TextCleanerProperties.CodeBlockRemoved` | src/mcp-jira/jira.py:44 | such a block after brace-free text is removed |
| `TextCleanerProperties.ColorTagMatch` | src/mcp-jira/jira.py:41 | `{color:name}` with a non-empty, brace-free name is one match |
| `TextCleanerProperties.ColorTagRemoved` | src/mcp-jira/jira.py:41 | such a tag after brace-free text is removed |
| `TextCleanerProperties.ColorEndRemoved` | src/mcp-jira/jira.py:42 | a literal `{color}` after brace-free text is removed |
| `TextCleanerProperties.ColorFreePassesThrough` | src/mcp-jira/jira.py:41-42 | a text in which neither `{color:` nor `{color}` starts anywhere is unchanged by both colour passes |
| `TextCleanerProperties.InnerOpenNoColor` | src/mcp-jira/jira.py:41-42 | the second `{` of `{{body}}` opens neither `{color:` nor `{color}` when the body has no `}` and does not start with `color` |
| `TextCleanerProperties.CodeBlockColorFree` | src/mcp-jira/jira.py:41-44 | a code block whose body has no braces and does not start with `color` holds no colour markup, provided the text around it has no `{` |
| `TextCleanerProperties.CleanCodeBlock` | src/mcp-jira/jira.py:36-48 | the whole cleaner on text whose only markup is one `{{body}}` removes the block, then collapses and strips: `pre{{body}}post` cleans to `pre + post`, collapsed and stripped |
| `TextCleanerProperties.ShortTagNoMatch` | src/mcp-jira/jira.py:41 | a seven-character tag ending in `}`, such as `{color}`, does not open a colour tag |
| `TextCleanerProperties.ColorEndKept` | src/mcp-jira/jira.py:41 | the colour-tag pass leaves a closing `{color}` in place |
| `TextCleanerProperties.ColorEndStep` | src/mcp-jira/jira.py:42 | the `{color}` pass removes the one `{color}` in a text with no other `{` |
| `TextCleanerProperties.ColorSpanTagsRemoved` | src/mcp-jira/jira.py:41-42 | the two colour passes together remove the opening and closing tags of `{color:name}mid{color}` and keep `mid` |
| `TextCleanerProperties.CleanColorSpan` | src/mcp-jira/jira.py:36-48 | the whole cleaner on text whose only markup is one coloured span keeps the coloured text: `pre{color:name}mid{color}post` cleans to `pre + mid + post`, collapsed and stripped |
| `TextCleanerProperties.CollapseKeepsSingleNewlines` | src/mcp-jira/jira.py:48 | collapsing a text without newline runs changes nothing, so collapsing is idempotent |
| `TextCleanerProperties.CollapseDoubleNewline` | src/mcp-jira/jira.py:48 | two newlines collapse exactly as one does, wherever they stand. With the lemma above, each newline run becomes one `\n` and every other character is kept |
| `TextCleanerProperties.StripKeepsTrimmed` | src/mcp-jira/jira.py:48 | stripping a text already trimmed changes nothing, so stripping is idempotent |
| `MatchShapes.MatchSound` | src/mcp-jira/jira.py:41-46 | every match the matcher finds is a text the pattern accepts: `{color:name}`, `{color}`, `{{...}}`, `!...!` without `]`, or a link. Its replacement is the pattern's: empty, or the link's display text |
| `MatchShapes.LinkFromLeast` | src/mcp-jira/jira.py:46 | the link scan finds a link whenever some bar has a valid target. It stops at that bar or an earlier one, and its closing `]` is no later |
| `MatchShapes.MatchLeast` | src/mcp-jira/jira.py:41-46 | whenever the pattern accepts a prefix, the matcher finds a match no longer than it, and for a link one whose display text is no longer. With `MatchSound`, this is the shortest accepted prefix that the lazy patterns pick |
| `MatchShapes.NoMatch` | src/mcp-jira/jira.py:41-46 | when the matcher finds nothing, the pattern accepts no prefix of the text |
| `IssueRecords.Connect` | src/mcp-jira/jira.py:21-27 | a fetcher exists exactly when server, email and token are all non-empty, and it keeps the three values |
| `IssueRecords.ReplaceZ` | src/mcp-jira/jira.py:80 | no `Z` is left after replacement, and a string without `Z` is unchanged |
| `IssueRecords.ReplaceEachZ` | src/mcp-jira/jira.py:80 | the scan that replaces each `Z` leaves no `Z` |
| `IssueRecords.ReplaceEachZAppend` | src/mcp-jira/jira.py:80 | replacing splits over concatenation |
| `IssueRecords.ReplaceEachZKeepsPlain` | src/mcp-jira/jira.py:80 | a text without `Z` is unchanged |
| `IssueRecords.ReplaceZIsReplaceEach` | src/mcp-jira/jira.py:80 | skipping the scan for a `Z`-free text gives the same result as the scan |
| `IssueRecords.ReplaceZSplit` | src/mcp-jira/jira.py:80 | each `Z` becomes `+00:00` and the text around it is replaced in turn. With `ReplaceZ` keeping `Z`-free text, this fixes `str.replace` on every text |
| `IssueRecords.UtcSuffix` | src/mcp-jira/jira.py:80-81 | a timestamp ending in `Z` is formatted as the same timestamp ending in `+00:00` |
| `IssueRecords.FormatDate` | src/mcp-jira/jira.py:80-81 | a non-string raises AttributeError at `.replace`; a string is given to the date library with each `Z` replaced; a refused date raises ValueError |
| `IssueRecords.TrimSlashes` | src/mcp-jira/jira.py:95 | `rstrip('/')` removes exactly the trailing run of slashes |
| `IssueRecords.BrowseLink` | src/mcp-jira/jira.py:95 | the link ends in `/browse/` and the key. Before that comes the server setting cut just before its trailing run of `/` |
| `IssueRecords.LinkIgnoresTrailingSlash` | src/mcp-jira/jira.py:95 | a trailing slash on the server setting does not change the browse link |
| `IssueRecords.Nested` | src/mcp-jira/jira.py:87 | `fields.get(outer, {}).get(inner, d)` succeeds exactly when the outer member is absent or a dict; it gives the default when either level is absent, otherwise the inner value |
| `IssueRecords.IsRecord` | src/mcp-jira/jira.py:56 | the client's answer passes the check exactly when it is a non-empty dict |
| `IssueRecords.FieldsOf` | src/mcp-jira/jira.py:60 | `issue.get("fields", {})`: the member when present, otherwise an empty dict |
| `IssueRecords.HasError` | src/mcp-jira/jira.py:116 | `"error" in doc`: true exactly of the error records. It has no contract of its own; the filter's contracts use it |
| `IssueRecords.NormalizeComment` | src/mcp-jira/jira.py:73-77 | a comment is normalised exactly when it is a dict, its body can be cleaned, its date formatted and its `author` is absent or a dict. Otherwise it raises what the first failing step raises: AttributeError for a non-dict comment, TypeError for a truthy non-string body, the date's AttributeError or ValueError, AttributeError for a non-dict author. A missing or falsy body gives `""`, and a string body is cleaned. The date is the formatted `created`, or the default timestamp. A missing author name gives `Unknown`, otherwise the author's display name |
| `IssueRecords.CommentStep` | src/mcp-jira/jira.py:73-77 | the loop body as a function of one comment, which `MapCalls` and `CommentLoop` apply. It has no contract of its own |
| `IssueRecords.CommentItems` | src/mcp-jira/jira.py:71-72 | when `fields["comment"]` is a dict, the loop runs over its `comments` member (`[]` when absent), as `Items` iterates it; when it is absent or not a dict, there are no comments |
| `IssueRecords.NamesOf` | src/mcp-jira/jira.py:87-93 | the five nested look-ups succeed exactly when each outer member is absent or a dict (else AttributeError), and each gives its default when absent, its value when present |
| `IssueRecords.ContentOf` | src/mcp-jira/jira.py:67-81 | description, comment loop and creation date succeed together or not at all, and give the cleaned description, the loop's comments and the formatted date |
| `IssueRecords.BuildIssue` | src/mcp-jira/jira.py:84-96 | the record exists exactly when content and names do. It has the requested key, the browse link, the summary or `No Summary`, the cleaned description (`""` when it is missing or null), the loop's comments, the formatted date and the five names. A failure after the content is an AttributeError |
| `IssueRecords.NormalizeIssue` | src/mcp-jira/jira.py:50-100 | a client exception, a falsy or non-dict issue, and non-dict fields give the three kinds of error record with the requested key; otherwise the record is found exactly when it can be built from the fields. A found record is the one `BuildIssue` builds, and it carries the key and its browse link |
| `IssueRecords.CommentLoop` | src/mcp-jira/jira.py:70-77 | the comment loop returns exactly `MapCalls` of its loop body, which `BuildRecord` passes as `CommentStep`: every comment normalised in order, or the first exception |
| `IssueRecords.BuildRecord` | src/mcp-jira/jira.py:67-96 | the method's statements, in the code's order, give exactly `BuildIssue`'s record or exception |
| `IssueRecords.GetIssue` | src/mcp-jira/jira.py:50-100 | the method returns exactly `NormalizeIssue`'s record, with each exception turned into an error record |
| `IssueRecords.DefaultCreatedHasNoZ` | src/mcp-jira/jira.py:80 | the default timestamp has no `Z`, so it reaches the date library unchanged |
| `IssueRecords.DefaultDate` | src/mcp-jira/jira.py:80-81 | when the date library accepts the default timestamp (`parseDate(DefaultCreated) == Some(day)`), that timestamp formats to `day` |
| `IssueRecords.DefaultContent` | src/mcp-jira/jira.py:67-81 | when the date library accepts the default timestamp as `day`, fields without description, comments or creation date give `""`, no comments and `day` |
| `IssueRecords.BareIssue` | src/mcp-jira/jira.py:60-96 | when the date library accepts the default timestamp as `day`, an issue without `fields` is found, with every default of the table and the date `day` |
| `IssueRecords.PlainComment` | src/mcp-jira/jira.py:73-77 | when the date library accepts the default timestamp as `day`, a comment with only a body `b` becomes the comment with body `Clean(b)`, date `day` and author `Unknown` |
| `IssueRecords.FoundWhenBuilt` | src/mcp-jira/jira.py:56-96 | an issue whose fields can be built into a record is found, and `get_issue` returns exactly that record |
| `IssueRecords.CommentedContent` | src/mcp-jira/jira.py:67-81 | when the default timestamp is accepted as `day`, fields whose `comment` member holds the list `cs`, with no description and no date, give the description `""`, the loop's comments of `cs` and the date `day` |
| `IssueRecords.CommentedIssue` | src/mcp-jira/jira.py:60-96 | under the same conditions, with readable names, and when the comment loop succeeds on `cs`, the issue is found and its comments are exactly the loop's result on `cs`. By `MapCalls`' contract, that is one normalised comment per comment of `cs`, in order |
| `IssueRecords.UnassignedIssueFails` | src/mcp-jira/jira.py:92 | when the date library accepts the default timestamp, `"assignee": null` makes `get_issue` return an AttributeError record, not the `Unassigned` default |
| `IssueSearch.Filter` | src/mcp-jira/jira.py:116-117 | the kept records have no error, come from the input, and are no more than the input |
| `IssueSearch.FilterAppend` | src/mcp-jira/jira.py:113-117 | filtering a concatenation filters each part, so order is kept |
| `IssueSearch.FilterMembers` | src/mcp-jira/jira.py:116-117 | a record is kept exactly when it was in the input and has no error |
| `IssueSearch.FilterKeepsClean` | src/mcp-jira/jira.py:116-117 | a list without error records is kept whole |
| `IssueSearch.SearchItems` | src/mcp-jira/jira.py:107-114 | the loop runs exactly when the client answered with a dict holding an iterable `"issues"` member, over that member's items |
| `IssueSearch.ItemKey` | src/mcp-jira/jira.py:115 | a hit's key, or `UNKNOWN` when it has none |
| `IssueSearch.KeyText` | src/mcp-jira/jira.py:115 | a string key is passed to `get_issue` as it is |
| `IssueSearch.IssueFetch` | src/mcp-jira/jira.py:115 | `get_issue` as the loop calls it, with the hit's key and the search's `expand`, as a function of the key. It has no contract of its own; `SearchIssues` and `SearchedIssues` are stated through it |
| `IssueSearch.Fetched` | src/mcp-jira/jira.py:114-115 | one fetched record per hit, in order, each fetched with that hit's key |
| `IssueSearch.Search` | src/mcp-jira/jira.py:102-123 | no record with an error is returned. A failed search, or a hit that is not a dict, gives `[]`. Otherwise the result is the filter of the fetched records of the hits, in order, so `FilterAppend`'s order law applies. There are at most as many records as hits |
| `IssueSearch.SearchMembers` | src/mcp-jira/jira.py:113-119 | a record is in the result exactly when it is the error-free record of one of the hits, all hits being dicts |
| `IssueSearch.SearchWithoutErrors` | src/mcp-jira/jira.py:113-119 | when no hit's record has an error, the result has one record per hit, in order |
| `IssueSearch.SearchedIssues` | src/mcp-jira/jira.py:113-119 | with `get_issue` as the fetch, every result is an issue record whose key is one hit's key and whose link is that key's browse link |
| `IssueSearch.FetchedStep` | src/mcp-jira/jira.py:114-117 | one more dict hit appends its record, unless the record has an error |
| `IssueSearch.FetchHit` | src/mcp-jira/jira.py:115 | the loop body gives the record `get_issue` makes for the hit's key |
| `IssueSearch.FetchHits` | src/mcp-jira/jira.py:113-119 | the loop returns the error-free records of the hits in order, or `[]` when some hit is not a dict |
| `IssueSearch.SearchIssues` | src/mcp-jira/jira.py:102-123 | the method returns exactly `Search` of the client's answer, fetching with `get_issue` and the search's `expand` |
| `IssueSearch.ProjectJql` | src/mcp-jira/jira.py:127 | the query is the fixed prefix `project = `, then the project key, then the fixed suffix ` ORDER BY created DESC` |
| `IssueSearch.ProjectKeyOf` | src/mcp-jira/jira.py:127 | a key read back from a query rebuilds that very query |
| `IssueSearch.ProjectJqlRoundTrip` | src/mcp-jira/jira.py:127 | the key is read back from its project query |
| `IssueSearch.ProjectJqlInjective` | src/mcp-jira/jira.py:127 | distinct projects get distinct queries |
| `IssueSearch.ProjectQuery` | src/mcp-jira/jira.py:127-128 | the search for a project names that project and differs from the default search only in start and limit |
| `IssueSearch.GetProjectIssues` | src/mcp-jira/jira.py:125-128 | returns exactly `Search` of the client's answer to the project query, without expansion |
| `Projects.Summary` | src/mcp-jira/jira.py:144 | a project's key and name, null when missing |
| `Projects.AllProjects` | src/mcp-jira/jira.py:130-149 | the list is non-empty exactly when the client returned a non-empty list of dicts; then it has one summary per project, in order |
| `Projects.ProjectsAppend` | src/mcp-jira/jira.py:144 | listing two project lists one after the other lists each in turn |
| `Projects.NamelessProject` | src/mcp-jira/jira.py:144 | a project without a name is listed with a null name, not dropped |

## Left out

- The Jira client (`atlassian.Jira`), the network and authentication are not modelled. Every operation takes what the client returned, or the exception it raised, as a parameter: `response`, `results`, `client`, `respond`.
- Loading the environment (`load_dotenv`, `os.getenv`) is not modelled. `Connect` takes the three values it would read.
- Logging is left out; it has no effect on results.
- `datetime.fromisoformat(...).strftime("%Y-%m-%d")` is the parameter `parseDate`, which answers None for a string it refuses (ValueError). ISO-8601 parsing is not modelled.
- An error record holds the kind of exception (`Fault`), not the text of `str(e)`.
- JSON numbers are integers; no operation of the fetcher looks inside a number.
- Iterating a non-empty str or dict is fused into one AttributeError. The loop body's first `.get` on a string item raises it, and the model does not model the string items themselves.
- `IssueSearch.KeyText`: the model keeps a record's key as text. A non-string key from a hit is rendered by the parameter `show` (Python's `str`), and the rendered text is both the key passed to the client and the record's `key`. Python keeps the raw value in both places (jira.py:53, 58, 65, 85 and 100); only the link's f-string (jira.py:95) renders it. For a hit `{"key": 7}` Python's record holds `7` and the model's holds `show(Num(7))`. String keys, which Jira sends, are the same in both.
- `IssueRecords.DefaultDate`, `DefaultContent`, `BareIssue`, `UnassignedIssueFails`, `PlainComment`, `CommentedContent` and `CommentedIssue` hold only when the date library accepts the default timestamp `1970-01-01T00:00:00.000+0000`. Whether `datetime.fromisoformat` accepts the offset `+0000` depends on the Python version. Where it does not, every issue without `created` becomes a ValueError record, which the model gives as `FormatDate`'s ValueError.
- Dict ordering and the JSON layout of records are not modelled; records are datatypes with one field per member.
- The `expand` argument is only passed on to the client (`respond`), as the code does.
- The module-level script at the end of `jira.py` (create a fetcher, print every project) is left out. It is I/O.
