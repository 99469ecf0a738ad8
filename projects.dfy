/** `JiraFetcher.get_all_projects`: the client's project list reduced to the
    key and the name of each project. */
module Projects {
  import opened Values

  /** `{"key": project.get("key"), "name": project.get("name")}`. */
  datatype ProjectSummary = ProjectSummary(key: Json, name: Json)

  /** The summary of one project that is a dict: a missing member is null. */
  function Summary(project: Json): (r: ProjectSummary)
    requires project.Obj?
    ensures "key" in project.members ==> r.key == project.members["key"]
    ensures "key" !in project.members ==> r.key == Null
    ensures "name" in project.members ==> r.name == project.members["name"]
    ensures "name" !in project.members ==> r.name == Null
  {
    ProjectSummary(Lookup(project.members, "key", Null), Lookup(project.members, "name", Null))
  }

  /** `get_all_projects` on the client's answer: one summary per project, in
      the client's order. The answer is `[]` when the client raises, when it
      returns a falsy value, and when the comprehension raises: the value
      cannot be iterated, or one of its items is not a dict. */
  function AllProjects(response: Call<Json>): (r: seq<ProjectSummary>)
    ensures r != [] <==> response.Returned? && response.value.Arr? && response.value.items != []
                         && AllDicts(response.value.items)
    ensures response.Returned? && response.value.Arr? && AllDicts(response.value.items)
            ==> |r| == |response.value.items|
                && forall k :: 0 <= k < |r| ==> r[k] == Summary(response.value.items[k])
  {
    if response.Raised? || !Truthy(response.value) then []
    else
      match Items(response.value)
      case Raised(_) => []
      case Returned(projects) =>
        if AllDicts(projects) then seq(|projects|, k requires 0 <= k < |projects| => Summary(projects[k]))
        else []
  }

  /** The summaries of two lists of projects, listed one after the other,
      are the summaries of each list in turn. */
  lemma ProjectsAppend(a: seq<Json>, b: seq<Json>)
    requires AllDicts(a) && AllDicts(b)
    ensures AllProjects(Returned(Arr(a + b))) == AllProjects(Returned(Arr(a))) + AllProjects(Returned(Arr(b)))
  {
    var ab := a + b;
    assert AllDicts(ab) by {
      forall k | 0 <= k < |ab|
        ensures ab[k].Obj?
      {
        if k < |a| { assert ab[k] == a[k]; } else { assert ab[k] == b[k - |a|]; }
      }
    }
    var l := AllProjects(Returned(Arr(a)));
    var m := AllProjects(Returned(Arr(b)));
    assert |l + m| == |ab|;
    forall k | 0 <= k < |ab|
      ensures (l + m)[k] == Summary(ab[k])
    {
      if k < |a| { assert ab[k] == a[k]; } else { assert ab[k] == b[k - |a|]; }
    }
  }

  /** A project without a name is listed with a null name, not dropped. */
  lemma NamelessProject(project: Json)
    requires project.Obj? && "name" !in project.members
    ensures AllProjects(Returned(Arr([project]))) == [ProjectSummary(Lookup(project.members, "key", Null), Null)]
  {
    assert AllDicts([project]);
  }
}
