/**
 * The projects API (projects.go), built the same way as the entries API:
 * listing calls fill a page, single-project calls decode a project, lists of
 * invoices and participants are decoded whole, and the remaining calls only
 * report an error. The bulk calls all use PUT, deletion included.
 */
module Projects {
  import opened Wrappers
  import opened Records
  import Query
  import opened Transport
  import opened Pagination
  import Entries

  /** `emptyProjectsPage`. */
  function EmptyProjectsPage(f: Freckle): (p: Page<Project>)
    ensures p.links == map[] && p.items == [] && !HasNext(p) && !HasPrevious(p)
    ensures p.client == f && p.decode == f.json.projects
  {
    EmptyPage(f, f.json.projects)
  }

  /** The input object `CreateProject` sends: the setters' inputs, then the name. */
  function CreateProjectInputs(fns: seq<Setter<Value>>, name: string): Inputs
  {
    Applied(fns, map[])["name" := Text(name)]
  }

  /** The name given as argument overrides a setter's; every other input is the setters' own. */
  lemma CreateProjectNameWins(fns: seq<Setter<Value>>, name: string)
    ensures var ins := CreateProjectInputs(fns, name);
      && ins["name"] == Text(name)
      && ins.Keys == Applied(fns, map[]).Keys + {"name"}
      && forall k :: k in Applied(fns, map[]) && k != "name" ==> ins[k] == Applied(fns, map[])[k]
  {
  }

  /** The input object of the bulk calls: the project ids, null when the call passes none. */
  function BulkInputs(ids: Option<seq<int>>): Inputs
  {
    map["project_ids" := IdList(ids)]
  }

  /**
   * Listing projects with `billable` set to "true" and `from` to "2014-12-18"
   * requests `/projects?billable=true&from=2014-12-18`: keys sorted, nothing
   * to escape.
   */
  lemma BillableFromQuery(base: string)
    ensures Url(base, "/projects", Some(map["billable" := "true", "from" := "2014-12-18"]))
         == base + "/projects" + "?" + (("billable" + "=" + "true") + "&" + ("from" + "=" + "2014-12-18"))
  {
    assert Query.LessEq("billable", "from");
    UrlTwoPlainParameters(base, "/projects", "billable", "true", "from", "2014-12-18");
  }

  /** `ListProjects`: GET /projects with the setters' parameters, filling a projects page. */
  method ListProjects(f: Freckle, fns: seq<Setter<string>>) returns (out: Outcome<Page<Project>>)
    ensures out == Perform(f, "GET", "/projects", Some(Applied(fns, map[])), None, EmptyProjectsPage(f), Filler(EmptyProjectsPage(f)))
  {
    var result := EmptyProjectsPage(f);
    var ps := ApplySetters(fns);
    out := Do(f, "GET", "/projects", Some(ps), None, result, Filler(result));
  }

  /** `GetProject`: GET /projects/{id}, decoding one project. */
  method GetProject(f: Freckle, id: int) returns (out: Outcome<Project>)
    ensures out == Perform(f, "GET", "/projects/" + Decimal(id), None, None, ZeroProject, Decoding(f.json.project))
  {
    out := Do(f, "GET", "/projects/" + Decimal(id), None, None, ZeroProject, Decoding(f.json.project));
  }

  /** `CreateProject`: POST /projects with the inputs and the name, decoding the new project. */
  method CreateProject(f: Freckle, name: string, fns: seq<Setter<Value>>) returns (out: Outcome<Project>)
    ensures out == Perform(f, "POST", "/projects", None, Some(CreateProjectInputs(fns, name)), ZeroProject, Decoding(f.json.project))
  {
    var ins := ApplySetters(fns);
    ins := ins["name" := Text(name)];
    out := Do(f, "POST", "/projects", None, Some(ins), ZeroProject, Decoding(f.json.project));
  }

  /** `GetEntries`: GET /projects/{id}/entries, filling an entries page. */
  method GetEntries(f: Freckle, id: int) returns (out: Outcome<Page<Entry>>)
    ensures out == Perform(f, "GET", "/projects/" + Decimal(id) + "/entries", None, None,
                           Entries.EmptyEntriesPage(f), Filler(Entries.EmptyEntriesPage(f)))
  {
    var result := Entries.EmptyEntriesPage(f);
    out := Do(f, "GET", "/projects/" + Decimal(id) + "/entries", None, None, result, Filler(result));
  }

  /** `GetInvoices`: GET /projects/{id}/invoices, decoding a list of invoices. */
  method GetInvoices(f: Freckle, id: int) returns (out: Outcome<seq<Invoice>>)
    ensures out == Perform(f, "GET", "/projects/" + Decimal(id) + "/invoices", None, None, [], Decoding(f.json.invoices))
  {
    out := Do(f, "GET", "/projects/" + Decimal(id) + "/invoices", None, None, [], Decoding(f.json.invoices));
  }

  /** `GetParticipants`: GET /projects/{id}/participants, decoding a list of participants. */
  method GetParticipants(f: Freckle, id: int) returns (out: Outcome<seq<Participant>>)
    ensures out == Perform(f, "GET", "/projects/" + Decimal(id) + "/participants", None, None, [], Decoding(f.json.participants))
  {
    out := Do(f, "GET", "/projects/" + Decimal(id) + "/participants", None, None, [], Decoding(f.json.participants));
  }

  /** `EditProject`: PUT /projects/{id} with the setters' inputs, even when there are none. */
  method EditProject(f: Freckle, id: int, fns: seq<Setter<Value>>) returns (out: Outcome<Project>)
    ensures out == Perform(f, "PUT", "/projects/" + Decimal(id), None, Some(Applied(fns, map[])), ZeroProject, Decoding(f.json.project))
  {
    var ins := ApplySetters(fns);
    out := Do(f, "PUT", "/projects/" + Decimal(id), None, Some(ins), ZeroProject, Decoding(f.json.project));
  }

  /** `MergeProject`: PUT /projects/{target}/merge naming the project to merge into it. */
  method MergeProject(f: Freckle, target: int, toMerge: int) returns (err: Option<Error>)
    ensures err == Perform(f, "PUT", "/projects/" + Decimal(target) + "/merge", None,
                           Some(map["project_id" := Number(toMerge)]), (), Ignoring()).error
  {
    var ins: Inputs := map[];
    ins := ins["project_id" := Number(toMerge)];
    var out := Do(f, "PUT", "/projects/" + Decimal(target) + "/merge", None, Some(ins), (), Ignoring());
    err := out.error;
  }

  /** `DeleteProject`: DELETE /projects/{id}. */
  method DeleteProject(f: Freckle, id: int) returns (err: Option<Error>)
    ensures err == Perform(f, "DELETE", "/projects/" + Decimal(id), None, None, (), Ignoring()).error
  {
    var out := Do(f, "DELETE", "/projects/" + Decimal(id), None, None, (), Ignoring());
    err := out.error;
  }

  /** `ArchiveProject`: PUT /projects/{id}/archive without a body. */
  method ArchiveProject(f: Freckle, id: int) returns (err: Option<Error>)
    ensures err == Perform(f, "PUT", "/projects/" + Decimal(id) + "/archive", None, None, (), Ignoring()).error
  {
    var out := Do(f, "PUT", "/projects/" + Decimal(id) + "/archive", None, None, (), Ignoring());
    err := out.error;
  }

  /** `UnarchiveProject`: PUT /projects/{id}/unarchive without a body. */
  method UnarchiveProject(f: Freckle, id: int) returns (err: Option<Error>)
    ensures err == Perform(f, "PUT", "/projects/" + Decimal(id) + "/unarchive", None, None, (), Ignoring()).error
  {
    var out := Do(f, "PUT", "/projects/" + Decimal(id) + "/unarchive", None, None, (), Ignoring());
    err := out.error;
  }

  /** `ArchiveMultipleProjects`: PUT /projects/archive with the ids. */
  method ArchiveMultipleProjects(f: Freckle, ids: Option<seq<int>>) returns (err: Option<Error>)
    ensures err == Perform(f, "PUT", "/projects/archive", None, Some(BulkInputs(ids)), (), Ignoring()).error
  {
    var ins: Inputs := map[];
    ins := ins["project_ids" := IdList(ids)];
    var out := Do(f, "PUT", "/projects/archive", None, Some(ins), (), Ignoring());
    err := out.error;
  }

  /** `UnarchiveMultipleProjects`: PUT /projects/unarchive with the ids. */
  method UnarchiveMultipleProjects(f: Freckle, ids: Option<seq<int>>) returns (err: Option<Error>)
    ensures err == Perform(f, "PUT", "/projects/unarchive", None, Some(BulkInputs(ids)), (), Ignoring()).error
  {
    var ins: Inputs := map[];
    ins := ins["project_ids" := IdList(ids)];
    var out := Do(f, "PUT", "/projects/unarchive", None, Some(ins), (), Ignoring());
    err := out.error;
  }

  /** `DeleteMultipleProjects`: PUT (not DELETE) /projects/delete with the ids. */
  method DeleteMultipleProjects(f: Freckle, ids: Option<seq<int>>) returns (err: Option<Error>)
    ensures err == Perform(f, "PUT", "/projects/delete", None, Some(BulkInputs(ids)), (), Ignoring()).error
  {
    var ins: Inputs := map[];
    ins := ins["project_ids" := IdList(ids)];
    var out := Do(f, "PUT", "/projects/delete", None, Some(ins), (), Ignoring());
    err := out.error;
  }
}
