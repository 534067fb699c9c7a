/** The handlers of src/app/api/admin/projects/route.ts: the admin guard
    first, then one call into the project store. */
module AdminProjectsRoute {

  import opened Wrappers
  import opened ProjectModel
  import opened ProjectStore
  import opened AdminAuth

  /** The JSON responses the handlers send. */
  datatype Response =
    | ErrorBody(status: int, error: string)
    | ProjectsBody(projects: seq<Project>)
    | ProjectBody(project: Project)

  /** The request as the handlers see it: the `Authorization` header and the
      body, which either parses as JSON (`Success`) or throws with a message. */
  datatype Request = Request(authorization: Option<string>, body: Result<ProjectInput, string>)

  /** `GET`: every project, published or not, for an admin. */
  method Get(store: Store, request: Request, adminEmail: Option<string>, getUser: string -> UserLookup)
    returns (resp: Response)
    requires store.Valid()
    ensures RequireAdmin(request.authorization, adminEmail, getUser).Failure? ==>
      var d := RequireAdmin(request.authorization, adminEmail, getUser).error;
      resp == ErrorBody(d.status, d.message)
    ensures RequireAdmin(request.authorization, adminEmail, getUser).Success? ==>
      && resp.ProjectsBody?
      && IdsOf(resp.projects) == EligibleIds(store.rows, false)
      && Ranked(resp.projects) && DistinctIds(resp.projects)
      && DrawnFrom(Listing(store.rows, false, store.json), resp.projects)
  {
    var auth := RequireAdmin(request.authorization, adminEmail, getUser);
    if auth.Failure? {
      return ErrorBody(auth.error.status, auth.error.message);
    }
    var projects := store.GetProjects(Some(false), None);
    resp := ProjectsBody(projects);
  }

  /** `POST`: create a project from the body for an admin; a body that does
      not parse, an input `createProject` refuses, or a failed slug query or
      INSERT (`storeError`, checked once the title is present) is a 400
      carrying the error's message. */
  method Post(store: Store, request: Request, adminEmail: Option<string>, getUser: string -> UserLookup, now: int,
              storeError: Option<string>)
    returns (resp: Response)
    requires store.Valid()
    modifies store
    ensures store.Valid()
    ensures RequireAdmin(request.authorization, adminEmail, getUser).Failure? ==>
      && resp == ErrorBody(RequireAdmin(request.authorization, adminEmail, getUser).error.status,
                           RequireAdmin(request.authorization, adminEmail, getUser).error.message)
      && unchanged(store)
    ensures RequireAdmin(request.authorization, adminEmail, getUser).Success? && request.body.Failure? ==>
      resp == ErrorBody(400, request.body.error) && unchanged(store)
    ensures RequireAdmin(request.authorization, adminEmail, getUser).Success? && request.body.Success?
            && TitleMissing(request.body.value) ==>
      resp == ErrorBody(400, TITLE_REQUIRED) && store.rows == old(store.rows)
    ensures RequireAdmin(request.authorization, adminEmail, getUser).Success? && request.body.Success?
            && !TitleMissing(request.body.value) && storeError.Some? ==>
      resp == ErrorBody(400, storeError.value) && unchanged(store)
    ensures RequireAdmin(request.authorization, adminEmail, getUser).Success? && request.body.Success?
            && !TitleMissing(request.body.value) && storeError.None? ==>
      && old(store.nextId) in store.rows
      && store.rows == old(store.rows)[old(store.nextId) := store.rows[old(store.nextId)]]
      && resp == ProjectBody(NormalizeRow(store.rows[old(store.nextId)], store.json))
  {
    var auth := RequireAdmin(request.authorization, adminEmail, getUser);
    if auth.Failure? {
      return ErrorBody(auth.error.status, auth.error.message);
    }
    if request.body.Failure? {
      return ErrorBody(400, request.body.error);
    }
    if !TitleMissing(request.body.value) && storeError.Some? {
      return ErrorBody(400, storeError.value);
    }
    var created := store.CreateProject(request.body.value, now);
    match created
    case Failure(message) => resp := ErrorBody(400, message);
    case Success(project) => resp := ProjectBody(project);
  }
}
