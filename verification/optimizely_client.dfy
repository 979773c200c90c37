/**
 The OptimizelyX REST client: how it normalises its credentials at
 construction, and what each operation makes of the response its HTTP call
 returns. The transport itself is not modelled; every operation takes that
 response as an argument.
 */
module OptimizelyXClient {
  import opened JsText
  import opened Optional
  import opened Lookup

  // ---------------------------------------------------------------- entities

  /** A JSON value the client only forwards (the `any`-typed `environments`). */
  datatype Untyped = Untyped(json: string)

  datatype Project = Project(id: string, name: string, platform: string)

  datatype Variation = Variation(name: string, key: string, weight: int)

  datatype Experiment = Experiment(
    id: string,
    name: string,
    key: string,
    status: string,
    variations: seq<Variation>,
    environments: Untyped,
    holdback: int,
    experimentType: string,
    audienceConditions: string)

  datatype Environment = Environment(id: string, name: string, key: string)

  datatype Audience = Audience(id: string, name: string)

  datatype Variable = Variable(key: string, variableType: string, defaultValue: string)

  datatype Feature = Feature(id: string, key: string, variables: seq<Variable>, environments: Untyped)

  /** What one REST call yields: the HTTP status and the parsed body. */
  datatype Response<R> = Response(statusCode: int, result: R)

  /** The errors the client throws, by their message key, with the argument
      each message is rendered with. */
  datatype Error =
    | FailedToFetchProjects
    | ProjectNotFound
    | FailedToFetchExperiments
    | FailedToFetchEnvironment(environmentName: string)
    | FailedToFetchAudience(audienceName: string)
    | UnableToFindAudience(audienceName: string)
    | FailedToUpdatedExperiment(experimentId: string)
    | FailedToUpdatedFeature(featureId: string)

  datatype Result<T> = Success(value: T) | Failure(error: Error)

  const OkStatus := 200

  // ------------------------------------------------------------ construction

  const DefaultUserAgent := "AzDevOps_OptimizelyX"

  /** What the REST client is built from. */
  datatype Client = Client(baseUrl: string, userAgent: string, token: string)

  /** `!userAgent` holds for an absent and for an empty string alike. */
  function EffectiveUserAgent(userAgent: Option<string>): (r: string)
    ensures r != ""
    ensures userAgent.Some? && userAgent.value != "" ==> r == userAgent.value
    ensures userAgent.None? || userAgent.value == "" ==> r == DefaultUserAgent
  {
    if userAgent.None? || userAgent.value == "" then DefaultUserAgent else userAgent.value
  }

  /** The bearer token taken from the credential: a leading "Bearer " or
      "bearer " is removed with `replace`, which drops its first occurrence;
      every other spelling is kept as it is. */
  function BearerToken(pat: string): (token: string)
    ensures StartsWith(pat, "Bearer ") ==> token == pat[7..]
    ensures !StartsWith(pat, "Bearer ") && StartsWith(pat, "bearer ") ==> token == pat[7..]
    ensures !StartsWith(pat, "Bearer ") && !StartsWith(pat, "bearer ") ==> token == pat
  {
    if StartsWith(pat, "Bearer ") then ReplaceFirst(pat, "Bearer ", "")
    else if StartsWith(pat, "bearer ") then ReplaceFirst(pat, "bearer ", "")
    else pat
  }

  function NewClient(url: string, pat: string, userAgent: Option<string>): (c: Client)
    ensures c.baseUrl == url
    ensures c.userAgent != ""
    ensures userAgent.Some? && userAgent.value != "" ==> c.userAgent == userAgent.value
    ensures userAgent.None? || userAgent.value == "" ==> c.userAgent == DefaultUserAgent
    ensures |c.token| == |pat| || |c.token| == |pat| - 7
    ensures StartsWith(pat, "Bearer ") || StartsWith(pat, "bearer ") ==> pat == pat[..7] + c.token
    ensures !StartsWith(pat, "Bearer ") && !StartsWith(pat, "bearer ") ==> c.token == pat
  {
    Client(url, EffectiveUserAgent(userAgent), BearerToken(pat))
  }

  // ---------------------------------------------------------- status checks

  /** The check every listing and write makes first: anything but 200 fails. */
  function RequireOk<R>(res: Response<R>, failure: Error): (r: Result<R>)
    ensures r.Success? <==> res.statusCode == OkStatus
    ensures r.Success? ==> r.value == res.result
    ensures r.Failure? ==> r.error == failure
  {
    if res.statusCode != OkStatus then Failure(failure) else Success(res.result)
  }

  // ---------------------------------------------------------------- projects

  /** `getProjects`: the project listing, unfiltered and in order. */
  function GetProjects(res: Response<seq<Project>>): (r: Result<seq<Project>>)
    ensures res.statusCode != OkStatus ==> r == Failure(FailedToFetchProjects)
    ensures res.statusCode == OkStatus ==> r == Success(res.result)
  {
    RequireOk(res, FailedToFetchProjects)
  }

  /** Only the REQUESTED id is lower-cased; the stored ids are compared as they are. */
  function ProjectIdIs(wanted: string): Project -> bool {
    (p: Project) => p.id == wanted
  }

  /** `getProject`: the last listed project whose id equals the lower-cased request. */
  function GetProject(res: Response<seq<Project>>, projectId: string): (r: Result<Project>)
    ensures res.statusCode != OkStatus ==> r == Failure(FailedToFetchProjects)
    ensures res.statusCode == OkStatus ==>
      match LastMatchIndex(res.result, ProjectIdIs(Lower(projectId)))
      case None => r == Failure(ProjectNotFound)
      case Some(i) => r == Success(res.result[i])
    ensures r.Success? ==> r.value.id == Lower(projectId) && Lower(r.value.id) == r.value.id
  {
    match GetProjects(res)
    case Failure(e) => Failure(e)
    case Success(projects) =>
      var matches := ProjectIdIs(Lower(projectId));
      var selected := ForEachOverwrite(projects, matches, (p: Project) => p, None);
      ForEachOverwriteKeepsLastMatch(projects, matches, (p: Project) => p, None);
      if selected.None? then Failure(ProjectNotFound) else Success(selected.value)
  }

  // ------------------------------------------------------------- experiments

  /** `getExperiments`: the project's experiments, unfiltered and in order. */
  function GetExperiments(res: Response<seq<Experiment>>, projectId: string): (r: Result<seq<Experiment>>)
    ensures res.statusCode != OkStatus ==> r == Failure(FailedToFetchExperiments)
    ensures res.statusCode == OkStatus ==> r == Success(res.result)
  {
    RequireOk(res, FailedToFetchExperiments)
  }

  /** `getExperiment`: the body as received, whatever the status; a missing
      body is `None`. `projectId` is accepted and ignored. */
  function GetExperiment(res: Response<Option<Experiment>>, projectId: string, experimentId: string): (r: Option<Experiment>)
    ensures r == res.result
  {
    res.result
  }

  /** `updateExperiment`: succeeds exactly on status 200. */
  function UpdateExperiment(res: Response<Option<Experiment>>, experimentId: string, experiment: Experiment): (r: Result<()>)
    ensures r.Success? <==> res.statusCode == OkStatus
    ensures r.Failure? ==> r.error == FailedToUpdatedExperiment(experimentId)
  {
    match RequireOk(res, FailedToUpdatedExperiment(experimentId))
    case Failure(e) => Failure(e)
    case Success(_) => Success(())
  }

  // ---------------------------------------------------------------- features

  /** `getFeature`: the body as received, whatever the status. */
  function GetFeature(res: Response<Option<Feature>>, featureId: string): (r: Option<Feature>)
    ensures r == res.result
  {
    res.result
  }

  /** `updateFeature`: succeeds exactly on status 200. */
  function UpdateFeature(res: Response<Option<Feature>>, featureId: string, feature: Feature): (r: Result<()>)
    ensures r.Success? <==> res.statusCode == OkStatus
    ensures r.Failure? ==> r.error == FailedToUpdatedFeature(featureId)
  {
    match RequireOk(res, FailedToUpdatedFeature(featureId))
    case Failure(e) => Failure(e)
    case Success(_) => Success(())
  }

  // ------------------------------------------------------------ environments

  /** Both the stored key and the requested name are lower-cased. */
  function EnvironmentKeyIs(environmentName: string): Environment -> bool {
    (e: Environment) => Lower(e.key) == Lower(environmentName)
  }

  /** `getEnvironment`: the last environment whose key matches the name up to
      case; no match is not an error but `None` (the source's `null`). */
  function GetEnvironment(res: Response<seq<Environment>>, projectId: string, environmentName: string): (r: Result<Option<Environment>>)
    ensures res.statusCode != OkStatus ==> r == Failure(FailedToFetchEnvironment(environmentName))
    ensures res.statusCode == OkStatus ==>
      match LastMatchIndex(res.result, EnvironmentKeyIs(environmentName))
      case None => r == Success(None)
      case Some(i) => r == Success(Some(res.result[i]))
    ensures r.Failure? <==> res.statusCode != OkStatus
  {
    match RequireOk(res, FailedToFetchEnvironment(environmentName))
    case Failure(e) => Failure(e)
    case Success(environments) =>
      var matches := EnvironmentKeyIs(environmentName);
      ForEachOverwriteKeepsLastMatch(environments, matches, (e: Environment) => e, None);
      Success(ForEachOverwrite(environments, matches, (e: Environment) => e, None))
  }

  // --------------------------------------------------------------- audiences

  /** Both the stored name and the requested name are lower-cased. */
  function AudienceNameIs(audienceName: string): Audience -> bool {
    (a: Audience) => Lower(a.name) == Lower(audienceName)
  }

  /** What the loop body assigns for a matching audience. */
  function ParsedAudienceId(a: Audience): JsNumber {
    ParseInt(a.id)
  }

  /** `getAudienceId`: `parseInt` of the id of the last audience whose name
      matches up to case. Only a missing match is refused: an id that does
      not parse yields NaN, which is not `null`, and is returned. */
  function GetAudienceId(res: Response<seq<Audience>>, projectId: string, audienceName: string): (r: Result<JsNumber>)
    ensures res.statusCode != OkStatus ==> r == Failure(FailedToFetchAudience(audienceName))
    ensures res.statusCode == OkStatus ==>
      match LastMatchIndex(res.result, AudienceNameIs(audienceName))
      case None => r == Failure(UnableToFindAudience(audienceName))
      case Some(i) => r == Success(ParseInt(res.result[i].id))
  {
    match RequireOk(res, FailedToFetchAudience(audienceName))
    case Failure(e) => Failure(e)
    case Success(audiences) =>
      var matches := AudienceNameIs(audienceName);
      var audienceId := ForEachOverwrite(audiences, matches, ParsedAudienceId, None);
      ForEachOverwriteKeepsLastMatch(audiences, matches, ParsedAudienceId, None);
      if audienceId.None? then Failure(UnableToFindAudience(audienceName)) else Success(audienceId.value)
  }
}
