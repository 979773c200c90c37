/**
 Properties of the OptimizelyX client that relate several calls, and worked
 examples of its quirks: the last match wins, only the requested project id
 is case-folded, environments are optional where projects and audiences are
 required, and an audience id with no digit at its head comes back as NaN.
 */
module ClientProperties {
  import opened JsText
  import opened Optional
  import opened Lookup
  import opened OptimizelyXClient

  // ------------------------------------------------------------ construction

  /** Prefixing a token with either accepted marker and normalising gives the token back. */
  lemma BearerTokenRemovesMarker(token: string)
    ensures BearerToken("Bearer " + token) == token
    ensures BearerToken("bearer " + token) == token
  {
  }

  /** Only the first marker is removed. */
  lemma BearerTokenStripsOnce()
    ensures BearerToken("Bearer Bearer abc") == "Bearer abc"
  {
    assert "Bearer Bearer abc" == "Bearer " + "Bearer abc";
    BearerTokenRemovesMarker("Bearer abc");
  }

  /** Other spellings of the marker are kept. */
  lemma BearerTokenKeepsUpperCaseMarker()
    ensures BearerToken("BEARER abc") == "BEARER abc"
  {
    assert !StartsWith("BEARER abc", "Bearer ") by {
      assert "BEARER abc"[..7][1] != "Bearer "[1];
    }
    assert !StartsWith("BEARER abc", "bearer ") by {
      assert "BEARER abc"[..7][0] != "bearer "[0];
    }
  }

  // ---------------------------------------------------------------- projects

  /** The lookup succeeds exactly when some listed id equals the lower-cased request. */
  lemma GetProjectSucceedsIffListed(res: Response<seq<Project>>, projectId: string)
    requires res.statusCode == OkStatus
    ensures GetProject(res, projectId).Success? <==>
      exists i :: 0 <= i < |res.result| && res.result[i].id == Lower(projectId)
  {
  }

  /** The request's case does not matter. */
  lemma GetProjectIgnoresRequestCase(res: Response<seq<Project>>, a: string, b: string)
    requires Lower(a) == Lower(b)
    ensures GetProject(res, a) == GetProject(res, b)
  {
  }

  /** The stored side is NOT case-folded: a project whose id holds an
      upper-case letter is never returned, whatever is asked for. */
  lemma GetProjectNeverReturnsUpperCaseId(res: Response<seq<Project>>, projectId: string)
    requires GetProject(res, projectId).Success?
    ensures IsLowerCase(GetProject(res, projectId).value.id)
  {
  }

  lemma GetProjectExamples()
    ensures GetProject(Response(200, [Project("abc", "Proj A", "web"), Project("xyz", "Proj B", "web")]), "ABC")
         == Success(Project("abc", "Proj A", "web"))
    ensures GetProject(Response(200, [Project("abc", "Proj A", "web"), Project("abc", "Proj B", "web")]), "abc")
         == Success(Project("abc", "Proj B", "web"))
    ensures GetProject(Response(200, [Project("ABC", "Proj A", "web")]), "ABC") == Failure(ProjectNotFound)
    ensures GetProject(Response(404, [Project("abc", "Proj A", "web")]), "abc") == Failure(FailedToFetchProjects)
  {
    assert Lower("ABC") == "abc";
    assert Lower("abc") == "abc";
    var both := [Project("abc", "Proj A", "web"), Project("abc", "Proj B", "web")];
    assert IsLastMatch(both, ProjectIdIs("abc"), 1);
    LastMatchIsUnique(both, ProjectIdIs("abc"), 1);
    var upper := [Project("ABC", "Proj A", "web")];
    assert NoMatch(upper, ProjectIdIs("abc"));
  }

  // ------------------------------------------------------------ environments

  /** A successful environment lookup depends on the name only up to case. */
  lemma GetEnvironmentIgnoresNameCase(res: Response<seq<Environment>>, projectId: string, a: string, b: string)
    requires Lower(a) == Lower(b)
    requires res.statusCode == OkStatus
    ensures GetEnvironment(res, projectId, a) == GetEnvironment(res, projectId, b)
  {
  }

  /** Unlike a project, a missing environment is no error. */
  lemma GetEnvironmentExamples()
    ensures GetEnvironment(Response(200, [Environment("1", "Production", "Production")]), "p", "PRODUCTION")
         == Success(Some(Environment("1", "Production", "Production")))
    ensures GetEnvironment(Response(200, [Environment("1", "Production", "Production")]), "p", "staging")
         == Success(None)
    ensures GetEnvironment(Response(404, [Environment("1", "Production", "Production")]), "p", "Production")
         == Failure(FailedToFetchEnvironment("Production"))
  {
    var envs := [Environment("1", "Production", "Production")];
    assert Lower("PRODUCTION") == "production";
    assert Lower("Production") == "production";
    assert IsLastMatch(envs, EnvironmentKeyIs("PRODUCTION"), 0);
    LastMatchIsUnique(envs, EnvironmentKeyIs("PRODUCTION"), 0);
    assert Lower("staging") != "production" by {
      assert Lower("staging")[0] == 's';
    }
    assert NoMatch(envs, EnvironmentKeyIs("staging"));
  }

  // --------------------------------------------------------------- audiences

  /** An audience id rendered in decimal is read back as that number. */
  lemma GetAudienceIdReadsDecimalId(res: Response<seq<Audience>>, projectId: string, audienceName: string, i: nat, n: nat)
    requires res.statusCode == OkStatus
    requires IsLastMatch(res.result, AudienceNameIs(audienceName), i)
    requires res.result[i].id == Decimal(n)
    ensures GetAudienceId(res, projectId, audienceName) == Success(Int(n))
  {
    LastMatchIsUnique(res.result, AudienceNameIs(audienceName), i);
    ParseIntOfDecimal(n, "");
    assert Decimal(n) + "" == Decimal(n);
  }

  lemma GetAudienceIdFindsNumericId()
    ensures GetAudienceId(Response(200, [Audience("42", "Beta Users")]), "p", "beta users") == Success(Int(42))
  {
    var found := [Audience("42", "Beta Users")];
    assert Lower("Beta Users") == "beta users";
    assert IsLastMatch(found, AudienceNameIs("beta users"), 0);
    assert Decimal(42) == "42";
    GetAudienceIdReadsDecimalId(Response(200, found), "p", "beta users", 0, 42);
  }

  /** An id that does not parse is returned as NaN rather than refused. */
  lemma GetAudienceIdReturnsNaN()
    ensures GetAudienceId(Response(200, [Audience("x42", "Beta Users")]), "p", "beta users") == Success(NaN)
  {
    var unparsable := [Audience("x42", "Beta Users")];
    assert Lower("Beta Users") == "beta users";
    assert IsLastMatch(unparsable, AudienceNameIs("beta users"), 0);
    LastMatchIsUnique(unparsable, AudienceNameIs("beta users"), 0);
    ParseIntHexExamples();
  }

  /** `parseInt` keeps the digits at the head of an id and drops the rest, so
      an id such as "12abc" silently comes back as 12. */
  lemma GetAudienceIdKeepsLeadingDigits()
    ensures GetAudienceId(Response(200, [Audience("12abc", "Beta Users")]), "p", "beta users") == Success(Int(12))
  {
    var found := [Audience("12abc", "Beta Users")];
    assert Lower("Beta Users") == "beta users";
    assert IsLastMatch(found, AudienceNameIs("beta users"), 0);
    LastMatchIsUnique(found, AudienceNameIs("beta users"), 0);
    assert Decimal(12) == "12";
    assert "12abc" == Decimal(12) + "abc";
    ParseIntOfDecimal(12, "abc");
  }

  lemma GetAudienceIdFailures()
    ensures GetAudienceId(Response(200, [Audience("42", "Beta Users")]), "p", "alpha") == Failure(UnableToFindAudience("alpha"))
    ensures GetAudienceId(Response(404, [Audience("42", "Beta Users")]), "p", "beta users") == Failure(FailedToFetchAudience("beta users"))
  {
    assert Lower("alpha") != Lower("Beta Users") by {
      assert Lower("alpha")[0] == 'a';
    }
    assert NoMatch([Audience("42", "Beta Users")], AudienceNameIs("alpha"));
  }

  // ------------------------------------------------- experiments and features

  /** Reads of one experiment ignore both the status and the project id. */
  lemma GetExperimentIgnoresStatusAndProject(body: Option<Experiment>, s1: int, s2: int, p1: string, p2: string, experimentId: string)
    ensures GetExperiment(Response(s1, body), p1, experimentId) == GetExperiment(Response(s2, body), p2, experimentId)
    ensures GetExperiment(Response(s1, body), p1, experimentId) == body
  {
  }

  lemma GetFeatureIgnoresStatus(body: Option<Feature>, s1: int, s2: int, featureId: string)
    ensures GetFeature(Response(s1, body), featureId) == GetFeature(Response(s2, body), featureId)
    ensures GetFeature(Response(s1, body), featureId) == body
  {
  }

  /** A write's outcome depends on the status alone, not on what was written or returned. */
  lemma UpdateDependsOnStatusOnly(status: int, id: string,
                                  b1: Option<Experiment>, b2: Option<Experiment>, e1: Experiment, e2: Experiment,
                                  c1: Option<Feature>, c2: Option<Feature>, f1: Feature, f2: Feature)
    ensures UpdateExperiment(Response(status, b1), id, e1) == UpdateExperiment(Response(status, b2), id, e2)
    ensures UpdateFeature(Response(status, c1), id, f1) == UpdateFeature(Response(status, c2), id, f2)
    ensures status == OkStatus ==> UpdateFeature(Response(status, c1), id, f1) == Success(())
    ensures status != OkStatus ==> UpdateFeature(Response(status, c1), id, f1) == Failure(FailedToUpdatedFeature(id))
  {
  }
}
