/** Sessions and the authenticator (authz.ts): the statement loop of
    `Session.assertPerformAction`, the `UnauthenticatedSession` returned by
    default, and `AuthN.authenticate`, which asks its strategies in order. */
module Sessions {
  import opened Wrappers
  import opened Strings
  import opened ResourceIdentifiers
  import opened Matching
  import opened ActionRegistry
  import opened Policy

  /** The viewer an authenticated session exposes. */
  datatype User = User(id: string)

  /** The session variants: the unauthenticated default, and an authenticated
      session that stands for every concrete subclass, with the statements its
      loader returns per organization (an organization not in the map gets none). */
  datatype Session =
    | UnauthenticatedSession
    | AuthenticatedSession(viewer: User, policies: map<string, seq<Statement>>)

  /** `loadPolicyStatementsForOrganization`. */
  function LoadPolicyStatements(s: Session, organizationId: string): (stmts: seq<Statement>)
    ensures s.UnauthenticatedSession? ==> stmts == []
  {
    match s
    case UnauthenticatedSession => []
    case AuthenticatedSession(_, policies) =>
      if organizationId in policies then policies[organizationId] else []
  }

  /** `getViewer`: the base implementation, which the unauthenticated session
      keeps, always fails with `UNAUTHENTICATED`. */
  function GetViewer(s: Session): (r: Result<User, AuthzError>)
    ensures r.Err? <==> s.UnauthenticatedSession?
    ensures r.Err? ==> r.error == Unauthenticated
  {
    match s
    case UnauthenticatedSession => Err(Unauthenticated)
    case AuthenticatedSession(viewer, _) => Ok(viewer)
  }

  /** The question `assertPerformAction` answers for an action, an organization
      and the action's parameters. */
  function RequestFor(action: Action, organizationId: string, params: Params): Request {
    Request(Name(action), organizationId, CandidateIds(action, params))
  }

  /** `Session.assertPerformAction`: load the statements, derive the candidate
      ids, then scan the statements with the `isAllowed` flag, throwing at the
      first malformed resource or matching deny. */
  method AssertPerformAction(isUuid: string -> bool, session: Session, action: Action, organizationId: string, params: Params)
    returns (r: Outcome<AuthzError>)
    ensures r == Evaluate(isUuid, LoadPolicyStatements(session, organizationId), RequestFor(action, organizationId, params))
  {
    var permissions := LoadPolicyStatements(session, organizationId);
    var resourceIdsForAction := ResourceIdsForAction(action, params);
    r := CheckStatements(isUuid, permissions, Request(Name(action), organizationId, resourceIdsForAction));
  }

  /** An unauthenticated session is refused every action. */
  lemma UnauthenticatedAlwaysDenied(isUuid: string -> bool, action: Action, organizationId: string, params: Params)
    ensures Evaluate(isUuid, LoadPolicyStatements(UnauthenticatedSession, organizationId), RequestFor(action, organizationId, params))
         == Fail(AccessDenied)
  {
  }

  /** What one strategy's `parse` does with the request: decline (`null`),
      produce a session, or reject. */
  datatype StrategyResult = NoSession | SessionFound(session: Session) | Rejected(reason: string)

  /** The outcome of a strategy that did not decline. */
  function Decision(x: StrategyResult): Result<Session, string>
    requires !x.NoSession?
  {
    match x
    case SessionFound(s) => Ok(s)
    case Rejected(e) => Err(e)
  }

  /** The first strategy that does not decline decides; if all decline, the
      unauthenticated session. */
  function FirstSession(results: seq<StrategyResult>): Result<Session, string>
    decreases |results|
  {
    if results == [] then Ok(UnauthenticatedSession)
    else if results[0].NoSession? then FirstSession(results[1..])
    else Decision(results[0])
  }

  /** `AuthN.authenticate`, with `results[i]` what strategy `i` returns for the
      request; strategies after the deciding one are never asked. */
  method Authenticate(results: seq<StrategyResult>) returns (r: Result<Session, string>)
    ensures r == FirstSession(results)
  {
    var i := 0;
    while i < |results|
      invariant 0 <= i <= |results|
      invariant FirstSession(results[i..]) == FirstSession(results)
    {
      assert results[i..][0] == results[i] && results[i..][1..] == results[i + 1..];
      match results[i]
      case SessionFound(session) =>
        return Ok(session);
      case Rejected(reason) =>
        return Err(reason);
      case NoSession =>
      i := i + 1;
    }
    return Ok(UnauthenticatedSession);
  }

  /** The first strategy that does not decline decides, whatever the later ones
      would have returned. */
  lemma {:induction false} FirstDecidingStrategyWins(declined: seq<StrategyResult>, x: StrategyResult, later: seq<StrategyResult>)
    requires forall j :: 0 <= j < |declined| ==> declined[j] == NoSession
    requires !x.NoSession?
    ensures FirstSession(declined + [x] + later) == Decision(x)
    decreases |declined|
  {
    var all := declined + [x] + later;
    if declined == [] {
      assert all[0] == x;
    } else {
      assert all[0] == NoSession;
      assert all[1..] == declined[1..] + [x] + later;
      FirstDecidingStrategyWins(declined[1..], x, later);
    }
  }

  /** When every strategy declines, the request gets an unauthenticated session. */
  lemma {:induction false} AllDeclinedGivesUnauthenticated(results: seq<StrategyResult>)
    requires forall j :: 0 <= j < |results| ==> results[j] == NoSession
    ensures FirstSession(results) == Ok(UnauthenticatedSession)
    decreases |results|
  {
    if results != [] {
      AllDeclinedGivesUnauthenticated(results[1..]);
    }
  }

  // The pattern `<kind>/*` matches `<kind>/<id>` for every id.
  lemma KindWildcardMatches(kind: string, id: string)
    requires '/' !in kind
    ensures ResourceIdMatch(kind + "/*", kind + "/" + id)
  {
    assert kind + "/*" == kind + ['/'] + "*";
    SplitConcat(kind, "*", '/');
    SplitNoSeparator("*", '/');
    assert kind + "/" + id == kind + ['/'] + id;
    SplitConcat(kind, id, '/');
    TrailingStarMatchesExtensions([kind], Split(id, '/'));
  }

  /** `project:describe` has no wildcard, so it matches no other action. */
  lemma DescribeIsNotDelete()
    ensures !IsActionMatch(Name(ProjectDescribe), Name(ProjectDelete))
  {
    var p := Name(ProjectDescribe);
    assert p == "project:describe";
    assert '*' !in p;
    PlainPatternMatchesOnlyItself(p, Name(ProjectDelete));
    assert p != Name(ProjectDelete);
  }

  // A statement allowing `project:describe` on `project/*` of an organization
  // lets that action through for any project of it, and refuses
  // `project:delete` (the action differs).
  lemma ProjectWildcardScenario(isUuid: string -> bool, organizationId: string, params: Params)
    requires ValidOrganization(isUuid, organizationId)
    ensures var st := Statement(Allow, One(Name(ProjectDescribe)), One(Hrn(organizationId, "project/*")));
      && Evaluate(isUuid, [st], RequestFor(ProjectDescribe, organizationId, params)) == Pass
      && Evaluate(isUuid, [st], RequestFor(ProjectDelete, organizationId, params)) == Fail(AccessDenied)
  {
    var resource := Hrn(organizationId, "project/*");
    ProjectWildcardCovers(isUuid, organizationId, params, ProjectDescribe);
    ProjectWildcardCovers(isUuid, organizationId, params, ProjectDelete);
    ActionMatchReflexive(Name(ProjectDescribe));
    DescribeIsNotDelete();
    SingleAllowDecides(isUuid, Name(ProjectDescribe), resource, RequestFor(ProjectDescribe, organizationId, params));
    SingleAllowDecides(isUuid, Name(ProjectDescribe), resource, RequestFor(ProjectDelete, organizationId, params));
  }

  // `hrn:<org>:project/*` covers the project id derived for a project action.
  lemma ProjectWildcardCovers(isUuid: string -> bool, organizationId: string, params: Params, action: Action)
    requires ValidOrganization(isUuid, organizationId)
    requires DerivationOf(action) == ProjectIdentity
    ensures ParseResourceIdentifier(isUuid, Hrn(organizationId, "project/*")) == Ok(ParsedResource(organizationId, "project/*"))
    ensures ResourceApplies(ParsedResource(organizationId, "project/*"), RequestFor(action, organizationId, params))
  {
    ParseRoundTrip(isUuid, organizationId, "project/*");
    ProjectCandidate(action, organizationId, params);
    LiteralWildcardMatches(params.projectId);
  }

  lemma ProjectCandidate(action: Action, organizationId: string, params: Params)
    requires DerivationOf(action) == ProjectIdentity
    ensures |RequestFor(action, organizationId, params).candidates| == 2
    ensures RequestFor(action, organizationId, params).candidates[1] == "project/" + params.projectId
  {
  }

  lemma OrganizationCandidate(action: Action, organizationId: string, params: Params)
    ensures |RequestFor(action, organizationId, params).candidates| >= 1
    ensures RequestFor(action, organizationId, params).candidates[0] == "organization/" + params.organizationId
  {
    CandidateIdsShape(action, params);
  }

  lemma LiteralWildcardMatches(id: string)
    ensures ResourceIdMatch("project/*", "project/" + id)
    ensures ResourceIdMatch("organization/*", "organization/" + id)
  {
    KindWildcardMatches("project", id);
    assert "project" + "/*" == "project/*";
    assert "project" + "/" + id == "project/" + id;
    KindWildcardMatches("organization", id);
    assert "organization" + "/*" == "organization/*";
    assert "organization" + "/" + id == "organization/" + id;
  }

  // A statement on `hrn:*:organization/*` applies in every organization.
  lemma OrganizationWildcardScenario(isUuid: string -> bool, organizationId: string, params: Params)
    ensures var st := Statement(Allow, One(Name(OrganizationDescribe)), One(Hrn("*", "organization/*")));
      Evaluate(isUuid, [st], RequestFor(OrganizationDescribe, organizationId, params)) == Pass
  {
    var req := RequestFor(OrganizationDescribe, organizationId, params);
    ParseRoundTrip(isUuid, "*", "organization/*");
    OrganizationCandidate(OrganizationDescribe, organizationId, params);
    LiteralWildcardMatches(params.organizationId);
    assert ResourceApplies(ParsedResource("*", "organization/*"), req);
    ActionMatchReflexive(Name(OrganizationDescribe));
    SingleAllowDecides(isUuid, Name(OrganizationDescribe), Hrn("*", "organization/*"), req);
  }
}
