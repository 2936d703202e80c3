/** The translation of legacy access scopes into policy statements
    (legacy-permissions.ts): every recognised scope becomes one `allow`
    statement over `hrn:<organizationId>:*` granting a fixed set of actions. */
module LegacyPermissions {
  import opened Wrappers
  import opened ResourceIdentifiers
  import opened Matching
  import opened ActionRegistry
  import opened Policy
  import opened Sessions

  /** The members of `OrganizationAccessScope`, `ProjectAccessScope` and
      `TargetAccessScope` the translator names, and every other scope value. */
  datatype LegacyScope =
    | OrganizationRead
    | OrganizationSettings
    | OrganizationIntegrations
    | ProjectAlerts
    | TargetRegistryRead
    | TargetRegistryWrite
    | TargetSettings
    | OtherScope(name: string)

  /** The table of the `switch`: the actions each scope grants, in the order the
      source lists them; a scope without a `case` grants nothing. */
  function ScopeActions(scope: LegacyScope): (actions: seq<Action>)
    ensures actions == [] <==> scope.OtherScope?
  {
    match scope
    case OrganizationRead => [SupportManageTickets]
    case OrganizationSettings => [OrganizationUpdateSlug]
    case OrganizationIntegrations => [OidcModify]
    case ProjectAlerts => [AlertModify, AlertDescribe]
    case TargetRegistryRead => [AppDeploymentDescribe]
    case TargetRegistryWrite => [AppDeploymentCreate, AppDeploymentPublish, AppDeploymentRetire]
    case TargetSettings => [SchemaContractCreate, SchemaContractDisable, SchemaContractDescribe]
    case OtherScope(_) => []
  }

  function Names(actions: seq<Action>): (names: seq<string>)
    ensures |names| == |actions| && forall k :: 0 <= k < |actions| ==> names[k] == Name(actions[k])
  {
    seq(|actions|, k requires 0 <= k < |actions| => Name(actions[k]))
  }

  /** The statement pushed for a recognised scope. */
  function LegacyStatement(organizationId: string, actions: seq<string>): Statement {
    Statement(Allow, Many(actions), Many([Hrn(organizationId, "*")]))
  }

  /** What one iteration of the loop pushes for `scope`. */
  function Emitted(organizationId: string, scope: LegacyScope): seq<Statement> {
    match scope
    case OtherScope(_) => []
    case _ => [LegacyStatement(organizationId, Names(ScopeActions(scope)))]
  }

  /** The statements the translation loop leaves behind after visiting `scopes`. */
  function Transform(organizationId: string, scopes: seq<LegacyScope>): seq<Statement>
    decreases |scopes|
  {
    if scopes == [] then []
    else Transform(organizationId, scopes[..|scopes| - 1]) + Emitted(organizationId, scopes[|scopes| - 1])
  }

  /** What `f` gives for each scope, concatenated in order. */
  function Gather<T>(f: LegacyScope -> seq<T>, scopes: seq<LegacyScope>): seq<T>
    decreases |scopes|
  {
    if scopes == [] then []
    else Gather(f, scopes[..|scopes| - 1]) + f(scopes[|scopes| - 1])
  }

  /** All actions the scopes grant, scope by scope. */
  function GrantedActions(scopes: seq<LegacyScope>): seq<Action> {
    Gather(ScopeActions, scopes)
  }

  /** `transformLegacyPolicies`; the project and target ids are not used. */
  method TransformLegacyPolicies(organizationId: string, projectId: string, targetId: string, scopes: seq<LegacyScope>)
    returns (policies: seq<Statement>)
    ensures policies == Transform(organizationId, scopes)
  {
    policies := [];
    var i := 0;
    while i < |scopes|
      invariant 0 <= i <= |scopes|
      invariant policies == Transform(organizationId, scopes[..i])
    {
      assert scopes[..i + 1][..i] == scopes[..i];
      match scopes[i] {
        case OtherScope(_) =>
        case _ =>
          policies := policies + [LegacyStatement(organizationId, Names(ScopeActions(scopes[i])))];
      }
      i := i + 1;
    }
    assert scopes[..i] == scopes;
  }

  /** A recognised scope gives exactly one statement, any other scope none. */
  lemma TransformSingle(organizationId: string, scope: LegacyScope)
    ensures scope.OtherScope? <==> Transform(organizationId, [scope]) == []
    ensures !scope.OtherScope? ==>
      Transform(organizationId, [scope]) == [LegacyStatement(organizationId, Names(ScopeActions(scope)))]
  {
    assert [scope][..0] == [];
  }

  /** The loop works scope by scope: translating a concatenation concatenates
      the translations, in order. */
  lemma {:induction false} TransformConcat(organizationId: string, a: seq<LegacyScope>, b: seq<LegacyScope>)
    ensures Transform(organizationId, a + b) == Transform(organizationId, a) + Transform(organizationId, b)
    decreases |b|
  {
    if b == [] {
      assert a + b == a;
    } else {
      var b' := b[..|b| - 1];
      assert (a + b)[..|a + b| - 1] == a + b';
      assert (a + b)[|a + b| - 1] == b[|b| - 1];
      TransformConcat(organizationId, a, b');
    }
  }

  /** At most one statement per scope; exactly one each when every scope is
      recognised, none when none is. */
  lemma {:induction false} TransformLength(organizationId: string, scopes: seq<LegacyScope>)
    ensures |Transform(organizationId, scopes)| <= |scopes|
    ensures (forall i :: 0 <= i < |scopes| ==> !scopes[i].OtherScope?) ==> |Transform(organizationId, scopes)| == |scopes|
    ensures (forall i :: 0 <= i < |scopes| ==> scopes[i].OtherScope?) ==> Transform(organizationId, scopes) == []
    decreases |scopes|
  {
    if scopes != [] {
      var init := scopes[..|scopes| - 1];
      assert forall i :: 0 <= i < |init| ==> init[i] == scopes[i];
      TransformLength(organizationId, init);
    }
  }

  /** Every produced statement allows, names `hrn:<organizationId>:*` as its
      only resource, and lists wildcard-free action names of the catalogue. */
  lemma {:induction false} TransformShape(organizationId: string, scopes: seq<LegacyScope>)
    ensures forall st :: st in Transform(organizationId, scopes) ==>
      && st.effect == Allow
      && st.resource == Many([Hrn(organizationId, "*")])
      && st.action.Many?
      && forall k :: 0 <= k < |st.action.items| ==> '*' !in st.action.items[k]
    decreases |scopes|
  {
    if scopes != [] {
      var init := scopes[..|scopes| - 1];
      TransformShape(organizationId, init);
      ScopeNamesPlain(scopes[|scopes| - 1]);
    }
  }

  /** No action name of the table holds a wildcard. */
  lemma ScopeNamesPlain(scope: LegacyScope)
    ensures forall k :: 0 <= k < |ScopeActions(scope)| ==> '*' !in Name(ScopeActions(scope)[k])
  {
    match scope
    case OrganizationRead => OrganizationReadNamesPlain();
    case OrganizationSettings => OrganizationSettingsNamesPlain();
    case OrganizationIntegrations => OrganizationIntegrationsNamesPlain();
    case ProjectAlerts => ProjectAlertsNamesPlain();
    case TargetRegistryRead => TargetRegistryReadNamesPlain();
    case TargetRegistryWrite => TargetRegistryWriteNamesPlain();
    case TargetSettings => TargetSettingsNamesPlain();
    case OtherScope(_) =>
  }

  lemma OrganizationReadNamesPlain()
    ensures forall k :: 0 <= k < |ScopeActions(OrganizationRead)| ==> '*' !in Name(ScopeActions(OrganizationRead)[k])
  {
    assert Name(SupportManageTickets) == "support:manageTickets";
  }

  lemma OrganizationSettingsNamesPlain()
    ensures forall k :: 0 <= k < |ScopeActions(OrganizationSettings)| ==> '*' !in Name(ScopeActions(OrganizationSettings)[k])
  {
    assert Name(OrganizationUpdateSlug) == "organization:updateSlug";
  }

  lemma OrganizationIntegrationsNamesPlain()
    ensures forall k :: 0 <= k < |ScopeActions(OrganizationIntegrations)| ==> '*' !in Name(ScopeActions(OrganizationIntegrations)[k])
  {
    assert Name(OidcModify) == "oidc:modify";
  }

  lemma AlertModifyPlain()
    ensures '*' !in Name(AlertModify)
  {
    assert Name(AlertModify) == "alert:modify";
  }

  lemma AlertDescribePlain()
    ensures '*' !in Name(AlertDescribe)
  {
    assert Name(AlertDescribe) == "alert:describe";
  }

  lemma ProjectAlertsNamesPlain()
    ensures forall k :: 0 <= k < |ScopeActions(ProjectAlerts)| ==> '*' !in Name(ScopeActions(ProjectAlerts)[k])
  {
    AlertModifyPlain();
    AlertDescribePlain();
  }

  lemma TargetRegistryReadNamesPlain()
    ensures forall k :: 0 <= k < |ScopeActions(TargetRegistryRead)| ==> '*' !in Name(ScopeActions(TargetRegistryRead)[k])
  {
    assert Name(AppDeploymentDescribe) == "appDeployment:describe";
  }

  lemma AppDeploymentCreatePlain()
    ensures '*' !in Name(AppDeploymentCreate)
  {
    assert Name(AppDeploymentCreate) == "appDeployment:create";
  }

  lemma AppDeploymentPublishPlain()
    ensures '*' !in Name(AppDeploymentPublish)
  {
    assert Name(AppDeploymentPublish) == "appDeployment:publish";
  }

  lemma AppDeploymentRetirePlain()
    ensures '*' !in Name(AppDeploymentRetire)
  {
    assert Name(AppDeploymentRetire) == "appDeployment:retire";
  }

  lemma TargetRegistryWriteNamesPlain()
    ensures forall k :: 0 <= k < |ScopeActions(TargetRegistryWrite)| ==> '*' !in Name(ScopeActions(TargetRegistryWrite)[k])
  {
    AppDeploymentCreatePlain();
    AppDeploymentPublishPlain();
    AppDeploymentRetirePlain();
  }

  lemma SchemaContractCreatePlain()
    ensures '*' !in Name(SchemaContractCreate)
  {
    assert Name(SchemaContractCreate) == "schemaContract:create";
  }

  lemma SchemaContractDisablePlain()
    ensures '*' !in Name(SchemaContractDisable)
  {
    assert Name(SchemaContractDisable) == "schemaContract:disable";
  }

  lemma SchemaContractDescribePlain()
    ensures '*' !in Name(SchemaContractDescribe)
  {
    assert Name(SchemaContractDescribe) == "schemaContract:describe";
  }

  lemma TargetSettingsNamesPlain()
    ensures forall k :: 0 <= k < |ScopeActions(TargetSettings)| ==> '*' !in Name(ScopeActions(TargetSettings)[k])
  {
    SchemaContractCreatePlain();
    SchemaContractDisablePlain();
    SchemaContractDescribePlain();
  }

  /** `GrantedActions` is the union of what the table maps each scope to. */
  lemma GrantedActionsIff(scopes: seq<LegacyScope>, action: Action)
    ensures action in GrantedActions(scopes) <==>
      exists i :: 0 <= i < |scopes| && action in ScopeActions(scopes[i])
  {
    if action in GrantedActions(scopes) {
      GatherSound(ScopeActions, scopes, action);
    }
    forall i | 0 <= i < |scopes| && action in ScopeActions(scopes[i])
      ensures action in GrantedActions(scopes)
    {
      GatherComplete(ScopeActions, scopes, i, action);
    }
  }

  lemma {:induction false} GatherSound<T>(f: LegacyScope -> seq<T>, scopes: seq<LegacyScope>, x: T)
    requires x in Gather(f, scopes)
    ensures exists i :: 0 <= i < |scopes| && x in f(scopes[i])
    decreases |scopes|
  {
    var n := |scopes| - 1;
    if x !in f(scopes[n]) {
      var init := scopes[..n];
      GatherSound(f, init, x);
      var i :| 0 <= i < |init| && x in f(init[i]);
      assert init[i] == scopes[i];
    }
  }

  lemma {:induction false} GatherComplete<T>(f: LegacyScope -> seq<T>, scopes: seq<LegacyScope>, i: nat, x: T)
    requires i < |scopes| && x in f(scopes[i])
    ensures x in Gather(f, scopes)
    decreases |scopes|
  {
    var n := |scopes| - 1;
    if i < n {
      var init := scopes[..n];
      assert init[i] == scopes[i];
      GatherComplete(f, init, i, x);
    }
  }

  lemma NamesConcat(a: seq<Action>, b: seq<Action>)
    ensures Names(a + b) == Names(a) + Names(b)
  {
  }

  /** A statement of the translator, against a request in a valid organization:
      it parses, never vetoes, and grants exactly the actions it lists. */
  lemma LegacyStatementDecides(isUuid: string -> bool, organizationId: string, actions: seq<string>, req: Request)
    requires ValidOrganization(isUuid, organizationId)
    requires req.organizationId == organizationId && |req.candidates| >= 1
    requires forall k :: 0 <= k < |actions| ==> '*' !in actions[k]
    ensures WellFormed(isUuid, LegacyStatement(organizationId, actions))
    ensures !Vetoes(isUuid, LegacyStatement(organizationId, actions), req)
    ensures Grants(isUuid, LegacyStatement(organizationId, actions), req) <==> req.action in actions
  {
    var st := LegacyStatement(organizationId, actions);
    var parsed := ParsedResource(organizationId, "*");
    ParseRoundTrip(isUuid, organizationId, "*");
    ParseAllSingle(isUuid, Hrn(organizationId, "*"));
    StarMatchesEveryResource(req.candidates[0]);
    assert ResourceApplies(parsed, req);
    assert AnyResourceApplies([parsed], req) by { assert [parsed][0] == parsed; }
    assert Applicable(isUuid, st, req);
    assert Items(st.action) == actions;
    forall k | 0 <= k < |actions|
      ensures IsActionMatch(actions[k], req.action) <==> actions[k] == req.action
    {
      PlainPatternMatchesOnlyItself(actions[k], req.action);
    }
    assert ActionListed(st, req.action) <==> req.action in actions;
  }

  /** Over a valid organization, the translated statements never fail for any
      reason but a refusal, and some statement grants exactly when the action is
      among those the scopes map to. */
  lemma {:induction false} TransformClearAndGrant(isUuid: string -> bool, organizationId: string, scopes: seq<LegacyScope>, req: Request)
    requires ValidOrganization(isUuid, organizationId)
    requires req.organizationId == organizationId && |req.candidates| >= 1
    ensures AllClear(isUuid, Transform(organizationId, scopes), req)
    ensures AnyGrant(isUuid, Transform(organizationId, scopes), req) <==> req.action in Names(GrantedActions(scopes))
    decreases |scopes|
  {
    if scopes == [] {
    } else {
      var init := scopes[..|scopes| - 1];
      var last := scopes[|scopes| - 1];
      TransformClearAndGrant(isUuid, organizationId, init, req);
      ClearAndGrantConcat(isUuid, Transform(organizationId, init), Emitted(organizationId, last), req);
      ScopeNamesPlain(last);
      var names := Names(ScopeActions(last));
      NamesConcat(GrantedActions(init), ScopeActions(last));
      LegacyStatementDecides(isUuid, organizationId, names, req);
      if last.OtherScope? {
        assert Emitted(organizationId, last) == [];
        assert names == [];
      } else {
        var st := LegacyStatement(organizationId, names);
        assert Emitted(organizationId, last) == [st];
        assert forall x :: x in [st] <==> x == st;
      }
    }
  }

  /** The translation grants, in a valid organization, exactly the actions the
      table maps the scopes to, and refuses every other action as access
      denied. */
  lemma LegacyGrantsExactlyMapped(isUuid: string -> bool, organizationId: string, scopes: seq<LegacyScope>, action: Action, params: Params)
    requires ValidOrganization(isUuid, organizationId)
    ensures Evaluate(isUuid, Transform(organizationId, scopes), RequestFor(action, organizationId, params))
      == if Name(action) in Names(GrantedActions(scopes)) then Pass else Fail(AccessDenied)
  {
    var req := RequestFor(action, organizationId, params);
    CandidateIdsShape(action, params);
    TransformClearAndGrant(isUuid, organizationId, scopes, req);
    EvaluatePassIff(isUuid, Transform(organizationId, scopes), req);
    TransformShape(organizationId, scopes);
    var stmts := Transform(organizationId, scopes);
    forall i | 0 <= i < |stmts| ensures WellFormed(isUuid, stmts[i]) {
      assert stmts[i] in stmts;
    }
    WellFormedFailureIsAccessDenied(isUuid, stmts, req);
  }

  /** Every action a scope maps to is allowed. */
  lemma MappedActionAllowed(isUuid: string -> bool, organizationId: string, scopes: seq<LegacyScope>, i: nat, action: Action, params: Params)
    requires ValidOrganization(isUuid, organizationId)
    requires i < |scopes| && action in ScopeActions(scopes[i])
    ensures Evaluate(isUuid, Transform(organizationId, scopes), RequestFor(action, organizationId, params)) == Pass
  {
    GrantedActionsIff(scopes, action);
    var k :| 0 <= k < |GrantedActions(scopes)| && GrantedActions(scopes)[k] == action;
    assert Names(GrantedActions(scopes))[k] == Name(action);
    LegacyGrantsExactlyMapped(isUuid, organizationId, scopes, action, params);
  }

  /** The registry-write scope lets its holder create, publish and retire app
      deployments. */
  lemma RegistryWriteAllowsDeployments(isUuid: string -> bool, organizationId: string, scopes: seq<LegacyScope>, params: Params)
    requires ValidOrganization(isUuid, organizationId)
    requires TargetRegistryWrite in scopes
    ensures Evaluate(isUuid, Transform(organizationId, scopes), RequestFor(AppDeploymentCreate, organizationId, params)) == Pass
    ensures Evaluate(isUuid, Transform(organizationId, scopes), RequestFor(AppDeploymentPublish, organizationId, params)) == Pass
    ensures Evaluate(isUuid, Transform(organizationId, scopes), RequestFor(AppDeploymentRetire, organizationId, params)) == Pass
  {
    var i :| 0 <= i < |scopes| && scopes[i] == TargetRegistryWrite;
    MappedActionAllowed(isUuid, organizationId, scopes, i, AppDeploymentCreate, params);
    MappedActionAllowed(isUuid, organizationId, scopes, i, AppDeploymentPublish, params);
    MappedActionAllowed(isUuid, organizationId, scopes, i, AppDeploymentRetire, params);
  }

  /** With a colon-free organization id that is neither a UUID nor `*`, nothing
      translated from a recognised scope can pass: the first statement fails to
      parse. */
  lemma InvalidOrganizationFails(isUuid: string -> bool, organizationId: string, scopes: seq<LegacyScope>, req: Request)
    requires ':' !in organizationId
    requires organizationId == "" || (!isUuid(organizationId) && organizationId != "*")
    requires Transform(organizationId, scopes) != []
    ensures Evaluate(isUuid, Transform(organizationId, scopes), req).Fail?
    ensures Evaluate(isUuid, Transform(organizationId, scopes), req).error.InvalidResourceIdentifier?
  {
    var stmts := Transform(organizationId, scopes);
    TransformShape(organizationId, scopes);
    assert stmts[0] in stmts;
    var r := Hrn(organizationId, "*");
    ParseAllSingle(isUuid, r);
    ParseInvalidOrganization(isUuid, organizationId, "*");
    MalformedStatementFails(isUuid, stmts, 0, req);
  }
}
