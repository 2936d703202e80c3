# Hive authorization core, modelled in Dafny

This project models the authorization engine of the Hive platform's API
service, together with the two pieces that feed it or sit directly on it:

- **Resource identifiers.** `hrn:<organization>:<path>` strings are parsed into
  an organization (a UUID or `*`) and a resource path, and fail in four
  distinct ways (`ResourceIdentifiers`).
- **Matchers.** An action pattern matches an action when it is `*`, exactly the
  action, or `<scope>:*` for the action's scope. A resource pattern matches a
  resource id segment by segment, and a trailing `*` matches any rest
  (`Matching`). The `do … while` loop over the two `shift`ed segment arrays is
  a method with a loop, proved equal to a recursive reference function.
- **Action registry.** Each of the 41 registered actions has a derivation that
  builds the ordered candidate resource ids from the request parameters. Each
  list starts at the organization and adds the project, the target and, when
  one is named, the app deployment or the service (`ActionRegistry`).
- **Evaluator.** `assertPerformAction` loops over the loaded statements
  (`Policy`, `Sessions`). A statement takes part only when one of its resources
  names the request's organization (or `*`) and matches a candidate id. A
  matching `deny` throws at once. A matching `allow` sets the `isAllowed` flag.
  A malformed resource throws the parser's error. The loop is modelled as
  methods proved equal to the function `Evaluate`. `Evaluate` is then
  characterised declaratively: the check passes exactly when every statement
  parses, none vetoes, and one grants. Deny overrides, and the pass/fail answer
  does not depend on statement order.
- **Sessions and the authenticator.** The unauthenticated session loads no
  statements and fails `getViewer`. `AuthN.authenticate` returns the first
  session a strategy produces, in order (`Sessions`).
- **Legacy scopes.** `transformLegacyPolicies` turns each recognised legacy
  scope into one `allow` statement over `hrn:<organization>:*`
  (`LegacyPermissions`). It is proved, against the evaluator, to grant exactly
  the actions its table maps the scopes to.
- **App deployments.** `AppDeploymentsManager` derives a deployment's status
  from its timestamps. It also joins the storage rows onto the requested
  deployments: last row wins, and a missing row gives 0 or `null`
  (`AppDeployments`).

`isUUID` from the shared utilities is not part of this model. It is a parameter
`isUuid: string -> bool` of every member that parses resources. The statement
loader and the authentication strategies are also not part of this model. A
session carries the statements its loader would return, and the authenticator
receives each strategy's answer for the request as a value.

Facts of the code the model keeps:

- The candidate ids are flat: `organization/<o>`, `project/<p>`,
  `target/<t>`.
- The `schemaContract:*` actions use the plain target derivation. They carry
  no service id.
- The translated legacy statements name the resource `hrn:<organization>:*`.
- Every `case` of the translator ends in `break`.

## Model

Source paths are relative to the repository root. `authz.ts` is
`packages/services/api/src/modules/auth/lib/authz.ts`.

| member | source | states |
|---|---|---|
| Strings.Split | packages/services/api/src/modules/auth/lib/authz.ts:24 | JavaScript `split` on one character: at least one piece, and no piece contains the separator |
| Strings.JoinSplit | packages/services/api/src/modules/auth/lib/authz.ts:24 | joining the pieces with the separator gives back the original string |
| Strings.SplitJoin | packages/services/api/src/modules/auth/lib/authz.ts:24 | splitting a join of separator-free pieces gives back the pieces |
| Strings.SplitConcat | packages/services/api/src/modules/auth/lib/authz.ts:159-160 | a separator-free head followed by the separator splits off as the first piece |
| Strings.SplitSingleIff | packages/services/api/src/modules/auth/lib/authz.ts:24-25 | there is exactly one piece if and only if the separator does not occur |
| Strings.SplitPieceChars | packages/services/api/src/modules/auth/lib/authz.ts:24 | every character of every piece occurs in the input |
| ResourceIdentifiers.ParseResourceIdentifier | packages/services/api/src/modules/auth/lib/authz.ts:23-44 | a successful parse yields a non-empty, colon-free organization that is a UUID or `*`, and a non-empty, colon-free path |
| ResourceIdentifiers.ParseMissingPartsIff | packages/services/api/src/modules/auth/lib/authz.ts:24-27 | the first error occurs if and only if the string has no colon |
| ResourceIdentifiers.ParseWrongPrefixIff | packages/services/api/src/modules/auth/lib/authz.ts:28-30 | the second error occurs if and only if there is a colon and the first field is not `hrn` |
| ResourceIdentifiers.ParseInvalidOrganization | packages/services/api/src/modules/auth/lib/authz.ts:32-34 | an empty organization, or one that is neither a UUID nor `*`, is rejected with the third error, with or without a following field |
| ResourceIdentifiers.ParseMissingResourceType | packages/services/api/src/modules/auth/lib/authz.ts:37-39 | a valid organization with no path field, an empty path field, or an empty path field followed by more fields is rejected with the fourth error |
| ResourceIdentifiers.ParseRoundTrip | packages/services/api/src/modules/auth/lib/authz.ts:35-43 | parsing `hrn:<o>:<p>` built from a valid organization and path returns exactly that organization and path |
| ResourceIdentifiers.ParseIgnoresTrailingFields | packages/services/api/src/modules/auth/lib/authz.ts:43 | fields after the third colon-separated field are ignored |
| ResourceIdentifiers.ParseSound | packages/services/api/src/modules/auth/lib/authz.ts:23-44 | whatever parses is `hrn:<organization>:<path>` followed by nothing or by `:` and more |
| Matching.IsActionMatch | packages/services/api/src/modules/auth/lib/authz.ts:131-150 | the pattern `*` and the action itself always match. Any other match needs a pattern whose second `:`-field is `*` and whose first field is the action's first field |
| Matching.EveryActionMatchesStar | packages/services/api/src/modules/auth/lib/authz.ts:133-135 | the pattern `*` matches every action |
| Matching.ActionMatchReflexive | packages/services/api/src/modules/auth/lib/authz.ts:137-139 | every action matches itself |
| Matching.ScopeWildcardIff | packages/services/api/src/modules/auth/lib/authz.ts:141-147 | `<scope>:*` matches an action if and only if the action's text before its first colon is that scope |
| Matching.ScopeWildcardExtraFieldsIff | packages/services/api/src/modules/auth/lib/authz.ts:141-147 | only the pattern's second field is compared with `*`, so `<scope>:*:<anything>` matches exactly the actions whose first field is that scope |
| Matching.PlainPatternMatchesOnlyItself | packages/services/api/src/modules/auth/lib/authz.ts:131-150 | a pattern without `*` matches an action if and only if it equals it |
| Matching.SegmentsMatchIff | packages/services/api/src/modules/auth/lib/authz.ts:162-175 | a pattern ending in `*` matches exactly the paths that extend the pattern's other segments; any other pattern matches only an identical path |
| Matching.ResourceIdMatchReflexive | packages/services/api/src/modules/auth/lib/authz.ts:153-176 | every resource id matches itself |
| Matching.StarMatchesEveryResource | packages/services/api/src/modules/auth/lib/authz.ts:166-168 | the pattern `*` matches every resource id |
| Matching.TrailingStarMatchesExtensions | packages/services/api/src/modules/auth/lib/authz.ts:166-168 | `prefix/*` matches the prefix followed by any segments, including none |
| Matching.InnerStarIsLiteral | packages/services/api/src/modules/auth/lib/authz.ts:166-172 | a `*` that is not the last segment matches only a literal `*` segment |
| Matching.PlainPatternNeedsEqualLength | packages/services/api/src/modules/auth/lib/authz.ts:170-175 | a pattern not ending in `*` never matches a path with a different number of segments |
| Matching.ResourceMatchNotSymmetric | packages/services/api/src/modules/auth/lib/authz.ts:153-176 | `a/*` matches `a/b`, but `a/b` does not match `a/*` for any `b` other than `*` |
| Matching.IsResourceIdMatch | packages/services/api/src/modules/auth/lib/authz.ts:153-176 | the `do … while` loop over the `shift`ed segments returns exactly the reference segment match |
| ActionRegistry.Name | packages/services/api/src/modules/auth/lib/authz.ts:226-268 | the key of each of the 41 entries of `actionDefinitions`, one constructor per key |
| ActionRegistry.DerivationOf | packages/services/api/src/modules/auth/lib/authz.ts:226-268 | the identity function each key of `actionDefinitions` is registered with |
| ActionRegistry.OrgIds | packages/services/api/src/modules/auth/lib/authz.ts:178-180 | `defaultOrgIdentity`: the single id `organization/<o>` |
| ActionRegistry.ProjectIds | packages/services/api/src/modules/auth/lib/authz.ts:182-186 | `defaultProjectIdentity`: the organization ids followed by `project/<p>` |
| ActionRegistry.TargetIds | packages/services/api/src/modules/auth/lib/authz.ts:188-192 | `defaultTargetIdentity`: the project ids followed by `target/<t>` |
| ActionRegistry.CandidateIdsShape | packages/services/api/src/modules/auth/lib/authz.ts:178-216 | every candidate list starts with `organization/<o>`; project, target, app-deployment and schema derivations add `project/<p>`, then `target/<t>`, then one more id exactly when the name is not null |
| ActionRegistry.ResourceIdsForAction | packages/services/api/src/modules/auth/lib/authz.ts:194-268 | the registered derivation, including its `push` of the optional id, builds exactly the action's candidate ids |
| Policy.ParseAll | packages/services/api/src/modules/auth/lib/authz.ts:87-89 | the resources parse if and only if each does; the result is then the parses in order, and otherwise the error of the first one that fails |
| Policy.ParseAllSingle | packages/services/api/src/modules/auth/lib/authz.ts:87-89 | a single resource (`string`, not an array) parses as that resource does |
| Policy.ActionListedOne | packages/services/api/src/modules/auth/lib/authz.ts:110-114 | a statement with a single action lists what that action pattern matches |
| Policy.StepCharacterization | packages/services/api/src/modules/auth/lib/authz.ts:86-121 | one iteration continues if and only if the statement parses and does not veto; the flag then gains whether it grants; a malformed statement throws its parse error, and a well-formed one can only throw access denied |
| Policy.EvaluateSingle | packages/services/api/src/modules/auth/lib/authz.ts:84-126 | a lone statement decides as its iteration does, and a clear flag ends in access denied |
| Policy.SingleAllowDecides | packages/services/api/src/modules/auth/lib/authz.ts:86-126 | a lone `allow` whose resource parses and covers the request passes if and only if its action matches, and is otherwise access denied |
| Policy.ScanCharacterization | packages/services/api/src/modules/auth/lib/authz.ts:84-126 | the loop runs to the end if and only if no statement is malformed or vetoes; the flag then records whether some statement granted |
| Policy.EvaluatePassIff | packages/services/api/src/modules/auth/lib/authz.ts:84-126 | the check succeeds if and only if every statement parses, none vetoes and at least one grants |
| Policy.WellFormedFailureIsAccessDenied | packages/services/api/src/modules/auth/lib/authz.ts:115-126 | when every resource parses, the check either passes or fails with access denied |
| Policy.OrderIndependent | packages/services/api/src/modules/auth/lib/authz.ts:84-126 | reordering the statements does not change whether the check passes |
| Policy.DenyOverrides | packages/services/api/src/modules/auth/lib/authz.ts:113-117 | a single vetoing statement anywhere makes the check fail, whatever the other statements allow |
| Policy.EmptyStatementsDeny | packages/services/api/src/modules/auth/lib/authz.ts:124-126 | with no statements the check fails with access denied |
| Policy.InapplicableStatementIgnored | packages/services/api/src/modules/auth/lib/authz.ts:91-108 | inserting a well-formed statement that covers none of the request's resources anywhere does not change the result |
| Policy.MalformedStatementFails | packages/services/api/src/modules/auth/lib/authz.ts:87-89 | the check fails with the parse error of the first malformed statement when none before it vetoes |
| Policy.ResourcesApply | packages/services/api/src/modules/auth/lib/authz.ts:92-105 | the `some` callback with its inner loop over the candidates returns whether some parsed resource applies to the request |
| Policy.StepStatement | packages/services/api/src/modules/auth/lib/authz.ts:86-121 | the body of the statement loop, with its inner loop over actions, computes exactly one iteration of the reference evaluator |
| Policy.CheckStatements | packages/services/api/src/modules/auth/lib/authz.ts:84-126 | the statement loop with the `isAllowed` flag and the final check returns exactly `Evaluate` |
| Sessions.LoadPolicyStatements | packages/services/api/src/modules/auth/lib/authz.ts:277-283 | the unauthenticated session loads no statements |
| Sessions.GetViewer | packages/services/api/src/modules/auth/lib/authz.ts:59-61 | the unauthenticated session's viewer lookup always fails with `UNAUTHENTICATED` |
| Sessions.AssertPerformAction | packages/services/api/src/modules/auth/lib/authz.ts:76-127 | the check for an action loads the organization's statements, derives the action's candidates, and returns exactly `Evaluate` over them |
| Sessions.UnauthenticatedAlwaysDenied | packages/services/api/src/modules/auth/lib/authz.ts:277-283 | the unauthenticated session is refused every action with access denied |
| Sessions.Authenticate | packages/services/api/src/modules/auth/lib/authz.ts:317-326 | the strategy loop returns the first strategy's session, or its rejection, skipping strategies that decline; if all decline, it returns the unauthenticated session |
| Sessions.FirstDecidingStrategyWins | packages/services/api/src/modules/auth/lib/authz.ts:318-323 | after any number of declining strategies, the first one that answers decides, whatever later strategies would answer |
| Sessions.AllDeclinedGivesUnauthenticated | packages/services/api/src/modules/auth/lib/authz.ts:325 | when every strategy declines, the result is the unauthenticated session |
| Sessions.KindWildcardMatches | packages/services/api/src/modules/auth/lib/authz.ts:166-168 | `<kind>/*` matches `<kind>/<id>` for every id |
| Sessions.ProjectWildcardScenario | packages/services/api/src/modules/auth/lib/authz.ts:86-126 | an `allow project:describe` on `hrn:<org>:project/*` passes `project:describe` for every project of a valid organization, and refuses `project:delete` |
| Sessions.OrganizationWildcardScenario | packages/services/api/src/modules/auth/lib/authz.ts:94 | an `allow organization:describe` on `hrn:*:organization/*` passes in every organization |
| LegacyPermissions.ScopeActions | packages/services/api/src/modules/auth/lib/legacy-permissions.ts:17-73 | the `switch` table: the seven recognised scopes each grant a non-empty list of actions, and every other scope grants nothing |
| LegacyPermissions.TransformLegacyPolicies | packages/services/api/src/modules/auth/lib/legacy-permissions.ts:9-78 | the loop with its `switch` returns exactly the reference translation of the scopes; the project and target ids play no part |
| LegacyPermissions.TransformSingle | packages/services/api/src/modules/auth/lib/legacy-permissions.ts:16-74 | a recognised scope yields exactly its one statement, and any other scope yields nothing |
| LegacyPermissions.TransformConcat | packages/services/api/src/modules/auth/lib/legacy-permissions.ts:16-77 | translating a concatenation of scope lists concatenates their translations, in order |
| LegacyPermissions.TransformLength | packages/services/api/src/modules/auth/lib/legacy-permissions.ts:16-77 | at most one statement per scope; exactly one each when all are recognised; none when none is |
| LegacyPermissions.TransformShape | packages/services/api/src/modules/auth/lib/legacy-permissions.ts:18-72 | every statement is an `allow` whose only resource is `hrn:<organization>:*` and whose action names contain no `*` |
| LegacyPermissions.GrantedActionsIff | packages/services/api/src/modules/auth/lib/legacy-permissions.ts:18-73 | an action is granted by the list if and only if the table maps one of its scopes to it |
| LegacyPermissions.LegacyStatementDecides | packages/services/api/src/modules/auth/lib/legacy-permissions.ts:19-23 | in a valid organization, a translated statement parses, never vetoes, and grants exactly the actions it lists |
| LegacyPermissions.LegacyGrantsExactlyMapped | packages/services/api/src/modules/auth/lib/legacy-permissions.ts:9-78 | in a valid organization, the translation passes an action if and only if its name is among the scopes' mapped actions, and otherwise fails with access denied |
| LegacyPermissions.MappedActionAllowed | packages/services/api/src/modules/auth/lib/legacy-permissions.ts:18-73 | every action a held scope maps to is allowed |
| LegacyPermissions.RegistryWriteAllowsDeployments | packages/services/api/src/modules/auth/lib/legacy-permissions.ts:58-65 | holding the registry-write scope allows creating, publishing and retiring app deployments |
| LegacyPermissions.InvalidOrganizationFails | packages/services/api/src/modules/auth/lib/legacy-permissions.ts:22 | with a colon-free organization id that is neither a UUID nor `*`, a non-empty translation always fails with a resource-identifier error |
| AppDeployments.GetStatusForAppDeployment | packages/services/api/src/modules/app-deployments/providers/app-deployments-manager.ts:57-67 | `active` if and only if `activatedAt` is truthy, whatever `retiredAt` is; `retired` if and only if `activatedAt` is not truthy and `retiredAt` is; `pending` if and only if neither is |
| AppDeployments.JoinLastRow | packages/services/api/src/modules/app-deployments/providers/app-deployments-manager.ts:220-225 | filling the map row by row and then looking up each id gives one value per id, in order: the last reported value, or the default |
| AppDeployments.GetDocumentCountForAppDeployment | packages/services/api/src/modules/app-deployments/providers/app-deployments-manager.ts:215-226 | one count per requested deployment, in order: the last count reported for its id, or 0 |
| AppDeployments.GetLastUsedForAppDeployment | packages/services/api/src/modules/app-deployments/providers/app-deployments-manager.ts:228-239 | one date per requested deployment, in order: the last date reported for its id, or `null` |
| AppDeployments.LastReportedIff | packages/services/api/src/modules/app-deployments/providers/app-deployments-manager.ts:220-224 | a value is reported for an id if and only if some row carries it and no later row names that id; nothing is reported if and only if no row names the id |
| AppDeployments.LastRowWins | packages/services/api/src/modules/app-deployments/providers/app-deployments-manager.ts:220-224 | of several rows for one id, the last one wins, whatever came before it |
| AppDeployments.OtherRowsIgnored | packages/services/api/src/modules/app-deployments/providers/app-deployments-manager.ts:220-224 | rows about other deployments do not change what is reported for an id |
| AppDeployments.UnreportedGetsDefault | packages/services/api/src/modules/app-deployments/providers/app-deployments-manager.ts:225 | a deployment with no reported row gets count 0 and last use `null` |

## Left out

- Asynchrony: `loadPolicyStatementsForOrganization` is `await`ed, and so is each strategy's `parse`. The model takes the loaded statements and the strategies' answers as values.
- The concrete session subclasses and their loaders are not part of this model. An authenticated session is modelled by the statements it would load per organization.
- Sessions.GetViewer: the `getViewer` of the concrete authenticated sessions is not part of this model. An authenticated session is built with its viewer, and the model's lookup always returns it. Only the failure of the unauthenticated session's lookup comes from the source.
- `getLegacySelector`: the base class only throws, and the subclasses that override it are not part of this model.
- The `AuthN` constructor and the `AuthNStrategy` classes: the Fastify request and reply, and each strategy's internals, are I/O. The strategy list becomes the sequence of answers for one request.
- `isUUID` is not part of this model. It is the parameter `isUuid`, and nothing is assumed about it.
- Sessions.Authenticate: a session the strategy returns always counts as truthy. A rejected `parse` promise becomes an `Err` carrying its reason as text.
- Error messages: the text of `AccessError` and of the parse errors is not modelled, only which error is raised.
- The legacy scope enums (`OrganizationAccessScope`, `ProjectAccessScope`, `TargetAccessScope`) are not part of this model. Each scope the translator names is a distinct constructor, and every other value is `OtherScope`. This assumes the seven enum members have distinct values.
- The storage and authorization calls of `AppDeploymentsManager` (find, create, add documents, activate, retire, paginate) are storage I/O plus calls to `assertPerformAction`, which is modelled. The `targetId: target.orgId` passed at app-deployments-manager.ts:50 looks like a slip, but it is not modelled.
- The batch loaders' `batch` helper and the storage queries: the reported rows are a parameter. The value types are `int` for counts and `Option<string>` for dates.
- Action parameters are one record holding every field a derivation can read. The source's per-action parameter types are erased.
- The other files of the repository are consumers of the engine and are not part of this model: CDN, alerts, Slack, billing, tokens, audit logs, resolvers, the web docs and the router plugin.
