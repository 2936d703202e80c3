/** The closed catalogue of actions (authz.ts, `actionDefinitions`): every
    action name with the function that derives, from the hierarchical
    parameters, the resource ids a statement must match. */
module ActionRegistry {
  import opened Wrappers

  /** The 41 registered actions. */
  datatype Action =
    | OrganizationDescribe | OrganizationUpdateSlug | OrganizationDelete
    | GitHubIntegrationModify | SlackIntegrationModify | OidcModify
    | SupportManageTickets | BillingDescribe | BillingUpdate
    | PolicyDescribe | PolicyModify
    | AccessTokenDescribe | AccessTokenCreate | AccessTokenDelete
    | MemberDescribe | MemberAssignRole | MemberModifyRole | MemberRemoveMember | MemberManageInvites
    | ProjectCreate | ProjectDescribe | ProjectDelete
    | AlertDescribe | AlertModify | ProjectUpdateSlug
    | SchemaLintingManageOrganization | SchemaLintingManageProject
    | TargetCreate | TargetDelete
    | SchemaCheckCreate | SchemaCheckApprove | SchemaVersionPublish
    | AppDeploymentDescribe | AppDeploymentCreate | AppDeploymentPublish | AppDeploymentRetire
    | LaboratoryDescribe | LaboratoryModify
    | SchemaContractDescribe | SchemaContractCreate | SchemaContractDisable

  /** The action's key in the registry. */
  function Name(a: Action): string {
    match a
    case OrganizationDescribe => "organization:describe"
    case OrganizationUpdateSlug => "organization:updateSlug"
    case OrganizationDelete => "organization:delete"
    case GitHubIntegrationModify => "gitHubIntegration:modify"
    case SlackIntegrationModify => "slackIntegration:modify"
    case OidcModify => "oidc:modify"
    case SupportManageTickets => "support:manageTickets"
    case BillingDescribe => "billing:describe"
    case BillingUpdate => "billing:update"
    case PolicyDescribe => "policy:describe"
    case PolicyModify => "policy:modify"
    case AccessTokenDescribe => "accessToken:describe"
    case AccessTokenCreate => "accessToken:create"
    case AccessTokenDelete => "accessToken:delete"
    case MemberDescribe => "member:describe"
    case MemberAssignRole => "member:assignRole"
    case MemberModifyRole => "member:modifyRole"
    case MemberRemoveMember => "member:removeMember"
    case MemberManageInvites => "member:manageInvites"
    case ProjectCreate => "project:create"
    case ProjectDescribe => "project:describe"
    case ProjectDelete => "project:delete"
    case AlertDescribe => "alert:describe"
    case AlertModify => "alert:modify"
    case ProjectUpdateSlug => "project:updateSlug"
    case SchemaLintingManageOrganization => "schemaLinting:manageOrganization"
    case SchemaLintingManageProject => "schemaLinting:manageProject"
    case TargetCreate => "target:create"
    case TargetDelete => "target:delete"
    case SchemaCheckCreate => "schemaCheck:create"
    case SchemaCheckApprove => "schemaCheck:approve"
    case SchemaVersionPublish => "schemaVersion:publish"
    case AppDeploymentDescribe => "appDeployment:describe"
    case AppDeploymentCreate => "appDeployment:create"
    case AppDeploymentPublish => "appDeployment:publish"
    case AppDeploymentRetire => "appDeployment:retire"
    case LaboratoryDescribe => "laboratory:describe"
    case LaboratoryModify => "laboratory:modify"
    case SchemaContractDescribe => "schemaContract:describe"
    case SchemaContractCreate => "schemaContract:create"
    case SchemaContractDisable => "schemaContract:disable"
  }

  /** The five derivation functions an action can be registered with. */
  datatype Derivation =
    | OrgIdentity
    | ProjectIdentity
    | TargetIdentity
    | AppDeploymentIdentity
    | SchemaCheckOrPublishIdentity

  /** The derivation registered for each action. */
  function DerivationOf(a: Action): Derivation {
    match a
    case OrganizationDescribe | OrganizationUpdateSlug | OrganizationDelete
       | GitHubIntegrationModify | SlackIntegrationModify | OidcModify
       | SupportManageTickets | BillingDescribe | BillingUpdate
       | PolicyDescribe | PolicyModify
       | AccessTokenDescribe | AccessTokenCreate | AccessTokenDelete
       | MemberDescribe | MemberAssignRole | MemberModifyRole | MemberRemoveMember | MemberManageInvites
      => OrgIdentity
    case ProjectCreate | ProjectDescribe | ProjectDelete
       | AlertDescribe | AlertModify | ProjectUpdateSlug
       | SchemaLintingManageOrganization | SchemaLintingManageProject
       | TargetCreate
      => ProjectIdentity
    case TargetDelete | AppDeploymentDescribe
       | LaboratoryDescribe | LaboratoryModify
       | SchemaContractDescribe | SchemaContractCreate | SchemaContractDisable
      => TargetIdentity
    case SchemaCheckCreate | SchemaCheckApprove | SchemaVersionPublish
      => SchemaCheckOrPublishIdentity
    case AppDeploymentCreate | AppDeploymentPublish | AppDeploymentRetire
      => AppDeploymentIdentity
  }

  /** The hierarchical parameters. Each derivation reads only the fields its
      TypeScript parameter type declares; `None` is `null`, "the resource
      itself, not a sub-resource". */
  datatype Params = Params(
    organizationId: string,
    projectId: string,
    targetId: string,
    appDeploymentName: Option<string>,
    serviceName: Option<string>)

  /** `defaultOrgIdentity`. */
  function OrgIds(p: Params): seq<string> {
    ["organization/" + p.organizationId]
  }

  /** `defaultProjectIdentity`. */
  function ProjectIds(p: Params): seq<string> {
    OrgIds(p) + ["project/" + p.projectId]
  }

  /** `defaultTargetIdentity`. */
  function TargetIds(p: Params): seq<string> {
    ProjectIds(p) + ["target/" + p.targetId]
  }

  /** The id `defaultAppDeploymentIdentity` pushes for a named deployment. */
  function AppDeploymentId(targetId: string, name: string): string {
    "target/" + targetId + "/appDeployment/" + name
  }

  /** The id `schemaCheckOrPublishIdentity` pushes for a named service. */
  function ServiceId(targetId: string, name: string): string {
    "target/" + targetId + "/service/" + name
  }

  /** The candidate resource ids of a derivation: the target ids, then at most
      one sub-resource id for the two derivations with an optional name. */
  function Derive(d: Derivation, p: Params): seq<string> {
    match d
    case OrgIdentity => OrgIds(p)
    case ProjectIdentity => ProjectIds(p)
    case TargetIdentity => TargetIds(p)
    case AppDeploymentIdentity =>
      TargetIds(p) + (if p.appDeploymentName.Some? then [AppDeploymentId(p.targetId, p.appDeploymentName.value)] else [])
    case SchemaCheckOrPublishIdentity =>
      TargetIds(p) + (if p.serviceName.Some? then [ServiceId(p.targetId, p.serviceName.value)] else [])
  }

  /** `actionDefinitions[action](params)`. */
  function CandidateIds(a: Action, p: Params): seq<string> {
    Derive(DerivationOf(a), p)
  }

  /** How the derivations build on each other: every list starts with the
      organization id; project derivations append `project/<p>`, target
      derivations append `target/<t>`, and the two with an optional name
      append one more id exactly when the name is not null. */
  lemma CandidateIdsShape(a: Action, p: Params)
    ensures var ids := CandidateIds(a, p);
      && |ids| >= 1 && ids[0] == "organization/" + p.organizationId
      && (DerivationOf(a) == OrgIdentity ==> ids == ["organization/" + p.organizationId])
      && (DerivationOf(a) == ProjectIdentity ==> ids == OrgIds(p) + ["project/" + p.projectId])
      && (DerivationOf(a) == TargetIdentity ==> ids == ProjectIds(p) + ["target/" + p.targetId])
      && (DerivationOf(a) == AppDeploymentIdentity ==>
            ids[..3] == TargetIds(p)
            && |ids| == (if p.appDeploymentName.Some? then 4 else 3)
            && (p.appDeploymentName.Some? ==> ids[3] == AppDeploymentId(p.targetId, p.appDeploymentName.value)))
      && (DerivationOf(a) == SchemaCheckOrPublishIdentity ==>
            ids[..3] == TargetIds(p)
            && |ids| == (if p.serviceName.Some? then 4 else 3)
            && (p.serviceName.Some? ==> ids[3] == ServiceId(p.targetId, p.serviceName.value)))
  {
  }

  /** The registry lookup as the evaluator runs it; the two derivations with
      an optional name `push` onto the target ids. */
  method ResourceIdsForAction(a: Action, p: Params) returns (ids: seq<string>)
    ensures ids == CandidateIds(a, p)
  {
    match DerivationOf(a)
    case OrgIdentity =>
      ids := OrgIds(p);
    case ProjectIdentity =>
      ids := ProjectIds(p);
    case TargetIdentity =>
      ids := TargetIds(p);
    case AppDeploymentIdentity =>
      ids := TargetIds(p);
      if p.appDeploymentName.Some? {
        ids := ids + [AppDeploymentId(p.targetId, p.appDeploymentName.value)];
      }
    case SchemaCheckOrPublishIdentity =>
      ids := TargetIds(p);
      if p.serviceName.Some? {
        ids := ids + [ServiceId(p.targetId, p.serviceName.value)];
      }
  }
}
