/** Policy statements and the decision `Session.assertPerformAction` takes over
    them (authz.ts): a statement takes part only if one of its resources names
    the request's organization (or `*`) and a path matching a candidate id; a
    taking-part deny fails the check, and success needs a taking-part allow. */
module Policy {
  import opened Wrappers
  import opened ResourceIdentifiers
  import opened Matching

  datatype Effect = Allow | Deny

  /** TypeScript's `T | T[]`. */
  datatype OneOrMany = One(item: string) | Many(items: seq<string>)

  /** `Array.isArray(x) ? x : [x]`. */
  function Items(x: OneOrMany): seq<string> {
    match x
    case One(s) => [s]
    case Many(ss) => ss
  }

  /** `AuthorizationPolicyStatement`. */
  datatype Statement = Statement(effect: Effect, action: OneOrMany, resource: OneOrMany)

  /** The failures of the engine: a malformed resource in a policy (the parser's
      `Error`), a refused action and a missing viewer (both `AccessError`). */
  datatype AuthzError =
    | InvalidResourceIdentifier(reason: ParseError)
    | AccessDenied
    | Unauthenticated

  /** One authorization question: the requested action's name, the request's
      organization, and the candidate resource ids derived for the action. */
  datatype Request = Request(action: string, organizationId: string, candidates: seq<string>)

  /** `resources.map(parseResourceIdentifier)`: every resource is parsed, in
      order, and the first failure is what is thrown. */
  function ParseAll(isUuid: string -> bool, resources: seq<string>): (r: Result<seq<ParsedResource>, ParseError>)
    ensures r.Ok? <==> forall i :: 0 <= i < |resources| ==> ParseResourceIdentifier(isUuid, resources[i]).Ok?
    ensures r.Ok? ==> (
      && |r.value| == |resources|
      && forall i :: 0 <= i < |resources| ==> r.value[i] == ParseResourceIdentifier(isUuid, resources[i]).value)
    ensures r.Err? ==> (
      exists i :: 0 <= i < |resources|
        && ParseResourceIdentifier(isUuid, resources[i]) == Err(r.error)
        && forall j :: 0 <= j < i ==> ParseResourceIdentifier(isUuid, resources[j]).Ok?)
    decreases |resources|
  {
    if resources == [] then Ok([])
    else
      match ParseResourceIdentifier(isUuid, resources[0])
      case Err(e) => Err(e)
      case Ok(v) =>
        match ParseAll(isUuid, resources[1..])
        case Err(e) => Err(e)
        case Ok(vs) => Ok([v] + vs)
  }

  /** A single resource parses as itself. */
  lemma ParseAllSingle(isUuid: string -> bool, resource: string)
    ensures ParseAll(isUuid, [resource]) == match ParseResourceIdentifier(isUuid, resource)
      case Ok(v) => Ok([v])
      case Err(e) => Err(e)
  {
    assert [resource][1..] == [];
    assert ParseAll(isUuid, []) == Ok([]);
    match ParseResourceIdentifier(isUuid, resource)
    case Ok(v) => assert [v] + [] == [v];
    case Err(e) =>
  }

  /** The callback of `parsedResources.some(...)`. */
  predicate ResourceApplies(r: ParsedResource, req: Request) {
    && (r.organizationId == "*" || r.organizationId == req.organizationId)
    && exists k :: 0 <= k < |req.candidates| && ResourceIdMatch(r.resourceId, req.candidates[k])
  }

  predicate AnyResourceApplies(parsed: seq<ParsedResource>, req: Request) {
    exists i :: 0 <= i < |parsed| && ResourceApplies(parsed[i], req)
  }

  /** Some pattern of `patterns` matches `action`. */
  predicate AnyActionMatch(patterns: seq<string>, action: string) {
    exists k :: 0 <= k < |patterns| && IsActionMatch(patterns[k], action)
  }

  /** Some action pattern of the statement matches the requested action. */
  predicate ActionListed(st: Statement, action: string) {
    AnyActionMatch(Items(st.action), action)
  }

  /** Looking at one more pattern. */
  lemma AnyActionMatchExtend(patterns: seq<string>, j: nat, action: string)
    requires j < |patterns|
    ensures AnyActionMatch(patterns[..j + 1], action)
         == (AnyActionMatch(patterns[..j], action) || IsActionMatch(patterns[j], action))
  {
    assert patterns[..j + 1][j] == patterns[j];
    assert forall k :: 0 <= k < j ==> patterns[..j + 1][k] == patterns[..j][k];
  }

  /** A statement with a single action pattern lists what that pattern matches. */
  lemma ActionListedOne(effect: Effect, pattern: string, resource: OneOrMany, action: string)
    ensures ActionListed(Statement(effect, One(pattern), resource), action) == IsActionMatch(pattern, action)
  {
    assert Items(One(pattern))[0] == pattern;
  }

  /** Every resource of the statement parses. */
  predicate WellFormed(isUuid: string -> bool, st: Statement) {
    ParseAll(isUuid, Items(st.resource)).Ok?
  }

  /** The statement is well formed and is not skipped for this request. */
  predicate Applicable(isUuid: string -> bool, st: Statement, req: Request) {
    WellFormed(isUuid, st) && AnyResourceApplies(ParseAll(isUuid, Items(st.resource)).value, req)
  }

  predicate Grants(isUuid: string -> bool, st: Statement, req: Request) {
    st.effect == Allow && Applicable(isUuid, st, req) && ActionListed(st, req.action)
  }

  predicate Vetoes(isUuid: string -> bool, st: Statement, req: Request) {
    st.effect == Deny && Applicable(isUuid, st, req) && ActionListed(st, req.action)
  }

  /** One iteration of the statement loop of `assertPerformAction`, with
      `allowed` the value of its `isAllowed` flag before and `Ok(b)` the value
      after: parse the resources, skip the statement unless one applies, then
      throw on a matching deny or set the flag on a matching allow. */
  function Step(isUuid: string -> bool, st: Statement, req: Request, allowed: bool): Result<bool, AuthzError> {
    match ParseAll(isUuid, Items(st.resource))
    case Err(e) => Err(InvalidResourceIdentifier(e))
    case Ok(parsed) =>
      if !AnyResourceApplies(parsed, req) then Ok(allowed)
      else if st.effect == Deny && ActionListed(st, req.action) then Err(AccessDenied)
      else Ok(allowed || ActionListed(st, req.action))
  }

  /** The whole statement loop; `Ok(b)` means the loop reached the end with flag `b`. */
  function Scan(isUuid: string -> bool, stmts: seq<Statement>, req: Request, allowed: bool): Result<bool, AuthzError>
    decreases |stmts|
  {
    if stmts == [] then Ok(allowed)
    else
      match Step(isUuid, stmts[0], req, allowed)
      case Err(e) => Err(e)
      case Ok(allowed') => Scan(isUuid, stmts[1..], req, allowed')
  }

  /** A single statement decides on its own. */
  lemma EvaluateSingle(isUuid: string -> bool, st: Statement, req: Request)
    ensures Evaluate(isUuid, [st], req) == match Step(isUuid, st, req, false)
      case Err(e) => Fail(e)
      case Ok(allowed) => if allowed then Pass else Fail(AccessDenied)
  {
    assert [st][1..] == [];
    match Step(isUuid, st, req, false)
    case Err(e) =>
      assert Scan(isUuid, [st], req, false) == Err(e);
    case Ok(allowed) =>
      assert Scan(isUuid, [st], req, false) == Scan(isUuid, [], req, allowed);
  }

  /** A lone `Allow` statement with one action and one resource that covers
      the request passes exactly when its action pattern matches. */
  lemma SingleAllowDecides(isUuid: string -> bool, pattern: string, resource: string, req: Request)
    requires ParseResourceIdentifier(isUuid, resource).Ok?
    requires ResourceApplies(ParseResourceIdentifier(isUuid, resource).value, req)
    ensures Evaluate(isUuid, [Statement(Allow, One(pattern), One(resource))], req)
      == if IsActionMatch(pattern, req.action) then Pass else Fail(AccessDenied)
  {
    var st := Statement(Allow, One(pattern), One(resource));
    var parsed := ParseResourceIdentifier(isUuid, resource).value;
    ParseAllSingle(isUuid, resource);
    assert AnyResourceApplies([parsed], req) by { assert [parsed][0] == parsed; }
    ActionListedOne(Allow, pattern, One(resource), req.action);
    EvaluateSingle(isUuid, st, req);
  }

  /** What one iteration does, in terms of the statement's properties. */
  lemma StepCharacterization(isUuid: string -> bool, st: Statement, req: Request, allowed: bool)
    ensures Step(isUuid, st, req, allowed).Ok? <==> WellFormed(isUuid, st) && !Vetoes(isUuid, st, req)
    ensures Step(isUuid, st, req, allowed).Ok? ==>
      Step(isUuid, st, req, allowed).value == (allowed || Grants(isUuid, st, req))
    ensures !WellFormed(isUuid, st) ==>
      Step(isUuid, st, req, allowed) == Err(InvalidResourceIdentifier(ParseAll(isUuid, Items(st.resource)).error))
    ensures WellFormed(isUuid, st) && Step(isUuid, st, req, allowed).Err? ==> Step(isUuid, st, req, allowed).error == AccessDenied
    ensures WellFormed(isUuid, st) && !Applicable(isUuid, st, req) ==> Step(isUuid, st, req, allowed) == Ok(allowed)
  {
  }

  /** The outcome of `assertPerformAction` over the loaded statements. */
  function Evaluate(isUuid: string -> bool, stmts: seq<Statement>, req: Request): Outcome<AuthzError> {
    match Scan(isUuid, stmts, req, false)
    case Err(e) => Fail(e)
    case Ok(allowed) => if allowed then Pass else Fail(AccessDenied)
  }

  /** No statement is malformed or vetoes. */
  predicate AllClear(isUuid: string -> bool, stmts: seq<Statement>, req: Request) {
    forall st :: st in stmts ==> WellFormed(isUuid, st) && !Vetoes(isUuid, st, req)
  }

  /** Some statement grants. */
  predicate AnyGrant(isUuid: string -> bool, stmts: seq<Statement>, req: Request) {
    exists st :: st in stmts && Grants(isUuid, st, req)
  }

  /** Declarative deny-overrides: every statement is well formed, none vetoes,
      and at least one grants. */
  predicate Permitted(isUuid: string -> bool, stmts: seq<Statement>, req: Request) {
    AllClear(isUuid, stmts, req) && AnyGrant(isUuid, stmts, req)
  }

  lemma ClearAndGrantCons(isUuid: string -> bool, st: Statement, rest: seq<Statement>, req: Request)
    ensures AllClear(isUuid, [st] + rest, req)
        == (WellFormed(isUuid, st) && !Vetoes(isUuid, st, req) && AllClear(isUuid, rest, req))
    ensures AnyGrant(isUuid, [st] + rest, req) == (Grants(isUuid, st, req) || AnyGrant(isUuid, rest, req))
  {
    assert forall x :: x in [st] + rest <==> x == st || x in rest;
  }

  lemma ClearAndGrantConcat(isUuid: string -> bool, a: seq<Statement>, b: seq<Statement>, req: Request)
    ensures AllClear(isUuid, a + b, req) == (AllClear(isUuid, a, req) && AllClear(isUuid, b, req))
    ensures AnyGrant(isUuid, a + b, req) == (AnyGrant(isUuid, a, req) || AnyGrant(isUuid, b, req))
  {
    assert forall x :: x in a + b <==> x in a || x in b;
  }

  /** The loop runs to the end exactly when no statement is malformed or vetoes,
      and then the flag records whether some statement granted. */
  lemma {:induction false} ScanCharacterization(isUuid: string -> bool, stmts: seq<Statement>, req: Request, allowed: bool)
    ensures Scan(isUuid, stmts, req, allowed).Ok? <==> AllClear(isUuid, stmts, req)
    ensures Scan(isUuid, stmts, req, allowed).Ok? ==>
      Scan(isUuid, stmts, req, allowed).value == (allowed || AnyGrant(isUuid, stmts, req))
    decreases |stmts|
  {
    if stmts != [] {
      var st := stmts[0];
      var rest := stmts[1..];
      assert stmts == [st] + rest;
      ClearAndGrantCons(isUuid, st, rest, req);
      StepCharacterization(isUuid, st, req, allowed);
      if Step(isUuid, st, req, allowed).Ok? {
        ScanCharacterization(isUuid, rest, req, Step(isUuid, st, req, allowed).value);
      }
    }
  }

  /** The check succeeds exactly when the statements permit the request. */
  lemma EvaluatePassIff(isUuid: string -> bool, stmts: seq<Statement>, req: Request)
    ensures Evaluate(isUuid, stmts, req) == Pass <==> Permitted(isUuid, stmts, req)
  {
    ScanCharacterization(isUuid, stmts, req, false);
  }

  lemma {:induction false} ScanErrorOfWellFormed(isUuid: string -> bool, stmts: seq<Statement>, req: Request, allowed: bool)
    requires forall i :: 0 <= i < |stmts| ==> WellFormed(isUuid, stmts[i])
    ensures Scan(isUuid, stmts, req, allowed).Err? ==> Scan(isUuid, stmts, req, allowed).error == AccessDenied
    decreases |stmts|
  {
    if stmts != [] {
      var st := stmts[0];
      StepCharacterization(isUuid, st, req, allowed);
      if Step(isUuid, st, req, allowed).Ok? {
        assert forall i :: 0 <= i < |stmts[1..]| ==> stmts[1..][i] == stmts[i + 1];
        ScanErrorOfWellFormed(isUuid, stmts[1..], req, Step(isUuid, st, req, allowed).value);
      }
    }
  }

  /** When every resource parses, the only failure is access denied. */
  lemma WellFormedFailureIsAccessDenied(isUuid: string -> bool, stmts: seq<Statement>, req: Request)
    requires forall i :: 0 <= i < |stmts| ==> WellFormed(isUuid, stmts[i])
    ensures Evaluate(isUuid, stmts, req) == Pass || Evaluate(isUuid, stmts, req) == Fail(AccessDenied)
  {
    ScanErrorOfWellFormed(isUuid, stmts, req, false);
  }

  /** Success or failure does not depend on the order of the statements. */
  lemma OrderIndependent(isUuid: string -> bool, stmts: seq<Statement>, stmts': seq<Statement>, req: Request)
    requires multiset(stmts) == multiset(stmts')
    ensures Evaluate(isUuid, stmts, req).Pass? == Evaluate(isUuid, stmts', req).Pass?
  {
    assert forall st :: st in stmts <==> st in stmts' by {
      forall st ensures st in stmts <==> st in stmts' {
        assert st in stmts <==> st in multiset(stmts);
        assert st in stmts' <==> st in multiset(stmts');
      }
    }
    SameMembersSamePermission(isUuid, stmts, stmts', req);
    EvaluatePassIff(isUuid, stmts, req);
    EvaluatePassIff(isUuid, stmts', req);
  }

  /** `Permitted` looks only at which statements are present. */
  lemma SameMembersSamePermission(isUuid: string -> bool, stmts: seq<Statement>, stmts': seq<Statement>, req: Request)
    requires forall st :: st in stmts <==> st in stmts'
    ensures Permitted(isUuid, stmts, req) == Permitted(isUuid, stmts', req)
  {
  }

  /** Deny overrides: one vetoing statement anywhere makes the check fail,
      whatever allows the others hold. */
  lemma DenyOverrides(isUuid: string -> bool, stmts: seq<Statement>, req: Request, st: Statement)
    requires st in stmts && Vetoes(isUuid, st, req)
    ensures Evaluate(isUuid, stmts, req).Fail?
  {
    EvaluatePassIff(isUuid, stmts, req);
  }

  /** No statements, no permission. */
  lemma EmptyStatementsDeny(isUuid: string -> bool, req: Request)
    ensures Evaluate(isUuid, [], req) == Fail(AccessDenied)
  {
  }

  lemma {:induction false} ScanSkipsInapplicable(isUuid: string -> bool, pre: seq<Statement>, st: Statement, post: seq<Statement>, req: Request, allowed: bool)
    requires WellFormed(isUuid, st) && !Applicable(isUuid, st, req)
    ensures Scan(isUuid, pre + [st] + post, req, allowed) == Scan(isUuid, pre + post, req, allowed)
    decreases |pre|
  {
    StepCharacterization(isUuid, st, req, allowed);
    if pre == [] {
      assert pre + [st] + post == [st] + post;
      assert ([st] + post)[1..] == post;
      assert pre + post == post;
    } else {
      assert (pre + [st] + post)[0] == pre[0];
      assert (pre + [st] + post)[1..] == pre[1..] + [st] + post;
      assert (pre + post)[0] == pre[0];
      assert (pre + post)[1..] == pre[1..] + post;
      var h := Step(isUuid, pre[0], req, allowed);
      if h.Ok? {
        ScanSkipsInapplicable(isUuid, pre[1..], st, post, req, h.value);
      }
    }
  }

  /** A well-formed statement whose resources do not apply to the request is
      skipped: removing it changes nothing, not even the error reported. */
  lemma InapplicableStatementIgnored(isUuid: string -> bool, pre: seq<Statement>, st: Statement, post: seq<Statement>, req: Request)
    requires WellFormed(isUuid, st) && !Applicable(isUuid, st, req)
    ensures Evaluate(isUuid, pre + [st] + post, req) == Evaluate(isUuid, pre + post, req)
  {
    ScanSkipsInapplicable(isUuid, pre, st, post, req, false);
  }

  /** A malformed first statement stops the loop with its parse error. */
  lemma ScanMalformedHead(isUuid: string -> bool, st: Statement, rest: seq<Statement>, req: Request, allowed: bool)
    requires !WellFormed(isUuid, st)
    ensures Scan(isUuid, [st] + rest, req, allowed)
         == Err(InvalidResourceIdentifier(ParseAll(isUuid, Items(st.resource)).error))
  {
    StepCharacterization(isUuid, st, req, allowed);
    ScanCons(isUuid, st, rest, req, allowed);
  }

  /** A well-formed first statement that does not veto lets the loop go on. */
  lemma ScanPastClear(isUuid: string -> bool, st: Statement, rest: seq<Statement>, req: Request, allowed: bool)
    requires WellFormed(isUuid, st) && !Vetoes(isUuid, st, req)
    ensures Step(isUuid, st, req, allowed).Ok?
    ensures Scan(isUuid, [st] + rest, req, allowed) == Scan(isUuid, rest, req, Step(isUuid, st, req, allowed).value)
  {
    StepCharacterization(isUuid, st, req, allowed);
    ScanCons(isUuid, st, rest, req, allowed);
  }

  lemma {:induction false} ScanStopsAtMalformed(isUuid: string -> bool, pre: seq<Statement>, st: Statement, post: seq<Statement>, req: Request, allowed: bool)
    requires AllClear(isUuid, pre, req) && !WellFormed(isUuid, st)
    ensures Scan(isUuid, pre + [st] + post, req, allowed)
         == Err(InvalidResourceIdentifier(ParseAll(isUuid, Items(st.resource)).error))
    decreases |pre|
  {
    if pre == [] {
      assert pre + [st] + post == [st] + post;
      ScanMalformedHead(isUuid, st, post, req, allowed);
    } else {
      var h, pre' := pre[0], pre[1..];
      assert pre == [h] + pre';
      assert pre + [st] + post == [h] + (pre' + [st] + post);
      ClearAndGrantCons(isUuid, h, pre', req);
      ScanPastClear(isUuid, h, pre' + [st] + post, req, allowed);
      ScanStopsAtMalformed(isUuid, pre', st, post, req, Step(isUuid, h, req, allowed).value);
    }
  }

  /** Every resource of a scanned statement is parsed before it is checked: a
      malformed one makes the whole check fail with its parse error, even when
      another resource of the same statement would apply, unless an earlier
      statement has already vetoed. */
  lemma MalformedStatementFails(isUuid: string -> bool, stmts: seq<Statement>, k: nat, req: Request)
    requires k < |stmts| && !WellFormed(isUuid, stmts[k])
    requires forall j :: 0 <= j < k ==> WellFormed(isUuid, stmts[j]) && !Vetoes(isUuid, stmts[j], req)
    ensures Evaluate(isUuid, stmts, req)
         == Fail(InvalidResourceIdentifier(ParseAll(isUuid, Items(stmts[k].resource)).error))
  {
    var pre := stmts[..k];
    assert stmts == pre + [stmts[k]] + stmts[k + 1..];
    assert AllClear(isUuid, pre, req) by {
      forall st | st in pre
        ensures WellFormed(isUuid, st) && !Vetoes(isUuid, st, req)
      {
        var j :| 0 <= j < |pre| && pre[j] == st;
        assert st == stmts[j];
      }
    }
    ScanStopsAtMalformed(isUuid, pre, stmts[k], stmts[k + 1..], req, false);
  }

  /** `parsedResources.some(...)` with the inner loop over the candidate ids. */
  method ResourcesApply(parsed: seq<ParsedResource>, req: Request) returns (b: bool)
    ensures b == AnyResourceApplies(parsed, req)
  {
    var i := 0;
    while i < |parsed|
      invariant 0 <= i <= |parsed|
      invariant forall j :: 0 <= j < i ==> !ResourceApplies(parsed[j], req)
    {
      var resource := parsed[i];
      if resource.organizationId == "*" || resource.organizationId == req.organizationId {
        var k := 0;
        while k < |req.candidates|
          invariant 0 <= k <= |req.candidates|
          invariant forall m :: 0 <= m < k ==> !ResourceIdMatch(resource.resourceId, req.candidates[m])
        {
          var matched := IsResourceIdMatch(resource.resourceId, req.candidates[k]);
          if matched {
            return true;
          }
          k := k + 1;
        }
      }
      i := i + 1;
    }
    return false;
  }

  /** Once the resources have parsed, one iteration is decided by the parsed
      resources and the action patterns alone. */
  lemma StepWhenParsed(isUuid: string -> bool, st: Statement, req: Request, allowed: bool, parsed: seq<ParsedResource>)
    requires ParseAll(isUuid, Items(st.resource)) == Ok(parsed)
    ensures Step(isUuid, st, req, allowed) ==
      if !AnyResourceApplies(parsed, req) then Ok(allowed)
      else if st.effect == Deny && ActionListed(st, req.action) then Err(AccessDenied)
      else Ok(allowed || ActionListed(st, req.action))
  {
  }

  /** The body of the statement loop of `assertPerformAction` for one
      statement: `Err` is what it throws, `Ok` the new `isAllowed` flag. */
  method StepStatement(isUuid: string -> bool, permission: Statement, req: Request, isAllowed: bool)
    returns (r: Result<bool, AuthzError>)
    ensures r == Step(isUuid, permission, req, isAllowed)
  {
    var parsedResources := ParseAll(isUuid, Items(permission.resource));
    if parsedResources.Err? {
      return Err(InvalidResourceIdentifier(parsedResources.error));
    }
    StepWhenParsed(isUuid, permission, req, isAllowed, parsedResources.value);
    var applies := ResourcesApply(parsedResources.value, req);
    if !applies {
      return Ok(isAllowed);
    }
    var actions := Items(permission.action);
    var allowed := isAllowed;
    var j := 0;
    while j < |actions|
      invariant 0 <= j <= |actions|
      invariant allowed == (isAllowed || AnyActionMatch(actions[..j], req.action))
      invariant permission.effect == Deny ==> !AnyActionMatch(actions[..j], req.action)
    {
      AnyActionMatchExtend(actions, j, req.action);
      var matched := IsActionMatch(actions[j], req.action);
      if matched {
        if permission.effect == Deny {
          return Err(AccessDenied);
        } else {
          allowed := true;
        }
      }
      j := j + 1;
    }
    assert actions[..j] == actions;
    return Ok(allowed);
  }

  /** The loop over `[st] + rest` is one step followed by the loop over `rest`. */
  lemma ScanCons(isUuid: string -> bool, st: Statement, rest: seq<Statement>, req: Request, allowed: bool)
    ensures Step(isUuid, st, req, allowed).Err? ==>
      Scan(isUuid, [st] + rest, req, allowed) == Err(Step(isUuid, st, req, allowed).error)
    ensures Step(isUuid, st, req, allowed).Ok? ==>
      Scan(isUuid, [st] + rest, req, allowed) == Scan(isUuid, rest, req, Step(isUuid, st, req, allowed).value)
  {
    assert ([st] + rest)[0] == st && ([st] + rest)[1..] == rest;
  }

  /** The loop from statement `i` on is one step followed by the loop from `i + 1`. */
  lemma ScanAt(isUuid: string -> bool, stmts: seq<Statement>, i: nat, req: Request, allowed: bool)
    requires i < |stmts|
    ensures Scan(isUuid, stmts[i..], req, allowed) == match Step(isUuid, stmts[i], req, allowed)
      case Err(e) => Err(e)
      case Ok(allowed') => Scan(isUuid, stmts[i + 1..], req, allowed')
  {
    assert stmts[i..][0] == stmts[i] && stmts[i..][1..] == stmts[i + 1..];
  }

  /** The statement loop of `assertPerformAction` with its `isAllowed` flag. */
  method CheckStatements(isUuid: string -> bool, permissions: seq<Statement>, req: Request) returns (r: Outcome<AuthzError>)
    ensures r == Evaluate(isUuid, permissions, req)
  {
    var isAllowed := false;
    var i := 0;
    while i < |permissions|
      invariant 0 <= i <= |permissions|
      invariant Scan(isUuid, permissions[i..], req, isAllowed) == Scan(isUuid, permissions, req, false)
    {
      var step := StepStatement(isUuid, permissions[i], req, isAllowed);
      ScanAt(isUuid, permissions, i, req, isAllowed);
      if step.Err? {
        return Fail(step.error);
      }
      isAllowed := step.value;
      i := i + 1;
    }
    assert permissions[i..] == [];
    if !isAllowed {
      return Fail(AccessDenied);
    }
    return Pass;
  }
}
