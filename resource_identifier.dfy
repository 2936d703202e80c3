/** Hive resource names (HRNs): `hrn:<organizationId or *>:<resource path>`,
    and the parser that the policy evaluator runs over every resource of a
    statement (authz.ts, `parseResourceIdentifier`). */
module ResourceIdentifiers {
  import opened Wrappers
  import opened Strings

  /** The four numbered failures of the parser, in the order it checks them. */
  datatype ParseError =
    | MissingParts         // (1) no `:` at all
    | WrongPrefix          // (2) the first field is not `hrn`
    | InvalidOrganization  // (3) the organization field is empty, or neither a UUID nor `*`
    | MissingResourceType  // (4) the path field is missing or empty

  datatype ParsedResource = ParsedResource(organizationId: string, resourceId: string)

  /** The text `hrn:<organizationId>:<resourceId>`. */
  function Hrn(organizationId: string, resourceId: string): string {
    "hrn:" + organizationId + ":" + resourceId
  }

  /** A well-formed organization field: non-empty, colon-free, a UUID or `*`. */
  predicate ValidOrganization(isUuid: string -> bool, organizationId: string) {
    organizationId != "" && ':' !in organizationId && (isUuid(organizationId) || organizationId == "*")
  }

  /** A well-formed resource-path field: non-empty and colon-free. */
  predicate ValidResourcePath(resourceId: string) {
    resourceId != "" && ':' !in resourceId
  }

  /** Splits on `:` and checks the first three fields; fields after the third
      are ignored. `isUuid` stands for the repository's UUID test. */
  function ParseResourceIdentifier(isUuid: string -> bool, resource: string): (r: Result<ParsedResource, ParseError>)
    ensures r.Ok? ==> ValidOrganization(isUuid, r.value.organizationId) && ValidResourcePath(r.value.resourceId)
  {
    var parts := Split(resource, ':');
    if |parts| < 2 then Err(MissingParts)
    else if parts[0] != "hrn" then Err(WrongPrefix)
    else if parts[1] == "" || (!isUuid(parts[1]) && parts[1] != "*") then Err(InvalidOrganization)
    else if |parts| < 3 || parts[2] == "" then Err(MissingResourceType)
    else Ok(ParsedResource(parts[1], parts[2]))
  }

  /** `hrn:<o>` and `hrn:<o>:<t>` split into `hrn`, `o`, then the pieces of `t`. */
  lemma HrnFields(organizationId: string, tail: string)
    requires ':' !in organizationId
    ensures Split("hrn:" + organizationId, ':') == ["hrn", organizationId]
    ensures Split("hrn:" + organizationId + ":" + tail, ':') == ["hrn", organizationId] + Split(tail, ':')
  {
    HrnPrefixSplit(organizationId);
    SplitNoSeparator(organizationId, ':');
    assert "hrn:" + organizationId + ":" + tail == "hrn:" + (organizationId + [':'] + tail);
    HrnPrefixSplit(organizationId + [':'] + tail);
    SplitConcat(organizationId, tail, ':');
  }

  /** The `hrn` field comes off first. */
  lemma HrnPrefixSplit(rest: string)
    ensures Split("hrn:" + rest, ':') == ["hrn"] + Split(rest, ':')
  {
    var prefix := "hrn";
    assert ':' !in prefix;
    assert "hrn:" + rest == prefix + [':'] + rest;
    SplitConcat(prefix, rest, ':');
  }

  /** Failure (1) happens exactly for strings without a colon. */
  lemma ParseMissingPartsIff(isUuid: string -> bool, resource: string)
    ensures ParseResourceIdentifier(isUuid, resource) == Err(MissingParts) <==> ':' !in resource
  {
    SplitSingleIff(resource, ':');
  }

  /** Failure (2) happens exactly when there is a colon and the text before the
      first one is not `hrn`. */
  lemma ParseWrongPrefixIff(isUuid: string -> bool, resource: string)
    ensures ParseResourceIdentifier(isUuid, resource) == Err(WrongPrefix)
        <==> ':' in resource && Split(resource, ':')[0] != "hrn"
  {
    SplitSingleIff(resource, ':');
  }

  /** Failure (3): a well-prefixed string whose organization field is empty or
      neither a UUID nor `*`, whatever follows. */
  lemma ParseInvalidOrganization(isUuid: string -> bool, organizationId: string, tail: string)
    requires ':' !in organizationId
    requires organizationId == "" || (!isUuid(organizationId) && organizationId != "*")
    ensures ParseResourceIdentifier(isUuid, "hrn:" + organizationId) == Err(InvalidOrganization)
    ensures ParseResourceIdentifier(isUuid, "hrn:" + organizationId + ":" + tail) == Err(InvalidOrganization)
  {
    HrnFields(organizationId, tail);
  }

  /** Failure (4): `hrn:<uuid>` (only two fields), `hrn:<uuid>:` (empty path),
      and an empty path followed by more fields, `hrn:<uuid>::<tail>`. */
  lemma ParseMissingResourceType(isUuid: string -> bool, organizationId: string, tail: string)
    requires ValidOrganization(isUuid, organizationId)
    ensures ParseResourceIdentifier(isUuid, "hrn:" + organizationId) == Err(MissingResourceType)
    ensures ParseResourceIdentifier(isUuid, "hrn:" + organizationId + ":") == Err(MissingResourceType)
    ensures ParseResourceIdentifier(isUuid, "hrn:" + organizationId + "::" + tail) == Err(MissingResourceType)
  {
    assert ParseResourceIdentifier(isUuid, "hrn:" + organizationId) == Err(MissingResourceType) by {
      HrnFields(organizationId, "");
    }
    assert ParseResourceIdentifier(isUuid, "hrn:" + organizationId + ":") == Err(MissingResourceType) by {
      HrnFields(organizationId, "");
      assert "hrn:" + organizationId + ":" + "" == "hrn:" + organizationId + ":";
    }
    assert ParseResourceIdentifier(isUuid, "hrn:" + organizationId + "::" + tail) == Err(MissingResourceType) by {
      HrnFields(organizationId, ":" + tail);
      assert "hrn:" + organizationId + "::" + tail == "hrn:" + organizationId + ":" + (":" + tail);
      assert ":" + tail == "" + [':'] + tail;
      SplitConcat("", tail, ':');
    }
  }

  /** Round trip: formatting a valid organization and path and parsing the text
      gives both back. */
  lemma ParseRoundTrip(isUuid: string -> bool, organizationId: string, resourceId: string)
    requires ValidOrganization(isUuid, organizationId) && ValidResourcePath(resourceId)
    ensures ParseResourceIdentifier(isUuid, Hrn(organizationId, resourceId)) == Ok(ParsedResource(organizationId, resourceId))
  {
    HrnFields(organizationId, resourceId);
    SplitNoSeparator(resourceId, ':');
  }

  /** Anything after a third colon is discarded. */
  lemma ParseIgnoresTrailingFields(isUuid: string -> bool, organizationId: string, resourceId: string, rest: string)
    requires ValidOrganization(isUuid, organizationId) && ValidResourcePath(resourceId)
    ensures ParseResourceIdentifier(isUuid, Hrn(organizationId, resourceId) + ":" + rest)
         == Ok(ParsedResource(organizationId, resourceId))
  {
    HrnFields(organizationId, resourceId + ":" + rest);
    assert Hrn(organizationId, resourceId) + ":" + rest == "hrn:" + organizationId + ":" + (resourceId + ":" + rest);
    assert resourceId + ":" + rest == resourceId + [':'] + rest;
    SplitConcat(resourceId, rest, ':');
  }

  /** Soundness, the converse of the round trip: whatever parses is the HRN of
      its two fields, followed by nothing or by a colon and discarded text. */
  lemma ParseSound(isUuid: string -> bool, resource: string)
    requires ParseResourceIdentifier(isUuid, resource).Ok?
    ensures var v := ParseResourceIdentifier(isUuid, resource).value;
      exists rest :: resource == Hrn(v.organizationId, v.resourceId) + rest && (rest == "" || rest[0] == ':')
  {
    var v := ParseResourceIdentifier(isUuid, resource).value;
    var parts := Split(resource, ':');
    JoinSplit(resource, ':');
    assert Join(parts, ':') == parts[0] + [':'] + Join(parts[1..], ':');
    assert parts[1..][1..] == parts[2..];
    assert Join(parts[1..], ':') == parts[1] + [':'] + Join(parts[2..], ':');
    var rest: string;
    if |parts| == 3 {
      rest := "";
      assert Join(parts[2..], ':') == parts[2];
    } else {
      assert parts[2..][1..] == parts[3..];
      rest := [':'] + Join(parts[3..], ':');
      assert Join(parts[2..], ':') == parts[2] + rest;
    }
    assert resource == Hrn(v.organizationId, v.resourceId) + rest;
  }
}
