/** The two wildcard matchers of the policy evaluator (authz.ts): one for
    action names, one for `/`-separated resource paths. */
module Matching {
  import opened Wrappers
  import opened Strings

  /** `isActionMatch`: the pattern `*`, the action itself, or `scope:*` where
      `scope` is the action's text before its first colon. */
  function IsActionMatch(pattern: string, action: string): (r: bool)
    ensures pattern == "*" || pattern == action ==> r
    ensures r && pattern != "*" && pattern != action ==>
      |Split(pattern, ':')| >= 2 && Split(pattern, ':')[1] == "*" && Split(pattern, ':')[0] == Split(action, ':')[0]
  {
    if pattern == "*" then true
    else if pattern == action then true
    else
      var actionScope := Split(action, ':')[0];
      var fields := Split(pattern, ':');
      actionScope == fields[0] && |fields| >= 2 && fields[1] == "*"
  }

  /** The pattern `*` matches every action. */
  lemma EveryActionMatchesStar(action: string)
    ensures IsActionMatch("*", action)
  {
  }

  /** Every action matches itself. */
  lemma ActionMatchReflexive(action: string)
    ensures IsActionMatch(action, action)
  {
  }

  /** `scope:*` matches exactly the actions whose text before the first colon
      is `scope`. */
  lemma ScopeWildcardIff(scope: string, action: string)
    requires ':' !in scope
    ensures IsActionMatch(scope + ":*", action) <==> Split(action, ':')[0] == scope
  {
    assert scope + ":*" == scope + [':'] + "*";
    SplitConcat(scope, "*", ':');
    SplitNoSeparator("*", ':');
    if scope + ":*" == action {
      assert Split(action, ':')[0] == scope;
    }
  }

  /** Only the second field of a pattern is compared with `*`: fields after it
      are ignored, so `scope:*:<anything>` matches what `scope:*` matches. */
  lemma ScopeWildcardExtraFieldsIff(scope: string, extra: string, action: string)
    requires ':' !in scope
    ensures IsActionMatch(scope + ":*:" + extra, action) <==> Split(action, ':')[0] == scope
  {
    var star := "*";
    assert ':' !in star;
    assert scope + ":*:" + extra == scope + [':'] + (star + [':'] + extra);
    SplitConcat(scope, star + [':'] + extra, ':');
    SplitConcat(star, extra, ':');
    if scope + ":*:" + extra == action {
      assert Split(action, ':')[0] == scope;
    }
  }

  /** A pattern with no `*` in it is not a wildcard: it matches only itself. */
  lemma PlainPatternMatchesOnlyItself(pattern: string, action: string)
    requires '*' !in pattern
    ensures IsActionMatch(pattern, action) <==> pattern == action
  {
    var fields := Split(pattern, ':');
    if |fields| >= 2 && fields[1] == "*" {
      SplitPieceChars(pattern, ':', 1, '*');
    }
  }

  /** One step of the `do ... while` loop of `isResourceIdMatch`: both arrays
      are `shift`ed (an empty array yields `undefined`, modelled as `None`). The
      match succeeds on a last-remaining `*`, fails on the first difference, and
      stops with success once both arrays are empty. */
  function SegmentsMatch(pattern: seq<string>, path: seq<string>): bool
    decreases |pattern| + |path|
  {
    var p := if pattern == [] then None else Some(pattern[0]);
    var q := if path == [] then None else Some(path[0]);
    var pattern' := if pattern == [] then [] else pattern[1..];
    var path' := if path == [] then [] else path[1..];
    if p == Some("*") && pattern' == [] then true
    else if p != q then false
    else if pattern' != [] || path' != [] then SegmentsMatch(pattern', path')
    else true
  }

  /** `isResourceIdMatch` on the paths' `/`-separated segments. */
  function ResourceIdMatch(pattern: string, resourceId: string): bool {
    SegmentsMatch(Split(pattern, '/'), Split(resourceId, '/'))
  }

  /** Complete description of the segment matcher: a pattern ending in `*`
      matches every path that starts with its other segments (with zero or more
      extra segments); any other pattern matches only the identical path. A `*`
      that is not last is therefore an ordinary segment. */
  lemma {:induction false} SegmentsMatchIff(pattern: seq<string>, path: seq<string>)
    requires |pattern| >= 1
    ensures SegmentsMatch(pattern, path) <==>
      if pattern[|pattern| - 1] == "*" then
        |path| >= |pattern| - 1 && path[..|pattern| - 1] == pattern[..|pattern| - 1]
      else path == pattern
    decreases |pattern|
  {
    var n := |pattern|;
    if n == 1 {
      if pattern[0] != "*" && path != [] && path[0] == pattern[0] {
        var path' := path[1..];
        if path' != [] {
          assert !SegmentsMatch([], path');
        } else {
          assert path == [path[0]];
        }
      }
    } else {
      if path != [] && path[0] == pattern[0] {
        SegmentsMatchIff(pattern[1..], path[1..]);
        assert SegmentsMatch(pattern, path) == SegmentsMatch(pattern[1..], path[1..]);
        if pattern[n - 1] == "*" {
          if |path| >= n - 1 {
            assert path[..n - 1] == [path[0]] + path[1..][..n - 2];
            assert pattern[..n - 1] == [pattern[0]] + pattern[1..][..n - 2];
            assert path[1..][..n - 2] == path[..n - 1][1..];
            assert pattern[1..][..n - 2] == pattern[..n - 1][1..];
          }
        } else {
          assert path == [path[0]] + path[1..];
          assert pattern == [pattern[0]] + pattern[1..];
        }
      } else if path != [] {
        if pattern[n - 1] == "*" && |path| >= n - 1 {
          assert path[..n - 1][0] == path[0];
          assert pattern[..n - 1][0] == pattern[0];
        }
      }
    }
  }

  /** Every path matches itself. */
  lemma ResourceIdMatchReflexive(resourceId: string)
    ensures ResourceIdMatch(resourceId, resourceId)
  {
    SegmentsMatchIff(Split(resourceId, '/'), Split(resourceId, '/'));
  }

  /** The pattern `*` matches every path. */
  lemma StarMatchesEveryResource(resourceId: string)
    ensures ResourceIdMatch("*", resourceId)
  {
    SplitNoSeparator("*", '/');
  }

  /** A trailing `*` consumes the rest of the path, including nothing at all. */
  lemma TrailingStarMatchesExtensions(prefix: seq<string>, extra: seq<string>)
    ensures SegmentsMatch(prefix + ["*"], prefix + extra)
  {
    var pattern := prefix + ["*"];
    SegmentsMatchIff(pattern, prefix + extra);
    assert pattern[..|pattern| - 1] == prefix;
    assert (prefix + extra)[..|prefix|] == prefix;
  }

  /** A `*` that is not the last segment matches only a literal `*`. */
  lemma InnerStarIsLiteral(pattern: seq<string>, path: seq<string>, i: nat)
    requires i + 1 < |pattern| && pattern[i] == "*"
    requires SegmentsMatch(pattern, path)
    ensures i < |path| && path[i] == "*"
  {
    SegmentsMatchIff(pattern, path);
    var n := |pattern|;
    if pattern[n - 1] == "*" {
      assert path[..n - 1][i] == pattern[..n - 1][i];
    }
  }

  /** Without a trailing `*`, a shorter or a longer path never matches. */
  lemma PlainPatternNeedsEqualLength(pattern: seq<string>, path: seq<string>)
    requires |pattern| >= 1 && pattern[|pattern| - 1] != "*"
    requires |path| != |pattern|
    ensures !SegmentsMatch(pattern, path)
  {
    SegmentsMatchIff(pattern, path);
  }

  /** The relation is not symmetric: pattern segments [a, *] match [a, b], but not conversely. */
  lemma ResourceMatchNotSymmetric(a: string, b: string)
    requires b != "*"
    ensures SegmentsMatch([a, "*"], [a, b])
    ensures !SegmentsMatch([a, b], [a, "*"])
  {
    SegmentsMatchIff([a, "*"], [a, b]);
    SegmentsMatchIff([a, b], [a, "*"]);
  }

  /** `isResourceIdMatch` as written: split both paths, then shift one segment
      from each per iteration of the `do ... while` loop. */
  method IsResourceIdMatch(pattern: string, resourceId: string) returns (b: bool)
    ensures b == ResourceIdMatch(pattern, resourceId)
  {
    var wildcardIdParts := Split(pattern, '/');
    var resourceIdParts := Split(resourceId, '/');
    while true
      invariant SegmentsMatch(wildcardIdParts, resourceIdParts) == ResourceIdMatch(pattern, resourceId)
      decreases |wildcardIdParts| + |resourceIdParts|
    {
      var wildcardIdPart: Option<string> := None;
      if wildcardIdParts != [] {
        wildcardIdPart := Some(wildcardIdParts[0]);
        wildcardIdParts := wildcardIdParts[1..];
      }
      var resourceIdPart: Option<string> := None;
      if resourceIdParts != [] {
        resourceIdPart := Some(resourceIdParts[0]);
        resourceIdParts := resourceIdParts[1..];
      }
      if wildcardIdPart == Some("*") && |wildcardIdParts| == 0 {
        return true;
      }
      if wildcardIdPart != resourceIdPart {
        return false;
      }
      if |wildcardIdParts| == 0 && |resourceIdParts| == 0 {
        return true;
      }
    }
  }
}
