/** The computed fields of `AppDeploymentsManager` (app-deployments-manager.ts):
    the status derived from an app deployment's timestamps, and the two batch
    loaders that join rows reported by storage back onto the requested
    deployments. */
module AppDeployments {
  import opened Wrappers

  /** The fields of `AppDeploymentRecord` the manager reads; a timestamp is
      `null` (None) or a string. */
  datatype AppDeploymentRecord = AppDeploymentRecord(id: string, activatedAt: Option<string>, retiredAt: Option<string>)

  datatype AppDeploymentStatus = Pending | Active | Retired

  /** JavaScript truthiness of a `string | null`: set and non-empty. */
  predicate Truthy(x: Option<string>) {
    x.Some? && x.value != ""
  }

  /** `getStatusForAppDeployment`: activation wins over retirement. */
  function GetStatusForAppDeployment(appDeployment: AppDeploymentRecord): (status: AppDeploymentStatus)
    ensures status == Active <==> Truthy(appDeployment.activatedAt)
    ensures status == Retired <==> !Truthy(appDeployment.activatedAt) && Truthy(appDeployment.retiredAt)
    ensures status == Pending <==> !Truthy(appDeployment.activatedAt) && !Truthy(appDeployment.retiredAt)
  {
    if Truthy(appDeployment.activatedAt) then Active
    else if Truthy(appDeployment.retiredAt) then Retired
    else Pending
  }

  /** One row reported by storage: a deployment id with its count or date. */
  datatype Row<V> = Row(appDeploymentId: string, value: V)

  /** What a `Map` filled with `set` over `rows`, in order, holds for `id`:
      the value of the last row for that id. */
  function LastReported<V>(rows: seq<Row<V>>, id: string): Option<V>
    decreases |rows|
  {
    if rows == [] then None
    else if rows[|rows| - 1].appDeploymentId == id then Some(rows[|rows| - 1].value)
    else LastReported(rows[..|rows| - 1], id)
  }

  /** The ids of the requested deployments, in order (`args.map(a => a.id)`). */
  function RecordIds(records: seq<AppDeploymentRecord>): (ids: seq<string>)
    ensures |ids| == |records| && forall i :: 0 <= i < |records| ==> ids[i] == records[i].id
  {
    seq(|records|, i requires 0 <= i < |records| => records[i].id)
  }

  /** The body shared by both loaders: fill a map from the rows, then look every
      id up, falling back to `default` (`map.get(id) ?? default`). */
  method JoinLastRow<V>(ids: seq<string>, rows: seq<Row<V>>, default: V) returns (r: seq<V>)
    ensures |r| == |ids|
    ensures forall i :: 0 <= i < |ids| ==> r[i] == LastReported(rows, ids[i]).GetOr(default)
  {
    var valueMap: map<string, V> := map[];
    var k := 0;
    while k < |rows|
      invariant 0 <= k <= |rows|
      invariant forall id :: LastReported(rows[..k], id) == if id in valueMap then Some(valueMap[id]) else None
    {
      assert rows[..k + 1][..k] == rows[..k];
      valueMap := valueMap[rows[k].appDeploymentId := rows[k].value];
      k := k + 1;
    }
    assert rows[..k] == rows;
    r := [];
    var i := 0;
    while i < |ids|
      invariant 0 <= i <= |ids|
      invariant |r| == i
      invariant forall j :: 0 <= j < i ==> r[j] == LastReported(rows, ids[j]).GetOr(default)
    {
      var v := if ids[i] in valueMap then valueMap[ids[i]] else default;
      r := r + [v];
      i := i + 1;
    }
  }

  /** `getDocumentCountForAppDeployment`: one count per requested deployment,
      in order; `counts` are the rows storage reports. */
  method GetDocumentCountForAppDeployment(records: seq<AppDeploymentRecord>, counts: seq<Row<int>>)
    returns (r: seq<int>)
    ensures |r| == |records|
    ensures forall i :: 0 <= i < |records| ==> r[i] == LastReported(counts, records[i].id).GetOr(0)
  {
    var appDeploymentIds := RecordIds(records);
    r := JoinLastRow(appDeploymentIds, counts, 0);
  }

  /** `getLastUsedForAppDeployment`: one date (or `null`) per requested
      deployment, in order; `dates` are the rows storage reports. */
  method GetLastUsedForAppDeployment(records: seq<AppDeploymentRecord>, dates: seq<Row<Option<string>>>)
    returns (r: seq<Option<string>>)
    ensures |r| == |records|
    ensures forall i :: 0 <= i < |records| ==> r[i] == LastReported(dates, records[i].id).GetOr(None)
  {
    var appDeploymentIds := RecordIds(records);
    r := JoinLastRow(appDeploymentIds, dates, None);
  }

  /** Reference reading of `LastReported`: a value is reported for `id` exactly
      when some row carries it and no later row names `id`; nothing is reported
      exactly when no row names `id`. */
  lemma {:induction false} LastReportedIff<V>(rows: seq<Row<V>>, id: string, v: V)
    ensures LastReported(rows, id) == Some(v) <==>
      exists k :: 0 <= k < |rows| && rows[k] == Row(id, v)
        && forall j :: k < j < |rows| ==> rows[j].appDeploymentId != id
    ensures LastReported(rows, id) == None <==> forall k :: 0 <= k < |rows| ==> rows[k].appDeploymentId != id
    decreases |rows|
  {
    if rows != [] {
      var n := |rows| - 1;
      var init := rows[..n];
      LastReportedIff(init, id, v);
      assert forall k :: 0 <= k < n ==> init[k] == rows[k];
      if rows[n].appDeploymentId != id {
        if exists k :: 0 <= k < |rows| && rows[k] == Row(id, v) && forall j :: k < j < |rows| ==> rows[j].appDeploymentId != id {
          var k :| 0 <= k < |rows| && rows[k] == Row(id, v) && forall j :: k < j < |rows| ==> rows[j].appDeploymentId != id;
          assert k < n;
          assert init[k] == Row(id, v);
        }
      }
    }
  }

  /** `Map.set` overwrites: of several rows for one id, the last one wins,
      whatever came before it. */
  lemma LastRowWins<V>(pre: seq<Row<V>>, row: Row<V>, post: seq<Row<V>>)
    requires forall j :: 0 <= j < |post| ==> post[j].appDeploymentId != row.appDeploymentId
    ensures LastReported(pre + [row] + post, row.appDeploymentId) == Some(row.value)
  {
    var upTo := pre + [row];
    assert upTo[..|upTo| - 1] == pre;
    OtherRowsIgnored(upTo, post, row.appDeploymentId);
  }

  /** A deployment that storage reports nothing for gets the default: 0 as its
      document count and `null` as its last use. */
  lemma UnreportedGetsDefault(counts: seq<Row<int>>, dates: seq<Row<Option<string>>>, id: string)
    requires forall k :: 0 <= k < |counts| ==> counts[k].appDeploymentId != id
    requires forall k :: 0 <= k < |dates| ==> dates[k].appDeploymentId != id
    ensures LastReported(counts, id).GetOr(0) == 0
    ensures LastReported(dates, id).GetOr(None) == None
  {
    LastReportedIff(counts, id, 0);
    LastReportedIff(dates, id, None);
  }

  /** Rows about other deployments do not change what is reported for `id`. */
  lemma {:induction false} OtherRowsIgnored<V>(rows: seq<Row<V>>, others: seq<Row<V>>, id: string)
    requires forall k :: 0 <= k < |others| ==> others[k].appDeploymentId != id
    ensures LastReported(rows + others, id) == LastReported(rows, id)
    decreases |others|
  {
    if others != [] {
      var n := |others| - 1;
      assert (rows + others)[..|rows + others| - 1] == rows + others[..n];
      assert (rows + others)[|rows + others| - 1] == others[n];
      OtherRowsIgnored(rows, others[..n], id);
    } else {
      assert rows + others == rows;
    }
  }
}
