/**
 * The admin's ownership-claims page: the fetched claims, ordered by the query with unapproved
 * ones first and newest first within each group, split into a pending and an approved list;
 * and the two server actions, which approve with a POST and reject with a DELETE on the same
 * endpoint.
 *
 * The query's answer is an input.
 */
module ClaimsAdmin {
  import opened Wrappers
  import opened Sequences
  import opened Types

  /** What the claims query answered: an error, or data that may be `null`. */
  datatype ClaimsFetch = ClaimsError | ClaimsData(rows: Option<seq<OwnershipClaim>>)

  /** `claims.filter(c => c.approved == approved)`. */
  function WithApproved(rows: seq<OwnershipClaim>, approved: bool): (r: seq<OwnershipClaim>)
    ensures |r| <= |rows|
  {
    if rows == [] then []
    else (if rows[0].approved == approved then [rows[0]] else []) + WithApproved(rows[1..], approved)
  }

  /** The page's two lists: pending, then approved. */
  function GetClaims(fetch: ClaimsFetch): (r: (seq<OwnershipClaim>, seq<OwnershipClaim>)) {
    if fetch.ClaimsError? || fetch.rows.None? then ([], [])
    else (WithApproved(fetch.rows.value, false), WithApproved(fetch.rows.value, true))
  }

  /** An error, or no data, gives two empty lists. */
  lemma ErrorGivesNothing(fetch: ClaimsFetch)
    requires fetch.ClaimsError? || fetch.rows.None?
    ensures GetClaims(fetch) == ([], [])
  {
  }

  /** A claim is in a list exactly when it was fetched with that approval flag. */
  lemma {:induction false} WithApprovedMembers(rows: seq<OwnershipClaim>, approved: bool, c: OwnershipClaim)
    ensures c in WithApproved(rows, approved) <==> c in rows && c.approved == approved
  {
    if rows != [] {
      WithApprovedMembers(rows[1..], approved, c);
      assert rows == [rows[0]] + rows[1..];
    }
  }

  /** The two lists partition the fetched claims: every claim lands in exactly one, as often as it was fetched. */
  lemma {:induction false} PartitionIsExact(rows: seq<OwnershipClaim>)
    ensures multiset(WithApproved(rows, false)) + multiset(WithApproved(rows, true)) == multiset(rows)
    ensures |WithApproved(rows, false)| + |WithApproved(rows, true)| == |rows|
  {
    if rows != [] {
      PartitionIsExact(rows[1..]);
      assert rows == [rows[0]] + rows[1..];
    }
  }

  /** Each list keeps the fetched order. */
  lemma {:induction false} WithApprovedKeepsOrder(rows: seq<OwnershipClaim>, approved: bool)
    ensures SubsequenceOf(WithApproved(rows, approved), rows)
  {
    if rows != [] {
      WithApprovedKeepsOrder(rows[1..], approved);
      if rows[0].approved == approved {
        assert WithApproved(rows, approved)[1..] == WithApproved(rows[1..], approved);
      } else {
        assert WithApproved(rows, approved) == WithApproved(rows[1..], approved);
        SkipHead(WithApproved(rows[1..], approved), rows);
      }
    }
  }

  /** `order('approved', asc).order('created_at', desc)`: `a` may come before `b`. */
  predicate FetchOrder(a: OwnershipClaim, b: OwnershipClaim) {
    (!a.approved && b.approved) || (a.approved == b.approved && a.createdAt.millis >= b.createdAt.millis)
  }

  predicate InFetchOrder(rows: seq<OwnershipClaim>) {
    forall i, j :: 0 <= i < j < |rows| ==> FetchOrder(rows[i], rows[j])
  }

  /** Newest first. */
  predicate NewestFirst(rows: seq<OwnershipClaim>) {
    forall i, j :: 0 <= i < j < |rows| ==> rows[i].createdAt.millis >= rows[j].createdAt.millis
  }

  /** What the query's order gives the rest of the list: its own order, and the head before each of its claims. */
  lemma FetchOrderTail(rows: seq<OwnershipClaim>)
    requires rows != [] && InFetchOrder(rows)
    ensures InFetchOrder(rows[1..])
    ensures forall c :: c in rows[1..] ==> FetchOrder(rows[0], c)
  {
    forall i, j | 0 <= i < j < |rows[1..]| ensures FetchOrder(rows[1..][i], rows[1..][j]) {
      assert rows[1..][i] == rows[i + 1] && rows[1..][j] == rows[j + 1];
    }
    forall c | c in rows[1..] ensures FetchOrder(rows[0], c) {
      var k :| 0 <= k < |rows[1..]| && rows[1..][k] == c;
      assert rows[k + 1] == c;
    }
  }

  /**
   * With the query's order, the fetched list is the pending list followed by the approved
   * one, and each list is newest first.
   */
  lemma {:induction false} OrderedFetchSplits(rows: seq<OwnershipClaim>)
    requires InFetchOrder(rows)
    ensures rows == WithApproved(rows, false) + WithApproved(rows, true)
    ensures NewestFirst(WithApproved(rows, false)) && NewestFirst(WithApproved(rows, true))
  {
    if rows != [] {
      FetchOrderTail(rows);
      OrderedFetchSplits(rows[1..]);
      assert rows == [rows[0]] + rows[1..];
      if rows[0].approved {
        ApprovedHeadSplits(rows[0], rows[1..]);
      } else {
        PendingHeadSplits(rows[0], rows[1..]);
      }
    }
  }

  /** The step of the split when the first fetched claim is approved: nothing pending follows it. */
  lemma ApprovedHeadSplits(x: OwnershipClaim, rest: seq<OwnershipClaim>)
    requires x.approved
    requires forall c :: c in rest ==> FetchOrder(x, c)
    requires rest == WithApproved(rest, false) + WithApproved(rest, true)
    requires NewestFirst(WithApproved(rest, false)) && NewestFirst(WithApproved(rest, true))
    ensures [x] + rest == WithApproved([x] + rest, false) + WithApproved([x] + rest, true)
    ensures NewestFirst(WithApproved([x] + rest, false)) && NewestFirst(WithApproved([x] + rest, true))
  {
    var p, a := WithApproved(rest, false), WithApproved(rest, true);
    WithApprovedCons(x, rest, false);
    WithApprovedCons(x, rest, true);
    assert p == [] by {
      if p != [] {
        WithApprovedMembers(rest, false, p[0]);
        assert false;
      }
    }
    assert WithApproved([x] + rest, true) == [x] + a;
    assert WithApproved([x] + rest, false) == p;
    assert NewestFirst([x] + a) by {
      forall c | c in a ensures x.createdAt.millis >= c.createdAt.millis {
        WithApprovedMembers(rest, true, c);
      }
      NewestFirstPrepend(x, a);
    }
  }

  /** The step of the split when the first fetched claim is pending: it is the newest pending one. */
  lemma PendingHeadSplits(x: OwnershipClaim, rest: seq<OwnershipClaim>)
    requires !x.approved
    requires forall c :: c in rest ==> FetchOrder(x, c)
    requires rest == WithApproved(rest, false) + WithApproved(rest, true)
    requires NewestFirst(WithApproved(rest, false)) && NewestFirst(WithApproved(rest, true))
    ensures [x] + rest == WithApproved([x] + rest, false) + WithApproved([x] + rest, true)
    ensures NewestFirst(WithApproved([x] + rest, false)) && NewestFirst(WithApproved([x] + rest, true))
  {
    var p, a := WithApproved(rest, false), WithApproved(rest, true);
    WithApprovedCons(x, rest, false);
    WithApprovedCons(x, rest, true);
    assert WithApproved([x] + rest, true) == a;
    NewerThanPending(x, rest);
    NewestFirstPrepend(x, p);
    ConcatAssoc([x], p, a);
  }

  /** A pending claim fetched first is at least as new as every pending claim after it. */
  lemma NewerThanPending(x: OwnershipClaim, rest: seq<OwnershipClaim>)
    requires !x.approved
    requires forall c :: c in rest ==> FetchOrder(x, c)
    ensures forall c :: c in WithApproved(rest, false) ==> x.createdAt.millis >= c.createdAt.millis
  {
    forall c | c in WithApproved(rest, false) ensures x.createdAt.millis >= c.createdAt.millis {
      WithApprovedMembers(rest, false, c);
    }
  }

  lemma WithApprovedCons(x: OwnershipClaim, rest: seq<OwnershipClaim>, approved: bool)
    ensures WithApproved([x] + rest, approved) == (if x.approved == approved then [x] else []) + WithApproved(rest, approved)
  {
    assert ([x] + rest)[1..] == rest;
  }

  lemma NewestFirstPrepend(x: OwnershipClaim, rows: seq<OwnershipClaim>)
    requires NewestFirst(rows)
    requires forall c :: c in rows ==> x.createdAt.millis >= c.createdAt.millis
    ensures NewestFirst([x] + rows)
  {
    forall i, j | 0 <= i < j < |[x] + rows| ensures ([x] + rows)[i].createdAt.millis >= ([x] + rows)[j].createdAt.millis {
      if i == 0 {
        assert rows[j - 1] in rows;
      }
    }
  }

  /** A claim action's request: its HTTP method and URL. */
  datatype ClaimAction = ClaimAction(httpMethod: string, url: string)

  function ClaimUrl(siteUrl: string, claimId: string): string {
    siteUrl + "/api/admin/claims/" + claimId + "/approve"
  }

  /** Approving a claim posts to its endpoint. */
  function ApproveAction(siteUrl: string, claimId: string): (r: ClaimAction)
    ensures r.httpMethod == "POST" && r.url == ClaimUrl(siteUrl, claimId)
  {
    ClaimAction("POST", ClaimUrl(siteUrl, claimId))
  }

  /** Rejecting a claim deletes at the same endpoint. */
  function RejectAction(siteUrl: string, claimId: string): (r: ClaimAction)
    ensures r.httpMethod == "DELETE" && r.url == ClaimUrl(siteUrl, claimId)
  {
    ClaimAction("DELETE", ClaimUrl(siteUrl, claimId))
  }

  /** Both actions address the same URL and differ only in the method; distinct claims get distinct URLs. */
  lemma ActionsShareEndpoint(siteUrl: string, claimId: string, otherId: string)
    ensures ApproveAction(siteUrl, claimId).url == RejectAction(siteUrl, claimId).url
    ensures ApproveAction(siteUrl, claimId) != RejectAction(siteUrl, claimId)
    ensures claimId != otherId ==> ClaimUrl(siteUrl, claimId) != ClaimUrl(siteUrl, otherId)
  {
    if claimId != otherId {
      var pre := siteUrl + "/api/admin/claims/";
      assert ClaimUrl(siteUrl, claimId) == pre + (claimId + "/approve");
      assert ClaimUrl(siteUrl, otherId) == pre + (otherId + "/approve");
      FramedDistinct(pre, claimId, otherId, "/approve");
    }
  }

  /** Different texts between the same fixed beginning and ending stay different. */
  lemma FramedDistinct(head: string, a: string, b: string, tail: string)
    requires a != b
    ensures head + (a + tail) != head + (b + tail)
  {
    assert (head + (a + tail))[|head|..] == a + tail;
    assert (head + (b + tail))[|head|..] == b + tail;
    assert (a + tail)[..|a|] == a;
    assert (b + tail)[..|b|] == b;
  }

  /** The error a failed action throws. */
  function ActionError(action: ClaimAction, ok: bool): (r: Option<string>)
    ensures ok <==> r.None?
  {
    if ok then None
    else if action.httpMethod == "POST" then Some("Error al aprobar la reclamación")
    else Some("Error al rechazar la reclamación")
  }
}
