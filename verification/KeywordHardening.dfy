/** The hardening migration of keyword runs and their external requests, and its downgrade. */
module KeywordHardening {
  import opened Options

  /** An id stands for its place in the text order of ids. */
  type Id = int

  datatype Run = Run(
    project: Id, kind: string, status: string, stage: string, message: string, keywordCount: int,
    errorCode: Option<string>, createdAt: int, finishedAt: Option<int>, nextRetryAt: Option<int>)

  datatype Request = Request(
    status: string, costUsd: real, errorCode: Option<string>, errorDetail: Option<string>, finishedAt: Option<int>)

  type Runs = map<Id, Run>
  type Requests = map<Id, Request>

  // ----- Constraints ---------------------------------------------------------------

  const OLD_ACTIVE: set<string> := {"queued", "running", "waiting"}
  const ACTIVE: set<string> := {"queued", "running", "waiting", "blocked"}
  const OLD_RUN_STATUS: set<string> := {"queued", "running", "waiting", "partial", "completed", "failed", "cancelled"}
  const RUN_STATUS: set<string> := {
    "queued", "running", "waiting", "blocked", "partial", "completed", "failed", "cancelled"
  }
  const OLD_REQUEST_STATUS: set<string> := {"running", "completed", "retryable_failed", "charged_failed", "uncertain"}
  const REQUEST_STATUS: set<string> := {
    "prepared", "submitted", "completed", "retryable_failed", "charged_failed", "uncertain"
  }

  const RECOVERABLE_CODES: set<string> := {
    "google_ads_not_configured", "dataforseo_not_configured", "dataforseo_auth_failed"
  }

  predicate RunStatusIn(runs: Runs, statuses: set<string>) {
    forall i | i in runs :: runs[i].status in statuses
  }

  predicate RequestStatusIn(requests: Requests, statuses: set<string>) {
    forall i | i in requests :: requests[i].status in statuses
  }

  /** The partial unique index on active runs. */
  predicate OneActive(runs: Runs, active: set<string>) {
    forall i, j | i in runs && j in runs && runs[i].project == runs[j].project
                  && runs[i].status in active && runs[j].status in active :: i == j
  }

  // ----- Upgrade -------------------------------------------------------------------

  /** A failed first run that only waited for configuration, in a project where nothing runs. */
  predicate IsCandidate(runs: Runs, i: Id) {
    && i in runs && runs[i].kind == "initial" && runs[i].status == "failed" && runs[i].keywordCount == 0
    && runs[i].errorCode.Some? && runs[i].errorCode.value in RECOVERABLE_CODES
    && !exists j | j in runs :: runs[j].project == runs[i].project && j != i && runs[j].status in OLD_ACTIVE
  }

  predicate Newer(runs: Runs, j: Id, i: Id)
    requires i in runs && j in runs
  {
    runs[j].createdAt > runs[i].createdAt || (runs[j].createdAt == runs[i].createdAt && j > i)
  }

  /** The newest candidate of its project. */
  predicate IsRecoverable(runs: Runs, i: Id) {
    IsCandidate(runs, i) &&
    !exists j | j in runs :: IsCandidate(runs, j) && IsAhead(runs, j, i)
  }

  /** In the same partition and ordered before `i`. */
  predicate IsAhead(runs: Runs, j: Id, i: Id)
    requires i in runs && j in runs
  {
    runs[j].project == runs[i].project && Newer(runs, j, i)
  }

  /** The rows of the subquery. */
  function Candidates(runs: Runs): set<Id> {
    set j | j in runs && IsCandidate(runs, j)
  }

  function Ahead(runs: Runs, rows: set<Id>, i: Id): set<Id>
    requires i in runs && rows <= runs.Keys
  {
    set j | j in rows && IsAhead(runs, j, i)
  }

  /** `row_number()` among these rows. */
  function Rank(runs: Runs, rows: set<Id>, i: Id): nat
    requires i in runs && rows <= runs.Keys
  {
    1 + |Ahead(runs, rows, i)|
  }

  const AUTH_MESSAGE := "搜索数据服务凭证需要更新"
  const WAITING_MESSAGE := "等待搜索数据服务配置后自动继续"
  const UNKNOWN_DETAIL := "升级时发现未结束的外部请求，系统不会自动重复提交"
  const RECREATE_MESSAGE := "关键词任务需要在旧版本中重新创建"

  function Blocked(run: Run): Run {
    run.(status := "blocked",
         stage := "waiting_for_configuration",
         message := if run.errorCode == Some("dataforseo_auth_failed") then AUTH_MESSAGE else WAITING_MESSAGE,
         errorCode := if run.errorCode == Some("google_ads_not_configured") then Some("dataforseo_not_configured")
                      else run.errorCode,
         nextRetryAt := None)
  }

  function Coalesce(moment: Option<int>, now: int): Option<int> {
    if moment.Some? then moment else Some(now)
  }

  predicate WasCharged(request: Request) {
    request.status == "retryable_failed" && request.costUsd > 0.0
  }

  class KeywordTables {
    var runs: Runs
    var requests: Requests

    constructor (runs: Runs, requests: Requests)
      ensures this.runs == runs && this.requests == requests
    {
      this.runs, this.requests := runs, requests;
    }

    /** No failed request that cost something is retried; nothing but its status changes. */
    method ChargeFailedRequests()
      modifies this`requests
      ensures requests.Keys == old(requests).Keys
      ensures forall i | i in requests ::
                && !WasCharged(requests[i])
                && requests[i] == old(requests)[i].(status := requests[i].status)
                && (requests[i].status != old(requests)[i].status <==> WasCharged(old(requests)[i]))
                && (WasCharged(old(requests)[i]) ==> requests[i].status == "charged_failed")
    {
      requests := map i | i in requests ::
        if WasCharged(requests[i]) then requests[i].(status := "charged_failed") else requests[i];
    }

    /** No request runs any more; the closed ones have an end, a reason and their cost. */
    method CloseRunningRequests(now: int)
      modifies this`requests
      ensures requests.Keys == old(requests).Keys
      ensures forall i | i in requests ::
                var before, after := old(requests)[i], requests[i];
                && after.status != "running"
                && (before.status != "running" ==> after == before)
                && (before.status == "running" ==>
                      && after.status == "uncertain" && after.costUsd == before.costUsd
                      && after.errorCode == Some("external_request_outcome_unknown")
                      && after.errorDetail == Some(UNKNOWN_DETAIL)
                      && after.finishedAt == if before.finishedAt.Some? then before.finishedAt else Some(now))
    {
      requests := map i | i in requests ::
        if requests[i].status == "running"
        then requests[i].(status := "uncertain", errorCode := Some("external_request_outcome_unknown"),
                          errorDetail := Some(UNKNOWN_DETAIL), finishedAt := Coalesce(requests[i].finishedAt, now))
        else requests[i];
    }

    /** The window function, for one row: it counts the rows of its partition ordered before it. */
    method ProjectRank(rows: set<Id>, i: Id) returns (rank: nat)
      requires i in runs && rows <= runs.Keys
      ensures rank == Rank(runs, rows, i)
    {
      rank := 1;
      var todo := rows;
      ghost var ahead: set<Id> := {};
      while exists j :: j in todo
        invariant todo <= rows && rank == 1 + |ahead|
        invariant ahead == Ahead(runs, rows, i) - todo
        decreases todo
      {
        var j :| j in todo;
        todo := todo - {j};
        if IsAhead(runs, j, i) {
          rank := rank + 1;
          ahead := ahead + {j};
        }
      }
      assert ahead == Ahead(runs, rows, i);
    }

    /** The common table expression: the candidates of rank 1. */
    method RecoverableRuns() returns (recoverable: set<Id>)
      ensures forall i :: i in recoverable <==> IsRecoverable(runs, i)
    {
      var candidates := Candidates(runs);
      recoverable := {};
      var todo := candidates;
      while exists i :: i in todo
        invariant todo <= candidates
        invariant forall i :: i in recoverable <==> i in candidates && i !in todo && IsRecoverable(runs, i)
        decreases todo
      {
        var i :| i in todo;
        todo := todo - {i};
        var rank := ProjectRank(candidates, i);
        RankOneIsRecoverable(runs, i);
        if rank == 1 {
          recoverable := recoverable + {i};
        }
      }
      assert forall i :: i !in todo;
    }

    method BlockRecoverableRuns()
      modifies this`runs
      ensures IsUpgraded(old(runs), runs)
    {
      var recoverable := RecoverableRuns();
      runs := map i | i in runs :: if i in recoverable then Blocked(runs[i]) else runs[i];
    }

    method Upgrade(now: int)
      requires RunStatusIn(runs, OLD_RUN_STATUS) && OneActive(runs, OLD_ACTIVE)
      requires RequestStatusIn(requests, OLD_REQUEST_STATUS)
      modifies this
      ensures IsUpgraded(old(runs), runs) && AreUpgraded(old(requests), requests, now)
      ensures RunStatusIn(runs, RUN_STATUS) && OneActive(runs, ACTIVE)
      ensures RequestStatusIn(requests, REQUEST_STATUS)
      ensures forall i | i in requests :: !WasCharged(requests[i])
    {
      ChargeFailedRequests();
      CloseRunningRequests(now);
      BlockRecoverableRuns();
      UpgradeLeavesOneActive(old(runs), runs);
    }

    /** No run is blocked any more; those that were have failed, with an end, and keep their cause. */
    method FailBlockedRuns(now: int)
      modifies this`runs
      ensures IsDowngraded(old(runs), runs, now)
      ensures forall i | i in runs :: runs[i].status != "blocked"
      ensures forall i | i in runs && old(runs)[i].status == "blocked" ::
                runs[i].finishedAt.Some? && runs[i].errorCode == old(runs)[i].errorCode
    {
      runs := map i | i in runs ::
        if runs[i].status == "blocked"
        then runs[i].(status := "failed", stage := "failed", message := RECREATE_MESSAGE,
                      finishedAt := Coalesce(runs[i].finishedAt, now))
        else runs[i];
    }

    /** No request is open any more; only what was never submitted may be retried. */
    method CloseOpenRequests(now: int)
      modifies this`requests
      ensures AreDowngraded(old(requests), requests, now)
      ensures forall i | i in requests ::
                && requests[i].status !in {"prepared", "submitted"}
                && (requests[i].status == "retryable_failed" <==>
                      old(requests)[i].status in {"retryable_failed", "prepared"})
    {
      requests := map i | i in requests ::
        if requests[i].status == "prepared" || requests[i].status == "submitted"
        then requests[i].(status := if requests[i].status == "prepared" then "retryable_failed" else "uncertain",
                          finishedAt := Coalesce(requests[i].finishedAt, now))
        else requests[i];
    }

    method Downgrade(now: int)
      requires RunStatusIn(runs, RUN_STATUS) && OneActive(runs, ACTIVE)
      requires RequestStatusIn(requests, REQUEST_STATUS)
      modifies this
      ensures IsDowngraded(old(runs), runs, now) && AreDowngraded(old(requests), requests, now)
      ensures RunStatusIn(runs, OLD_RUN_STATUS) && OneActive(runs, OLD_ACTIVE)
      ensures RequestStatusIn(requests, OLD_REQUEST_STATUS)
    {
      FailBlockedRuns(now);
      CloseOpenRequests(now);
    }

    /** An upgrade taken back at once. */
    method UpgradeThenDowngrade(now: int, later: int)
      requires RunStatusIn(runs, OLD_RUN_STATUS) && OneActive(runs, OLD_ACTIVE)
      requires RequestStatusIn(requests, OLD_REQUEST_STATUS)
      modifies this
      ensures RunsAreBack(old(runs), runs) && RequestStatusIsBack(old(requests), requests)
    {
      ghost var runs0, requests0 := runs, requests;
      Upgrade(now);
      ghost var runs1, requests1 := runs, requests;
      Downgrade(later);
      RunsComeBack(runs0, runs1, runs, later);
      RequestsComeBack(requests0, requests1, requests, now, later);
    }
  }

  // ----- On values -----------------------------------------------------------------

  predicate IsUpgraded(before: Runs, after: Runs) {
    && after.Keys == before.Keys
    && forall i | i in before :: after[i] == if IsRecoverable(before, i) then Blocked(before[i]) else before[i]
  }

  predicate AreUpgraded(before: Requests, after: Requests, now: int) {
    && after.Keys == before.Keys
    && forall i | i in before ::
         if WasCharged(before[i]) then after[i] == before[i].(status := "charged_failed")
         else if before[i].status == "running" then
           && after[i].status == "uncertain" && after[i].errorCode == Some("external_request_outcome_unknown")
           && after[i].errorDetail == Some(UNKNOWN_DETAIL) && after[i].costUsd == before[i].costUsd
           && after[i].finishedAt == Coalesce(before[i].finishedAt, now)
         else after[i] == before[i]
  }

  predicate IsDowngraded(before: Runs, after: Runs, now: int) {
    && after.Keys == before.Keys
    && forall i | i in before ::
         if before[i].status == "blocked"
         then after[i] == before[i].(status := "failed", stage := "failed", message := RECREATE_MESSAGE,
                                     finishedAt := Coalesce(before[i].finishedAt, now))
         else after[i] == before[i]
  }

  predicate AreDowngraded(before: Requests, after: Requests, now: int) {
    && after.Keys == before.Keys
    && forall i | i in before ::
         if before[i].status in {"prepared", "submitted"} then
           && after[i] == before[i].(status := after[i].status, finishedAt := Coalesce(before[i].finishedAt, now))
           && after[i].status == if before[i].status == "prepared" then "retryable_failed" else "uncertain"
         else after[i] == before[i]
  }

  /** Every status is back. A run that was blocked in between keeps its error code unless that
      was the old Google Ads code; every other run is as it was. */
  predicate RunsAreBack(before: Runs, after: Runs) {
    && after.Keys == before.Keys
    && forall i | i in before ::
         && after[i].status == before[i].status && after[i].project == before[i].project
         && (IsRecoverable(before, i) || after[i] == before[i])
         && (after[i].errorCode == before[i].errorCode <==>
             !(IsRecoverable(before, i) && before[i].errorCode == Some("google_ads_not_configured")))
  }

  /** A request has its old status back exactly when it was neither charged nor running. */
  predicate RequestStatusIsBack(before: Requests, after: Requests) {
    && after.Keys == before.Keys
    && forall i | i in before ::
         after[i].status == before[i].status <==> !WasCharged(before[i]) && before[i].status != "running"
  }

  lemma RunsComeBack(before: Runs, middle: Runs, after: Runs, later: int)
    requires RunStatusIn(before, OLD_RUN_STATUS) && IsUpgraded(before, middle) && IsDowngraded(middle, after, later)
    ensures RunsAreBack(before, after)
    ensures forall i | i in before ::
              && after[i].status == before[i].status && after[i].project == before[i].project
              && (!IsRecoverable(before, i) ==> after[i] == before[i])
  {
    forall i | i in before
      ensures after[i].status == before[i].status && after[i].project == before[i].project
      ensures IsRecoverable(before, i) || after[i] == before[i]
      ensures after[i].errorCode == before[i].errorCode <==>
              !(IsRecoverable(before, i) && before[i].errorCode == Some("google_ads_not_configured"))
    {
      assert before[i].status != "blocked";
    }
  }

  lemma RequestsComeBack(before: Requests, middle: Requests, after: Requests, now: int, later: int)
    requires RequestStatusIn(before, OLD_REQUEST_STATUS)
    requires AreUpgraded(before, middle, now) && AreDowngraded(middle, after, later)
    ensures RequestStatusIsBack(before, after)
  {
  }

  lemma RankOneIsRecoverable(runs: Runs, i: Id)
    requires IsCandidate(runs, i)
    ensures Rank(runs, Candidates(runs), i) == 1 <==> IsRecoverable(runs, i)
  {
    var ahead := Ahead(runs, Candidates(runs), i);
    assert |ahead| == 0 <==> ahead == {};
    if j :| j in runs && IsCandidate(runs, j) && IsAhead(runs, j, i) {
      assert j in ahead;
    }
  }

  /** The ranks number each partition from 1 on, newer rows first: no rank occurs twice, and none
      is beyond the number of rows. */
  lemma RanksNumberThePartition(runs: Runs, rows: set<Id>, i: Id, j: Id)
    requires rows <= runs.Keys && i in rows && j in rows && runs[i].project == runs[j].project
    ensures Rank(runs, rows, j) < Rank(runs, rows, i) <==> Newer(runs, j, i)
    ensures Rank(runs, rows, i) == Rank(runs, rows, j) <==> i == j
    ensures 1 <= Rank(runs, rows, i) <= |set k | k in rows && runs[k].project == runs[i].project|
  {
    if Newer(runs, j, i) {
      NewerRanksLower(runs, rows, i, j);
    } else if Newer(runs, i, j) {
      NewerRanksLower(runs, rows, j, i);
    }
    var partition := set k | k in rows && runs[k].project == runs[i].project;
    SmallerSet(Ahead(runs, rows, i), partition, i);
  }

  lemma NewerRanksLower(runs: Runs, rows: set<Id>, i: Id, j: Id)
    requires rows <= runs.Keys && i in rows && j in rows && IsAhead(runs, j, i)
    ensures Rank(runs, rows, j) < Rank(runs, rows, i)
  {
    SmallerSet(Ahead(runs, rows, j), Ahead(runs, rows, i), j);
  }

  lemma SmallerSet<T>(a: set<T>, b: set<T>, x: T)
    requires a <= b && x in b && x !in a
    ensures |a| < |b|
  {
    assert b == (b - a) + a && x in b - a;
  }

  lemma UpgradeLeavesOneActive(before: Runs, after: Runs)
    requires RunStatusIn(before, OLD_RUN_STATUS) && OneActive(before, OLD_ACTIVE) && IsUpgraded(before, after)
    ensures OneActive(after, ACTIVE)
  {
    forall i, j | i in after && j in after && after[i].project == after[j].project
                  && after[i].status in ACTIVE && after[j].status in ACTIVE
      ensures i == j
    {
      assert IsRecoverable(before, i) || before[i].status in OLD_ACTIVE;
      assert IsRecoverable(before, j) || before[j].status in OLD_ACTIVE;
    }
  }

  lemma {:induction false} NewestCandidate(runs: Runs, i: Id) returns (newest: Id)
    requires IsCandidate(runs, i)
    ensures IsRecoverable(runs, newest) && runs[newest].project == runs[i].project
    ensures newest == i || Newer(runs, newest, i)
    decreases set j | j in runs && Newer(runs, j, i)
  {
    if IsRecoverable(runs, i) {
      newest := i;
    } else {
      var j :| j in runs && IsCandidate(runs, j) && runs[j].project == runs[i].project && Newer(runs, j, i);
      var above, higher := set k | k in runs && Newer(runs, k, i), set k | k in runs && Newer(runs, k, j);
      assert j in above && j !in higher && higher <= above;
      newest := NewestCandidate(runs, j);
    }
  }

  /** A project with a candidate gets exactly one blocked run, its newest candidate; a project
      without one gets none. */
  lemma OneBlockedRun(before: Runs, after: Runs, i: Id) returns (newest: Id)
    requires RunStatusIn(before, OLD_RUN_STATUS) && OneActive(before, OLD_ACTIVE) && IsUpgraded(before, after)
    requires IsCandidate(before, i)
    ensures newest in after && after[newest].status == "blocked" && before[newest].project == before[i].project
    ensures forall j | j in before && IsCandidate(before, j) && before[j].project == before[i].project ::
              j == newest || Newer(before, newest, j)
    ensures forall j | j in after && after[j].project == before[i].project && after[j].status in ACTIVE :: j == newest
  {
    newest := NewestCandidate(before, i);
    UpgradeLeavesOneActive(before, after);
  }

  lemma OnlyCandidatesAreBlocked(before: Runs, after: Runs, j: Id)
    requires RunStatusIn(before, OLD_RUN_STATUS) && IsUpgraded(before, after) && j in after
    ensures after[j].status == "blocked" <==> IsRecoverable(before, j)
  {
  }

  // ----- Upgrading again -----------------------------------------------------------

  /** Only a failure that cost nothing may still be retried. */
  lemma RetryableIsFree(before: Requests, after: Requests, now: int, i: Id)
    requires RequestStatusIn(before, OLD_REQUEST_STATUS) && AreUpgraded(before, after, now) && i in after
    ensures after[i].status == "retryable_failed" <==>
            before[i].status == "retryable_failed" && before[i].costUsd <= 0.0
    ensures after[i].costUsd == before[i].costUsd
  {
  }

  /** An upgrade after a downgrade finds the runs it blocked the first time, and no others. */
  lemma SameRunsAreRecoverable(before: Runs, middle: Runs, down: Runs, later: int)
    requires RunStatusIn(before, OLD_RUN_STATUS) && IsUpgraded(before, middle) && IsDowngraded(middle, down, later)
    ensures forall i :: IsRecoverable(down, i) <==> IsRecoverable(before, i)
  {
    RunsComeBack(before, middle, down, later);
    forall i ensures IsCandidate(down, i) <==> IsCandidate(before, i) {
      SameCandidate(before, middle, down, later, i);
    }
    forall i ensures IsRecoverable(down, i) <==> IsRecoverable(before, i) {
      assert forall j | j in before && i in before :: IsAhead(down, j, i) <==> IsAhead(before, j, i);
    }
  }

  lemma SameCandidate(before: Runs, middle: Runs, down: Runs, later: int, i: Id)
    requires IsUpgraded(before, middle) && IsDowngraded(middle, down, later) && RunsAreBack(before, down)
    ensures IsCandidate(down, i) <==> IsCandidate(before, i)
  {
    if i in before {
      assert forall j | j in before :: down[j].project == before[j].project && down[j].status == before[j].status;
      assert down[i].errorCode == before[i].errorCode
          || (before[i].errorCode == Some("google_ads_not_configured")
              && down[i].errorCode == Some("dataforseo_not_configured"));
    }
  }

  /** Upgrade, downgrade, upgrade: every run is again as after the first upgrade, but for the end
      that the downgrade gave to blocked runs. */
  lemma RunsUpgradeAgain(before: Runs, middle: Runs, down: Runs, again: Runs, later: int)
    requires RunStatusIn(before, OLD_RUN_STATUS)
    requires IsUpgraded(before, middle) && IsDowngraded(middle, down, later) && IsUpgraded(down, again)
    ensures again.Keys == middle.Keys
    ensures forall i | i in again ::
              again[i] == if middle[i].status == "blocked"
                          then middle[i].(finishedAt := Coalesce(middle[i].finishedAt, later))
                          else middle[i]
  {
    SameRunsAreRecoverable(before, middle, down, later);
    forall i | i in again
      ensures again[i] == if middle[i].status == "blocked"
                          then middle[i].(finishedAt := Coalesce(middle[i].finishedAt, later))
                          else middle[i]
    {
      assert before[i].status != "blocked";
    }
  }

  /** Every request is again as after the first upgrade. */
  lemma RequestsUpgradeAgain(before: Requests, middle: Requests, down: Requests, again: Requests,
                             now: int, later: int, last: int)
    requires RequestStatusIn(before, OLD_REQUEST_STATUS)
    requires AreUpgraded(before, middle, now) && AreDowngraded(middle, down, later) && AreUpgraded(down, again, last)
    ensures again == middle
  {
    forall i | i in middle ensures again[i] == middle[i] {
      assert middle[i].status !in {"prepared", "submitted", "running"};
      assert !WasCharged(middle[i]) && down[i] == middle[i];
    }
  }

  // ----- Column by column ----------------------------------------------------------

  /** The runs that could be recovered: a failed first run without keywords that only lacked
      configuration, in a project where nothing else is queued, running or waiting. */
  lemma CandidateColumns(runs: Runs, i: Id)
    ensures IsCandidate(runs, i) <==>
            && i in runs && runs[i].kind == "initial" && runs[i].status == "failed" && runs[i].keywordCount == 0
            && (|| runs[i].errorCode == Some("google_ads_not_configured")
                || runs[i].errorCode == Some("dataforseo_not_configured")
                || runs[i].errorCode == Some("dataforseo_auth_failed"))
            && forall j | j in runs && j != i && runs[j].project == runs[i].project ::
                 runs[j].status != "queued" && runs[j].status != "running" && runs[j].status != "waiting"
  {
  }

  /** The blocked run of a project was created last among its candidates, and has the last id
      among those created with it. */
  lemma BlockedIsNewest(before: Runs, after: Runs, i: Id, j: Id)
    requires RunStatusIn(before, OLD_RUN_STATUS) && IsUpgraded(before, after)
    requires i in after && after[i].status == "blocked"
    requires IsCandidate(before, j) && before[j].project == before[i].project
    ensures before[j].createdAt <= before[i].createdAt
    ensures before[j].createdAt == before[i].createdAt ==> j <= i
  {
  }

  /** What a blocked run looks like. */
  lemma BlockedColumns(before: Runs, after: Runs, i: Id)
    requires RunStatusIn(before, OLD_RUN_STATUS) && IsUpgraded(before, after)
    requires i in after && after[i].status == "blocked"
    ensures after[i].stage == "waiting_for_configuration" && after[i].nextRetryAt == None
    ensures after[i].errorCode == if before[i].errorCode == Some("dataforseo_auth_failed")
                                  then Some("dataforseo_auth_failed") else Some("dataforseo_not_configured")
    ensures after[i].message == if before[i].errorCode == Some("dataforseo_auth_failed")
                                then "搜索数据服务凭证需要更新" else "等待搜索数据服务配置后自动继续"
    ensures (after[i].project, after[i].kind, after[i].keywordCount, after[i].createdAt, after[i].finishedAt) ==
            (before[i].project, before[i].kind, before[i].keywordCount, before[i].createdAt, before[i].finishedAt)
  {
  }

  /** What a run that the downgrade failed looks like. */
  lemma FailedColumns(before: Runs, after: Runs, now: int, i: Id)
    requires IsDowngraded(before, after, now) && i in before && before[i].status == "blocked"
    ensures after[i].status == "failed" && after[i].stage == "failed"
    ensures after[i].message == "关键词任务需要在旧版本中重新创建"
    ensures after[i].finishedAt == if before[i].finishedAt.Some? then before[i].finishedAt else Some(now)
    ensures (after[i].errorCode, after[i].nextRetryAt) == (before[i].errorCode, before[i].nextRetryAt)
  {
  }

  /** Right after the upgrade no request is open: it is completed, may be retried for free, was
      charged, or is uncertain, and what was running says why. */
  lemma UpgradedRequestColumns(before: Requests, after: Requests, now: int, i: Id)
    requires RequestStatusIn(before, OLD_REQUEST_STATUS) && AreUpgraded(before, after, now) && i in after
    ensures after[i].status == match before[i].status
                               case "running" => "uncertain"
                               case "retryable_failed" =>
                                 if before[i].costUsd > 0.0 then "charged_failed" else "retryable_failed"
                               case same => same
    ensures before[i].status in {"running", "completed", "retryable_failed", "charged_failed", "uncertain"}
    ensures before[i].status == "running" ==>
              && after[i].errorCode == Some("external_request_outcome_unknown")
              && after[i].errorDetail == Some("升级时发现未结束的外部请求，系统不会自动重复提交")
              && after[i].finishedAt == if before[i].finishedAt.Some? then before[i].finishedAt else Some(now)
    ensures before[i].status != "running" ==> after[i] == before[i].(status := after[i].status)
  {
  }

  /** What becomes of a request when the migration is taken back. */
  lemma DowngradedRequestColumns(before: Requests, after: Requests, now: int, i: Id)
    requires AreDowngraded(before, after, now) && i in before
    ensures after[i].status == match before[i].status
                               case "prepared" => "retryable_failed"
                               case "submitted" => "uncertain"
                               case same => same
    ensures after[i].finishedAt == if before[i].status in {"prepared", "submitted"} && before[i].finishedAt.None?
                                   then Some(now) else before[i].finishedAt
    ensures (after[i].costUsd, after[i].errorCode, after[i].errorDetail) ==
            (before[i].costUsd, before[i].errorCode, before[i].errorDetail)
  {
  }

  /** The rows that satisfy the old and the new status checks. */
  lemma StatusChecks(runs: Runs, requests: Requests)
    ensures RunStatusIn(runs, OLD_RUN_STATUS) <==>
            forall i | i in runs ::
              runs[i].status in {"queued", "running", "waiting", "partial", "completed", "failed", "cancelled"}
    ensures RunStatusIn(runs, RUN_STATUS) <==>
            forall i | i in runs ::
              runs[i].status in
              {"queued", "running", "waiting", "blocked", "partial", "completed", "failed", "cancelled"}
    ensures RequestStatusIn(requests, OLD_REQUEST_STATUS) <==>
            forall i | i in requests ::
              requests[i].status in {"running", "completed", "retryable_failed", "charged_failed", "uncertain"}
    ensures RequestStatusIn(requests, REQUEST_STATUS) <==>
            forall i | i in requests ::
              requests[i].status in
              {"prepared", "submitted", "completed", "retryable_failed", "charged_failed", "uncertain"}
  {
  }

  /** The index allows a project one run that is queued, running, waiting or, anew, blocked. */
  lemma IndexAllowsOne(runs: Runs, i: Id, j: Id)
    requires OneActive(runs, ACTIVE) && i in runs && j in runs && runs[i].project == runs[j].project
    requires runs[i].status in {"queued", "running", "waiting", "blocked"}
    requires runs[j].status in {"queued", "running", "waiting", "blocked"}
    ensures i == j
  {
  }
}
