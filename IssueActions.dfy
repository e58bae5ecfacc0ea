/**
 * The issue server actions: list a sprint's issues in board order, create an
 * issue at the end of its column, persist a drag-and-drop reordering in one
 * transaction, delete an issue, and change an issue's status or priority.
 * Each action first refuses a caller without user or organization.
 */
module IssueActions {
  import opened Domain
  import opened Board
  import opened Db

  // ---------------------------------------------------------------------------
  // getIssuesForSprint

  /** The rows under `keys` that belong to sprint `sprintId`. */
  function SprintIssuesAmong(issues: map<string, Issue>, keys: set<string>, sprintId: string): set<Issue>
  {
    set k | k in keys && k in issues && issues[k].sprintId == Some(sprintId) :: issues[k]
  }

  /** The rows of the issue table that belong to sprint `sprintId`. */
  function SprintIssues(issues: map<string, Issue>, sprintId: string): set<Issue>
  {
    SprintIssuesAmong(issues, issues.Keys, sprintId)
  }

  /** Looking at one more row adds that row, once, exactly when it belongs to the sprint. */
  lemma SprintIssuesStep(issues: map<string, Issue>, keys: set<string>, k: string, sprintId: string)
    requires IssuesKeyed(issues)
    requires k in issues && k !in keys
    ensures issues[k].sprintId == Some(sprintId) ==>
              multiset(SprintIssuesAmong(issues, keys + {k}, sprintId))
              == multiset(SprintIssuesAmong(issues, keys, sprintId)) + multiset{issues[k]}
    ensures issues[k].sprintId != Some(sprintId) ==>
              SprintIssuesAmong(issues, keys + {k}, sprintId) == SprintIssuesAmong(issues, keys, sprintId)
  {
    var before := SprintIssuesAmong(issues, keys, sprintId);
    var after := SprintIssuesAmong(issues, keys + {k}, sprintId);
    if issues[k].sprintId == Some(sprintId) {
      assert issues[k] !in before;
      assert after == before + {issues[k]};
    } else {
      assert after == before;
    }
  }

  /**
   * Read-only. On success the result lists every issue of the sprint exactly
   * once (a permutation of that subset of the table) in board order.
   */
  method GetIssuesForSprint(db: Store, ctx: Ctx, sprintId: string) returns (r: Result<seq<Issue>>)
    requires db.Valid()
    ensures !Authenticated(ctx) ==> r == Failure(Unauthorized)
    ensures Authenticated(ctx) ==> r.Success?
    ensures r.Success? ==> Sorted(r.value)
    ensures r.Success? ==> multiset(r.value) == multiset(SprintIssues(db.issues, sprintId))
  {
    if !Authenticated(ctx) {
      return Failure(Unauthorized);
    }
    var issues := db.issues;
    assert IssuesKeyed(issues);
    var rest := issues.Keys;
    ghost var done: set<string> := {};
    var listed: seq<Issue> := [];
    while rest != {}
      invariant rest !! done && rest + done == issues.Keys
      invariant Sorted(listed)
      invariant multiset(listed) == multiset(SprintIssuesAmong(issues, done, sprintId))
      decreases rest
    {
      var k :| k in rest;
      SprintIssuesStep(issues, done, k, sprintId);
      if issues[k].sprintId == Some(sprintId) {
        listed := Insert(issues[k], listed);
      }
      rest := rest - {k};
      done := done + {k};
    }
    assert SprintIssuesAmong(issues, done, sprintId) == SprintIssues(issues, sprintId);
    return Success(listed);
  }

  // ---------------------------------------------------------------------------
  // createIssue

  /** The positions taken in the column `status` of project `projectId` by the rows under `keys`. */
  function ColumnOrdersAmong(issues: map<string, Issue>, keys: set<string>, projectId: string, status: string): set<int>
  {
    set k | k in keys && k in issues && issues[k].projectId == projectId && issues[k].status == status :: issues[k].order
  }

  /** The positions taken in the column `status` of project `projectId`. */
  function ColumnOrders(issues: map<string, Issue>, projectId: string, status: string): set<int>
  {
    ColumnOrdersAmong(issues, issues.Keys, projectId, status)
  }

  /**
   * The query for the last issue of a column: the greatest position in the
   * (projectId, status) column, or None for an empty column.
   */
  method LastIssueOrder(db: Store, projectId: string, status: string) returns (last: Option<int>)
    ensures last.None? <==> ColumnOrders(db.issues, projectId, status) == {}
    ensures last.Some? ==> last.value in ColumnOrders(db.issues, projectId, status)
    ensures last.Some? ==> forall o :: o in ColumnOrders(db.issues, projectId, status) ==> o <= last.value
  {
    var issues := db.issues;
    var rest := issues.Keys;
    ghost var done: set<string> := {};
    last := None;
    while rest != {}
      invariant rest !! done && rest + done == issues.Keys
      invariant last.None? <==> ColumnOrdersAmong(issues, done, projectId, status) == {}
      invariant last.Some? ==> last.value in ColumnOrdersAmong(issues, done, projectId, status)
      invariant last.Some? ==> forall o :: o in ColumnOrdersAmong(issues, done, projectId, status) ==> o <= last.value
      decreases rest
    {
      var k :| k in rest;
      var inColumn := issues[k].projectId == projectId && issues[k].status == status;
      assert ColumnOrdersAmong(issues, done + {k}, projectId, status)
          == ColumnOrdersAmong(issues, done, projectId, status) + (if inColumn then {issues[k].order} else {});
      if inColumn && (last.None? || issues[k].order > last.value) {
        last := Some(issues[k].order);
      }
      rest := rest - {k};
      done := done + {k};
    }
    assert ColumnOrdersAmong(issues, done, projectId, status) == ColumnOrders(issues, projectId, status);
  }

  /** The form data of a new issue. */
  datatype NewIssue = NewIssue(
    title: string,
    description: Option<string>,
    status: string,
    priority: string,
    sprintId: Option<string>,
    assigneeId: Option<string>)

  /** `data.assigneeId || null`: an empty string means no assignee. */
  function AssigneeOrNull(a: Option<string>): (r: Option<string>)
    ensures r.Some? <==> a.Some? && a.value != ""
    ensures r.Some? ==> r == a
  {
    if a.Some? && a.value != "" then a else None
  }

  /** The row `createIssue` writes, before its position is known. */
  function Draft(id: string, projectId: string, data: NewIssue, reporterId: string, order: int): Issue
  {
    Issue(id, data.title, data.description, data.status, data.priority, projectId, data.sprintId,
          reporterId, AssigneeOrNull(data.assigneeId), order)
  }

  /**
   * Inserts one issue reported by the caller, placed after every issue of the
   * same project and status (position 0 in an empty column). The store
   * generates the new row's id; `newId` is that id.
   */
  method CreateIssue(db: Store, ctx: Ctx, projectId: string, data: NewIssue, newId: string)
    returns (r: Result<Issue>)
    requires db.Valid()
    requires newId !in db.issues
    modifies db
    ensures db.Valid()
    ensures db.users == old(db.users) && db.projects == old(db.projects) && db.sprints == old(db.sprints)
    ensures !Authenticated(ctx) ==> r == Failure(Unauthorized)
    ensures Authenticated(ctx) && ctx.userId.value !in old(db.users) ==> r == Failure(UserNotFound)
    ensures Authenticated(ctx) && ctx.userId.value in old(db.users)
            && !IssueRefsResolve(old(db.users), old(db.projects), old(db.sprints),
                                 Draft(newId, projectId, data, old(db.users)[ctx.userId.value].id, 0))
            ==> r == Failure(ForeignKeyViolation)
    ensures r.Success? <==>
              Authenticated(ctx) && ctx.userId.value in old(db.users)
              && IssueRefsResolve(old(db.users), old(db.projects), old(db.sprints),
                                  Draft(newId, projectId, data, old(db.users)[ctx.userId.value].id, 0))
    ensures r.Failure? ==> db.issues == old(db.issues)
    ensures r.Success? ==> r.value == Draft(newId, projectId, data, old(db.users)[ctx.userId.value].id, r.value.order)
    ensures r.Success? ==> db.issues == old(db.issues)[newId := r.value]
    ensures r.Success? ==> forall o :: o in ColumnOrders(old(db.issues), projectId, data.status) ==> o < r.value.order
    ensures r.Success? && ColumnOrders(old(db.issues), projectId, data.status) == {} ==> r.value.order == 0
    ensures r.Success? && ColumnOrders(old(db.issues), projectId, data.status) != {}
            ==> r.value.order - 1 in ColumnOrders(old(db.issues), projectId, data.status)
  {
    if !Authenticated(ctx) {
      return Failure(Unauthorized);
    }
    var uid := ctx.userId.value;
    var last := LastIssueOrder(db, projectId, data.status);
    var newOrder := if last.Some? then last.value + 1 else 0;
    if uid !in db.users {
      return Failure(UserNotFound);
    }
    var row := Draft(newId, projectId, data, db.users[uid].id, newOrder);
    if !IssueRefsResolve(db.users, db.projects, db.sprints, row) {
      return Failure(ForeignKeyViolation);
    }
    db.issues := db.issues[newId := row];
    return Success(row);
  }

  // ---------------------------------------------------------------------------
  // updateIssueOrder

  /** One element of the reorder payload: the issue's new column and position. */
  datatype Placement = Placement(id: string, status: string, order: int)

  /** One `update` of the transaction; an id the table lacks leaves it as it is. */
  function Place(issues: map<string, Issue>, p: Placement): map<string, Issue>
  {
    if p.id in issues then issues[p.id := issues[p.id].(status := p.status, order := p.order)] else issues
  }

  /** The table after the payload's updates, applied one after another. */
  function ApplyPlacements(issues: map<string, Issue>, ps: seq<Placement>): map<string, Issue>
    decreases |ps|
  {
    if ps == [] then issues else Place(ApplyPlacements(issues, ps[..|ps| - 1]), ps[|ps| - 1])
  }

  /** The last element of the payload that names `id`, if any. */
  function LastPlacement(ps: seq<Placement>, id: string): (r: Option<Placement>)
    ensures r.Some? ==> r.value in ps && r.value.id == id
    ensures r.Some? ==> exists j :: 0 <= j < |ps| && ps[j] == r.value
                                    && forall j' :: j < j' < |ps| ==> ps[j'].id != id
    ensures r.None? ==> forall j :: 0 <= j < |ps| ==> ps[j].id != id
    decreases |ps|
  {
    if ps == [] then None
    else if ps[|ps| - 1].id == id then Some(ps[|ps| - 1])
    else
      var init := ps[..|ps| - 1];
      var r := LastPlacement(init, id);
      assert r.Some? ==> exists j :: 0 <= j < |ps| && ps[j] == r.value
                                    && forall j' :: j < j' < |ps| ==> ps[j'].id != id by {
        if r.Some? {
          var j :| 0 <= j < |init| && init[j] == r.value
                   && forall j' :: j < j' < |init| ==> init[j'].id != id;
          assert ps[j] == r.value && forall j' :: j < j' < |ps| ==> ps[j'].id != id;
        }
      }
      r
  }

  /** Every issue the payload names exists. */
  predicate AllListed(issues: map<string, Issue>, ps: seq<Placement>)
  {
    forall j :: 0 <= j < |ps| ==> ps[j].id in issues
  }

  /** Reordering neither adds nor removes issues. */
  lemma {:induction false} ApplyPlacementsKeys(issues: map<string, Issue>, ps: seq<Placement>)
    ensures ApplyPlacements(issues, ps).Keys == issues.Keys
    decreases |ps|
  {
    if ps != [] {
      ApplyPlacementsKeys(issues, ps[..|ps| - 1]);
    }
  }

  /**
   * After the payload, an issue it names has the status and position of the
   * last element naming it; every other field, and every issue it does not
   * name, is as before.
   */
  lemma {:induction false} ApplyPlacementsAt(issues: map<string, Issue>, ps: seq<Placement>, id: string)
    requires id in issues
    ensures id in ApplyPlacements(issues, ps)
    ensures LastPlacement(ps, id).None? ==> ApplyPlacements(issues, ps)[id] == issues[id]
    ensures LastPlacement(ps, id).Some? ==>
              ApplyPlacements(issues, ps)[id]
              == issues[id].(status := LastPlacement(ps, id).value.status, order := LastPlacement(ps, id).value.order)
    decreases |ps|
  {
    if ps != [] {
      ApplyPlacementsAt(issues, ps[..|ps| - 1], id);
    }
  }

  /** Sending the same payload twice leaves the table as sending it once. */
  lemma ApplyPlacementsIdempotent(issues: map<string, Issue>, ps: seq<Placement>)
    ensures ApplyPlacements(ApplyPlacements(issues, ps), ps) == ApplyPlacements(issues, ps)
  {
    var once := ApplyPlacements(issues, ps);
    var twice := ApplyPlacements(once, ps);
    ApplyPlacementsKeys(issues, ps);
    ApplyPlacementsKeys(once, ps);
    forall id | id in once
      ensures twice[id] == once[id]
    {
      ApplyPlacementsAt(issues, ps, id);
      ApplyPlacementsAt(once, ps, id);
    }
  }

  /** Reordering touches no key and no reference, so the store stays consistent. */
  lemma ApplyPlacementsConsistent(users: map<string, User>, projects: map<string, Project>,
                                  sprints: map<string, Sprint>, issues: map<string, Issue>, ps: seq<Placement>)
    requires Consistent(users, projects, sprints, issues)
    ensures Consistent(users, projects, sprints, ApplyPlacements(issues, ps))
  {
    var after := ApplyPlacements(issues, ps);
    ApplyPlacementsKeys(issues, ps);
    forall k | k in after
      ensures after[k].id == k && IssueRefsResolve(users, projects, sprints, after[k])
    {
      ApplyPlacementsAt(issues, ps, k);
    }
  }

  /**
   * The body of the transaction: runs the payload's updates one at a time on
   * a working copy of the table and stops at the first id the table lacks
   * (the update throws there and the transaction is rolled back).
   */
  method RunPlacements(issues: map<string, Issue>, ps: seq<Placement>) returns (r: Option<map<string, Issue>>)
    ensures r.Some? <==> AllListed(issues, ps)
    ensures r.Some? ==> r.value == ApplyPlacements(issues, ps)
  {
    var table := issues;
    var i := 0;
    while i < |ps|
      invariant 0 <= i <= |ps|
      invariant table == ApplyPlacements(issues, ps[..i])
      invariant table.Keys == issues.Keys
      invariant AllListed(issues, ps[..i])
    {
      if ps[i].id !in table {
        return None;
      }
      assert ps[..i + 1][..i] == ps[..i];
      ApplyPlacementsKeys(issues, ps[..i + 1]);
      table := Place(table, ps[i]);
      i := i + 1;
    }
    assert ps[..|ps|] == ps;
    return Some(table);
  }

  /**
   * Writes each listed issue's status and position inside one transaction:
   * either the whole payload lands or, when it names a missing issue,
   * nothing changes. Any signed-in caller may reorder any issue.
   */
  method UpdateIssueOrder(db: Store, ctx: Ctx, ps: seq<Placement>) returns (r: Result<()>)
    requires db.Valid()
    modifies db
    ensures db.Valid()
    ensures db.users == old(db.users) && db.projects == old(db.projects) && db.sprints == old(db.sprints)
    ensures !Authenticated(ctx) ==> r == Failure(Unauthorized)
    ensures Authenticated(ctx) && !AllListed(old(db.issues), ps) ==> r == Failure(IssueNotFound)
    ensures r.Success? <==> Authenticated(ctx) && AllListed(old(db.issues), ps)
    ensures r.Success? ==> db.issues == ApplyPlacements(old(db.issues), ps)
    ensures r.Failure? ==> db.issues == old(db.issues)
  {
    if !Authenticated(ctx) {
      return Failure(Unauthorized);
    }
    var committed := RunPlacements(db.issues, ps);
    if committed.None? {
      return Failure(IssueNotFound);
    }
    ApplyPlacementsConsistent(db.users, db.projects, db.sprints, db.issues, ps);
    db.issues := committed.value;
    return Success(());
  }

  // ---------------------------------------------------------------------------
  // deleteIssue

  /** The caller reported the issue or administers its project. */
  predicate MayDelete(user: User, issue: Issue, project: Project)
  {
    issue.reporterId == user.id || user.id in project.adminIds
  }

  /** Removes one issue, if the caller reported it or administers its project. */
  method DeleteIssue(db: Store, ctx: Ctx, issueId: string) returns (r: Result<()>)
    requires db.Valid()
    modifies db
    ensures db.Valid()
    ensures db.users == old(db.users) && db.projects == old(db.projects) && db.sprints == old(db.sprints)
    ensures !Authenticated(ctx) ==> r == Failure(Unauthorized)
    ensures Authenticated(ctx) && ctx.userId.value !in old(db.users) ==> r == Failure(UserNotFound)
    ensures Authenticated(ctx) && ctx.userId.value in old(db.users) && issueId !in old(db.issues)
            ==> r == Failure(IssueNotFound)
    ensures Authenticated(ctx) && ctx.userId.value in old(db.users) && issueId in old(db.issues)
            && !MayDelete(old(db.users)[ctx.userId.value], old(db.issues)[issueId],
                          old(db.projects)[old(db.issues)[issueId].projectId])
            ==> r == Failure(PermissionDenied)
    ensures r.Success? <==>
              Authenticated(ctx) && ctx.userId.value in old(db.users) && issueId in old(db.issues)
              && MayDelete(old(db.users)[ctx.userId.value], old(db.issues)[issueId],
                           old(db.projects)[old(db.issues)[issueId].projectId])
    ensures r.Success? ==> db.issues == old(db.issues) - {issueId}
    ensures r.Failure? ==> db.issues == old(db.issues)
  {
    if !Authenticated(ctx) {
      return Failure(Unauthorized);
    }
    var uid := ctx.userId.value;
    if uid !in db.users {
      return Failure(UserNotFound);
    }
    var user := db.users[uid];
    if issueId !in db.issues {
      return Failure(IssueNotFound);
    }
    var issue := db.issues[issueId];
    if !MayDelete(user, issue, db.projects[issue.projectId]) {
      return Failure(PermissionDenied);
    }
    db.issues := db.issues - {issueId};
    return Success(());
  }

  // ---------------------------------------------------------------------------
  // updateIssue

  /** A partial update: an absent field keeps its value. */
  datatype IssuePatch = IssuePatch(status: Option<string>, priority: Option<string>)

  /**
   * Changes the status and/or priority of one issue of the caller's
   * organization. Failures after the sign-in check come back wrapped.
   */
  method UpdateIssue(db: Store, ctx: Ctx, issueId: string, patch: IssuePatch) returns (r: Result<Issue>)
    requires db.Valid()
    modifies db
    ensures db.Valid()
    ensures db.users == old(db.users) && db.projects == old(db.projects) && db.sprints == old(db.sprints)
    ensures !Authenticated(ctx) ==> r == Failure(Unauthorized)
    ensures Authenticated(ctx) && issueId !in old(db.issues) ==> r == Failure(UpdateIssueFailed(IssueNotFound))
    ensures Authenticated(ctx) && issueId in old(db.issues)
            && old(db.projects)[old(db.issues)[issueId].projectId].organizationId != ctx.orgId.value
            ==> r == Failure(UpdateIssueFailed(Unauthorized))
    ensures r.Success? <==>
              Authenticated(ctx) && issueId in old(db.issues)
              && old(db.projects)[old(db.issues)[issueId].projectId].organizationId == ctx.orgId.value
    ensures r.Success? ==> db.issues == old(db.issues)[issueId := r.value]
    ensures r.Success? ==> r.value.status == (if patch.status.Some? then patch.status.value else old(db.issues)[issueId].status)
    ensures r.Success? ==> r.value.priority == (if patch.priority.Some? then patch.priority.value else old(db.issues)[issueId].priority)
    ensures r.Success? ==> r.value.(status := old(db.issues)[issueId].status, priority := old(db.issues)[issueId].priority)
                           == old(db.issues)[issueId]
    ensures r.Failure? ==> db.issues == old(db.issues)
  {
    if !Authenticated(ctx) {
      return Failure(Unauthorized);
    }
    if issueId !in db.issues {
      return Failure(UpdateIssueFailed(IssueNotFound));
    }
    var issue := db.issues[issueId];
    if db.projects[issue.projectId].organizationId != ctx.orgId.value {
      return Failure(UpdateIssueFailed(Unauthorized));
    }
    var updated := issue.(status := if patch.status.Some? then patch.status.value else issue.status,
                          priority := if patch.priority.Some? then patch.priority.value else issue.priority);
    db.issues := db.issues[issueId := updated];
    return Success(updated);
  }
}
