/**
 * The sprint server actions: create a sprint in a project of the caller's
 * organization, and change a sprint's status after the authorization checks
 * and the transition checks of `SprintRules`.
 */
module SprintActions {
  import opened Domain
  import opened SprintRules
  import opened Db

  /** The form data of a new sprint; dates are timestamps. */
  datatype NewSprint = NewSprint(name: string, startDate: int, endDate: int)

  /**
   * Adds one PLANNED sprint to a project of the caller's organization. A
   * project of another organization is reported as missing. The store
   * generates the new row's id; `newId` is that id.
   */
  method CreateSprint(db: Store, ctx: Ctx, projectId: string, data: NewSprint, newId: string)
    returns (r: Result<Sprint>)
    requires db.Valid()
    requires newId !in db.sprints
    modifies db
    ensures db.Valid()
    ensures db.users == old(db.users) && db.projects == old(db.projects) && db.issues == old(db.issues)
    ensures !Authenticated(ctx) ==> r == Failure(Unauthorized)
    ensures Authenticated(ctx) && (projectId !in old(db.projects)
                                   || old(db.projects)[projectId].organizationId != ctx.orgId.value)
            ==> r == Failure(ProjectNotFound)
    ensures r.Success? <==>
              Authenticated(ctx) && projectId in old(db.projects)
              && old(db.projects)[projectId].organizationId == ctx.orgId.value
    ensures r.Success? ==> r.value == Sprint(newId, data.name, PLANNED, data.startDate, data.endDate, projectId)
    ensures r.Success? ==> db.sprints == old(db.sprints)[newId := r.value]
    ensures r.Failure? ==> db.sprints == old(db.sprints)
  {
    if !Authenticated(ctx) {
      return Failure(Unauthorized);
    }
    if projectId !in db.projects || db.projects[projectId].organizationId != ctx.orgId.value {
      return Failure(ProjectNotFound);
    }
    var sprint := Sprint(newId, data.name, PLANNED, data.startDate, data.endDate, projectId);
    PlannedInsertKeepsSingleActive(db.sprints, sprint);
    db.sprints := db.sprints[newId := sprint];
    return Success(sprint);
  }

  /**
   * Writes `newStatus` over the sprint's status. The checks come in a fixed
   * order: signed in, sprint exists, same organization, administrator, then
   * the transition checks; the first that fails decides the error and
   * nothing changes.
   */
  method UpdateSprintStatus(db: Store, ctx: Ctx, now: int, sprintId: string, newStatus: SprintStatus)
    returns (r: Result<Sprint>)
    requires db.Valid()
    modifies db
    ensures db.Valid()
    ensures db.users == old(db.users) && db.projects == old(db.projects) && db.issues == old(db.issues)
    ensures !Authenticated(ctx) ==> r == Failure(Unauthorized)
    ensures Authenticated(ctx) && sprintId !in old(db.sprints) ==> r == Failure(SprintNotFound)
    ensures Authenticated(ctx) && sprintId in old(db.sprints)
            && old(db.projects)[old(db.sprints)[sprintId].projectId].organizationId != ctx.orgId.value
            ==> r == Failure(Unauthorized)
    ensures Authenticated(ctx) && sprintId in old(db.sprints)
            && old(db.projects)[old(db.sprints)[sprintId].projectId].organizationId == ctx.orgId.value
            && ctx.orgRole != Some(AdminRole)
            ==> r == Failure(PermissionDenied)
    ensures Authenticated(ctx) && sprintId in old(db.sprints)
            && old(db.projects)[old(db.sprints)[sprintId].projectId].organizationId == ctx.orgId.value
            && ctx.orgRole == Some(AdminRole)
            && TransitionCheck(old(db.sprints)[sprintId], newStatus, now, OtherActive(old(db.sprints), sprintId)).Some?
            ==> r == Failure(TransitionCheck(old(db.sprints)[sprintId], newStatus, now,
                                             OtherActive(old(db.sprints), sprintId)).value)
    ensures r.Success? <==>
              Authenticated(ctx) && sprintId in old(db.sprints)
              && old(db.projects)[old(db.sprints)[sprintId].projectId].organizationId == ctx.orgId.value
              && ctx.orgRole == Some(AdminRole)
              && TransitionCheck(old(db.sprints)[sprintId], newStatus, now, OtherActive(old(db.sprints), sprintId)).None?
    ensures r.Success? ==> r.value == old(db.sprints)[sprintId].(status := newStatus)
    ensures r.Success? ==> db.sprints == old(db.sprints)[sprintId := r.value]
    ensures r.Failure? ==> db.sprints == old(db.sprints)
  {
    if !Authenticated(ctx) {
      return Failure(Unauthorized);
    }
    if sprintId !in db.sprints {
      return Failure(SprintNotFound);
    }
    var sprint := db.sprints[sprintId];
    if db.projects[sprint.projectId].organizationId != ctx.orgId.value {
      return Failure(Unauthorized);
    }
    if ctx.orgRole != Some(AdminRole) {
      return Failure(PermissionDenied);
    }
    var check := TransitionCheck(sprint, newStatus, now, OtherActive(db.sprints, sprintId));
    if check.Some? {
      return Failure(check.value);
    }
    StatusWriteKeepsSingleActive(db.sprints, sprintId, newStatus, now);
    var updated := sprint.(status := newStatus);
    db.sprints := db.sprints[sprintId := updated];
    return Success(updated);
  }
}
