/**
 * The records of the project-management application (users, projects,
 * sprints and issues), the caller context that the identity provider hands
 * to every server action, and the outcome of an action: a value or one of
 * the errors the actions throw.
 */
module Domain {

  datatype Option<T> = None | Some(value: T)

  datatype Result<T> = Success(value: T) | Failure(error: Error)

  /** One constructor per kind of error the actions raise. */
  datatype Error =
    | Unauthorized                    // no caller identity, or a foreign organization
    | UserNotFound                    // the caller has no local user record
    | IssueNotFound                   // also: a reorder names an issue that does not exist
    | SprintNotFound
    | ProjectNotFound                 // missing, or owned by another organization
    | PermissionDenied                // in the organization, but not allowed to do this
    | OutsideDateRange                // activation outside [startDate, endDate]
    | NotPlanned                      // only a PLANNED sprint can be started
    | AnotherSprintActive             // the project already has an ACTIVE sprint
    | NotActive                       // only an ACTIVE sprint can be completed
    | ForeignKeyViolation             // the store refuses a row that references a missing row
    | UpdateIssueFailed(cause: Error) // updateIssue reports every inner failure wrapped

  /** The caller context: Clerk's user id, active organization id and role there. */
  datatype Ctx = Ctx(userId: Option<string>, orgId: Option<string>, orgRole: Option<string>)

  /**
   * The guard `if (!userId || !orgId)`: an absent id and an empty string are
   * both falsy in the source language, so both are refused.
   */
  predicate Authenticated(ctx: Ctx)
  {
    ctx.userId.Some? && ctx.userId.value != "" && ctx.orgId.Some? && ctx.orgId.value != ""
  }

  /** The role string that the sprint actions accept as administrator. */
  const AdminRole: string := "org:admin"

  /** A local user, keyed in the store by the identity provider's id. */
  datatype User = User(id: string, clerkUserId: string, name: Option<string>, email: string)

  datatype Project = Project(
    id: string,
    name: string,
    key: string,
    organizationId: string,
    description: Option<string>,
    adminIds: seq<string>)          // local user ids of the project's administrators

  datatype SprintStatus = PLANNED | ACTIVE | COMPLETED

  /** Dates are integer timestamps. */
  datatype Sprint = Sprint(
    id: string,
    name: string,
    status: SprintStatus,
    startDate: int,
    endDate: int,
    projectId: string)

  /** An issue row; reporter and assignee are kept as user ids. */
  datatype Issue = Issue(
    id: string,
    title: string,
    description: Option<string>,
    status: string,                 // the board column, e.g. "TODO"
    priority: string,
    projectId: string,
    sprintId: Option<string>,
    reporterId: string,
    assigneeId: Option<string>,
    order: int)                     // position inside its (projectId, status) column
}
