/**
 * The persistence layer as an in-memory store: one table per entity, each a
 * map from primary key to row (users are keyed by the identity provider's id).
 * The store guarantees keys and references; the single-ACTIVE rule is an
 * invariant that the sprint actions keep, not a store constraint.
 */
module Db {
  import opened Domain

  /** Some local user has this id. */
  predicate HasUserId(users: map<string, User>, id: string)
  {
    exists k :: k in users && users[k].id == id
  }

  /** Every issue sits under its own id. */
  predicate IssuesKeyed(issues: map<string, Issue>)
  {
    forall k :: k in issues ==> issues[k].id == k
  }

  /** The references an issue row holds all resolve. */
  predicate IssueRefsResolve(users: map<string, User>, projects: map<string, Project>,
                             sprints: map<string, Sprint>, i: Issue)
  {
    && i.projectId in projects
    && (i.sprintId.Some? ==> i.sprintId.value in sprints)
    && HasUserId(users, i.reporterId)
    && (i.assigneeId.Some? ==> HasUserId(users, i.assigneeId.value))
  }

  /** No project has two ACTIVE sprints. */
  predicate AtMostOneActive(sprints: map<string, Sprint>)
  {
    forall a, b ::
      (a in sprints && b in sprints && sprints[a].status == ACTIVE && sprints[b].status == ACTIVE
       && sprints[a].projectId == sprints[b].projectId) ==> a == b
  }

  /** Some sprint other than `id`, in the same project, is ACTIVE. */
  predicate OtherActive(sprints: map<string, Sprint>, id: string)
    requires id in sprints
  {
    exists k :: k in sprints && k != id && sprints[k].projectId == sprints[id].projectId
                && sprints[k].status == ACTIVE
  }

  /**
   * Every row sits under its own key and every reference resolves (both
   * guaranteed by the store), and no project has two ACTIVE sprints (kept by
   * the sprint actions).
   */
  predicate Consistent(users: map<string, User>, projects: map<string, Project>,
                       sprints: map<string, Sprint>, issues: map<string, Issue>)
  {
    && (forall k :: k in users ==> users[k].clerkUserId == k)
    && (forall k :: k in projects ==> projects[k].id == k)
    && (forall k :: k in sprints ==> sprints[k].id == k && sprints[k].projectId in projects)
    && IssuesKeyed(issues)
    && (forall k :: k in issues ==> IssueRefsResolve(users, projects, sprints, issues[k]))
    && AtMostOneActive(sprints)
  }

  class Store {
    var users: map<string, User>
    var projects: map<string, Project>
    var sprints: map<string, Sprint>
    var issues: map<string, Issue>

    ghost predicate Valid()
      reads this
    {
      Consistent(users, projects, sprints, issues)
    }

    constructor (users: map<string, User>, projects: map<string, Project>,
                 sprints: map<string, Sprint>, issues: map<string, Issue>)
      requires Consistent(users, projects, sprints, issues)
      ensures Valid()
      ensures this.users == users && this.projects == projects
      ensures this.sprints == sprints && this.issues == issues
    {
      this.users := users;
      this.projects := projects;
      this.sprints := sprints;
      this.issues := issues;
    }
  }
}
