# dev-scrum domain actions in Dafny

A model of the server-side domain logic of a Jira-style project board:

- the five issue actions: list a sprint's issues in board order, create an
  issue at the end of its column, persist a drag-and-drop reorder in one
  transaction, delete an issue, and update an issue's status or priority;
- the two sprint actions: create a sprint, and change a sprint's status
  through a small state machine;
- the two form schemas, for projects and for sprints.

The database becomes an in-memory `Db.Store` with four tables. Each table is
a `map` from primary key to row; users are keyed by the identity provider's
id. `Db.Consistent` holds two kinds of facts. The relational store
guarantees that every row sits under its own key and that every reference
resolves. "At most one sprint per project is ACTIVE" is not a store
constraint. It is an invariant of the sprint actions: the `Store` constructor
assumes it of the initial tables, and `CreateSprint` and `UpdateSprintStatus`
prove it kept (`SprintRules.PlannedInsertKeepsSingleActive`,
`SprintRules.StatusWriteKeepsSingleActive`), just as the code keeps it by
its own read-then-check before the write (`actions/sprint.ts:85-106`). Every
action requires and ensures `Db.Consistent`. The actions are module-level
methods that take the store as `db`, as the source modules use their global
client. Each one returns a `Result` whose error constructors match the
messages the source throws, with two exceptions. `ForeignKeyViolation` stands
for the store refusing a dangling reference. `IssueNotFound` from a reorder
stands for the store's "record not found" error at `actions/issues.ts:76`,
which rolls the transaction back; the code throws no message of its own
there.

The caller context `{userId, orgId, orgRole}` is the explicit parameter `ctx`.
The wall-clock time is the integer parameter `now`. Ids that the database
generates for inserted rows are the parameter `newId`, required to be fresh.

Modules:
- `Domain`: the records, `Result`, `Error` and `Ctx`.
- `Db`: the store class, its consistency predicate and the single-ACTIVE invariant.
- `Board`: the board sort key and sorted insertion.
- `IssueActions`: the five issue actions.
- `SprintRules`: the status transition checks and the proofs that they keep the single-ACTIVE invariant.
- `SprintActions`: the two sprint actions.
- `Validator`: the two form schemas.
- `Scenarios`: client runs of the board and sprint scenarios.

The model follows what the actions do, including where they allow more than
the board's own interface offers:
- The sprint panel offers Start only for a PLANNED sprint inside its date
  range, and End only for an ACTIVE one
  (`app/(main)/project/_components/sprintManager.tsx:56-59`, `:118-131`). It
  offers no way back from COMPLETED. The action `updateSprintStatus` itself
  writes a request for PLANNED over any status (`actions/sprint.ts:76-106`).
  So a COMPLETED sprint can be reopened and started again
  (`SprintRules.Permitted`, `SprintRules.CompletedSprintCanRestart`,
  `Scenarios.ReopenScenario`).
- `createIssue` checks neither the project's existence nor its organization.
  It fails only when the caller has no user record, or when the store refuses
  a dangling reference.
- `getIssuesForSprint`, `deleteIssue` and `updateIssueOrder` make no
  organization check at all. So any signed-in caller may list the issues of
  any sprint (`actions/issues.ts:6-23`).

## Model

| member | source | states |
|---|---|---|
| `Board.KeyLeTotal` | actions/issues.ts:15 | any two issues are comparable under the (status, order) key |
| `Board.KeyLeTransitive` | actions/issues.ts:15 | the (status, order) key is transitive, so sorting by it is well defined |
| `Board.Insert` | actions/issues.ts:15 | inserting into a list sorted by (status, order) keeps it sorted and adds exactly that one issue (multiset) |
| `IssueActions.GetIssuesForSprint` | actions/issues.ts:6-23 | Unauthorized without user or organization; otherwise the result holds exactly the issues of that sprint, each once (a permutation of that subset), in ascending (status, order); nothing is written |
| `IssueActions.LastIssueOrder` | actions/issues.ts:35-38 | None exactly when the (projectId, status) column is empty; otherwise the greatest position in that column |
| `IssueActions.AssigneeOrNull` | actions/issues.ts:52 | an absent or empty assignee becomes null; any other value is kept |
| `IssueActions.CreateIssue` | actions/issues.ts:25-63 | Unauthorized, then UserNotFound for a caller without a user record, then ForeignKeyViolation for a dangling reference; on success exactly one new issue with the given fields, reporter = caller's user id, and a position greater than every position in its (project, status) column (max + 1, or 0 in an empty column); all existing issues, sprints, projects and users unchanged; any failure writes nothing |
| `IssueActions.RunPlacements` | actions/issues.ts:73-84 | the transaction body: fails exactly when some listed id is missing, else yields the table with the updates applied in payload order |
| `IssueActions.LastPlacement` | actions/issues.ts:75-82 | the entry found for an id is one the payload holds for that id, with no later entry naming it; None exactly when no entry names it |
| `IssueActions.ApplyPlacementsKeys` | actions/issues.ts:73-84 | a reorder adds and removes no issue |
| `IssueActions.ApplyPlacementsAt` | actions/issues.ts:75-82 | a listed issue takes the status and order of the last payload entry naming it; its other fields, and every unlisted issue, are unchanged |
| `IssueActions.ApplyPlacementsIdempotent` | actions/issues.ts:73-84 | applying the same payload twice gives the same table as applying it once |
| `IssueActions.UpdateIssueOrder` | actions/issues.ts:65-87 | Unauthorized without user or organization; succeeds exactly when every listed id exists and then commits the whole payload; IssueNotFound otherwise, with nothing changed (all-or-nothing) |
| `IssueActions.DeleteIssue` | actions/issues.ts:89-123 | Unauthorized, UserNotFound, IssueNotFound, PermissionDenied in that order; succeeds exactly when the caller is the reporter or in the project's adminIds, and then removes exactly that issue and nothing else |
| `IssueActions.UpdateIssue` | actions/issues.ts:125-162 | Unauthorized (unwrapped) without user or organization; then IssueNotFound and a foreign organization, both wrapped as update failures; on success only the status and priority of that one issue change, each only when given |
| `SprintRules.TransitionCheck` | actions/sprint.ts:76-101 | the new status passes exactly when the transition table allows it and, for ACTIVE, startDate ≤ now ≤ endDate and no other sprint of the project is ACTIVE; the date error comes before the source-state error, which comes before the active-sprint conflict; PLANNED always passes |
| `SprintRules.StatusWriteKeepsSingleActive` | actions/sprint.ts:85-106 | writing a status that passed the checks keeps at most one ACTIVE sprint per project |
| `SprintRules.PlannedInsertKeepsSingleActive` | actions/sprint.ts:29-37 | inserting a PLANNED sprint keeps at most one ACTIVE sprint per project |
| `SprintRules.CompletedSprintCanRestart` | actions/sprint.ts:76-106 | a COMPLETED sprint may be set to PLANNED and then started again |
| `SprintActions.CreateSprint` | actions/sprint.ts:14-43 | Unauthorized without user or organization; ProjectNotFound when the project is missing or in another organization; otherwise exactly one new PLANNED sprint with the given name, dates and project; nothing else changes |
| `SprintActions.UpdateSprintStatus` | actions/sprint.ts:45-112 | guards in order: Unauthorized, SprintNotFound, Unauthorized for another organization, PermissionDenied unless the role is "org:admin", then the transition checks; on success only that sprint's status changes, to the new status; any failure writes nothing; the single-ACTIVE invariant is kept |
| `Validator.ProjectSchema` | lib/validator.ts:3-7 | name flagged iff its length is outside 1..50; key flagged iff outside 2..25; description flagged iff present and longer than 500; the form is accepted iff all three hold |
| `Validator.SprintSchema` | lib/validator.ts:9-13 | name flagged iff empty; each date flagged iff missing; accepted iff name non-empty and both dates present |
| `Validator.SprintSchemaIgnoresDateOrder` | lib/validator.ts:11-12 | an end date before the start date is accepted |
| `Scenarios.CreateTwoIssues` | actions/issues.ts:35-53 | two issues created in an empty TODO column get positions 0 and 1 |
| `Scenarios.ReorderScenario` | actions/issues.ts:65-87 | after the reorder moves B above A, listing the sprint gives [B, A] |
| `Scenarios.EarlyStartScenario` | actions/sprint.ts:77-79 | starting before startDate fails with the date error and the sprint stays PLANNED |
| `Scenarios.SecondActiveScenario` | actions/sprint.ts:86-96 | starting a second sprint while another of the project is ACTIVE fails and writes nothing |
| `Scenarios.NonAdminScenario` | actions/sprint.ts:68-70 | a non-admin caller gets PermissionDenied even for a valid transition |
| `Scenarios.ReopenScenario` | actions/sprint.ts:103-106 | setting a COMPLETED sprint to PLANNED succeeds |

## Left out

- Authentication and the organization role come from the identity provider. They are the input `ctx`, not computed.
- The joined `assignee`/`reporter` user objects that the actions return are not modelled; rows carry user ids only.
- Error messages are modelled only as error kinds, not as exact text.
- The error for a caller with no user record in `createIssue` is modelled as `UserNotFound`. The code raises a null-dereference error there instead.
- Concurrency is not modelled; every action is atomic and sequential. Two things follow. The read-then-write races in order assignment and in the single-ACTIVE check cannot occur in the model. Database transaction isolation is not modelled.
- Database id generation is the parameter `newId`, required to be fresh.
- The store's foreign-key checks on a new issue stand for the relational schema, which is not part of this model. They cover the project, the sprint (when given) and the assignee (when given).
- Real `Date` values and the clock are integer timestamps. `now` is a parameter. Null dates and `new Date(null)` are not modelled.
- `Board.KeyLe`: statuses are ordered character by character. If the status column is a database enum, the database orders by declaration order instead.
- The schemas' string lengths are sequence lengths, not UTF-16 code units. Types that are not strings, and invalid dates, are not modelled beyond "missing".
- Positions (`order`) are unbounded integers. The database column's width and integrality checks are not modelled. In the code those checks make a create (last position + 1) or a reorder (a client-supplied position) fail and roll back.
- Status and priority values are opaque strings. The database's check that they belong to their enumerations is not modelled.
- `actions/organization.ts`, `lib/checkUser.ts`, `middleware.ts`, `lib/prisma.js` and the UI components are not part of this model. They are calls to the identity provider, the database client, routing and rendering.
