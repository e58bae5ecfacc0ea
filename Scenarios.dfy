/**
 * Client scenarios: each runs a few actions on a small store and states the
 * outcome, proved from the actions' contracts alone.
 */
module Scenarios {
  import opened Domain
  import opened SprintRules
  import opened Board
  import opened Db
  import opened IssueActions
  import opened SprintActions

  const Member: Ctx := Ctx(Some("clerk-ann"), Some("org-1"), Some("org:member"))
  const Admin: Ctx := Ctx(Some("clerk-ann"), Some("org-1"), Some(AdminRole))

  function Ann(): User { User("u-ann", "clerk-ann", Some("Ann"), "ann@example.org") }
  function BoardProject(): Project { Project("p", "Board", "BRD", "org-1", None, ["u-ann"]) }

  /** Two issues created in the empty TODO column get positions 0 and 1. */
  method CreateTwoIssues() returns (db: Store, a: Issue, b: Issue)
    ensures fresh(db) && db.Valid()
    ensures db.issues == map["A" := a, "B" := b]
    ensures a.id == "A" && b.id == "B"
    ensures a.status == "TODO" && b.status == "TODO" && a.sprintId == Some("s") && b.sprintId == Some("s")
    ensures a.order == 0 && b.order == 1
  {
    var sprint := Sprint("s", "Sprint 1", PLANNED, 10, 20, "p");
    var users := map["clerk-ann" := Ann()];
    assert users["clerk-ann"].id == "u-ann";
    db := new Store(users, map["p" := BoardProject()], map["s" := sprint], map[]);

    var form := NewIssue("A", None, "TODO", "MEDIUM", Some("s"), Some(""));
    assert ColumnOrders(db.issues, "p", "TODO") == {};
    var ra := CreateIssue(db, Member, "p", form, "A");
    assert ra.Success?;
    a := ra.value;
    assert ColumnOrders(db.issues, "p", "TODO") == {0} by {
      assert db.issues == map["A" := a];
    }
    var rb := CreateIssue(db, Member, "p", form.(title := "B"), "B");
    assert rb.Success?;
    b := rb.value;
  }

  /** A list of two distinct issues in board order, one strictly before the other. */
  lemma SortedPair(listed: seq<Issue>, x: Issue, y: Issue)
    requires multiset(listed) == multiset{x, y} && Sorted(listed)
    requires x != y && !KeyLe(y, x)
    ensures listed == [x, y]
  {
    assert |listed| == 2;
    assert listed[0] in multiset(listed) && listed[1] in multiset(listed);
  }

  /**
   * After a reorder that moves the second issue above the first, the sprint
   * lists the second first.
   */
  method ReorderScenario() returns (listed: seq<Issue>)
    ensures |listed| == 2 && listed[0].id == "B" && listed[1].id == "A"
    ensures listed[0].order == 0 && listed[1].order == 1
  {
    var db, a, b := CreateTwoIssues();
    var moves := [Placement("B", "TODO", 0), Placement("A", "TODO", 1)];
    assert AllListed(db.issues, moves);
    var done := UpdateIssueOrder(db, Member, moves);
    var a' := a.(order := 1);
    var b' := b.(order := 0);
    assert moves[..1] == [Placement("B", "TODO", 0)];
    assert db.issues == map["A" := a', "B" := b'];

    var r := GetIssuesForSprint(db, Member, "s");
    assert SprintIssues(db.issues, "s") == {a', b'} by {
      assert db.issues.Keys == {"A", "B"};
      assert db.issues["A"] == a' && db.issues["B"] == b';
    }
    listed := r.value;
    SortedPair(listed, b', a');
  }

  /** Starting a sprint before its start date is refused and writes nothing. */
  method EarlyStartScenario() returns (r: Result<Sprint>, status: SprintStatus)
    ensures r == Failure(OutsideDateRange) && status == PLANNED
  {
    var sprint := Sprint("s", "Sprint 1", PLANNED, 10, 20, "p");
    var db := new Store(map["clerk-ann" := Ann()], map["p" := BoardProject()], map["s" := sprint], map[]);
    r := UpdateSprintStatus(db, Admin, 5, "s", ACTIVE);
    status := db.sprints["s"].status;
  }

  /** A second sprint of a project cannot start while another one is ACTIVE. */
  method SecondActiveScenario() returns (r: Result<Sprint>, status: SprintStatus)
    ensures r == Failure(AnotherSprintActive) && status == PLANNED
  {
    var running := Sprint("s1", "Sprint 1", ACTIVE, 0, 30, "p");
    var next := Sprint("s2", "Sprint 2", PLANNED, 10, 20, "p");
    var db := new Store(map["clerk-ann" := Ann()], map["p" := BoardProject()],
                        map["s1" := running, "s2" := next], map[]);
    assert db.sprints["s1"].status == ACTIVE && db.sprints["s1"].projectId == db.sprints["s2"].projectId;
    assert "s1" != "s2" by { assert "s1"[1] != "s2"[1]; }
    assert OtherActive(db.sprints, "s2");
    r := UpdateSprintStatus(db, Admin, 15, "s2", ACTIVE);
    status := db.sprints["s2"].status;
  }

  /** A caller who is not an organization administrator cannot change a status. */
  method NonAdminScenario() returns (r: Result<Sprint>)
    ensures r == Failure(PermissionDenied)
  {
    var sprint := Sprint("s", "Sprint 1", PLANNED, 10, 20, "p");
    var db := new Store(map["clerk-ann" := Ann()], map["p" := BoardProject()], map["s" := sprint], map[]);
    r := UpdateSprintStatus(db, Member, 15, "s", ACTIVE);
  }

  /** A COMPLETED sprint is set back to PLANNED: the code accepts it. */
  method ReopenScenario() returns (r: Result<Sprint>)
    ensures r.Success? && r.value.status == PLANNED
  {
    var sprint := Sprint("s", "Sprint 1", COMPLETED, 10, 20, "p");
    var db := new Store(map["clerk-ann" := Ann()], map["p" := BoardProject()], map["s" := sprint], map[]);
    r := UpdateSprintStatus(db, Admin, 100, "s", PLANNED);
  }
}
