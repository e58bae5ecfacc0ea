/**
 * The status rules of `updateSprintStatus`, separated from the store: which
 * requested status may be written over which current one, the checks on the
 * wall-clock time and on the other sprints of the project, and the proofs
 * that those checks keep the store's "at most one ACTIVE sprint per project".
 */
module SprintRules {
  import opened Domain
  import opened Db

  /**
   * The transition table as the code enforces it: a sprint starts only from
   * PLANNED and completes only from ACTIVE, and a request for PLANNED is
   * written whatever the current status is.
   */
  predicate Permitted(from: SprintStatus, to: SprintStatus)
  {
    match (from, to)
    case (_, PLANNED) => true
    case (PLANNED, ACTIVE) => true
    case (ACTIVE, COMPLETED) => true
    case _ => false
  }

  /** Inclusive at both ends: `now < startDate || now > endDate` is refused. */
  predicate InDateRange(s: Sprint, now: int)
  {
    s.startDate <= now <= s.endDate
  }

  /**
   * The transition checks in the order the action makes them; `None` means
   * the new status may be written. The first failing check decides the error.
   */
  function TransitionCheck(s: Sprint, to: SprintStatus, now: int, otherActive: bool): (e: Option<Error>)
    ensures e.None? <==> Permitted(s.status, to) && (to == ACTIVE ==> InDateRange(s, now) && !otherActive)
    ensures to == ACTIVE && !InDateRange(s, now) ==> e == Some(OutsideDateRange)
    ensures to == ACTIVE && InDateRange(s, now) && s.status != PLANNED ==> e == Some(NotPlanned)
    ensures to == ACTIVE && InDateRange(s, now) && s.status == PLANNED && otherActive ==> e == Some(AnotherSprintActive)
    ensures to == COMPLETED && s.status != ACTIVE ==> e == Some(NotActive)
    ensures to == PLANNED ==> e == None
  {
    if to == ACTIVE && (now < s.startDate || now > s.endDate) then Some(OutsideDateRange)
    else if to == ACTIVE && s.status != PLANNED then Some(NotPlanned)
    else if to == ACTIVE && otherActive then Some(AnotherSprintActive)
    else if to == COMPLETED && s.status != ACTIVE then Some(NotActive)
    else None
  }

  /** Writing a status that passed the checks keeps at most one ACTIVE sprint per project. */
  lemma StatusWriteKeepsSingleActive(sprints: map<string, Sprint>, id: string, to: SprintStatus, now: int)
    requires AtMostOneActive(sprints)
    requires id in sprints
    requires TransitionCheck(sprints[id], to, now, OtherActive(sprints, id)).None?
    ensures AtMostOneActive(sprints[id := sprints[id].(status := to)])
  {
    var after := sprints[id := sprints[id].(status := to)];
    forall a, b | a in after && b in after && after[a].status == ACTIVE && after[b].status == ACTIVE
                  && after[a].projectId == after[b].projectId
      ensures a == b
    {
      if a != b && (a == id || b == id) {
        assert false;
      }
    }
  }

  /** A new PLANNED sprint cannot break the invariant. */
  lemma PlannedInsertKeepsSingleActive(sprints: map<string, Sprint>, s: Sprint)
    requires AtMostOneActive(sprints)
    requires s.id !in sprints && s.status == PLANNED
    ensures AtMostOneActive(sprints[s.id := s])
  {
  }

  /**
   * The code does not make the lifecycle monotonic: a COMPLETED sprint can be
   * set back to PLANNED and then started again, within its dates.
   */
  lemma CompletedSprintCanRestart(s: Sprint, now: int)
    requires s.status == COMPLETED && InDateRange(s, now)
    ensures TransitionCheck(s, PLANNED, now, false).None?
    ensures TransitionCheck(s.(status := PLANNED), ACTIVE, now, false).None?
  {
  }
}
