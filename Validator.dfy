/**
 * The two form schemas: a project (name, key, optional description) and a
 * sprint (name, start date, end date). Like the schema library they are
 * written in, each check on a field that fails contributes one error, and a
 * form is accepted when no check fails. Lengths are sequence lengths.
 */
module Validator {
  import opened Domain

  datatype Field = Name | Key | Description | StartDate | EndDate

  datatype Rule = TooShort(min: nat) | TooLong(max: nat) | Required

  datatype FieldError = FieldError(field: Field, rule: Rule)

  /** `.min(n)` on a string field. */
  function MinLength(field: Field, s: string, n: nat): seq<FieldError>
  {
    if |s| < n then [FieldError(field, TooShort(n))] else []
  }

  /** `.max(n)` on a string field. */
  function MaxLength(field: Field, s: string, n: nat): seq<FieldError>
  {
    if |s| > n then [FieldError(field, TooLong(n))] else []
  }

  /** A date field that must be present (and a valid date). */
  function RequiredDate(field: Field, d: Option<int>): seq<FieldError>
  {
    if d.None? then [FieldError(field, Required)] else []
  }

  /** Some error is reported against `field`. */
  predicate Flags(errors: seq<FieldError>, field: Field)
  {
    exists e :: e in errors && e.field == field
  }

  datatype ProjectForm = ProjectForm(name: string, key: string, description: Option<string>)

  /** The errors the project schema reports; an empty list accepts the form. */
  function ProjectSchema(f: ProjectForm): (errors: seq<FieldError>)
    ensures Flags(errors, Name) <==> !(1 <= |f.name| <= 50)
    ensures Flags(errors, Key) <==> !(2 <= |f.key| <= 25)
    ensures Flags(errors, Description) <==> f.description.Some? && |f.description.value| > 500
    ensures !Flags(errors, StartDate) && !Flags(errors, EndDate)
    ensures errors == [] <==>
              1 <= |f.name| <= 50 && 2 <= |f.key| <= 25
              && (f.description.Some? ==> |f.description.value| <= 500)
  {
    MinLength(Name, f.name, 1) + MaxLength(Name, f.name, 50)
    + MinLength(Key, f.key, 2) + MaxLength(Key, f.key, 25)
    + (if f.description.Some? then MaxLength(Description, f.description.value, 500) else [])
  }

  datatype SprintForm = SprintForm(name: string, startDate: Option<int>, endDate: Option<int>)

  /** The errors the sprint schema reports; an empty list accepts the form. */
  function SprintSchema(f: SprintForm): (errors: seq<FieldError>)
    ensures Flags(errors, Name) <==> |f.name| < 1
    ensures Flags(errors, StartDate) <==> f.startDate.None?
    ensures Flags(errors, EndDate) <==> f.endDate.None?
    ensures !Flags(errors, Key) && !Flags(errors, Description)
    ensures errors == [] <==> |f.name| >= 1 && f.startDate.Some? && f.endDate.Some?
  {
    MinLength(Name, f.name, 1) + RequiredDate(StartDate, f.startDate) + RequiredDate(EndDate, f.endDate)
  }

  /** The sprint schema accepts an end date before the start date. */
  lemma SprintSchemaIgnoresDateOrder(name: string, startDate: int, endDate: int)
    requires |name| >= 1
    ensures SprintSchema(SprintForm(name, Some(startDate), Some(endDate))) == []
  {
  }
}
