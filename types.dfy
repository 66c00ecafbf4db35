/**
 * The records shared by the rule builder and the assignment editor
 * (src/types/index.ts). TypeScript's `string | null` is an Option; a
 * JavaScript `number` is modelled as an unbounded `int`.
 */
module Types {

  datatype Option<+T> = None | Some(value: T)

  type RuleId = string
  type EventId = string
  type ApplicationId = string

  /** A value the JavaScript code reads as "filled in": neither null/undefined nor "". */
  predicate Present(o: Option<string>) {
    o.Some? && o.value != ""
  }

  /** `o || null` on a `string | null | undefined`: "" and a missing value both become null. */
  function NullIfEmpty(o: Option<string>): (r: Option<string>)
    ensures r.Some? <==> Present(o)
    ensures r.Some? ==> r == o
  {
    if Present(o) then o else None
  }

  datatype DistributionType = Percentage | Mark

  datatype MarkType = Max | Obtained

  datatype TheoryPractical = TheoryPractical(theory: bool, practical: bool)

  /** One paper kind's grace-mark policy. */
  datatype PaperMarks = PaperMarks(enabled: bool, maxMark: int, shouldNotExceed: int)

  datatype MarksAwarded = MarksAwarded(passPaper: PaperMarks, supplementaryPaper: PaperMarks)

  datatype SubjectLimit = SubjectLimit(enabled: bool, limit: int)

  datatype Rule = Rule(
    id: RuleId,
    name: string,
    description: string,
    theoryPractical: TheoryPractical,
    distributionType: DistributionType,
    markType: MarkType,
    marksAwarded: MarksAwarded,
    subjectLimit: SubjectLimit)

  datatype Event = Event(id: EventId, name: string)

  /** One entry of `Application.rules`: the (possibly incomplete) binding of a rule and a date range to an event. */
  datatype Assignment = Assignment(
    eventId: EventId,
    ruleId: Option<RuleId>,
    fromDate: Option<string>,
    toDate: Option<string>)

  datatype Application = Application(
    id: ApplicationId,
    name: string,
    events: seq<Event>,
    rules: seq<Assignment>)

  /** `AssignmentFormData`: the editor's draft for one event. */
  datatype Draft = Draft(ruleId: Option<RuleId>, fromDate: Option<string>, toDate: Option<string>)

  /** The ids of a list of events, in order. */
  function EventIds(events: seq<Event>): (ids: seq<EventId>)
    ensures |ids| == |events|
    ensures forall i | 0 <= i < |events| :: ids[i] == events[i].id
  {
    seq(|events|, i requires 0 <= i < |events| => events[i].id)
  }
}
