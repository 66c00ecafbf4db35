/** The in-memory seed collections that stand in for a backend (src/lib/mockData.ts). */
module MockData {
  import opened Types

  function SeedRule(id: RuleId, name: string, description: string, theory: bool, practical: bool,
                    dist: DistributionType, mark: MarkType,
                    pass: PaperMarks, supplementary: PaperMarks, limit: SubjectLimit): Rule
  {
    Rule(id, name, description, TheoryPractical(theory, practical), dist, mark,
         MarksAwarded(pass, supplementary), limit)
  }

  const MockRules: seq<Rule> := [
    SeedRule("1", "NCC Rule", "Grace marks for NCC cadets who have participated in camps",
             true, false, Percentage, Max,
             PaperMarks(true, 100, 50), PaperMarks(true, 75, 40), SubjectLimit(true, 3)),
    SeedRule("2", "NSS Rule", "Grace marks for NSS volunteers who have participated in special camps",
             true, true, Mark, Obtained,
             PaperMarks(true, 100, 20), PaperMarks(false, 0, 0), SubjectLimit(false, 0)),
    SeedRule("3", "Sports Rule", "Grace marks for sports achievements at university level",
             true, true, Percentage, Max,
             PaperMarks(true, 100, 25), PaperMarks(true, 75, 20), SubjectLimit(true, 2)),
    SeedRule("4", "Arts Rule", "Grace marks for arts festival participation",
             false, true, Mark, Obtained,
             PaperMarks(true, 100, 15), PaperMarks(true, 75, 10), SubjectLimit(false, 0))
  ]

  /** A seed assignment entry: the event is listed with no rule and no dates. */
  function Unassigned(eventId: EventId): Assignment {
    Assignment(eventId, None, None, None)
  }

  const App001: Application := Application(
    "APP001", "Engineering Degree Examination 2023",
    [Event("event1", "NCC"), Event("event2", "NSS"), Event("event3", "Sports")],
    [Unassigned("event1"), Unassigned("event2"), Unassigned("event3")])

  const App002: Application := Application(
    "APP002", "BBA Examination June 2023",
    [Event("event4", "Arts"), Event("event5", "NCC")],
    [Unassigned("event4"), Unassigned("event5")])

  const App003: Application := Application(
    "APP003", "BSc Computer Science Semester 5 Exam",
    [Event("event6", "Sports"), Event("event7", "NSS"), Event("event8", "Arts")],
    [Unassigned("event6"), Unassigned("event7"), Unassigned("event8")])

  const MockApplications: seq<Application> := [App001, App002, App003]
}
