/**
 * The rule builder form (src/components/CreateRuleForm.tsx). Its fields are
 * mutable state that the inputs' change handlers overwrite with the value
 * entered; submitting checks the name and builds a `Rule` from the fields.
 * The `onCreateRule` and `onClose` callbacks are returned as a list of calls
 * in the order the form makes them; the toast messages are an outcome value.
 */
module CreateRuleForm {
  import opened Types
  import opened JsStrings

  /** The values of the form's fields. */
  datatype FormState = FormState(
    name: string,
    description: string,
    isTheory: bool,
    isPractical: bool,
    distributionType: DistributionType,
    markType: MarkType,
    passEnabled: bool,
    passMaxMark: int,
    passShouldNotExceed: int,
    supplementaryEnabled: bool,
    supplementaryMaxMark: int,
    supplementaryShouldNotExceed: int,
    subjectLimitEnabled: bool,
    subjectLimit: int)

  /** The message the form shows after a submit. */
  datatype FormMessage = NameRequired | RuleCreated

  /** A call the form makes to its parent. */
  datatype FormCall = OnCreateRule(rule: Rule) | OnClose

  datatype SubmitOutcome = SubmitOutcome(message: FormMessage, calls: seq<FormCall>)

  /** The field values as the rule record stores them: the reference against which `BuildRule` is checked. */
  function FormOf(r: Rule): FormState {
    FormState(
      r.name, r.description,
      r.theoryPractical.theory, r.theoryPractical.practical,
      r.distributionType, r.markType,
      r.marksAwarded.passPaper.enabled, r.marksAwarded.passPaper.maxMark,
      r.marksAwarded.passPaper.shouldNotExceed,
      r.marksAwarded.supplementaryPaper.enabled, r.marksAwarded.supplementaryPaper.maxMark,
      r.marksAwarded.supplementaryPaper.shouldNotExceed,
      r.subjectLimit.enabled, r.subjectLimit.limit)
  }

  /**
   * The rule record built from the fields under the freshly generated `id`.
   * Every field is taken over unchanged, the untrimmed name and the numbers of
   * disabled sections included.
   */
  function BuildRule(s: FormState, id: RuleId): (r: Rule)
    ensures r.id == id && FormOf(r) == s
  {
    Rule(
      id, s.name, s.description,
      TheoryPractical(s.isTheory, s.isPractical),
      s.distributionType, s.markType,
      MarksAwarded(
        PaperMarks(s.passEnabled, s.passMaxMark, s.passShouldNotExceed),
        PaperMarks(s.supplementaryEnabled, s.supplementaryMaxMark, s.supplementaryShouldNotExceed)),
      SubjectLimit(s.subjectLimitEnabled, s.subjectLimit))
  }

  /** Nothing of a rule is lost or invented: rebuilding it from its own fields and id gives it back. */
  lemma BuildRuleFromOwnFields(r: Rule)
    ensures BuildRule(FormOf(r), r.id) == r
  {
  }

  /**
   * What a submit does: a name that is empty or only whitespace is refused with
   * the name message and no call; any other field values are accepted, and the
   * form calls `onCreateRule` once with the built rule and then `onClose`.
   */
  function Submit(s: FormState, id: RuleId): (o: SubmitOutcome)
    ensures o.message == NameRequired <==> AllWhitespace(s.name)
    ensures o.message == NameRequired ==> o.calls == []
    ensures o.message == RuleCreated ==>
              o.calls == [OnCreateRule(BuildRule(s, id)), OnClose]
  {
    if Trim(s.name) == [] then SubmitOutcome(NameRequired, [])
    else SubmitOutcome(RuleCreated, [OnCreateRule(BuildRule(s, id)), OnClose])
  }

  /**
   * The only check is the name: once it is not blank, every form with that
   * name is accepted, whatever the other fields hold (a rule that applies to
   * neither theory nor practical, or whose maximum grace mark is below its cap,
   * is still created), and the rule keeps the untrimmed name.
   */
  lemma NoCheckBeyondName(s: FormState, id: RuleId)
    requires !AllWhitespace(s.name)
    ensures forall t: FormState | t.name == s.name ::
              && Submit(t, id).message == RuleCreated
              && Submit(t, id).calls[0].rule.name == s.name
  {
  }

  /** The field values of a freshly opened form. */
  const Defaults: FormState := FormState(
    "", "", false, true, Percentage, Max,
    true, 100, 50,
    true, 75, 40,
    false, 0)

  /** A form whose fields hold their current values; each change handler assigns its input's value to one of them. */
  class RuleForm {
    var name: string
    var description: string
    var isTheory: bool
    var isPractical: bool
    var distributionType: DistributionType
    var markType: MarkType
    var passEnabled: bool
    var passMaxMark: int
    var passShouldNotExceed: int
    var supplementaryEnabled: bool
    var supplementaryMaxMark: int
    var supplementaryShouldNotExceed: int
    var subjectLimitEnabled: bool
    var subjectLimit: int

    function State(): FormState
      reads this
    {
      FormState(
        name, description, isTheory, isPractical, distributionType, markType,
        passEnabled, passMaxMark, passShouldNotExceed,
        supplementaryEnabled, supplementaryMaxMark, supplementaryShouldNotExceed,
        subjectLimitEnabled, subjectLimit)
    }

    /** The form opens empty, for practical papers only, as a percentage of the maximum mark, with both papers enabled and no subject limit. */
    constructor ()
      ensures State() == Defaults
      ensures name == "" && description == ""
      ensures !isTheory && isPractical
      ensures distributionType == Percentage && markType == Max
      ensures passEnabled && passMaxMark == 100 && passShouldNotExceed == 50
      ensures supplementaryEnabled && supplementaryMaxMark == 75 && supplementaryShouldNotExceed == 40
      ensures !subjectLimitEnabled && subjectLimit == 0
    {
      name, description := "", "";
      isTheory, isPractical := false, true;
      distributionType, markType := Percentage, Max;
      passEnabled, passMaxMark, passShouldNotExceed := true, 100, 50;
      supplementaryEnabled, supplementaryMaxMark, supplementaryShouldNotExceed := true, 75, 40;
      subjectLimitEnabled, subjectLimit := false, 0;
    }

    /** The submit handler; `id` is the value the id generator returns. The fields are left as they are. */
    method HandleSubmit(id: RuleId) returns (o: SubmitOutcome)
      ensures o == Submit(State(), id)
    {
      if Trim(name) == [] {
        return SubmitOutcome(NameRequired, []);
      }
      var rule := BuildRule(State(), id);
      o := SubmitOutcome(RuleCreated, [OnCreateRule(rule), OnClose]);
    }
  }
}
