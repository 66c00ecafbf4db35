/**
 * The rule list screen (src/components/CreateRule.tsx): the in-memory rule
 * collection, seeded from the mock rules, that the builder form appends to,
 * and whether the form's sheet is open.
 */
module CreateRule {
  import opened Types
  import MockData
  import opened CreateRuleForm

  class RulesScreen {
    var rules: seq<Rule>
    var isFormOpen: bool

    /** The screen starts with the four seed rules and the form closed. */
    constructor ()
      ensures rules == MockData.MockRules && |rules| == 4
      ensures !isFormOpen
    {
      rules := MockData.MockRules;
      isFormOpen := false;
    }

    /** "Create New Rule" opens the form; the rules stay as they are. */
    method HandleOpenForm()
      modifies this
      ensures isFormOpen && rules == old(rules)
    {
      isFormOpen := true;
    }

    /**
     * Appends the new rule: one more rule, the old ones kept in front in their
     * order, the new one last.
     */
    method HandleCreateRule(rule: Rule)
      modifies this
      ensures |rules| == |old(rules)| + 1
      ensures rules[..|old(rules)|] == old(rules)
      ensures rules[|rules| - 1] == rule
      ensures isFormOpen == old(isFormOpen)
    {
      rules := rules + [rule];
    }

    /** The form's `onClose`: closes the sheet; the rules stay as they are. */
    method HandleClose()
      modifies this
      ensures !isFormOpen && rules == old(rules)
    {
      isFormOpen := false;
    }

    /** Runs one call of the form against the callbacks this screen wires to it. */
    method Receive(call: FormCall)
      modifies this
      ensures call.OnCreateRule? ==> rules == old(rules) + [call.rule] && isFormOpen == old(isFormOpen)
      ensures call.OnClose? ==> rules == old(rules) && !isFormOpen
    {
      match call
      case OnCreateRule(rule) => HandleCreateRule(rule);
      case OnClose => HandleClose();
    }
  }

  /** A name of two spaces is refused with the name message and no call. */
  lemma BlankNameRefused(s: FormState, id: RuleId)
    requires s.name == "  "
    ensures Submit(s, id) == SubmitOutcome(NameRequired, [])
  {
  }

  /** The name "Merit Rule" is accepted: the rule is created and the form closed. */
  lemma NamedRuleCreated(s: FormState, id: RuleId)
    requires s.name == "Merit Rule"
    ensures Submit(s, id) == SubmitOutcome(RuleCreated, [OnCreateRule(BuildRule(s, id)), OnClose])
  {
  }

  /**
   * Submitting a whitespace-only name on a fresh screen adds no fifth rule and
   * reports the name message; submitting "Merit Rule" adds it as the fifth
   * rule, built from the default fields, and closes the form.
   */
  method SubmitScenario(id: RuleId) returns (blank: FormMessage, countAfterBlank: nat,
                                             named: FormMessage, countAfterNamed: nat, last: Rule, lastStored: Rule,
                                             openAfter: bool)
    ensures blank == NameRequired && countAfterBlank == 4
    ensures named == RuleCreated && countAfterNamed == 5 && !openAfter
    ensures last == lastStored
    ensures last.id == id && last.name == "Merit Rule" && last.description == ""
    ensures last.theoryPractical == TheoryPractical(false, true)
    ensures last.distributionType == Percentage && last.markType == Max
    ensures last.marksAwarded == MarksAwarded(PaperMarks(true, 100, 50), PaperMarks(true, 75, 40))
    ensures last.subjectLimit == SubjectLimit(false, 0)
  {
    var screen := new RulesScreen();
    screen.HandleOpenForm();
    var form := new RuleForm();
    form.name := "  ";
    var o := form.HandleSubmit(id);
    BlankNameRefused(form.State(), id);
    blank, countAfterBlank := o.message, |screen.rules|;
    form.name := "Merit Rule";
    o := form.HandleSubmit(id);
    NamedRuleCreated(form.State(), id);
    last := o.calls[0].rule;
    assert last == BuildRule(form.State(), id);
    assert last.marksAwarded == MarksAwarded(PaperMarks(true, 100, 50), PaperMarks(true, 75, 40));
    screen.Receive(o.calls[0]);
    screen.Receive(o.calls[1]);
    named, countAfterNamed, openAfter := o.message, |screen.rules|, screen.isFormOpen;
    lastStored := screen.rules[|screen.rules| - 1];
  }
}
