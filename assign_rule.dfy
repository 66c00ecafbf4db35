/**
 * The applications screen (src/components/AssignRule.tsx): the in-memory
 * application collection, seeded from the mock applications, whose `rules`
 * list one editing session may replace, and the per-row count of assigned
 * rules.
 */
module AssignRule {
  import opened Types
  import MockData
  import opened AssignRuleForm

  /**
   * `applications.map(app => app.id === id ? { ...app, rules } : app)`: the
   * collection keeps its length and order, every application keeps its id, name
   * and events, the ones with the given id get `rules`, and the others are
   * left exactly as they were.
   */
  function ReplaceRules(apps: seq<Application>, id: ApplicationId, rules: seq<Assignment>): (r: seq<Application>)
    ensures |r| == |apps|
    ensures forall i | 0 <= i < |r| ::
              r[i].id == apps[i].id && r[i].name == apps[i].name && r[i].events == apps[i].events
    ensures forall i | 0 <= i < |r| :: apps[i].id == id ==> r[i].rules == rules
    ensures forall i | 0 <= i < |r| :: apps[i].id != id ==> r[i] == apps[i]
  {
    if apps == [] then []
    else
      var app := apps[0];
      [if app.id == id then app.(rules := rules) else app] + ReplaceRules(apps[1..], id, rules)
  }

  /** When no application has the given id, the collection is unchanged. */
  lemma ReplaceRulesUnknownId(apps: seq<Application>, id: ApplicationId, rules: seq<Assignment>)
    requires forall i | 0 <= i < |apps| :: apps[i].id != id
    ensures ReplaceRules(apps, id, rules) == apps
  {
  }

  /** Saving the same list twice is the same as saving it once. */
  lemma ReplaceRulesIdempotent(apps: seq<Application>, id: ApplicationId, rules: seq<Assignment>)
    ensures ReplaceRules(ReplaceRules(apps, id, rules), id, rules) == ReplaceRules(apps, id, rules)
  {
  }

  /** `rules.filter(rule => rule.ruleId !== null)`: the entries that have a rule, and no other entry. */
  function AssignedRules(rules: seq<Assignment>): (r: seq<Assignment>)
    ensures |r| <= |rules|
    ensures forall a | a in r :: a in rules && a.ruleId.Some?
    ensures forall a | a in rules && a.ruleId.Some? :: a in r
  {
    if rules == [] then []
    else if rules[0].ruleId.Some? then [rules[0]] + AssignedRules(rules[1..])
    else AssignedRules(rules[1..])
  }

  /**
   * The "n assigned" badge: the number of positions of `rules` whose entry has
   * a rule. So it is at most the number of entries, equal to it exactly when
   * every entry has a rule and zero exactly when none has.
   */
  function AssignedRulesCount(rules: seq<Assignment>): (n: nat)
    ensures n == |set i: nat | i < |rules| && rules[i].ruleId.Some?|
    ensures n <= |rules|
    ensures n == |rules| <==> forall i | 0 <= i < |rules| :: rules[i].ruleId.Some?
    ensures n == 0 <==> forall i | 0 <= i < |rules| :: rules[i].ruleId.None?
  {
    AssignedRulesCountFacts(rules);
    AssignedIndicesCount(rules, 0);
    assert rules[0..] == rules;
    assert AssignedIndices(rules, 0) == set i: nat | i < |rules| && rules[i].ruleId.Some?;
    |AssignedRules(rules)|
  }

  /** The filter keeps every entry that has a rule as often as `rules` holds it, and drops every other entry. */
  lemma {:induction false} AssignedRulesMultiplicity(rules: seq<Assignment>, a: Assignment)
    ensures multiset(AssignedRules(rules))[a] == if a.ruleId.Some? then multiset(rules)[a] else 0
  {
    if rules != [] {
      AssignedRulesMultiplicity(rules[1..], a);
      assert rules == [rules[0]] + rules[1..];
    }
  }

  /** The positions from `lo` on whose entry has a rule. */
  function AssignedIndices(rules: seq<Assignment>, lo: nat): set<nat> {
    set i: nat | lo <= i < |rules| && rules[i].ruleId.Some?
  }

  /** The entries with a rule from position `lo` on are as many as the filter keeps of `rules[lo..]`. */
  lemma {:induction false} AssignedIndicesCount(rules: seq<Assignment>, lo: nat)
    requires lo <= |rules|
    ensures |AssignedIndices(rules, lo)| == |AssignedRules(rules[lo..])|
    decreases |rules| - lo
  {
    if lo == |rules| {
      assert AssignedIndices(rules, lo) == {};
    } else {
      AssignedIndicesCount(rules, lo + 1);
      var here, later := AssignedIndices(rules, lo), AssignedIndices(rules, lo + 1);
      assert rules[lo..][1..] == rules[lo + 1..];
      assert lo !in later;
      if rules[lo].ruleId.Some? {
        assert here == later + {lo};
      } else {
        assert here == later;
      }
    }
  }

  lemma {:induction false} AssignedRulesCountFacts(rules: seq<Assignment>)
    ensures |AssignedRules(rules)| == |rules| <==> forall i | 0 <= i < |rules| :: rules[i].ruleId.Some?
    ensures |AssignedRules(rules)| == 0 <==> forall i | 0 <= i < |rules| :: rules[i].ruleId.None?
  {
    if rules != [] {
      var t := rules[1..];
      AssignedRulesCountFacts(t);
      assert forall i | 1 <= i < |rules| :: rules[i] == t[i - 1];
      if forall i | 0 <= i < |t| :: t[i].ruleId.Some? {
        assert forall i | 0 <= i < |rules| :: i == 0 || rules[i].ruleId.Some?;
      }
      if forall i | 0 <= i < |t| :: t[i].ruleId.None? {
        assert forall i | 0 <= i < |rules| :: i == 0 || rules[i].ruleId.None?;
      }
    }
  }

  /** Every seed application stores one assignment per event and none for anything else. */
  lemma SeedRulesCoverOnlyEvents()
    ensures forall i | 0 <= i < |MockData.MockApplications| :: RulesCoverOnlyEvents(MockData.MockApplications[i])
  {
    forall i | 0 <= i < |MockData.MockApplications|
      ensures RulesCoverOnlyEvents(MockData.MockApplications[i])
    {
      var app := MockData.MockApplications[i];
      forall j | 0 <= j < |app.rules| ensures app.rules[j].eventId in EventIds(app.events) {
        assert app.rules[j].eventId == EventIds(app.events)[j];
      }
    }
  }

  /** After a commit with every event saved, the committed application's badge counts every one of its entries. */
  lemma CommitAssignsEveryEntry(app: Application, drafts: map<EventId, Draft>, saved: seq<EventId>)
    requires SessionInvariant(app.events, drafts, saved)
    requires |saved| == |app.events|
    requires RulesCoverOnlyEvents(app)
    ensures AssignedRulesCount(UpdatedRules(app.rules, drafts)) == |app.rules|
  {
    CommitCopiesLockedDrafts(app, drafts, saved);
  }

  class ApplicationsScreen {
    var applications: seq<Application>
    var selectedApplication: Option<Application>
    var isFormOpen: bool

    /** The screen starts with the three seed applications, none selected, the editor closed. */
    constructor ()
      ensures applications == MockData.MockApplications
      ensures selectedApplication == None && !isFormOpen
    {
      applications := MockData.MockApplications;
      selectedApplication := None;
      isFormOpen := false;
    }

    /** "Assign Rules" on a row selects that application and opens the editor. */
    method HandleOpenForm(app: Application)
      requires app in applications
      modifies this
      ensures selectedApplication == Some(app) && isFormOpen
      ensures applications == old(applications)
    {
      selectedApplication := Some(app);
      isFormOpen := true;
    }

    /** The editor's `onSave`: replaces the rules of the application with this id, and nothing else. */
    method HandleSaveAssignments(applicationId: ApplicationId, updatedRules: seq<Assignment>)
      modifies this
      ensures applications == ReplaceRules(old(applications), applicationId, updatedRules)
      ensures selectedApplication == old(selectedApplication) && isFormOpen == old(isFormOpen)
    {
      applications := ReplaceRules(applications, applicationId, updatedRules);
    }

    /** The editor's `onClose`: closes the sheet; the applications stay as they are. */
    method HandleClose()
      modifies this
      ensures !isFormOpen
      ensures applications == old(applications) && selectedApplication == old(selectedApplication)
    {
      isFormOpen := false;
    }

    /** Runs one call of the editor against the callbacks this screen wires to it. */
    method Receive(call: SessionCall)
      modifies this
      ensures call.OnSave? ==>
                applications == ReplaceRules(old(applications), call.applicationId, call.updatedRules)
                && isFormOpen == old(isFormOpen)
      ensures call.OnClose? ==> applications == old(applications) && !isFormOpen
      ensures selectedApplication == old(selectedApplication)
    {
      match call
      case OnSave(id, rules) => HandleSaveAssignments(id, rules);
      case OnClose => HandleClose();
    }
  }

  /** One fully filled-in event of the seed scenario. */
  function Filled(eventId: EventId, ruleId: RuleId): Assignment {
    Assignment(eventId, Some(ruleId), Some("2023-01-01"), Some("2023-06-01"))
  }

  /** Fills in and saves one event of a session, asserting each step. */
  method FillAndSave(session: AssignmentSession, e: EventId, ruleId: RuleId) returns (o: SaveOutcome)
    requires session.Valid() && session.IsEvent(e) && !session.IsSaved(e)
    requires ruleId != ""
    modifies session
    ensures session.Valid()
    ensures o == Saved
    ensures session.savedEvents == old(session.savedEvents) + [e]
    ensures session.formData == old(session.formData)[e := Draft(Some(ruleId), Some("2023-01-01"), Some("2023-06-01"))]
  {
    session.HandleRuleChange(e, Some(ruleId));
    session.HandleFromDateChange(e, Some("2023-01-01"));
    session.HandleToDateChange(e, Some("2023-06-01"));
    o := session.HandleSaveEvent(e);
  }

  /** The drafts of APP001 once all three events are filled in. */
  function App001Filled(): map<EventId, Draft> {
    map["event1" := EmptyDraft, "event2" := EmptyDraft, "event3" := EmptyDraft]
      ["event1" := DraftOf(Filled("event1", "1"))]
      ["event2" := DraftOf(Filled("event2", "2"))]
      ["event3" := DraftOf(Filled("event3", "3"))]
  }

  /** The seed collection after APP001 is committed with its three filled-in events. */
  lemma App001CommitResult()
    ensures UpdatedRules(MockData.App001.rules, App001Filled())
            == [Filled("event1", "1"), Filled("event2", "2"), Filled("event3", "3")]
    ensures ReplaceRules(MockData.MockApplications, "APP001",
                         [Filled("event1", "1"), Filled("event2", "2"), Filled("event3", "3")])
            == [MockData.App001.(rules := [Filled("event1", "1"), Filled("event2", "2"), Filled("event3", "3")]),
                MockData.App002, MockData.App003]
  {
  }

  /**
   * APP001 with its three unassigned events: after saving only event1 "Save All"
   * is still disabled; after saving all three, committing replaces APP001's list
   * with the three saved tuples, leaves APP002 and APP003 alone, and closes
   * the editor.
   */
  method CommitApp001Scenario() returns (enabledAfterOne: bool, enabledAfterAll: bool, apps: seq<Application>)
    ensures !enabledAfterOne && enabledAfterAll
    ensures apps == [MockData.App001.(rules := [Filled("event1", "1"), Filled("event2", "2"), Filled("event3", "3")]),
                     MockData.App002, MockData.App003]
  {
    var screen := new ApplicationsScreen();
    screen.HandleOpenForm(MockData.App001);
    var session := new AssignmentSession(MockData.App001);
    assert EventIds(MockData.App001.events) == ["event1", "event2", "event3"];
    assert session.formData == map["event1" := EmptyDraft, "event2" := EmptyDraft, "event3" := EmptyDraft];
    var o := FillAndSave(session, "event1", "1");
    enabledAfterOne := session.SaveAllEnabled();
    o := FillAndSave(session, "event2", "2");
    o := FillAndSave(session, "event3", "3");
    assert session.formData == App001Filled();
    enabledAfterAll := session.SaveAllEnabled();
    var calls := session.HandleSaveAll();
    App001CommitResult();
    screen.Receive(calls[0]);
    screen.Receive(calls[1]);
    apps := screen.applications;
  }

  /** Editing drafts and then cancelling leaves the stored applications exactly as seeded. */
  method CancelApp002Scenario() returns (apps: seq<Application>)
    ensures apps == MockData.MockApplications
  {
    var screen := new ApplicationsScreen();
    screen.HandleOpenForm(MockData.App002);
    var session := new AssignmentSession(MockData.App002);
    assert EventIds(MockData.App002.events) == ["event4", "event5"];
    var o := FillAndSave(session, "event4", "4");
    session.HandleRuleChange("event5", Some("1"));
    var calls := session.HandleClose();
    screen.Receive(calls[0]);
    apps := screen.applications;
  }
}
