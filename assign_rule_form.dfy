/**
 * The assignment editor (src/components/AssignRuleForm.tsx): one editing
 * session over one application. The session keeps a draft per event id and
 * the list of events already saved ("locked"). The controls of a saved event
 * are disabled, and "Save All" is disabled until as many events are saved as
 * the application has; those guards are the preconditions of the handlers.
 * The `onSave` and `onClose` callbacks are returned as a list of calls in the
 * order the editor makes them; the toast messages are an outcome value.
 */
module AssignRuleForm {
  import opened Types
  import opened Seqs

  /** A date as the date picker hands it over after formatting: an opaque, non-empty string. */
  type DateString = s: string | s != [] witness "2023-01-01"

  /** What the editor reads for a field of an event that has no draft at all. */
  const EmptyDraft: Draft := Draft(None, None, None)

  /** The draft the editor starts from for one stored assignment. */
  function DraftOf(a: Assignment): Draft {
    Draft(a.ruleId, a.fromDate, a.toDate)
  }

  /** `formData[eventId]`, where reading a field of a missing draft gives `undefined`, which the editor treats as null. */
  function LookupDraft(drafts: map<EventId, Draft>, e: EventId): Draft {
    if e in drafts then drafts[e] else EmptyDraft
  }

  /** A draft whose rule, from-date and to-date are all filled in. */
  predicate Complete(d: Draft) {
    Present(d.ruleId) && Present(d.fromDate) && Present(d.toDate)
  }

  // ---------------------------------------------------------------------------
  // The initial drafts

  /**
   * The drafts built from the stored assignments, entry by entry in order, so
   * that a later entry for the same event id replaces an earlier one. There is
   * a draft for exactly the event ids that appear in the assignments.
   */
  function DraftsOf(rules: seq<Assignment>): (m: map<EventId, Draft>)
    ensures m.Keys == set a | a in rules :: a.eventId
  {
    if rules == [] then map[]
    else
      var last := rules[|rules| - 1];
      var m := DraftsOf(rules[..|rules| - 1])[last.eventId := DraftOf(last)];
      assert rules == rules[..|rules| - 1] + [last];
      m
  }

  /** An event's initial draft comes from the last stored entry with its id. */
  lemma {:induction false} DraftsOfLastEntry(rules: seq<Assignment>, i: nat)
    requires i < |rules|
    requires forall j | i < j < |rules| :: rules[j].eventId != rules[i].eventId
    ensures rules[i].eventId in DraftsOf(rules)
    ensures DraftsOf(rules)[rules[i].eventId] == DraftOf(rules[i])
  {
    if i < |rules| - 1 {
      var init := rules[..|rules| - 1];
      assert init[i] == rules[i];
      DraftsOfLastEntry(init, i);
    }
  }

  /** With one entry per event id, every entry's draft is that entry's rule and dates. */
  lemma DraftsOfDistinct(rules: seq<Assignment>, i: nat)
    requires NoDuplicates(EventIdsOf(rules))
    requires i < |rules|
    ensures rules[i].eventId in DraftsOf(rules)
    ensures DraftsOf(rules)[rules[i].eventId] == DraftOf(rules[i])
  {
    var ids := EventIdsOf(rules);
    forall j | i < j < |rules| ensures rules[j].eventId != rules[i].eventId {
      assert ids[i] == rules[i].eventId && ids[j] == rules[j].eventId;
    }
    DraftsOfLastEntry(rules, i);
  }

  function EventIdsOf(rules: seq<Assignment>): (ids: seq<EventId>)
    ensures |ids| == |rules|
    ensures forall i | 0 <= i < |rules| :: ids[i] == rules[i].eventId
  {
    seq(|rules|, i requires 0 <= i < |rules| => rules[i].eventId)
  }

  /** The initialiser of the drafts: walks the stored assignments and records each one's draft under its event id. */
  method InitialFormData(rules: seq<Assignment>) returns (initialData: map<EventId, Draft>)
    ensures initialData == DraftsOf(rules)
  {
    initialData := map[];
    var i := 0;
    while i < |rules|
      invariant 0 <= i <= |rules|
      invariant initialData == DraftsOf(rules[..i])
    {
      assert rules[..i + 1][..i] == rules[..i];
      initialData := initialData[rules[i].eventId := DraftOf(rules[i])];
      i := i + 1;
    }
    assert rules[..|rules|] == rules;
  }

  // ---------------------------------------------------------------------------
  // Saving one event

  /** The result of "Save" on one event: saved, the first missing field, or (with no draft at all) the `TypeError` the handler throws. */
  datatype SaveOutcome = Saved | MissingRule | MissingFromDate | MissingToDate | DraftUndefined

  /**
   * The checks of "Save", in their order: rule, then from-date, then to-date.
   * The event is saved exactly when its draft has all three.
   */
  function CheckDraft(drafts: map<EventId, Draft>, e: EventId): (o: SaveOutcome)
    ensures o == Saved <==> e in drafts && Complete(drafts[e])
    ensures o == DraftUndefined <==> e !in drafts
    ensures o == MissingRule <==> e in drafts && !Present(drafts[e].ruleId)
    ensures o == MissingFromDate <==>
              e in drafts && Present(drafts[e].ruleId) && !Present(drafts[e].fromDate)
    ensures o == MissingToDate <==>
              e in drafts && Present(drafts[e].ruleId) && Present(drafts[e].fromDate) && !Present(drafts[e].toDate)
  {
    if e !in drafts then DraftUndefined
    else
      var d := drafts[e];
      if !Present(d.ruleId) then MissingRule
      else if !Present(d.fromDate) then MissingFromDate
      else if !Present(d.toDate) then MissingToDate
      else Saved
  }

  // ---------------------------------------------------------------------------
  // Saving all events

  /** An emitted field agrees with the draft's: set exactly when the draft's is filled in, and then equal to it. */
  predicate Agrees(emitted: Option<string>, draft: Option<string>) {
    (emitted.Some? <==> Present(draft)) && (emitted.Some? ==> emitted == draft)
  }

  /**
   * The assignment list "Save All" hands over: one entry per stored entry, in
   * the same order and for the same event, each field taken from the event's
   * draft with a missing or empty value emitted as null.
   */
  function UpdatedRules(rules: seq<Assignment>, drafts: map<EventId, Draft>): (r: seq<Assignment>)
    ensures |r| == |rules|
    ensures forall i | 0 <= i < |r| :: r[i].eventId == rules[i].eventId
    ensures forall i | 0 <= i < |r| ::
              && Agrees(r[i].ruleId, LookupDraft(drafts, rules[i].eventId).ruleId)
              && Agrees(r[i].fromDate, LookupDraft(drafts, rules[i].eventId).fromDate)
              && Agrees(r[i].toDate, LookupDraft(drafts, rules[i].eventId).toDate)
  {
    seq(|rules|, i requires 0 <= i < |rules| =>
      var d := LookupDraft(drafts, rules[i].eventId);
      Assignment(rules[i].eventId, NullIfEmpty(d.ruleId), NullIfEmpty(d.fromDate), NullIfEmpty(d.toDate)))
  }

  /** The state the session keeps: saved events are distinct events of the application, each with a complete draft. */
  ghost predicate SessionInvariant(events: seq<Event>, drafts: map<EventId, Draft>, saved: seq<EventId>) {
    && NoDuplicates(saved)
    && (forall i | 0 <= i < |saved| :: saved[i] in EventIds(events))
    && (forall i | 0 <= i < |saved| :: saved[i] in drafts && Complete(drafts[saved[i]]))
  }

  /** Every stored assignment belongs to one of the application's events (true of every seed application). */
  ghost predicate RulesCoverOnlyEvents(app: Application) {
    forall i | 0 <= i < |app.rules| :: app.rules[i].eventId in EventIds(app.events)
  }

  /**
   * The exact copy needs every stored assignment to belong to an event: a stored
   * entry for an id that is not an event keeps its draft, which can hold "" as
   * its rule, and `|| null` emits that as null although "Save All" is enabled.
   */
  lemma StrayEntryEmittedAsNull()
    ensures var app := Application("A", "n", [], [Assignment("x", Some(""), None, None)]);
            var drafts := DraftsOf(app.rules);
            && SessionInvariant(app.events, drafts, [])
            && |app.events| == 0
            && !RulesCoverOnlyEvents(app)
            && drafts["x"].ruleId == Some("")
            && UpdatedRules(app.rules, drafts)[0].ruleId == None
  {
    var app := Application("A", "n", [], [Assignment("x", Some(""), None, None)]);
    assert app.rules[0].eventId !in EventIds(app.events);
  }

  /**
   * "Save All" maps over the stored assignments only: an event with no stored
   * entry gets none in the emitted list, even once its draft is complete and saved.
   */
  lemma UnstoredEventLeftOut(rules: seq<Assignment>, drafts: map<EventId, Draft>, e: EventId)
    requires forall i | 0 <= i < |rules| :: rules[i].eventId != e
    ensures forall i | 0 <= i < |UpdatedRules(rules, drafts)| :: UpdatedRules(rules, drafts)[i].eventId != e
  {
  }

  /**
   * The "Save All" guard compares only lengths, yet once it is open every event
   * is saved; it can open only when the application's event ids are distinct.
   */
  lemma AllSavedWhenSaveAllEnabled(events: seq<Event>, drafts: map<EventId, Draft>, saved: seq<EventId>)
    requires SessionInvariant(events, drafts, saved)
    requires |saved| == |events|
    ensures forall i | 0 <= i < |events| :: events[i].id in saved
    ensures NoDuplicates(EventIds(events))
  {
    FullDistinctSublistCovers(saved, EventIds(events));
    forall i | 0 <= i < |events| ensures events[i].id in saved {
      assert EventIds(events)[i] == events[i].id;
    }
  }

  /** With distinct event ids the guard is exact: "Save All" is enabled if and only if every event is saved. */
  lemma SaveAllEnabledIffAllSaved(events: seq<Event>, drafts: map<EventId, Draft>, saved: seq<EventId>)
    requires SessionInvariant(events, drafts, saved)
    requires NoDuplicates(EventIds(events))
    ensures |saved| == |events| <==> forall i | 0 <= i < |events| :: events[i].id in saved
  {
    if forall i | 0 <= i < |events| :: events[i].id in saved {
      forall i | 0 <= i < |EventIds(events)| ensures EventIds(events)[i] in saved {
        assert EventIds(events)[i] == events[i].id;
      }
      CoveringDistinctSublistIsFull(saved, EventIds(events));
    } else if |saved| == |events| {
      AllSavedWhenSaveAllEnabled(events, drafts, saved);
    }
  }

  /**
   * Once every event is saved, "Save All" hands over exactly the drafts: each
   * entry carries its event's rule and dates, none of them null.
   */
  lemma CommitCopiesLockedDrafts(app: Application, drafts: map<EventId, Draft>, saved: seq<EventId>)
    requires SessionInvariant(app.events, drafts, saved)
    requires |saved| == |app.events|
    requires RulesCoverOnlyEvents(app)
    ensures forall i | 0 <= i < |app.rules| ::
              var e := app.rules[i].eventId;
              && e in drafts && Complete(drafts[e])
              && UpdatedRules(app.rules, drafts)[i]
                 == Assignment(e, drafts[e].ruleId, drafts[e].fromDate, drafts[e].toDate)
  {
    AllSavedWhenSaveAllEnabled(app.events, drafts, saved);
    var r := UpdatedRules(app.rules, drafts);
    forall i | 0 <= i < |app.rules|
      ensures var e := app.rules[i].eventId;
              && e in drafts && Complete(drafts[e])
              && r[i] == Assignment(e, drafts[e].ruleId, drafts[e].fromDate, drafts[e].toDate)
    {
      var e := app.rules[i].eventId;
      var k :| 0 <= k < |app.events| && EventIds(app.events)[k] == e;
      assert app.events[k].id in saved;
      var j :| 0 <= j < |saved| && saved[j] == e;
      assert e in drafts && Complete(drafts[e]);
    }
  }

  // ---------------------------------------------------------------------------
  // The session

  /** A call the editor makes to its parent. */
  datatype SessionCall = OnSave(applicationId: ApplicationId, updatedRules: seq<Assignment>) | OnClose

  /** The stored form of a picked date: null when the picker is cleared. */
  function DateField(date: Option<DateString>): (f: Option<string>)
    ensures date.None? ==> f == None
    ensures date.Some? ==> Present(f) && f.value == date.value
  {
    if date.Some? then Some(date.value) else None
  }

  /** Drafts that are the same as before for every event in `locked` that had one. */
  ghost predicate KeepsLocked(before: map<EventId, Draft>, after: map<EventId, Draft>, locked: seq<EventId>) {
    forall e | e in locked && e in before :: e in after && after[e] == before[e]
  }

  class AssignmentSession {
    const application: Application
    var formData: map<EventId, Draft>
    var savedEvents: seq<EventId>

    ghost predicate Valid()
      reads this
    {
      SessionInvariant(application.events, formData, savedEvents)
    }

    /** `savedEvents.includes(eventId)`: the event's controls are disabled. */
    predicate IsSaved(e: EventId)
      reads this
    {
      e in savedEvents
    }

    /** The events the editor renders a row, and so a Save button, for. */
    predicate IsEvent(e: EventId)
      reads this
    {
      e in EventIds(application.events)
    }

    /** The "Save All" button is enabled. */
    predicate SaveAllEnabled()
      reads this
    {
      |savedEvents| == |application.events|
    }

    /** A session opens with one draft per stored assignment and nothing saved. */
    constructor (application: Application)
      ensures this.application == application
      ensures formData == DraftsOf(application.rules)
      ensures savedEvents == []
      ensures Valid()
    {
      this.application := application;
      var initialData := InitialFormData(application.rules);
      formData := initialData;
      savedEvents := [];
    }

    /** Sets the rule of `e`'s draft; every other field and every other draft stays as it was. */
    method HandleRuleChange(e: EventId, ruleId: Option<RuleId>)
      requires Valid() && !IsSaved(e)
      modifies this
      ensures Valid() && savedEvents == old(savedEvents)
      ensures formData == old(formData)[e := LookupDraft(old(formData), e).(ruleId := ruleId)]
      ensures formData.Keys == old(formData).Keys + {e}
      ensures forall k | k in old(formData) && k != e :: formData[k] == old(formData)[k]
      ensures formData[e].fromDate == LookupDraft(old(formData), e).fromDate
      ensures formData[e].toDate == LookupDraft(old(formData), e).toDate
      ensures KeepsLocked(old(formData), formData, savedEvents)
    {
      formData := formData[e := LookupDraft(formData, e).(ruleId := ruleId)];
    }

    /** Sets the from-date of `e`'s draft (null when the picker is cleared); nothing else changes. */
    method HandleFromDateChange(e: EventId, date: Option<DateString>)
      requires Valid() && !IsSaved(e)
      modifies this
      ensures Valid() && savedEvents == old(savedEvents)
      ensures formData == old(formData)[e := LookupDraft(old(formData), e).(fromDate := DateField(date))]
      ensures formData.Keys == old(formData).Keys + {e}
      ensures forall k | k in old(formData) && k != e :: formData[k] == old(formData)[k]
      ensures formData[e].ruleId == LookupDraft(old(formData), e).ruleId
      ensures formData[e].toDate == LookupDraft(old(formData), e).toDate
      ensures date.None? ==> formData[e].fromDate == None
      ensures date.Some? ==> Present(formData[e].fromDate)
      ensures KeepsLocked(old(formData), formData, savedEvents)
    {
      formData := formData[e := LookupDraft(formData, e).(fromDate := DateField(date))];
    }

    /** Sets the to-date of `e`'s draft (null when the picker is cleared); nothing else changes. */
    method HandleToDateChange(e: EventId, date: Option<DateString>)
      requires Valid() && !IsSaved(e)
      modifies this
      ensures Valid() && savedEvents == old(savedEvents)
      ensures formData == old(formData)[e := LookupDraft(old(formData), e).(toDate := DateField(date))]
      ensures formData.Keys == old(formData).Keys + {e}
      ensures forall k | k in old(formData) && k != e :: formData[k] == old(formData)[k]
      ensures formData[e].ruleId == LookupDraft(old(formData), e).ruleId
      ensures formData[e].fromDate == LookupDraft(old(formData), e).fromDate
      ensures date.None? ==> formData[e].toDate == None
      ensures date.Some? ==> Present(formData[e].toDate)
      ensures KeepsLocked(old(formData), formData, savedEvents)
    {
      formData := formData[e := LookupDraft(formData, e).(toDate := DateField(date))];
    }

    /**
     * "Save" on one event: on success `e` is appended to the saved events, on
     * any failure they stay as they were; the drafts never change.
     */
    method HandleSaveEvent(e: EventId) returns (o: SaveOutcome)
      requires Valid() && IsEvent(e) && !IsSaved(e)
      modifies this
      ensures Valid() && formData == old(formData)
      ensures o == CheckDraft(old(formData), e)
      ensures o == Saved ==> savedEvents == old(savedEvents) + [e]
      ensures o != Saved ==> savedEvents == old(savedEvents)
    {
      if e !in formData {
        return DraftUndefined;
      }
      var eventData := formData[e];
      if !Present(eventData.ruleId) {
        return MissingRule;
      }
      if !Present(eventData.fromDate) {
        return MissingFromDate;
      }
      if !Present(eventData.toDate) {
        return MissingToDate;
      }
      savedEvents := savedEvents + [e];
      o := Saved;
    }

    /**
     * "Save All": hands the application's id and the updated assignment list to
     * `onSave`, then calls `onClose`. Every event is saved by then, and when every
     * stored assignment belongs to an event, the list is exactly the drafts.
     */
    method HandleSaveAll() returns (calls: seq<SessionCall>)
      requires Valid() && SaveAllEnabled()
      ensures calls == [OnSave(application.id, UpdatedRules(application.rules, formData)), OnClose]
      ensures forall i | 0 <= i < |application.events| :: application.events[i].id in savedEvents
      ensures RulesCoverOnlyEvents(application) ==>
                forall i | 0 <= i < |application.rules| ::
                  var e := application.rules[i].eventId;
                  && e in formData && Complete(formData[e])
                  && calls[0].updatedRules[i]
                     == Assignment(e, formData[e].ruleId, formData[e].fromDate, formData[e].toDate)
    {
      AllSavedWhenSaveAllEnabled(application.events, formData, savedEvents);
      if RulesCoverOnlyEvents(application) {
        CommitCopiesLockedDrafts(application, formData, savedEvents);
      }
      var updatedRules := UpdatedRules(application.rules, formData);
      calls := [OnSave(application.id, updatedRules), OnClose];
    }

    /** The close icon and "Cancel": only `onClose` is called, never `onSave`. */
    method HandleClose() returns (calls: seq<SessionCall>)
      ensures calls == [OnClose]
    {
      calls := [OnClose];
    }
  }
}
