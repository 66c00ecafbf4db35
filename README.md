# Grace-mark rules: a verified model of the rule builder and the assignment editor

This browser tool lets an administrator do two things:

- define grace-mark rules (exam score adjustments) on one screen;
- assign those rules, each with a validity window, to the events of exam applications on another.

All state lives in memory, seeded from a mock data file. This project models the logic under the two screens and proves its contracts in Dafny:

- **Rule builder** (`CreateRuleForm`, `CreateRule`). The form's fields start at fixed defaults. Submitting refuses a name that is empty or only whitespace. Otherwise it builds a `Rule` record field by field, hands it to the screen, and closes. The screen appends it to its rule list.
- **Assignment editor** (`AssignRuleForm`). One editing session per application keeps two things:
  - a draft `{ruleId, fromDate, toDate}` per event id;
  - the list of events already saved ("locked").

  Handlers edit one field of one draft. "Save" checks rule, from-date and to-date in that order and locks the event. "Save All" hands the whole assignment list to the parent. The UI's `disabled` flags are the handlers' preconditions: a saved event's controls are disabled, and "Save All" is disabled unless as many events are saved as the application has.
- **Applications screen** (`AssignRule`). `onSave` replaces the `rules` list of the one application whose id matches. Each row shows a badge with the number of assignments that have a rule.

The callbacks (`onSave`, `onClose`, `onCreateRule`) are returned as lists of calls, in the order the components make them. The receiving screen's `Receive` method runs them. Toast messages are outcome values (`SaveOutcome`, `FormMessage`).

Files:

- `types.dfy`: the records of `src/types/index.ts`.
- `js_strings.dfy`: JavaScript's `trim`.
- `seqs.dfy`: distinct-list and cardinality lemmas.
- `mock_data.dfy`: the seed data.
- One file per component: `create_rule_form.dfy`, `create_rule.dfy`, `assign_rule_form.dfy`, `assign_rule.dfy`.

On these points the code's behaviour is easy to misread; the model follows the code:

- "Filled in" means truthy. An empty string fails "Save" just like `null` does (`Types.Present`).
- "Save All" does not copy the drafts verbatim. Each field goes through `|| null`, so an empty or missing value is emitted as `null`. Once every event is saved this makes no difference when every stored assignment belongs to one of the application's events, which `AssignRuleForm.CommitCopiesLockedDrafts` proves. This holds for every seed application (`AssignRule.SeedRulesCoverOnlyEvents`). A stored entry for an id that is not an event is never saved, and an empty rule in its draft is emitted as `null` even with "Save All" enabled (`AssignRuleForm.StrayEntryEmittedAsNull`).
- "Save All" maps over the stored assignments only. An event with no stored entry can still be edited, saved and counted towards the guard, but it gets no entry in the emitted list (`AssignRuleForm.UnstoredEventLeftOut`).
- The "Save All" guard compares counts (`savedEvents.length` against `events.length`), not the set of saved events. Under the other disabled guards the count comparison implies that every event is saved. This holds even when event ids repeat, because the guard can then never open.
- "Save" on an event that has no draft throws a `TypeError` in the source. This happens only while the event is missing from the application's stored `rules` and none of its fields has been edited yet, since the first edit creates a draft (src/components/AssignRuleForm.tsx:39-45). The model reports it as the outcome `DraftUndefined` and changes nothing.
- Editing an event with no draft creates a draft whose other fields read as unset. The source spreads `undefined`, which leaves those fields `undefined`, and every read treats that like `null`.
- A rule's id is whatever the id generator returns. Nothing in the code makes it distinct from existing ids.

## Model

| member | source | states |
|---|---|---|
| Types.NullIfEmpty | src/components/AssignRuleForm.tsx:93-95 | `x \|\| null` gives a value exactly when `x` is filled in (non-null, non-empty), and then gives `x` itself |
| JsStrings.TrimStart | src/components/CreateRuleForm.tsx:41 | the result is a suffix of the input, everything dropped is whitespace, and it does not start with whitespace |
| JsStrings.TrimEnd | src/components/CreateRuleForm.tsx:41 | the result is a prefix of the input, everything dropped is whitespace, and it does not end with whitespace |
| JsStrings.Trim | src/components/CreateRuleForm.tsx:41 | `trim()` is empty exactly when every character is ECMAScript whitespace or a line terminator; otherwise it starts and ends with a non-whitespace character |
| CreateRuleForm.BuildRule | src/components/CreateRuleForm.tsx:46-72 | the built rule carries the generated id, and reading its fields back gives exactly the form's values: untrimmed name, and the numbers of disabled sections too |
| CreateRuleForm.BuildRuleFromOwnFields | src/components/CreateRuleForm.tsx:46-72 | rebuilding a rule from its own fields and id gives the same rule, so the record construction loses nothing |
| CreateRuleForm.Submit | src/components/CreateRuleForm.tsx:38-77 | the name message is shown iff the name is all whitespace, and then no callback runs; otherwise `onCreateRule` runs once with the built rule, then `onClose` |
| CreateRuleForm.NoCheckBeyondName | src/components/CreateRuleForm.tsx:41-72 | once a name is not blank, every form with that name is accepted, whatever the other fields hold (theory and practical both off, a maximum mark below the cap), and the built rule keeps the untrimmed name |
| CreateRuleForm.RuleForm.constructor | src/components/CreateRuleForm.tsx:20-36 | the form opens with empty name and description, theory off and practical on, percentage and max, pass paper on with 100/50, supplementary paper on with 75/40, subject limit off at 0 |
| CreateRuleForm.RuleForm.HandleSubmit | src/components/CreateRuleForm.tsx:38-77 | the submit handler's outcome and calls are those of `Submit` on the current field values |
| CreateRule.RulesScreen.constructor | src/components/CreateRule.tsx:13-14 | the rule list starts as the four seed rules and the form is closed |
| CreateRule.RulesScreen.HandleOpenForm | src/components/CreateRule.tsx:24 | "Create New Rule" opens the form and leaves the rules alone |
| CreateRule.RulesScreen.HandleCreateRule | src/components/CreateRule.tsx:16-18 | the list grows by one, the old rules stay in front in their order, and the new rule is last |
| CreateRule.RulesScreen.HandleClose | src/components/CreateRule.tsx:52 | the form's `onClose` closes the sheet and leaves the rules alone |
| CreateRule.RulesScreen.Receive | src/components/CreateRule.tsx:49-52 | `onCreateRule` appends the rule; `onClose` only closes |
| CreateRule.BlankNameRefused | src/components/CreateRuleForm.tsx:41-44 | a name of two spaces trims to nothing, so the submit shows the name message and calls neither `onCreateRule` nor `onClose` |
| CreateRule.NamedRuleCreated | src/components/CreateRuleForm.tsx:41-77 | the name "Merit Rule" passes the check, so the submit calls `onCreateRule` with the rule built from the fields and then `onClose` |
| CreateRule.SubmitScenario | src/components/CreateRuleForm.tsx:38-77 | on the seeded screen a name of two spaces adds no fifth rule and reports the name message; "Merit Rule" becomes the fifth rule, built from the defaults |
| AssignRuleForm.DraftsOf | src/components/AssignRuleForm.tsx:24-34 | the initial drafts have a key for exactly the event ids in the application's stored assignments |
| AssignRuleForm.DraftsOfLastEntry | src/components/AssignRuleForm.tsx:26-32 | an event's initial draft is the rule and dates of the last stored entry with its id |
| AssignRuleForm.DraftsOfDistinct | src/components/AssignRuleForm.tsx:26-32 | with one stored entry per event id, each event's initial draft is that entry's `{ruleId, fromDate, toDate}` |
| AssignRuleForm.InitialFormData | src/components/AssignRuleForm.tsx:24-34 | the `forEach` initialiser produces exactly `DraftsOf` of the stored assignments |
| AssignRuleForm.CheckDraft | src/components/AssignRuleForm.tsx:68-88 | "Save" succeeds iff the draft has rule, from-date and to-date; otherwise it reports the first missing one, in the order rule, from-date, to-date; with no draft at all it fails as the handler's `TypeError` |
| AssignRuleForm.UpdatedRules | src/components/AssignRuleForm.tsx:90-96 | one entry per stored entry, same order and event id; each field is set exactly when the draft's is filled in, and then equals it |
| AssignRuleForm.DateField | src/components/AssignRuleForm.tsx:53 | a cleared picker stores null; a picked date stores a non-empty string |
| AssignRuleForm.AllSavedWhenSaveAllEnabled | src/components/AssignRuleForm.tsx:270 | under the session invariant, the length-based "Save All" guard implies every event is saved and the event ids are distinct |
| AssignRuleForm.SaveAllEnabledIffAllSaved | src/components/AssignRuleForm.tsx:270 | with distinct event ids, "Save All" is enabled if and only if every event is saved |
| AssignRuleForm.CommitCopiesLockedDrafts | src/components/AssignRuleForm.tsx:90-100 | once "Save All" is enabled, and when every stored assignment belongs to one of the application's events (true of every seed application), every emitted entry is its event's complete draft, with no null field |
| AssignRuleForm.StrayEntryEmittedAsNull | src/components/AssignRuleForm.tsx:90-96 | for an application with no events and one stored entry whose draft's rule is "", the session invariant holds and "Save All" is enabled, yet that rule is emitted as null |
| AssignRuleForm.UnstoredEventLeftOut | src/components/AssignRuleForm.tsx:90-96 | an event id with no stored entry appears in no entry of the emitted list, whatever its draft |
| AssignRuleForm.AssignmentSession.constructor | src/components/AssignRuleForm.tsx:24-36 | the session opens with the drafts built from the stored assignments and nothing saved |
| AssignRuleForm.AssignmentSession.HandleRuleChange | src/components/AssignRuleForm.tsx:38-46 | only the rule of `e`'s draft changes; its dates, all other drafts, the saved list and the locked drafts stay as they were |
| AssignRuleForm.AssignmentSession.HandleFromDateChange | src/components/AssignRuleForm.tsx:48-56 | only the from-date of `e`'s draft changes, to null when cleared and to a non-empty date when picked; everything else stays |
| AssignRuleForm.AssignmentSession.HandleToDateChange | src/components/AssignRuleForm.tsx:58-66 | only the to-date of `e`'s draft changes, to null when cleared and to a non-empty date when picked; everything else stays |
| AssignRuleForm.AssignmentSession.HandleSaveEvent | src/components/AssignRuleForm.tsx:68-88 | the outcome is `CheckDraft`; on success exactly `e` is appended to the saved list, on failure the list is unchanged; drafts never change; invariant kept: saved ids are distinct events with complete drafts |
| AssignRuleForm.AssignmentSession.HandleSaveAll | src/components/AssignRuleForm.tsx:90-101 | calls `onSave(application.id, UpdatedRules)` and then `onClose`; every event is saved by then, and when every stored assignment belongs to one of the application's events (true of every seed application), each emitted entry equals its event's complete draft |
| AssignRuleForm.AssignmentSession.HandleClose | src/components/AssignRuleForm.tsx:264-266 | the close icon and "Cancel" call `onClose` only, never `onSave` |
| AssignRule.ReplaceRules | src/components/AssignRule.tsx:24-30 | length and order kept; every application keeps id, name and events; the matching ones get the new rules; all others are unchanged |
| AssignRule.ReplaceRulesUnknownId | src/components/AssignRule.tsx:25-29 | when no application has the id, the collection is unchanged |
| AssignRule.ReplaceRulesIdempotent | src/components/AssignRule.tsx:24-30 | saving the same list twice equals saving it once |
| AssignRule.AssignedRules | src/components/AssignRule.tsx:61 | the filter keeps only entries with a rule, and keeps all of them |
| AssignRule.AssignedRulesMultiplicity | src/components/AssignRule.tsx:61 | the filter keeps each entry that has a rule exactly as often as the list holds it, and no entry without one |
| AssignRule.AssignedIndicesCount | src/components/AssignRule.tsx:61 | from any position on, the number of positions whose entry has a rule equals the length of what the filter keeps of that suffix |
| AssignRule.AssignedRulesCount | src/components/AssignRule.tsx:61 | the badge count is the number of positions whose entry has a non-null rule; so it is at most the number of entries, equals it iff every entry has a rule, and is 0 iff none has |
| AssignRule.AssignedRulesCountFacts | src/components/AssignRule.tsx:61 | the filtered list is as long as the input iff every entry has a rule, and empty iff none has |
| AssignRule.SeedRulesCoverOnlyEvents | src/lib/mockData.ts:115-156 | every seed application's stored assignments belong to its own events |
| AssignRule.CommitAssignsEveryEntry | src/components/AssignRule.tsx:61 | after a "Save All" with every event saved, the committed list's badge counts all of its entries |
| AssignRule.ApplicationsScreen.constructor | src/components/AssignRule.tsx:11-13 | the screen starts with the three seed applications, nothing selected, the editor closed |
| AssignRule.ApplicationsScreen.HandleOpenForm | src/components/AssignRule.tsx:15-18 | "Assign Rules" selects the row's application and opens the editor; the applications stay as they are |
| AssignRule.ApplicationsScreen.HandleSaveAssignments | src/components/AssignRule.tsx:20-31 | the new collection is `ReplaceRules` of the old one; selection and open state unchanged |
| AssignRule.ApplicationsScreen.HandleClose | src/components/AssignRule.tsx:104 | closing only closes the sheet; the applications stay as they are |
| AssignRule.ApplicationsScreen.Receive | src/components/AssignRule.tsx:101-106 | `onSave` replaces the matching application's rules and keeps the sheet open; `onClose` closes it and leaves the collection unchanged; neither changes the selected application |
| AssignRule.FillAndSave | src/components/AssignRuleForm.tsx:38-88 | picking a rule and both dates for an unsaved event and pressing "Save" locks it with exactly that draft |
| AssignRule.App001CommitResult | src/lib/mockData.ts:116-129 | committing APP001's three filled-in drafts gives three complete tuples, and only APP001 of the seed collection changes |
| AssignRule.CommitApp001Scenario | src/components/AssignRuleForm.tsx:68-101 | for APP001, saving event1 alone leaves "Save All" disabled; after all three are saved, the commit replaces APP001's list with the three tuples and leaves APP002 and APP003 alone |
| AssignRule.CancelApp002Scenario | src/components/AssignRuleForm.tsx:264-266 | saving and editing drafts and then cancelling leaves the stored applications exactly as seeded |

## Left out

- Rendering, styling, hover and animation state, and tab switching are not modelled. This covers `src/pages/Index.tsx`, `src/components/RuleCard.tsx` and the JSX of the four components.
- Toast notifications are not displayed. The outcome values stand in for them: `FormMessage.NameRequired` and `FormMessage.RuleCreated` for the rule form's two toasts, and `SaveOutcome` for the toasts of an event's "Save", `Saved` being "Event rule saved". Only the success toast of "Save All" (src/components/AssignRuleForm.tsx:99) has no outcome value; `HandleSaveAll` returns just its two calls.
- `nanoid()` is not modelled: the new rule's id is a parameter. The model does not claim the id is distinct from existing ones, since the code relies only on randomness.
- `date-fns` formatting and the `Date`/Calendar widgets are not modelled. A picked date is an opaque non-empty string (`DateString`). Date order is not modelled, since the code never compares from-date with to-date.
- `Number(e.target.value)` can produce NaN or fractions. The numeric rule fields are `int` and are taken as given.
- The rule form's change handlers are not separate methods. Each just stores its input's value in one field, which in the model is a direct assignment to that field of `RuleForm`.
- Whether the Sheet unmounts the editor on close, and so whether the drafts reset for the next session, is decided by the UI library and is not visible in the source. Each session in the model starts from its constructor.
- The applications screen passes the seed `mockRules` to the editor (src/components/AssignRule.tsx:103), not the rules created on the rules screen. That prop only fills the selector's options. `HandleRuleChange` accepts any rule id, so which list the options come from does not affect the model.
- `formData` is a plain object in the source, not a map. The model assumes that no event id is the name of an `Object.prototype` property, such as `constructor`, `toString` or `__proto__`. For such an id the source would read an inherited value where the model finds no draft (`DraftUndefined`), and `__proto__` would not be stored as a key at all.
- `getEventById` (src/components/AssignRuleForm.tsx:103-105) is defined but never used, and is not modelled.
- React's asynchronous state updates are not modelled: each handler's update applies at once. The draft and applications handlers use functional updates (`prev => …`), so successive calls compose the same way. Two handlers read the state of the current render instead: `handleCreateRule` appends to the rendered `rules` (src/components/CreateRule.tsx:17) and `handleSaveEvent` checks the rendered `formData` (src/components/AssignRuleForm.tsx:69). Each of them runs from its own user event after a re-render, so the state they read already holds every earlier update, and the model's immediate update gives the same result.
- `selectedApplication` is not refreshed after a save. The model keeps this snapshot behaviour and proves nothing about it.
- `dist/vite.config.js` is build configuration and is not part of this model.
