# Personal prompt manager: verified model of the client-side state logic

This project models, in Dafny, the client-side logic of a small prompt-management
web application. The centre of the model is the **multi-draft working set**: a
list of drafts being edited, the last-persisted snapshot ("originals") they are
compared against, the selected tab, a loading flag and the time of the last
auto-save. Every operation of the draft manager is a total, pure transition:

- load, create, delete and save-all (`src/app/multi-drafts/draft-operations.ts`);
- an in-memory field edit with dirty tracking, the "any changes" query and one
  firing of the five-minute (5·60·1000 = 300000 ms) auto-save interval
  (`src/app/multi-drafts/hooks.ts`, `src/app/multi-drafts/constants.ts:71`).

Each network call becomes a parameter `Outcome<T> = Ok(payload) | NotOk | Threw`:
an ok response with its decoded body, an error status, or an exception from
`fetch`/`response.json()`. Each transition returns the next state together with
the toast it raises.

Three smaller pure pieces complete the model:

- the settings page: defaults, the defaults-plus-saved merge on load and the
  single-key update written through to local storage (`src/app/settings/page.tsx`);
- the copyable command widget: fallback to `npm run dev` and the storage-event
  filter (`src/components/copyable-command.tsx`);
- the prompt search filter and the favourite toggle (`src/app/prompts/page.tsx`),
  and the dashboard statistics and top-five slice (`src/app/page.tsx`).

Files and modules: `wrappers.dfy` (Option, Outcome), `seqs.dfy` (order-preserving
filter), `text.dfy` (ASCII lower-casing, substring search, decimal numbers),
`draft_types.dfy`, `draft_operations.dfy`, `draft_manager.dfy`, `settings.dfy`,
`copyable_command.dfy`, `prompts.dfy`, `prompt_search.dfy`, `dashboard.dfy`.

## How the dirty check is modelled

`updateDraft` decides `hasChanges` by comparing `JSON.stringify` of the edited
entry with `JSON.stringify({ ...original, hasChanges: undefined })`.
`JSON.stringify` drops keys whose value is undefined, so the original side never
has a `hasChanges` key. The model serialises an entry as its list of key/value
members. `DraftTypes.SerializeInjective` shows that two serialisations are equal
exactly when the entries are equal, including whether the key is present. Every
entry that load, create, save or an edit produces carries a boolean key.
`DraftManager.EveryEditMarksDirty` therefore proves that, in every working set
reachable from mount, any edit of a present draft marks it dirty. This includes
an edit back to the original value, which `DraftManager.EditBackStillDirty`
exhibits concretely. The model follows this code. Comparing only title,
description and content would call such a draft clean; the code does not.

When the request throws, an auto-save raises the same "Failed to save drafts"
toast as a manual save (`src/app/multi-drafts/draft-operations.ts:165-171`).
`DraftManager.Tick` states this behaviour.

## Model

| member | source | states |
|---|---|---|
| `DraftTypes.SerializeInjective` | src/app/multi-drafts/hooks.ts:39 | the stringified entries used by the dirty check are equal iff the entries are equal, with an absent `hasChanges` key distinct from any boolean |
| `DraftTypes.Set` | src/app/multi-drafts/hooks.ts:36 | `{ ...draft, [field]: value }` gives `field` the new value and leaves every other key unchanged |
| `DraftTypes.InitialWorkspace` | src/app/multi-drafts/hooks.ts:8-12 | the hook starts with no drafts, no snapshot, no tab, not loading and the last auto-save at mount time; this state is flagged, synced and has no dirty entry |
| `DraftOperations.CreateRequest` | src/app/multi-drafts/draft-operations.ts:23-27 | the new draft is titled "Draft " followed by digits, without a leading zero, that read back as the number of drafts plus one; description and content are empty |
| `DraftOperations.Create` | src/app/multi-drafts/draft-operations.ts:30-49 | on Ok the server's draft is appended to the drafts (clean) and to the originals and becomes the active tab; on NotOk or Threw nothing changes, and Threw raises the error toast |
| `DraftOperations.Load` | src/app/multi-drafts/draft-operations.ts:60-81 | on Ok the originals are the payload, the drafts are the payload with every flag false (synced, none dirty); the tab changes only when the payload is non-empty and no tab is selected, to the first id; on failure nothing changes |
| `DraftOperations.FindIndex` | src/app/multi-drafts/draft-operations.ts:109 | the first position holding the id, or -1 exactly when no entry has it |
| `DraftOperations.RemoveEntries` | src/app/multi-drafts/draft-operations.ts:100 | the remaining drafts are an order-preserving subsequence holding every copy of each entry with another id and none with the deleted id; the length is unchanged iff the id was absent |
| `DraftOperations.RemoveOriginals` | src/app/multi-drafts/draft-operations.ts:101-103 | the same removal on the snapshot list |
| `DraftOperations.ReselectTab` | src/app/multi-drafts/draft-operations.ts:107-115 | after deleting the active draft: "" if nothing remains, else the id of the draft just before the first deleted one, or the first remaining id when the deleted one was first |
| `DraftOperations.Delete` | src/app/multi-drafts/draft-operations.ts:99-129 | on Ok both lists lose the id and the tab is reselected only if the deleted id was active; on NotOk or Threw nothing changes, and Threw raises the error toast |
| `DraftOperations.SaveRequest` | src/app/multi-drafts/draft-operations.ts:142 | the PUT body lists every draft without its flag, in working-set order |
| `DraftOperations.Save` | src/app/multi-drafts/draft-operations.ts:140-174 | loading ends false on every path; on Ok both lists become the response with every flag false; on failure only loading changes; Threw raises the error toast even for auto-saves |
| `DraftOperations.SaveRequestAfterSave` | src/app/multi-drafts/draft-operations.ts:151-158 | after a successful save the next save sends exactly the list the server returned |
| `DraftOperations.SaveRequestAfterLoad` | src/app/multi-drafts/draft-operations.ts:61-68 | after a successful load the next save sends exactly the loaded list |
| `DraftOperations.StripFilter` | src/app/multi-drafts/draft-operations.ts:100-103 | removing an id from the drafts and then stripping the flags equals removing it from the stripped list |
| `DraftOperations.DeleteKeepsSynced` | src/app/multi-drafts/draft-operations.ts:100-105 | a working set equal to its snapshot stays equal to it after any delete |
| `DraftOperations.CreateThenDelete` | src/app/multi-drafts/draft-operations.ts:99-115 | deleting a just-created draft with a fresh id restores both lists and selects the previously last draft, or none |
| `DraftManager.FindOriginal` | src/app/multi-drafts/hooks.ts:37 | finds the first original with the id: every earlier original has another id; none exactly when no original has it |
| `DraftManager.DirtyFlag` | src/app/multi-drafts/hooks.ts:38-40 | with no original the entry is dirty; otherwise it is clean iff it has no `hasChanges` key and equals the original |
| `DraftManager.UpdateDraft` | src/app/multi-drafts/hooks.ts:32-46 | length, order, originals and tab are kept; entries with other ids are unchanged; a matching entry takes the value in that field only and gets a boolean flag, which is false iff it had no flag and now equals its original; with no original or with a prior flag it becomes dirty |
| `DraftManager.AnyDirty` | src/app/multi-drafts/hooks.ts:49 | true iff some entry's `hasChanges` is true |
| `DraftManager.HasAnyChanges` | src/app/multi-drafts/hooks.ts:48-50 | true iff the working set is not free of dirty drafts |
| `DraftManager.Tick` | src/app/multi-drafts/hooks.ts:22-27 | with no dirty draft nothing happens; otherwise it is an auto-save whose outcome decides the lists, and `lastAutoSave` becomes the tick time whatever the reply |
| `DraftManager.RunKeepsAllFlagged` | src/app/multi-drafts/hooks.ts:41 | every sequence of loads, creates, edits, deletes, saves and ticks keeps a boolean flag on every entry |
| `DraftManager.EveryEditMarksDirty` | src/app/multi-drafts/hooks.ts:36-41 | in every working set reachable from mount, any edit of a present draft marks it dirty |
| `DraftManager.LoadEditSaveScenario` | src/app/multi-drafts/hooks.ts:32-46 | load one draft, retitle it: dirty, and the save sends the new title; after the save returns, nothing is dirty |
| `DraftManager.EditBackStillDirty` | src/app/multi-drafts/hooks.ts:38-40 | typing a title back to its original leaves the draft equal to its original yet dirty |
| `Text.ParseNatToString` | src/app/multi-drafts/draft-operations.ts:24 | the decimal rendering of a count reads back as that count |
| `Settings.SavedSettings` | src/app/settings/page.tsx:33-34 | a saved value is used iff the 'app-settings' item is present and non-empty |
| `Settings.Merge` | src/app/settings/page.tsx:35 | every saved key overrides the default; default keys absent from the saved object keep their default |
| `Settings.MergeOverComplete` | src/app/settings/page.tsx:35 | merging an object that has every default key over the defaults gives that object back |
| `Settings.LoadSettings` | src/app/settings/page.tsx:31-42 | loading ends false on every path; with no saved value or a parse failure the settings are unchanged; otherwise they are the defaults overlaid with the saved keys |
| `Settings.UpdateSetting` | src/app/settings/page.tsx:44-56 | the key takes the value and every other key keeps its value; a successful write stores exactly the new settings under 'app-settings' and touches no other item; a failed write leaves storage alone but keeps the in-memory update |
| `Settings.LoadAfterUpdate` | src/app/settings/page.tsx:48-52 | reloading right after a stored update yields the updated settings |
| `Settings.DefaultSettings` | src/app/settings/page.tsx:11-21 | the defaults hold exactly nine keys, none of them `copyableCommand`, each with a non-null value |
| `Settings.InitialPage` | src/app/settings/page.tsx:24-25 | the page first renders exactly the defaults, while loading |
| `Settings.FirstLoadWithoutSaveKeepsDefaults` | src/app/settings/page.tsx:31-43 | with nothing saved or an unparsable saved value, the first load leaves exactly the defaults and ends loading |
| `Settings.RunKeepsDefaults` | src/app/settings/page.tsx:31-56 | any sequence of loads and updates keeps every default key |
| `Settings.RunFromInitialKeepsDefaults` | src/app/settings/page.tsx:24-56 | from the page as first rendered, any sequence of loads and updates keeps every default key |
| `CopyableCommand.LoadCommand` | src/components/copyable-command.tsx:20-33 | the command is the saved `copyableCommand` when truthy, else 'npm run dev', also when nothing is saved or parsing throws; it is never falsy |
| `CopyableCommand.Mount` | src/components/copyable-command.tsx:19-35 | the mount effect shows the command loaded from storage, which is never the `null` render |
| `CopyableCommand.InitialRendersNothing` | src/components/copyable-command.tsx:14 | before the mount effect runs, the empty command renders `null` |
| `CopyableCommand.DefaultsShowFallback` | src/components/copyable-command.tsx:22-24 | with only the settings page's defaults stored, the widget shows the fallback command, since the defaults carry no `copyableCommand` |
| `CopyableCommand.HandleEvent` | src/components/copyable-command.tsx:38-49 | a storage event for any key other than 'app-settings' changes nothing; that key and 'settings-updated' reload the command |
| `CopyableCommand.AlwaysRendersAfterMount` | src/components/copyable-command.tsx:77-79 | after mount, no sequence of events brings back the `null` render |
| `CopyableCommand.CommandFollowsSettingsUpdate` | src/components/copyable-command.tsx:22-25 | after a stored settings update that sets a non-empty command, loading the command yields it |
| `Text.ContainsIffOccurs` | src/app/prompts/page.tsx:79-81 | `includes` holds iff the needle occurs at some offset of the haystack |
| `PromptSearch.MatchesIffSpec` | src/app/prompts/page.tsx:78-81 | the search callback holds iff the lower-cased term occurs in the lower-cased title, content, or description when present |
| `PromptSearch.FilterPrompts` | src/app/prompts/page.tsx:73-86 | an empty term keeps all prompts; otherwise the result is the order-preserving subsequence of exactly the matching prompts, and a prompt without description is kept only through title or content |
| `PromptSearch.SearchIgnoresTermCase` | src/app/prompts/page.tsx:79-81 | a term and its lower-cased form match the same prompts |
| `PromptSearch.ToggleFavoriteRequest` | src/app/prompts/page.tsx:93 | the toggle requests the opposite of the current flag |
| `Dashboard.Categories` | src/app/page.tsx:54 | a category is counted iff some prompt carries it non-empty; there are at most as many as prompts |
| `Dashboard.ComputeStats` | src/app/page.tsx:46-61 | total is the prompt count; categories is the number of distinct truthy categories; favourites, recent and categories are at most the total; favourites and recent are zero or total exactly when no or every prompt qualifies; categories is zero exactly when no prompt has a non-empty category |
| `Dashboard.StatsOfSingleton` | src/app/page.tsx:50-61 | a single prompt is counted once in each class it belongs to; with `StatsOfConcatenation`, the total, favourite and recent counts are the numbers of qualifying prompts; the categories count is fixed by `ComputeStats`'s own `r.categories == \|Categories(ps)\|` |
| `Dashboard.InitialStatsOfEmpty` | src/app/page.tsx:18-23 | the statistics shown before any reply are those of an empty prompt list |
| `Dashboard.StatsOfConcatenation` | src/app/page.tsx:46-52 | total, favourite and recent counts add up over a concatenation |
| `Dashboard.CategoriesOfConcatenation` | src/app/page.tsx:54 | the categories of a concatenation are the union of both parts' categories |
| `Dashboard.FetchStats` | src/app/page.tsx:32-65 | an array payload replaces the statistics; an error status, an exception or a non-array payload leaves them unchanged |
| `Dashboard.FetchRecentPrompts` | src/app/page.tsx:67-86 | an array payload gives its first min(5, n) prompts in server order; every other outcome gives none |

## Left out

- Rendering: all JSX, the draft editor, tab, header and empty-state components, the tab colour table, the layouts and navigation, the older settings pages and panels, and the preview page hold no state logic.
- API route handlers and the database: server replies are arbitrary `Outcome` payloads. The batch upsert does not pass the incoming id when it creates a row, so nothing assumes ids survive a save.
- Browser side effects: `fetch`, local storage reads and writes, the clipboard, window event registration and the data export/import are not modelled as I/O. Storage is a map passed in and returned. `JSON.parse` and `JSON.stringify` of settings are the parameters `decode` and `encode`.
- A decoded non-object JSON value is taken to have no properties. Spreading a parsed JSON string would add its characters as numeric keys; that edge is not modelled.
- Timers and concurrency: interval scheduling, the interval's restart whenever the drafts change, stale closures, and races between manual save, auto-save and delete are not modelled. One tick is one atomic step.
- `DraftOperations.Save`: `loading` is true only while the request is in flight. Each transition is atomic, so that intermediate state is not observable in the model.
- `DraftOperations.Load`: the mount effect passes the tab captured at mount, which is always "". The model instead reads `ws.activeTab` at the moment the reply arrives.
- The `setActiveTab` setter the hook exposes is a plain assignment and is not modelled.
- Dates: the dashboard's week cutoff uses a fixed 7·24·60·60·1000 ms on integer timestamps, not `Date.setDate` calendar arithmetic. Unparsable dates are not modelled.
- The auto-save period itself (`AUTO_SAVE_INTERVAL`, five minutes) only schedules ticks; with timers left out, the model has no use for the constant.
- `toLowerCase` is modelled on ASCII letters only.
- Setting values are integers, strings, booleans and null. Floating-point values such as the line-height slider are left out.
- Other prompts-page handlers (fetching, deleting, copying), the seed script and the build configuration are not part of this model.
