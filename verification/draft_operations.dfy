/** The four server-backed operations on the multi-draft working set: create,
    load, delete and save-all. Each network call is a parameter `reply`, so
    every operation is a total transition from one `Workspace` to the next. */
module DraftOperations {
  import opened Wrappers
  import opened Seqs
  import opened Text
  import opened DraftTypes

  const CreateSucceeded := Toast("Success", "New draft created", false)
  const CreateFailed := Toast("Error", "Failed to create new draft", true)
  const LoadFailed := Toast("Error", "Failed to load drafts", true)
  const DeleteSucceeded := Toast("Success", "Draft deleted successfully", false)
  const DeleteFailed := Toast("Error", "Failed to delete draft", true)
  const SaveFailed := Toast("Error", "Failed to save drafts", true)

  function SaveSucceeded(isAutoSave: bool): Toast
  {
    Toast("Success", if isAutoSave then "Auto-saved all drafts" else "All drafts saved successfully", false)
  }

  /* ---------------------------------------------------------------- create */

  /** The JSON body of the POST that creates a draft. */
  datatype NewDraftRequest = NewDraftRequest(title: string, description: string, content: string)

  /** The new draft is titled "Draft " followed by the decimal count of the
      working set plus one, with empty description and content. */
  function CreateRequest(ws: Workspace): (r: NewDraftRequest)
    ensures |r.title| > 6 && r.title[..6] == "Draft "
    ensures forall i :: 6 <= i < |r.title| ==> IsDigit(r.title[i])
    ensures ParseNat(r.title[6..]) == |ws.drafts| + 1
    ensures r.title[6] != '0'
    ensures r.description == "" && r.content == ""
  {
    var n := NatToString(|ws.drafts| + 1);
    ParseNatToString(|ws.drafts| + 1);
    NoLeadingZero(|ws.drafts| + 1);
    assert ("Draft " + n)[6..] == n;
    NewDraftRequest("Draft " + n, "", "")
  }

  /** `createNewDraft` once the POST has been answered. */
  function Create(ws: Workspace, reply: Outcome<Draft>): (r: Step)
    ensures reply.Ok? ==>
      && r.ws.drafts == ws.drafts + [Clean(reply.payload)]
      && r.ws.originals == ws.originals + [reply.payload]
      && r.ws.activeTab == reply.payload.id
      && r.toast == Some(CreateSucceeded)
    ensures !reply.Ok? ==> r.ws == ws
    ensures reply.NotOk? ==> r.toast == None
    ensures reply.Threw? ==> r.toast == Some(CreateFailed)
    ensures r.ws.loading == ws.loading && r.ws.lastAutoSave == ws.lastAutoSave
  {
    match reply
    case Ok(d) =>
      Step(ws.(drafts := ws.drafts + [Clean(d)], originals := ws.originals + [d], activeTab := d.id),
           Some(CreateSucceeded))
    case NotOk => Step(ws, None)
    case Threw => Step(ws, Some(CreateFailed))
  }

  /* ------------------------------------------------------------------ load */

  /** `loadDrafts` once the GET has been answered; `ws.activeTab` is the tab
      the caller passes in. */
  function Load(ws: Workspace, reply: Outcome<seq<Draft>>): (r: Step)
    ensures reply.Ok? ==>
      && r.ws.originals == reply.payload
      && Synced(r.ws)
      && AllFlagged(r.ws)
      && NoneDirty(r.ws)
      && r.toast == None
    ensures reply.Ok? && |reply.payload| > 0 && ws.activeTab == "" ==>
      r.ws.activeTab == reply.payload[0].id
    ensures reply.Ok? && (|reply.payload| == 0 || ws.activeTab != "") ==>
      r.ws.activeTab == ws.activeTab
    ensures !reply.Ok? ==> r.ws == ws
    ensures reply.NotOk? ==> r.toast == None
    ensures reply.Threw? ==> r.toast == Some(LoadFailed)
    ensures r.ws.loading == ws.loading && r.ws.lastAutoSave == ws.lastAutoSave
  {
    match reply
    case Ok(data) =>
      var tab := if |data| > 0 && ws.activeTab == "" then data[0].id else ws.activeTab;
      StripCleanAll(data);
      Step(ws.(drafts := CleanAll(data), originals := data, activeTab := tab), None)
    case NotOk => Step(ws, None)
    case Threw => Step(ws, Some(LoadFailed))
  }

  /* ---------------------------------------------------------------- delete */

  /** The first position of the working set holding `id`, or -1 when no
      entry holds it (the `findIndex` at draft-operations.ts:109). */
  function FindIndex(es: seq<DraftState>, id: string): (k: int)
    ensures -1 <= k < |es|
    ensures 0 <= k ==> es[k].base.id == id
    ensures forall j :: 0 <= j < |es| && (k == -1 || j < k) ==> es[j].base.id != id
    decreases |es|
  {
    if |es| == 0 then -1
    else if es[0].base.id == id then 0
    else
      var k := FindIndex(es[1..], id);
      if k == -1 then -1 else k + 1
  }

  /** The filter predicate `(draft) => draft.id !== id` on working-set entries. */
  function EntryNotId(id: string): DraftState -> bool
  {
    (e: DraftState) => e.base.id != id
  }

  /** The same predicate on snapshot records. */
  function OriginalNotId(id: string): Draft -> bool
  {
    (d: Draft) => d.id != id
  }

  /** The entries left after removing `id`: every other entry, in order. */
  function RemoveEntries(es: seq<DraftState>, id: string): (r: seq<DraftState>)
    ensures forall e :: e in r ==> e.base.id != id && e in es
    ensures forall e :: multiset(r)[e] == if e.base.id != id then multiset(es)[e] else 0
    ensures IsSubsequence(r, es)
    ensures forall i :: 0 <= i < |es| && es[i].base.id != id ==> es[i] in r
    ensures |r| == |es| <==> FindIndex(es, id) == -1
  {
    FilterIsSubsequence(es, EntryNotId(id));
    FilterMultiset(es, EntryNotId(id));
    FilterLength(es, EntryNotId(id));
    Filter(es, EntryNotId(id))
  }

  /** The snapshot records left after removing `id`. */
  function RemoveOriginals(ds: seq<Draft>, id: string): (r: seq<Draft>)
    ensures forall d :: d in r ==> d.id != id && d in ds
    ensures forall d :: multiset(r)[d] == if d.id != id then multiset(ds)[d] else 0
    ensures IsSubsequence(r, ds)
    ensures forall i :: 0 <= i < |ds| && ds[i].id != id ==> ds[i] in r
  {
    FilterIsSubsequence(ds, OriginalNotId(id));
    FilterMultiset(ds, OriginalNotId(id));
    Filter(ds, OriginalNotId(id))
  }

  /** The entry before the first one holding `id` survives the removal at
      the same position. */
  lemma PreviousEntryKept(es: seq<DraftState>, id: string)
    requires FindIndex(es, id) > 0
    ensures |RemoveEntries(es, id)| >= FindIndex(es, id)
    ensures RemoveEntries(es, id)[FindIndex(es, id) - 1] == es[FindIndex(es, id) - 1]
  {
    var k := FindIndex(es, id);
    KeptPrefix(es, k, EntryNotId(id));
    assert RemoveEntries(es, id)[k - 1] == RemoveEntries(es, id)[..k][k - 1];
  }

  /** The tab selected after the active draft `id` is deleted from `es`:
      none when nothing remains, else the entry just before the first
      deleted one, or the first remaining entry when nothing precedes it. */
  function ReselectTab(es: seq<DraftState>, id: string): (tab: string)
    ensures |RemoveEntries(es, id)| == 0 ==> tab == ""
    ensures FindIndex(es, id) > 0 ==> tab == es[FindIndex(es, id) - 1].base.id
    ensures FindIndex(es, id) <= 0 && |RemoveEntries(es, id)| > 0 ==>
      tab == RemoveEntries(es, id)[0].base.id
  {
    var remaining := RemoveEntries(es, id);
    var deletedIndex := FindIndex(es, id);
    var newIndex := if deletedIndex > 0 then deletedIndex - 1 else 0;
    if deletedIndex > 0 then
      PreviousEntryKept(es, id);
      remaining[newIndex].base.id
    else
    // Here the new index is 0 and, when anything remains, in range, so the
    // optional chaining and the `|| ""` fallback of draft-operations.ts:111
    // need no modelling: an empty id falls back to the same empty string.
    if |remaining| > 0 then remaining[0].base.id
    else ""
  }

  /** `deleteDraft` once the DELETE has been answered. */
  function Delete(ws: Workspace, id: string, reply: Outcome<()>): (r: Step)
    ensures reply.Ok? ==>
      && r.ws.drafts == RemoveEntries(ws.drafts, id)
      && r.ws.originals == RemoveOriginals(ws.originals, id)
      && r.toast == Some(DeleteSucceeded)
    ensures reply.Ok? && ws.activeTab != id ==> r.ws.activeTab == ws.activeTab
    ensures reply.Ok? && ws.activeTab == id ==> r.ws.activeTab == ReselectTab(ws.drafts, id)
    ensures !reply.Ok? ==> r.ws == ws
    ensures reply.NotOk? ==> r.toast == None
    ensures reply.Threw? ==> r.toast == Some(DeleteFailed)
    ensures r.ws.loading == ws.loading && r.ws.lastAutoSave == ws.lastAutoSave
  {
    match reply
    case Ok(_) =>
      var tab := if ws.activeTab == id then ReselectTab(ws.drafts, id) else ws.activeTab;
      Step(ws.(drafts := RemoveEntries(ws.drafts, id), originals := RemoveOriginals(ws.originals, id),
               activeTab := tab),
           Some(DeleteSucceeded))
    case NotOk => Step(ws, None)
    case Threw => Step(ws, Some(DeleteFailed))
  }

  /* ------------------------------------------------------------------ save */

  /** The list sent by the batch PUT: every entry without its `hasChanges`
      key, in working-set order. */
  function SaveRequest(ws: Workspace): (r: seq<Draft>)
    ensures |r| == |ws.drafts|
    ensures forall i :: 0 <= i < |r| ==> r[i] == ws.drafts[i].base
  {
    Strip(ws.drafts)
  }

  /** `saveAllDrafts` from `setLoading(true)` through its `finally`. */
  function Save(ws: Workspace, reply: Outcome<seq<Draft>>, isAutoSave: bool): (r: Step)
    ensures !r.ws.loading
    ensures reply.Ok? ==>
      && r.ws.originals == reply.payload
      && Synced(r.ws)
      && AllFlagged(r.ws)
      && NoneDirty(r.ws)
      && r.toast == Some(SaveSucceeded(isAutoSave))
    ensures !reply.Ok? ==> r.ws == ws.(loading := false)
    ensures reply.NotOk? ==> r.toast == None
    ensures reply.Threw? ==> r.toast == Some(SaveFailed)
    ensures r.ws.activeTab == ws.activeTab && r.ws.lastAutoSave == ws.lastAutoSave
  {
    match reply
    case Ok(updated) =>
      StripCleanAll(updated);
      Step(ws.(drafts := CleanAll(updated), originals := updated, loading := false),
           Some(SaveSucceeded(isAutoSave)))
    case NotOk => Step(ws.(loading := false), None)
    case Threw => Step(ws.(loading := false), Some(SaveFailed))
  }

  /* ---------------------------------------------------------------- lemmas */

  /** The next save after a successful save or load sends back exactly the
      list the server returned. */
  lemma SaveRequestAfterSave(ws: Workspace, updated: seq<Draft>, isAutoSave: bool)
    ensures SaveRequest(Save(ws, Ok(updated), isAutoSave).ws) == updated
  {
    StripCleanAll(updated);
  }

  lemma SaveRequestAfterLoad(ws: Workspace, data: seq<Draft>)
    ensures SaveRequest(Load(ws, Ok(data)).ws) == data
  {
    StripCleanAll(data);
  }

  /** Removing an id from the working set and from the snapshot commute with
      stripping the flags. */
  lemma {:induction false} StripFilter(es: seq<DraftState>, id: string)
    ensures Strip(Filter(es, EntryNotId(id))) == Filter(Strip(es), OriginalNotId(id))
    decreases |es|
  {
    var keepE, keepO := EntryNotId(id), OriginalNotId(id);
    if |es| > 0 {
      var head, tail := es[0], es[1..];
      var rest := Filter(tail, keepE);
      var restO := Filter(Strip(tail), keepO);
      StripFilter(tail, id);
      assert Strip(rest) == restO;
      assert es == [head] + tail;
      assert Strip(es) == [head.base] + Strip(tail);
      FilterCons(head, tail, keepE);
      FilterCons(head.base, Strip(tail), keepO);
      if keepE(head) {
        calc {
          Strip(Filter(es, keepE));
          Strip([head] + rest);
          [head.base] + Strip(rest);
          [head.base] + restO;
          Filter(Strip(es), keepO);
        }
      } else {
        calc {
          Strip(Filter(es, keepE));
          Strip(rest);
          restO;
          Filter(Strip(es), keepO);
        }
      }
    }
  }

  /** A working set that matches its snapshot still does after a delete. */
  lemma DeleteKeepsSynced(ws: Workspace, id: string, reply: Outcome<()>)
    requires Synced(ws)
    ensures Synced(Delete(ws, id, reply).ws)
  {
    if reply.Ok? {
      StripFilter(ws.drafts, id);
    }
  }

  /** Removing an id that only the appended entry carries removes just that entry. */
  lemma RemoveAppendedFresh(es: seq<DraftState>, e: DraftState)
    requires forall i :: 0 <= i < |es| ==> es[i].base.id != e.base.id
    ensures RemoveEntries(es + [e], e.base.id) == es
  {
    var keep := EntryNotId(e.base.id);
    FilterAppend(es, [e], keep);
    assert Filter([e], keep) == [] by {
      assert [e][1..] == [];
    }
    assert Filter(es, keep) == es;
  }

  lemma RemoveAppendedFreshOriginal(ds: seq<Draft>, d: Draft)
    requires forall i :: 0 <= i < |ds| ==> ds[i].id != d.id
    ensures RemoveOriginals(ds + [d], d.id) == ds
  {
    var keep := OriginalNotId(d.id);
    FilterAppend(ds, [d], keep);
    assert Filter([d], keep) == [] by {
      assert [d][1..] == [];
    }
    assert Filter(ds, keep) == ds;
  }

  /** Deleting a freshly created draft restores both lists, and the selection
      falls on what was the last entry before the creation. */
  lemma CreateThenDelete(ws: Workspace, d: Draft)
    requires forall i :: 0 <= i < |ws.drafts| ==> ws.drafts[i].base.id != d.id
    requires forall i :: 0 <= i < |ws.originals| ==> ws.originals[i].id != d.id
    ensures Delete(Create(ws, Ok(d)).ws, d.id, Ok(())).ws.drafts == ws.drafts
    ensures Delete(Create(ws, Ok(d)).ws, d.id, Ok(())).ws.originals == ws.originals
    ensures Delete(Create(ws, Ok(d)).ws, d.id, Ok(())).ws.activeTab
      == (if |ws.drafts| == 0 then "" else ws.drafts[|ws.drafts| - 1].base.id)
  {
    var c := Create(ws, Ok(d)).ws;
    RemoveAppendedFresh(ws.drafts, Clean(d));
    RemoveAppendedFreshOriginal(ws.originals, d);
    var k := FindIndex(c.drafts, d.id);
    assert c.drafts[|ws.drafts|] == Clean(d);
    assert k == |ws.drafts|;
    assert k > 0 ==> c.drafts[k - 1] == ws.drafts[k - 1];
  }
}
