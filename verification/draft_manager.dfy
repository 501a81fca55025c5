/** The draft manager hook: in-memory edits with dirty tracking, the
    "any changes" query, the auto-save tick, and the facts that hold of every
    working set the hook can reach. */
module DraftManager {
  import opened Wrappers
  import opened DraftTypes
  import opened DraftOperations

  /** The snapshot of the draft with `id`: the first original carrying it,
      or none (the `find` at src/app/multi-drafts/hooks.ts:37). */
  function FindOriginal(ds: seq<Draft>, id: string): (r: Option<Draft>)
    ensures r.Some? ==> r.value.id == id && r.value in ds
    ensures r.None? <==> forall i :: 0 <= i < |ds| ==> ds[i].id != id
    ensures |ds| > 0 && ds[0].id == id ==> r == Some(ds[0])
    ensures r.Some? ==> exists k :: 0 <= k < |ds| && ds[k] == r.value && forall j :: 0 <= j < k ==> ds[j].id != id
    decreases |ds|
  {
    if |ds| == 0 then None
    else if ds[0].id == id then Some(ds[0])
    else
      assert forall j :: 1 <= j < |ds| ==> ds[j] == ds[1..][j - 1];
      FindOriginal(ds[1..], id)
  }

  /** The flag `updateDraft` computes for an edited entry: dirty when no
      original exists, otherwise dirty unless the entry serialises exactly
      like the original with `hasChanges: undefined`, whose key
      `JSON.stringify` drops. */
  function DirtyFlag(updated: DraftState, original: Option<Draft>): (dirty: bool)
    ensures original.None? ==> dirty
    ensures original.Some? ==> (!dirty <==> updated.hasChanges.None? && updated.base == original.value)
  {
    match original
    case None => true
    case Some(o) =>
      SerializeInjective(updated, DraftState(o, None));
      Serialize(updated) != Serialize(DraftState(o, None))
  }

  /** The callback of `prev.map` applied to an entry whose id matches. */
  function EditEntry(e: DraftState, originals: seq<Draft>, id: string, field: Field, value: string): DraftState
  {
    var updated := DraftState(Set(e.base, field, value), e.hasChanges);
    DraftState(updated.base, Some(DirtyFlag(updated, FindOriginal(originals, id))))
  }

  /** `updateDraft(id, field, value)`: every entry whose id is `id` takes
      `value` in `field` and gets a fresh boolean flag; all else is kept. */
  function UpdateDraft(ws: Workspace, id: string, field: Field, value: string): (r: Workspace)
    ensures |r.drafts| == |ws.drafts|
    ensures r.originals == ws.originals && r.activeTab == ws.activeTab
    ensures r.loading == ws.loading && r.lastAutoSave == ws.lastAutoSave
    ensures forall i :: 0 <= i < |ws.drafts| && ws.drafts[i].base.id != id ==> r.drafts[i] == ws.drafts[i]
    ensures forall i :: 0 <= i < |ws.drafts| && ws.drafts[i].base.id == id ==>
      && Get(r.drafts[i].base, field) == value
      && (forall g :: g != field ==> Get(r.drafts[i].base, g) == Get(ws.drafts[i].base, g))
      && r.drafts[i].hasChanges.Some?
    ensures forall i :: 0 <= i < |ws.drafts| && ws.drafts[i].base.id == id ==>
      (r.drafts[i].hasChanges == Some(false)
       <==> ws.drafts[i].hasChanges.None?
            && FindOriginal(ws.originals, id) == Some(Set(ws.drafts[i].base, field, value)))
    ensures forall i :: 0 <= i < |ws.drafts| && ws.drafts[i].base.id == id ==>
      (FindOriginal(ws.originals, id).None? ==> IsDirty(r.drafts[i]))
    ensures forall i :: 0 <= i < |ws.drafts| && ws.drafts[i].base.id == id ==>
      (ws.drafts[i].hasChanges.Some? ==> IsDirty(r.drafts[i]))
  {
    var edited := seq(|ws.drafts|, i requires 0 <= i < |ws.drafts| =>
      if ws.drafts[i].base.id == id then EditEntry(ws.drafts[i], ws.originals, id, field, value)
      else ws.drafts[i]);
    ws.(drafts := edited)
  }

  /** Whether some entry has a truthy `hasChanges`, scanning from the front. */
  function AnyDirty(es: seq<DraftState>): (b: bool)
    ensures b <==> exists i :: 0 <= i < |es| && IsDirty(es[i])
    decreases |es|
  {
    if |es| == 0 then false
    else if IsDirty(es[0]) then true
    else
      var rest := AnyDirty(es[1..]);
      assert forall i :: 1 <= i < |es| ==> es[i] == es[1..][i - 1];
      rest
  }

  /** `hasAnyChanges()`: some entry is dirty. */
  function HasAnyChanges(ws: Workspace): (b: bool)
    ensures b <==> !NoneDirty(ws)
  {
    AnyDirty(ws.drafts)
  }

  /** One firing of the auto-save interval: when some draft is dirty, save
      with `isAutoSave` set and stamp `lastAutoSave` with `now` whatever the
      reply; otherwise do nothing. */
  function Tick(ws: Workspace, reply: Outcome<seq<Draft>>, now: int): (r: Step)
    ensures !HasAnyChanges(ws) ==> r == Step(ws, None)
    ensures HasAnyChanges(ws) ==>
      && r.ws == Save(ws, reply, true).ws.(lastAutoSave := now)
      && r.toast == Save(ws, reply, true).toast
    ensures HasAnyChanges(ws) && reply.Ok? ==> NoneDirty(r.ws) && Synced(r.ws)
    ensures HasAnyChanges(ws) && reply.Threw? ==> r.toast == Some(SaveFailed)
    ensures HasAnyChanges(ws) ==> r.ws.lastAutoSave == now && !r.ws.loading
  {
    if HasAnyChanges(ws) then
      var saved := Save(ws, reply, true);
      Step(saved.ws.(lastAutoSave := now), saved.toast)
    else Step(ws, None)
  }

  /* ------------------------------------------------- reachable working sets */

  /** Everything that can happen to the working set, each with its reply. */
  datatype Action =
    | LoadAction(loaded: Outcome<seq<Draft>>)
    | CreateAction(created: Outcome<Draft>)
    | EditAction(editId: string, field: Field, value: string)
    | DeleteAction(deleteId: string, deleted: Outcome<()>)
    | SaveAction(saved: Outcome<seq<Draft>>, isAutoSave: bool)
    | TickAction(ticked: Outcome<seq<Draft>>, now: int)

  function Apply(ws: Workspace, a: Action): Workspace
  {
    match a
    case LoadAction(reply) => Load(ws, reply).ws
    case CreateAction(reply) => Create(ws, reply).ws
    case EditAction(id, field, value) => UpdateDraft(ws, id, field, value)
    case DeleteAction(id, reply) => Delete(ws, id, reply).ws
    case SaveAction(reply, isAutoSave) => Save(ws, reply, isAutoSave).ws
    case TickAction(reply, now) => Tick(ws, reply, now).ws
  }

  function Run(ws: Workspace, actions: seq<Action>): Workspace
    decreases |actions|
  {
    if |actions| == 0 then ws else Run(Apply(ws, actions[0]), actions[1..])
  }

  lemma CreateKeepsAllFlagged(ws: Workspace, reply: Outcome<Draft>)
    requires AllFlagged(ws)
    ensures AllFlagged(Create(ws, reply).ws)
  {
    var r := Create(ws, reply).ws;
    if reply.Ok? {
      forall i | 0 <= i < |r.drafts|
        ensures r.drafts[i].hasChanges.Some?
      {
        if i < |ws.drafts| {
          assert r.drafts[i] == ws.drafts[i];
        }
      }
    }
  }

  lemma DeleteKeepsAllFlagged(ws: Workspace, id: string, reply: Outcome<()>)
    requires AllFlagged(ws)
    ensures AllFlagged(Delete(ws, id, reply).ws)
  {
    var r := Delete(ws, id, reply).ws;
    if reply.Ok? {
      forall i | 0 <= i < |r.drafts|
        ensures r.drafts[i].hasChanges.Some?
      {
        assert r.drafts[i] in ws.drafts;
      }
    }
  }

  lemma UpdateKeepsAllFlagged(ws: Workspace, id: string, field: Field, value: string)
    requires AllFlagged(ws)
    ensures AllFlagged(UpdateDraft(ws, id, field, value))
  {
  }

  /** No transition ever produces an entry without a boolean flag. */
  lemma ApplyKeepsAllFlagged(ws: Workspace, a: Action)
    requires AllFlagged(ws)
    ensures AllFlagged(Apply(ws, a))
  {
    match a
    case CreateAction(reply) => CreateKeepsAllFlagged(ws, reply);
    case DeleteAction(id, reply) => DeleteKeepsAllFlagged(ws, id, reply);
    case EditAction(id, field, value) => UpdateKeepsAllFlagged(ws, id, field, value);
    case LoadAction(_) =>
    case SaveAction(_, _) =>
    case TickAction(_, _) =>
  }

  lemma {:induction false} RunKeepsAllFlagged(ws: Workspace, actions: seq<Action>)
    requires AllFlagged(ws)
    ensures AllFlagged(Run(ws, actions))
    decreases |actions|
  {
    if |actions| > 0 {
      ApplyKeepsAllFlagged(ws, actions[0]);
      RunKeepsAllFlagged(Apply(ws, actions[0]), actions[1..]);
    }
  }

  /** In every working set reachable from mount, any edit of a present draft
      marks it dirty, even one that restores the original value: the entry
      always carries a `hasChanges` key, so its serialisation never equals
      that of the original. */
  lemma EveryEditMarksDirty(now: int, actions: seq<Action>, id: string, field: Field, value: string)
    ensures var ws := Run(InitialWorkspace(now), actions);
      forall i :: 0 <= i < |ws.drafts| && ws.drafts[i].base.id == id ==>
        IsDirty(UpdateDraft(ws, id, field, value).drafts[i])
  {
    RunKeepsAllFlagged(InitialWorkspace(now), actions);
  }

  /* -------------------------------------------------------------- scenarios */

  /** Load one draft, retitle it, save: dirty after the edit, clean after the save. */
  lemma LoadEditSaveScenario()
    ensures var a := Draft("a", "T1", "", "", "c0", "u0");
      var loaded := Load(InitialWorkspace(0), Ok([a])).ws;
      var edited := UpdateDraft(loaded, "a", Title, "T2");
      var saved := Save(edited, Ok([a.(title := "T2", updatedAt := "u1")]), false).ws;
      && loaded.activeTab == "a"
      && IsDirty(edited.drafts[0])
      && SaveRequest(edited) == [a.(title := "T2")]
      && !IsDirty(saved.drafts[0])
      && !HasAnyChanges(saved)
  {
    var a := Draft("a", "T1", "", "", "c0", "u0");
    var loaded := Load(InitialWorkspace(0), Ok([a])).ws;
    assert loaded.drafts[0] == Clean(a);
  }

  /** Editing a title and then typing the old title back leaves the draft
      dirty although it equals its original again. */
  lemma EditBackStillDirty()
    ensures var a := Draft("a", "T1", "", "", "c0", "u0");
      var loaded := Load(InitialWorkspace(0), Ok([a])).ws;
      var restored := UpdateDraft(UpdateDraft(loaded, "a", Title, "T2"), "a", Title, "T1");
      && restored.drafts[0].base == loaded.originals[0]
      && IsDirty(restored.drafts[0])
  {
    var a := Draft("a", "T1", "", "", "c0", "u0");
    var loaded := Load(InitialWorkspace(0), Ok([a])).ws;
    assert loaded.drafts[0] == Clean(a);
    var edited := UpdateDraft(loaded, "a", Title, "T2");
    assert edited.drafts[0].base == a.(title := "T2");
    var restored := UpdateDraft(edited, "a", Title, "T1");
    DraftExtensionality(restored.drafts[0].base, a);
  }
}
