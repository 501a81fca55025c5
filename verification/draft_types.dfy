/** The multi-draft working set: the persisted `Draft` record, the client-side
    entry that adds the transient `hasChanges` key, and the page state that the
    draft manager hook keeps. */
module DraftTypes {
  import opened Wrappers

  /** A draft as the server stores and returns it. Timestamps stay the
      strings the JSON body carries. */
  datatype Draft = Draft(
    id: string,
    title: string,
    description: string,
    content: string,
    createdAt: string,
    updatedAt: string)

  /** A working-set entry: the server's draft plus the optional `hasChanges`
      key (`None` when the key is absent from the object). */
  datatype DraftState = DraftState(base: Draft, hasChanges: Option<bool>)

  /** The keys of `Draft`, any of which an edit may name. */
  datatype Field = Id | Title | Description | Content | CreatedAt | UpdatedAt

  function Get(d: Draft, f: Field): string
  {
    match f
    case Id => d.id
    case Title => d.title
    case Description => d.description
    case Content => d.content
    case CreatedAt => d.createdAt
    case UpdatedAt => d.updatedAt
  }

  /** `{ ...d, [f]: v }` on the draft's own keys. */
  function Set(d: Draft, f: Field, v: string): (r: Draft)
    ensures Get(r, f) == v
    ensures forall g :: g != f ==> Get(r, g) == Get(d, g)
  {
    match f
    case Id => d.(id := v)
    case Title => d.(title := v)
    case Description => d.(description := v)
    case Content => d.(content := v)
    case CreatedAt => d.(createdAt := v)
    case UpdatedAt => d.(updatedAt := v)
  }

  /** A draft is nothing but its six keys. */
  lemma DraftExtensionality(a: Draft, b: Draft)
    requires forall f :: Get(a, f) == Get(b, f)
    ensures a == b
  {
    assert Get(a, Id) == Get(b, Id) && Get(a, Title) == Get(b, Title);
    assert Get(a, Description) == Get(b, Description) && Get(a, Content) == Get(b, Content);
    assert Get(a, CreatedAt) == Get(b, CreatedAt) && Get(a, UpdatedAt) == Get(b, UpdatedAt);
  }

  /** A user-facing notification raised through the toast hook. */
  datatype Toast = Toast(title: string, description: string, destructive: bool)

  /** The state of the draft manager hook. `lastAutoSave` is an abstract
      clock reading; the clock itself is a parameter of the tick. */
  datatype Workspace = Workspace(
    drafts: seq<DraftState>,
    originals: seq<Draft>,
    activeTab: string,
    loading: bool,
    lastAutoSave: int)

  /** The result of one transition: the next state and the toast it raised, if any. */
  datatype Step = Step(ws: Workspace, toast: Option<Toast>)

  /** The hook's state on mount, `now` being the time of `new Date()`. */
  function InitialWorkspace(now: int): (r: Workspace)
    ensures r.drafts == [] && r.originals == []
    ensures AllFlagged(r) && Synced(r) && NoneDirty(r)
    ensures r.activeTab == "" && !r.loading && r.lastAutoSave == now
  {
    Workspace([], [], "", false, now)
  }

  /** An entry for `d` whose `hasChanges` key is present and false. */
  function Clean(d: Draft): DraftState
  {
    DraftState(d, Some(false))
  }

  /** Every draft of a server list as a clean entry, in the same order. */
  function CleanAll(ds: seq<Draft>): (r: seq<DraftState>)
    ensures |r| == |ds|
    ensures forall i :: 0 <= i < |ds| ==> r[i] == Clean(ds[i])
  {
    seq(|ds|, i requires 0 <= i < |ds| => Clean(ds[i]))
  }

  /** The working set as sent to the server: each entry without its
      `hasChanges` key, in the same order. */
  function Strip(es: seq<DraftState>): (r: seq<Draft>)
    ensures |r| == |es|
    ensures forall i :: 0 <= i < |es| ==> r[i] == es[i].base
    decreases |es|
  {
    if |es| == 0 then [] else [es[0].base] + Strip(es[1..])
  }

  /** Stripping the flags that `CleanAll` added gives back the server's list. */
  lemma StripCleanAll(ds: seq<Draft>)
    ensures Strip(CleanAll(ds)) == ds
  {
  }

  /** Every entry carries a boolean `hasChanges` key. */
  ghost predicate AllFlagged(ws: Workspace)
  {
    forall i :: 0 <= i < |ws.drafts| ==> ws.drafts[i].hasChanges.Some?
  }

  /** A truthy `hasChanges`. */
  predicate IsDirty(e: DraftState)
  {
    e.hasChanges == Some(true)
  }

  ghost predicate NoneDirty(ws: Workspace)
  {
    forall i :: 0 <= i < |ws.drafts| ==> !IsDirty(ws.drafts[i])
  }

  /** The working set holds exactly the last-persisted snapshot, entry by entry. */
  ghost predicate Synced(ws: Workspace)
  {
    Strip(ws.drafts) == ws.originals
  }

  /** The JSON values a serialised working-set entry holds. */
  datatype Json = JStr(s: string) | JBool(b: bool)

  /** `JSON.stringify` of an entry, as its list of key/value members: the six
      draft keys in the server's order, then `hasChanges` unless it is
      undefined, in which case the key is dropped. */
  function Serialize(e: DraftState): seq<(string, Json)>
  {
    [("id", JStr(e.base.id)), ("title", JStr(e.base.title)),
     ("description", JStr(e.base.description)), ("content", JStr(e.base.content)),
     ("createdAt", JStr(e.base.createdAt)), ("updatedAt", JStr(e.base.updatedAt))]
    + (match e.hasChanges
       case Some(b) => [("hasChanges", JBool(b))]
       case None => [])
  }

  /** Two entries serialise alike exactly when they are equal, including
      whether the `hasChanges` key is present. */
  lemma SerializeInjective(a: DraftState, b: DraftState)
    ensures Serialize(a) == Serialize(b) <==> a == b
  {
    if Serialize(a) == Serialize(b) {
      var sa, sb := Serialize(a), Serialize(b);
      assert sa[0] == sb[0] && sa[1] == sb[1] && sa[2] == sb[2];
      assert sa[3] == sb[3] && sa[4] == sb[4] && sa[5] == sb[5];
      assert a.base == b.base;
      if a.hasChanges.Some? {
        assert sa[6] == sb[6];
      }
    }
  }
}
