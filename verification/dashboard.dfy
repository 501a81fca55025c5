/** The dashboard: statistics over the prompt list and the five most recent
    prompts, each computed from one reply of the prompts API. */
module Dashboard {
  import opened Wrappers
  import opened Seqs
  import opened Prompts

  datatype Stats = Stats(total: nat, favorites: nat, recent: nat, categories: nat)

  /** The statistics shown before the first reply arrives. */
  const InitialStats := Stats(0, 0, 0, 0)

  /** Seven days in milliseconds. */
  const WEEK_MS: int := 7 * 24 * 60 * 60 * 1000

  /** The decoded body of the prompts API: an array, or some other JSON value. */
  datatype Payload = PromptArray(items: seq<Prompt>) | NotArray

  function IsFavorite(): Prompt -> bool
  {
    (p: Prompt) => p.isFavorite
  }

  /** Created strictly after `cutoff`. */
  function CreatedAfter(cutoff: int): Prompt -> bool
  {
    (p: Prompt) => p.createdAt > cutoff
  }

  /** A truthy category: present and non-empty. */
  predicate HasCategory(p: Prompt)
  {
    p.category.Some? && p.category.value != ""
  }

  /** The distinct truthy categories of the prompts
      (src/app/page.tsx:54 builds them as a `Set`). */
  function Categories(ps: seq<Prompt>): (r: set<string>)
    ensures forall c :: c in r <==> exists i :: 0 <= i < |ps| && HasCategory(ps[i]) && ps[i].category.value == c
    ensures |r| <= |ps|
    decreases |ps|
  {
    if |ps| == 0 then {}
    else
      var rest := Categories(ps[1..]);
      assert forall i :: 1 <= i < |ps| ==> ps[i] == ps[1..][i - 1];
      (if HasCategory(ps[0]) then {ps[0].category.value} else {}) + rest
  }

  /** The statistics `fetchStats` computes from an array of prompts at time `now`. */
  function ComputeStats(ps: seq<Prompt>, now: int): (r: Stats)
    ensures r.total == |ps|
    ensures r.favorites <= r.total && r.recent <= r.total && r.categories <= r.total
    ensures r.favorites == r.total <==> forall i :: 0 <= i < |ps| ==> ps[i].isFavorite
    ensures r.favorites == 0 <==> forall i :: 0 <= i < |ps| ==> !ps[i].isFavorite
    ensures r.recent == r.total <==> forall i :: 0 <= i < |ps| ==> ps[i].createdAt > now - WEEK_MS
    ensures r.recent == 0 <==> forall i :: 0 <= i < |ps| ==> ps[i].createdAt <= now - WEEK_MS
    ensures r.categories == 0 <==> forall i :: 0 <= i < |ps| ==> !HasCategory(ps[i])
    ensures r.categories == |Categories(ps)|
  {
    var cats := Categories(ps);
    FilterLength(ps, IsFavorite());
    FilterLength(ps, CreatedAfter(now - WEEK_MS));
    assert (exists i :: 0 <= i < |ps| && HasCategory(ps[i])) ==> |cats| > 0 by {
      if i :| 0 <= i < |ps| && HasCategory(ps[i]) {
        assert ps[i].category.value in cats;
      }
    }
    Stats(|ps|, |Filter(ps, IsFavorite())|, |Filter(ps, CreatedAfter(now - WEEK_MS))|, |cats|)
  }

  /** The categories of a concatenation are the union of both parts' categories. */
  lemma CategoriesOfConcatenation(a: seq<Prompt>, b: seq<Prompt>)
    ensures Categories(a + b) == Categories(a) + Categories(b)
  {
    forall c
      ensures c in Categories(a + b) <==> c in Categories(a) + Categories(b)
    {
      if c in Categories(a + b) {
        var i :| 0 <= i < |a + b| && HasCategory((a + b)[i]) && (a + b)[i].category.value == c;
        if i >= |a| {
          assert b[i - |a|] == (a + b)[i];
        }
      }
      if c in Categories(b) {
        var i :| 0 <= i < |b| && HasCategory(b[i]) && b[i].category.value == c;
        assert (a + b)[|a| + i] == b[i];
      }
      if c in Categories(a) {
        var i :| 0 <= i < |a| && HasCategory(a[i]) && a[i].category.value == c;
        assert (a + b)[i] == a[i];
      }
    }
  }

  /** The counts of a concatenation add up. */
  lemma StatsOfConcatenation(a: seq<Prompt>, b: seq<Prompt>, now: int)
    ensures ComputeStats(a + b, now).total == ComputeStats(a, now).total + ComputeStats(b, now).total
    ensures ComputeStats(a + b, now).favorites == ComputeStats(a, now).favorites + ComputeStats(b, now).favorites
    ensures ComputeStats(a + b, now).recent == ComputeStats(a, now).recent + ComputeStats(b, now).recent
  {
    FilterAppend(a, b, IsFavorite());
    FilterAppend(a, b, CreatedAfter(now - WEEK_MS));
  }

  /** The statistics of a single prompt count it in each class it belongs
      to. With `StatsOfConcatenation` and the empty list, the total,
      favourite and recent counts are the numbers of qualifying prompts; the
      categories count is fixed by `ComputeStats`'s own
      `r.categories == |Categories(ps)|`. */
  lemma StatsOfSingleton(p: Prompt, now: int)
    ensures ComputeStats([p], now).total == 1
    ensures ComputeStats([p], now).favorites == (if p.isFavorite then 1 else 0)
    ensures ComputeStats([p], now).recent == (if p.createdAt > now - WEEK_MS then 1 else 0)
    ensures ComputeStats([p], now).categories == (if HasCategory(p) then 1 else 0)
  {
    assert [p][1..] == [];
  }

  /** The statistics shown before any reply are those of an empty list. */
  lemma InitialStatsOfEmpty(now: int)
    ensures ComputeStats([], now) == InitialStats
  {
  }

  /** `fetchStats`: an array payload replaces the statistics; an error
      status, a thrown error or a non-array payload leaves them as they were. */
  function FetchStats(prev: Stats, reply: Outcome<Payload>, now: int): (r: Stats)
    ensures reply.Ok? && reply.payload.PromptArray? ==> r == ComputeStats(reply.payload.items, now)
    ensures !(reply.Ok? && reply.payload.PromptArray?) ==> r == prev
  {
    match reply
    case Ok(PromptArray(ps)) => ComputeStats(ps, now)
    case Ok(NotArray) => prev
    case NotOk => prev
    case Threw => prev
  }

  function Min(a: int, b: int): int
  {
    if a <= b then a else b
  }

  /** `fetchRecentPrompts`: the first five prompts in server order, or none
      at all on an error status, a thrown error or a non-array payload. */
  function FetchRecentPrompts(reply: Outcome<Payload>): (r: seq<Prompt>)
    ensures reply.Ok? && reply.payload.PromptArray? ==>
      |r| == Min(5, |reply.payload.items|) && r <= reply.payload.items
    ensures !(reply.Ok? && reply.payload.PromptArray?) ==> r == []
  {
    match reply
    case Ok(PromptArray(ps)) => if |ps| <= 5 then ps else ps[..5]
    case Ok(NotArray) => []
    case NotOk => []
    case Threw => []
  }
}
