/** The prompts page: the case-insensitive search over title, content and
    description, and the flag sent when a prompt's favourite star is toggled. */
module PromptSearch {
  import opened Wrappers
  import opened Seqs
  import opened Text
  import opened Prompts

  /** Reference meaning of a match: the lower-cased term occurs in the
      lower-cased title, content, or description when there is one. */
  ghost predicate MatchesSpec(p: Prompt, term: string)
  {
    || OccursIn(Lower(term), Lower(p.title))
    || OccursIn(Lower(term), Lower(p.content))
    || (p.description.Some? && OccursIn(Lower(term), Lower(p.description.value)))
  }

  /** The filter callback, with `includes` and optional chaining on the description. */
  predicate Matches(p: Prompt, term: string)
  {
    || Contains(Lower(p.title), Lower(term))
    || Contains(Lower(p.content), Lower(term))
    || (p.description.Some? && Contains(Lower(p.description.value), Lower(term)))
  }

  lemma MatchesIffSpec(term: string)
    ensures forall p :: Matches(p, term) <==> MatchesSpec(p, term)
  {
    forall p
      ensures Matches(p, term) <==> MatchesSpec(p, term)
    {
      ContainsIffOccurs(Lower(p.title), Lower(term));
      ContainsIffOccurs(Lower(p.content), Lower(term));
      if p.description.Some? {
        ContainsIffOccurs(Lower(p.description.value), Lower(term));
      }
    }
  }

  function Matcher(term: string): Prompt -> bool
  {
    (p: Prompt) => Matches(p, term)
  }

  /** `filterPrompts`: every prompt when the term is empty, otherwise
      exactly the matching prompts in their original order. */
  function FilterPrompts(prompts: seq<Prompt>, term: string): (r: seq<Prompt>)
    ensures term == "" ==> r == prompts
    ensures IsSubsequence(r, prompts)
    ensures forall p :: p in r ==> p in prompts && (term == "" || MatchesSpec(p, term))
    ensures forall i :: 0 <= i < |prompts| && MatchesSpec(prompts[i], term) ==> prompts[i] in r
    ensures forall p :: multiset(r)[p] == if term == "" || MatchesSpec(p, term) then multiset(prompts)[p] else 0
    ensures forall p :: p in r && term != "" && p.description.None? ==>
      OccursIn(Lower(term), Lower(p.title)) || OccursIn(Lower(term), Lower(p.content))
  {
    if term == "" then
      SubsequenceReflexive(prompts);
      assert forall p :: multiset(prompts)[p] == multiset(prompts)[p];
      prompts
    else
      MatchesIffSpec(term);
      FilterIsSubsequence(prompts, Matcher(term));
      FilterMultiset(prompts, Matcher(term));
      Filter(prompts, Matcher(term))
  }

  /** The search ignores the case of the term. */
  lemma SearchIgnoresTermCase(term: string)
    ensures forall p :: Matches(p, term) <==> Matches(p, Lower(term))
  {
    LowerIdempotent(term);
  }

  /** The JSON body of the favourite toggle. */
  datatype FavoriteUpdate = FavoriteUpdate(isFavorite: bool)

  /** `toggleFavorite` requests the opposite of the current flag. */
  function ToggleFavoriteRequest(current: bool): (r: FavoriteUpdate)
    ensures r.isFavorite != current
  {
    FavoriteUpdate(!current)
  }
}
