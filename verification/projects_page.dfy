/** The public project list's client-side filter: a case-insensitive search
    over title, description and location, and a budget bucket on the
    project's maximum budget. */
module ProjectsPage {
  import opened Wrappers
  import opened Seqs
  import opened Text

  /** The fields of a fetched project the filter reads. */
  datatype Listing = Listing(title: string, description: string, location: string, budgetMax: real)

  /** The search term occurs, ignoring case, in the title, the description
      or the location. */
  predicate MatchesSearch(p: Listing, term: string) {
    var t := Lower(term);
    Includes(Lower(p.title), t) || Includes(Lower(p.description), t) || Includes(Lower(p.location), t)
  }

  /** The budget bucket test; "all" and any value the select does not offer
      let every project through. */
  predicate MatchesBudget(p: Listing, range: string) {
    range == "all" || (
      if range == "under5k" then p.budgetMax <= 5000.0
      else if range == "5kTo20k" then p.budgetMax > 5000.0 && p.budgetMax <= 20000.0
      else if range == "over20k" then p.budgetMax > 20000.0
      else true)
  }

  function Matches(term: string, range: string): Listing -> bool {
    p => MatchesSearch(p, term) && MatchesBudget(p, range)
  }

  /** `projects?.filter(...)`: nothing while the list has not arrived,
      otherwise the matching projects in their fetched order. */
  function FilterProjects(projects: Option<seq<Listing>>, term: string, range: string): (r: Option<seq<Listing>>)
    ensures r.Some? <==> projects.Some?
    ensures r.Some? ==> IsSubsequence(r.value, projects.value)
    ensures r.Some? ==> forall p :: p in r.value <==> p in projects.value && MatchesSearch(p, term) && MatchesBudget(p, range)
  {
    if projects.None? then None
    else
      FilterIsSubsequence(Matches(term, range), projects.value);
      Some(Filter(Matches(term, range), projects.value))
  }

  // ----- Properties -----

  /** The three buckets split the budgets: every project falls in exactly
      one. */
  lemma BucketsPartition(p: Listing)
    ensures MatchesBudget(p, "under5k") || MatchesBudget(p, "5kTo20k") || MatchesBudget(p, "over20k")
    ensures !(MatchesBudget(p, "under5k") && MatchesBudget(p, "5kTo20k"))
    ensures !(MatchesBudget(p, "under5k") && MatchesBudget(p, "over20k"))
    ensures !(MatchesBudget(p, "5kTo20k") && MatchesBudget(p, "over20k"))
  {
  }

  /** An empty search matches every project, and "all" or an unknown bucket
      matches every budget. */
  lemma EmptySearchMatches(p: Listing, range: string)
    requires range !in {"under5k", "5kTo20k", "over20k"}
    ensures MatchesSearch(p, "")
    ensures MatchesBudget(p, range)
  {
    IncludesEmpty(Lower(p.title));
  }

  /** With no search and no bucket the list is shown as fetched. */
  lemma NoFilterIsIdentity(projects: seq<Listing>)
    ensures FilterProjects(Some(projects), "", "all") == Some(projects)
  {
    forall p | p in projects
      ensures Matches("", "all")(p)
    {
      IncludesEmpty(Lower(p.title));
    }
    FilterAll(Matches("", "all"), projects);
  }

  /** The search ignores the case of the term. */
  lemma SearchIgnoresCase(p: Listing, term: string)
    ensures MatchesSearch(p, Lower(term)) <==> MatchesSearch(p, term)
  {
    LowerIdempotent(term);
  }

  /** Typing more of the search term never brings a project back. */
  lemma LongerSearchNarrows(p: Listing, term: string, more: string)
    requires MatchesSearch(p, term + more)
    ensures MatchesSearch(p, term)
  {
    LowerAppend(term, more);
    var t, m := Lower(term), Lower(more);
    if Includes(Lower(p.title), t + m) {
      IncludesShorter(Lower(p.title), t, m);
    } else if Includes(Lower(p.description), t + m) {
      IncludesShorter(Lower(p.description), t, m);
    } else {
      IncludesShorter(Lower(p.location), t, m);
    }
  }

  /** Under one search, the three buckets share the matching projects out
      among them: their sizes add up to the size of the unbucketed list. */
  lemma {:induction false} BucketCounts(ps: seq<Listing>, term: string)
    ensures Count(Matches(term, "under5k"), ps) + Count(Matches(term, "5kTo20k"), ps)
            + Count(Matches(term, "over20k"), ps) == Count(Matches(term, "all"), ps)
  {
    if |ps| > 0 {
      BucketCounts(ps[1..], term);
      CountStep(Matches(term, "under5k"), ps);
      CountStep(Matches(term, "5kTo20k"), ps);
      CountStep(Matches(term, "over20k"), ps);
      CountStep(Matches(term, "all"), ps);
      BucketsPartition(ps[0]);
    }
  }
}
