/** The contractor directory's filter: a case-insensitive search over name,
    specialty, location and skills, combined with specialty and location
    filters that match by case-insensitive substring. */
module ContractorsPage {
  import opened Seqs
  import opened Text

  /** The fields of a listed contractor the filter reads. */
  datatype Card = Card(name: string, specialty: string, location: string, skills: seq<string>)

  /** `needle` occurs in `hay` when both are lower-cased. */
  predicate Mentions(hay: string, needle: string) {
    Includes(Lower(hay), Lower(needle))
  }

  /** Some skill mentions the term (`skills.some(...)`). */
  predicate AnySkill(skills: seq<string>, term: string) {
    exists i :: 0 <= i < |skills| && Mentions(skills[i], term)
  }

  predicate MatchesSearch(c: Card, term: string) {
    Mentions(c.name, term) || Mentions(c.specialty, term) || Mentions(c.location, term)
    || AnySkill(c.skills, term)
  }

  predicate MatchesSpecialty(c: Card, filter: string) {
    filter == "all" || Mentions(c.specialty, filter)
  }

  predicate MatchesLocation(c: Card, filter: string) {
    filter == "all" || Mentions(c.location, filter)
  }

  function Matches(term: string, specialty: string, location: string): Card -> bool {
    c => MatchesSearch(c, term) && MatchesSpecialty(c, specialty) && MatchesLocation(c, location)
  }

  /** The contractors shown: those passing all three tests, in list order. */
  function FilterContractors(cs: seq<Card>, term: string, specialty: string, location: string): (r: seq<Card>)
    ensures IsSubsequence(r, cs)
    ensures forall c :: c in r <==>
              c in cs && MatchesSearch(c, term) && MatchesSpecialty(c, specialty) && MatchesLocation(c, location)
  {
    FilterIsSubsequence(Matches(term, specialty, location), cs);
    Filter(Matches(term, specialty, location), cs)
  }

  // ----- Properties -----

  /** With no search and both filters at "all" the whole directory shows. */
  lemma NoFilterIsIdentity(cs: seq<Card>)
    ensures FilterContractors(cs, "", "all", "all") == cs
  {
    forall c | c in cs
      ensures Matches("", "all", "all")(c)
    {
      IncludesEmpty(Lower(c.name));
    }
    FilterAll(Matches("", "all", "all"), cs);
  }

  /** The specialty filter matches by substring regardless of case: the
      "hvac" option matches an "HVAC Contractor". */
  lemma SpecialtyBySubstring()
    ensures MatchesSpecialty(Card("Ana", "HVAC Contractor", "Austin, TX", []), "hvac")
  {
    LowerHvacContractor();
    IncludesPrefix("hvac" + Lower(" Contractor"), "hvac");
  }

  lemma LowerHvacContractor()
    ensures Lower("HVAC Contractor") == "hvac" + Lower(" Contractor")
    ensures Lower("hvac") == "hvac"
  {
    LowerHvac();
    HvacContractorParts();
    LowerAppend("HVAC", " Contractor");
  }

  lemma HvacContractorParts()
    ensures "HVAC Contractor" == "HVAC" + " Contractor"
  {
  }

  lemma LowerHvac()
    ensures Lower("HVAC") == "hvac" && Lower("hvac") == "hvac"
  {
  }

  /** Narrowing a filter from "all" to a particular value never enlarges the
      list. */
  lemma NarrowingFiltersShrinks(cs: seq<Card>, term: string, specialty: string, location: string)
    ensures IsSubsequence(FilterContractors(cs, term, specialty, location), FilterContractors(cs, term, "all", location))
    ensures IsSubsequence(FilterContractors(cs, term, specialty, location), FilterContractors(cs, term, specialty, "all"))
  {
    FilterMonotone(Matches(term, specialty, location), Matches(term, "all", location), cs);
    FilterMonotone(Matches(term, specialty, location), Matches(term, specialty, "all"), cs);
  }

  /** Text that mentions a longer term mentions every beginning of it. */
  lemma MentionsShorter(hay: string, term: string, more: string)
    requires Mentions(hay, term + more)
    ensures Mentions(hay, term)
  {
    LowerAppend(term, more);
    IncludesShorter(Lower(hay), Lower(term), Lower(more));
  }

  /** Typing more of the search term never enlarges the list. */
  lemma LongerSearchNarrows(cs: seq<Card>, term: string, more: string, specialty: string, location: string)
    ensures IsSubsequence(FilterContractors(cs, term + more, specialty, location),
                          FilterContractors(cs, term, specialty, location))
  {
    forall c | c in cs && Matches(term + more, specialty, location)(c)
      ensures Matches(term, specialty, location)(c)
    {
      if Mentions(c.name, term + more) {
        MentionsShorter(c.name, term, more);
      } else if Mentions(c.specialty, term + more) {
        MentionsShorter(c.specialty, term, more);
      } else if Mentions(c.location, term + more) {
        MentionsShorter(c.location, term, more);
      } else {
        var i :| 0 <= i < |c.skills| && Mentions(c.skills[i], term + more);
        MentionsShorter(c.skills[i], term, more);
      }
    }
    FilterMonotone(Matches(term + more, specialty, location), Matches(term, specialty, location), cs);
  }
}
