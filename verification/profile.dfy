/** The profile page: the general profile form, the company and contractor
    forms, the comma-separated skills input of the contractor form, and the
    choice of the role-specific profile endpoint. */
module Profile {
  import opened Wrappers
  import opened Seqs
  import opened Text
  import opened Numbers
  import opened Schema

  // ----- Skills -----

  predicate NonEmpty(s: string) {
    s != ""
  }

  /** The skills input's change handler: split at commas, trim each piece,
      drop the empty ones. */
  function ParseSkills(text: string): (r: seq<string>)
    ensures forall s :: s in r ==> s != "" && IsTrimmed(s) && ',' !in s
    ensures |r| <= |Split(text, ',')|
    ensures IsSubsequence(r, Map(Trim, Split(text, ',')))
    ensures forall p :: p in r <==> p in Map(Trim, Split(text, ',')) && p != ""
    ensures |r| == Count(NonEmpty, Map(Trim, Split(text, ',')))
  {
    var pieces := Split(text, ',');
    var trimmed := Map(Trim, pieces);
    forall s | s in trimmed
      ensures ',' !in s
    {
      var i :| 0 <= i < |pieces| && trimmed[i] == s;
      TrimKeepsAbsent(pieces[i], ',');
    }
    FilterIsSubsequence(NonEmpty, trimmed);
    Filter(NonEmpty, trimmed)
  }

  /** The text the skills input shows for a list of skills. */
  function ShowSkills(skills: seq<string>): string {
    Join(skills, ", ")
  }

  /** A skill the input can hold without changing it: non-empty, trimmed and
      free of commas. */
  predicate CleanSkill(s: string) {
    s != "" && IsTrimmed(s) && ',' !in s
  }

  function Space(s: string): string {
    " " + s
  }

  /** Splitting a list joined with ", " gives back the first element and the
      others each with the blank the separator left in front. */
  lemma {:induction false} SplitJoin(xs: seq<string>)
    requires |xs| >= 1
    requires forall i :: 0 <= i < |xs| ==> ',' !in xs[i]
    ensures Split(Join(xs, ", "), ',') == [xs[0]] + Map(Space, xs[1..])
  {
    if |xs| == 1 {
      SplitNoSeparator(xs[0], ',');
    } else {
      var rest := Join(xs[1..], ", ");
      assert Join(xs, ", ") == xs[0] + [','] + (" " + rest);
      SplitAtSeparator(xs[0], ',', " " + rest);
      SplitPrepend(' ', rest, ',');
      SplitJoin(xs[1..]);
      assert xs[1..][0] == xs[1] && xs[1..][1..] == xs[2..];
    }
  }

  /** Trimming the pieces of joined clean skills gives back the skills. */
  lemma TrimPieces(xs: seq<string>)
    requires |xs| >= 1
    requires forall i :: 0 <= i < |xs| ==> CleanSkill(xs[i])
    ensures Map(Trim, [xs[0]] + Map(Space, xs[1..])) == xs
  {
    var tail := xs[1..];
    assert forall i :: 0 <= i < |tail| ==> IsTrimmed(tail[i]) by {
      forall i | 0 <= i < |tail|
        ensures IsTrimmed(tail[i])
      {
        assert tail[i] == xs[i + 1] && CleanSkill(xs[i + 1]);
      }
    }
    TrimSpacedAll(tail);
    assert CleanSkill(xs[0]);
    TrimTrimmed(xs[0]);
    MapCons(Trim, xs[0], Map(Space, tail));
    HeadTail(xs);
  }

  /** Trimming each trimmed piece after its blank gives back the pieces. */
  lemma TrimSpacedAll(ys: seq<string>)
    requires forall i :: 0 <= i < |ys| ==> IsTrimmed(ys[i])
    ensures Map(Trim, Map(Space, ys)) == ys
  {
    var m := Map(Space, ys);
    forall i | 0 <= i < |ys|
      ensures Trim(m[i]) == ys[i]
    {
      TrimSpaced(ys[i]);
    }
    MapPointwise(Trim, m, ys);
  }

  /** The blank in front of a trimmed piece is dropped again by `trim`. */
  lemma TrimSpaced(s: string)
    requires IsTrimmed(s)
    ensures Trim(Space(s)) == s
  {
    TrimLeadingSpace(" ", s);
  }

  /** Showing clean skills and reading the text back gives the same list. */
  lemma SkillsRoundTrip(skills: seq<string>)
    requires forall s :: s in skills ==> CleanSkill(s)
    ensures ParseSkills(ShowSkills(skills)) == skills
  {
    if |skills| == 0 {
      assert ShowSkills(skills) == "";
    } else {
      assert forall i :: 0 <= i < |skills| ==> CleanSkill(skills[i]);
      SplitJoin(skills);
      TrimPieces(skills);
      FilterAll(NonEmpty, skills);
    }
  }

  /** After one edit the skills input is stable: showing the parsed skills
      and parsing again changes nothing. */
  lemma SkillsStable(text: string)
    ensures ParseSkills(ShowSkills(ParseSkills(text))) == ParseSkills(text)
  {
    SkillsRoundTrip(ParseSkills(text));
  }

  lemma SplitSeparators()
    ensures Split(", ,", ',') == ["", " ", ""]
  {
    assert ", ," == "" + [','] + " ,";
    SplitAtSeparator("", ',', " ,");
    assert " ," == " " + [','] + "";
    SplitAtSeparator(" ", ',', "");
  }

  /** Text made only of commas and blanks holds no skill, which the contractor
      schema then refuses. */
  lemma NoSkillsFromSeparators()
    ensures ParseSkills(", ,") == []
  {
    SplitSeparators();
    var t := Map(Trim, ["", " ", ""]);
    assert Trim(" ") == "" && Trim("") == "";
    assert forall i :: 0 <= i < 3 ==> t[i] == "";
    FilterNone(NonEmpty, t);
  }

  // ----- The general profile form -----

  /** A user's stored profile; `None` is a missing or null field. */
  datatype UserProfile = UserProfile(
    name: Option<string>, description: Option<string>, location: Option<string>,
    contactEmail: Option<string>, contactPhone: Option<string>, website: Option<string>)

  /** The profile form's values; a `None` contact field is absent. */
  datatype ProfileValues = ProfileValues(
    name: string, description: string, location: string,
    contactEmail: Option<string>, contactPhone: Option<string>, website: Option<string>)

  /** The form's values for a loaded profile: every field falls back to the
      empty string, the optional ones included. */
  function ProfileDefaults(p: Option<UserProfile>): (v: ProfileValues)
    ensures v.contactEmail.Some? && v.contactPhone.Some? && v.website.Some?
    ensures p.None? ==> v == ProfileValues("", "", "", Some(""), Some(""), Some(""))
    ensures p.Some? && p.value.website.None? ==> v.website == Some("")
    ensures p.Some? && p.value.contactEmail.None? ==> v.contactEmail == Some("")
  {
    if p.None? then ProfileValues("", "", "", Some(""), Some(""), Some(""))
    else
      var q := p.value;
      ProfileValues(OrElse(q.name, ""), OrElse(q.description, ""), OrElse(q.location, ""),
                    Some(OrElse(q.contactEmail, "")), Some(OrElse(q.contactPhone, "")),
                    Some(OrElse(q.website, "")))
  }

  /** `profileSchema` as written: a present e-mail or website must pass its
      validator, the empty string included. */
  predicate ProfileAccepts(v: ProfileValues, isEmail: string -> bool, isUrl: string -> bool) {
    && |v.name| >= 2
    && |v.description| >= 10
    && |v.location| >= 2
    && (v.contactEmail.None? || isEmail(v.contactEmail.value))
    && (v.website.None? || isUrl(v.website.value))
  }

  /** The evidently intended check: an empty e-mail or website counts as
      left out, as it does for the phone. */
  predicate ProfileAcceptsIntended(v: ProfileValues, isEmail: string -> bool, isUrl: string -> bool) {
    && |v.name| >= 2
    && |v.description| >= 10
    && |v.location| >= 2
    && (v.contactEmail.None? || v.contactEmail.value == "" || isEmail(v.contactEmail.value))
    && (v.website.None? || v.website.value == "" || isUrl(v.website.value))
  }

  /** A user with no website on file cannot save the profile form without
      typing one in, since the form fills the field with "" and "" is not a
      URL; likewise for the e-mail. */
  lemma EmptyWebsiteBlocksProfile(p: UserProfile, isEmail: string -> bool, isUrl: string -> bool)
    requires !isUrl("") && !isEmail("")
    requires p.website.None? || p.contactEmail.None?
    ensures !ProfileAccepts(ProfileDefaults(Some(p)), isEmail, isUrl)
  {
  }

  /** Under the intended check a stored profile whose three required fields
      are long enough can be saved unchanged, whatever the validators say. */
  lemma StoredProfileSavableIntended(p: UserProfile, isEmail: string -> bool, isUrl: string -> bool)
    requires p.name.Some? && |p.name.value| >= 2
    requires p.description.Some? && |p.description.value| >= 10
    requires p.location.Some? && |p.location.value| >= 2
    requires p.website.None? && p.contactEmail.None?
    ensures ProfileAcceptsIntended(ProfileDefaults(Some(p)), isEmail, isUrl)
  {
  }

  /** The intended check accepts everything the written one does. */
  lemma IntendedProfileWeaker(v: ProfileValues, isEmail: string -> bool, isUrl: string -> bool)
    requires ProfileAccepts(v, isEmail, isUrl)
    ensures ProfileAcceptsIntended(v, isEmail, isUrl)
  {
  }

  // ----- Company and contractor forms -----

  datatype CompanyValues = CompanyValues(companySize: Option<string>, industry: Option<string>,
                                         yearFounded: Option<JsNumber>)

  /** `companySchema`: every field is optional; a founding year, when given,
      is a positive whole number. */
  predicate CompanyAccepts(v: CompanyValues) {
    v.yearFounded.None? || PositiveInteger(v.yearFounded.value)
  }

  datatype ContractorValues = ContractorValues(
    specialization: string, yearsOfExperience: Option<JsNumber>,
    skills: seq<string>, hourlyRate: Option<JsNumber>)

  /** `contractorSchema`. */
  predicate ContractorAccepts(v: ContractorValues) {
    && |v.specialization| >= 2
    && v.yearsOfExperience.Some? && PositiveInteger(v.yearsOfExperience.value)
    && |v.skills| >= 1
    && PositiveInput(v.hourlyRate)
  }

  /** The years typed into the form pass exactly when `parseInt` finds a
      positive number in them: the input never produces a fraction. */
  lemma YearsInput(text: string, v: ContractorValues)
    requires v.yearsOfExperience == IntInput(text)
    ensures ContractorAccepts(v) ==> text != "" && ParseInt(text).Some? && ParseInt(text).value > 0
    ensures (&& |v.specialization| >= 2 && |v.skills| >= 1
             && PositiveInput(v.hourlyRate)
             && text != "" && ParseInt(text).Some? && ParseInt(text).value > 0)
            ==> ContractorAccepts(v)
  {
  }

  /** A contractor form whose skills text holds no skill is refused. */
  lemma SkillsRequired(v: ContractorValues, text: string)
    requires v.skills == ParseSkills(text) && ContractorAccepts(v)
    ensures exists i :: 0 <= i < |Split(text, ',')| && Trim(Split(text, ',')[i]) != ""
  {
    var s := v.skills[0];
    assert s in Filter(NonEmpty, Map(Trim, Split(text, ',')));
    var trimmed := Map(Trim, Split(text, ','));
    var i :| 0 <= i < |trimmed| && trimmed[i] == s;
    assert Trim(Split(text, ',')[i]) != "";
  }

  // ----- Endpoints -----

  /** The role-specific profile a user's page loads and updates: companies
      use the company profiles, every other role (admins included) the
      contractor profiles. */
  function SpecificProfilePath(user: Option<User>): (path: string)
    ensures user.Some? && user.value.role == Company ==>
              path == "/api/company-profiles/" + IntToString(user.value.id)
    ensures user.Some? && user.value.role != Company ==>
              path == "/api/contractor-profiles/" + IntToString(user.value.id)
  {
    var kind := if user.Some? && user.value.role == Company then "company" else "contractor";
    ProfilePrefixes();
    "/api/" + kind + "-profiles/" + IdSegment(if user.Some? then Some(user.value.id) else None)
  }

  lemma ProfilePrefixes()
    ensures "/api/" + "company" + "-profiles/" == "/api/company-profiles/"
    ensures "/api/" + "contractor" + "-profiles/" == "/api/contractor-profiles/"
  {
  }

  /** Only a company reaches the company profiles; an admin's page asks for a
      contractor profile under the admin's own id. */
  lemma AdminUsesContractorProfile(id: int)
    ensures SpecificProfilePath(Some(User(id, Admin))) == SpecificProfilePath(Some(User(id, Contractor)))
    ensures SpecificProfilePath(Some(User(id, Admin))) != SpecificProfilePath(Some(User(id, Company)))
  {
    var a := SpecificProfilePath(Some(User(id, Admin)));
    var c := SpecificProfilePath(Some(User(id, Company)));
    assert a[5] == 'c' && a[6] == 'o' && a[7] == 'n';
    assert c[7] == 'm';
  }
}
