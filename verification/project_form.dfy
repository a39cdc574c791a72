/** The form a company uses to post a project: its fields and their
    validation, the local list of contractor requirements edited beside the
    form, the request it sends and the reset after a successful post. */
module ProjectForm {
  import opened Wrappers
  import opened Seqs
  import opened Text
  import opened Numbers
  import opened Schema
  import Routes

  /** One entry of the local requirement list; `id` is a fresh random UUID. */
  datatype Requirement = Requirement(id: string, text: string, isRequired: bool)

  /** The requirement list together with the text typed into its input box. */
  datatype RequirementEditor = RequirementEditor(requirements: seq<Requirement>, input: string)

  /** A requirement as the request body carries it. */
  datatype RequirementItem = RequirementItem(requirement: string, isRequired: bool)

  /** Adding the typed requirement: text that is blank once trimmed changes
      nothing; otherwise exactly one required entry with the trimmed text is
      appended and the input box is cleared. The fresh id is a parameter
      because the form draws it at random. */
  function AddRequirement(e: RequirementEditor, freshId: string): (r: RequirementEditor)
    ensures AllWhitespace(e.input) ==> r == e
    ensures !AllWhitespace(e.input) ==> (
              && r.input == ""
              && |r.requirements| == |e.requirements| + 1
              && r.requirements[..|e.requirements|] == e.requirements
              && r.requirements[|e.requirements|].id == freshId
              && r.requirements[|e.requirements|].isRequired
              && r.requirements[|e.requirements|].text != ""
              && IsTrimmed(r.requirements[|e.requirements|].text)
              && Includes(e.input, r.requirements[|e.requirements|].text))
  {
    var t := Trim(e.input);
    if |t| > 0 then
      var r := RequirementEditor(e.requirements + [Requirement(freshId, t, true)], "");
      assert r.requirements[..|e.requirements|] == e.requirements;
      r
    else e
  }

  /** Selects the entries whose id differs from `id`. */
  function Other(id: string): Requirement -> bool {
    (x: Requirement) => x.id != id
  }

  /** Removing a requirement: every entry with that id goes, the others stay
      in their relative order. */
  function RemoveRequirement(reqs: seq<Requirement>, id: string): (r: seq<Requirement>)
    ensures IsSubsequence(r, reqs)
    ensures forall x :: x in r <==> x in reqs && x.id != id
  {
    FilterIsSubsequence(Other(id), reqs);
    Filter(Other(id), reqs)
  }

  /** Flips `isRequired` on an entry with the given id. */
  function Flip(id: string): Requirement -> Requirement {
    (x: Requirement) => if x.id == id then x.(isRequired := !x.isRequired) else x
  }

  /** Toggling a requirement: the list keeps its length, ids, texts and
      order, and only entries with that id change their flag. */
  function ToggleRequirementStatus(reqs: seq<Requirement>, id: string): (r: seq<Requirement>)
    ensures |r| == |reqs|
    ensures forall i :: 0 <= i < |reqs| ==>
              && r[i].id == reqs[i].id && r[i].text == reqs[i].text
              && (r[i].isRequired != reqs[i].isRequired <==> reqs[i].id == id)
  {
    Map(Flip(id), reqs)
  }

  function Item(x: Requirement): RequirementItem {
    RequirementItem(x.text, x.isRequired)
  }

  /** The requirements the request carries: the local list, in order, each
      entry's text sent as `requirement` with its flag. */
  function RequirementPayload(reqs: seq<Requirement>): (r: seq<RequirementItem>)
    ensures |r| == |reqs|
    ensures forall i :: 0 <= i < |reqs| ==>
              r[i].requirement == reqs[i].text && r[i].isRequired == reqs[i].isRequired
  {
    Map(Item, reqs)
  }

  /** The form's values. A budget is what the number input produced: nothing
      for an empty box, otherwise `parseFloat` of the text. The form's own
      `requirements` field starts empty and no input edits it. */
  datatype FormValues = FormValues(
    title: string, description: string, category: string, location: string,
    budgetMin: Option<JsNumber>, budgetMax: Option<JsNumber>, duration: string,
    requirements: seq<RequirementItem>)

  /** The form's `projectSchema`. No relation between the two budgets is
      checked. */
  predicate Accepts(v: FormValues) {
    && |v.title| >= 5
    && |v.description| >= 20
    && ParseCategory(v.category).Some?
    && |v.location| >= 2
    && PositiveInput(v.budgetMin)
    && PositiveInput(v.budgetMax)
    && |v.duration| >= 2
    && ItemsAccepted(v.requirements)
  }

  /** Every requirement in a list is at least 3 characters long. */
  predicate ItemsAccepted(items: seq<RequirementItem>) {
    forall i :: 0 <= i < |items| ==> |items[i].requirement| >= 3
  }

  /** The form's default values. */
  const Defaults := FormValues("", "", "construction", "", None, None, "", [])

  function Number(b: Option<JsNumber>): Option<real> {
    if b.Some? && b.value.Num? then Some(b.value.value) else None
  }

  /** The project fields of the body. The company is not among them: the
      form sends no `companyId`. */
  function Insert(v: FormValues): (b: ProjectInsert)
    ensures b.companyId.None? && b.status.None?
    ensures Accepts(v) ==> ProjectFieldsAccepted(b)
  {
    ProjectInsert(None, Some(v.title), Some(v.description), Some(v.category), Some(v.location),
                  Number(v.budgetMin), Number(v.budgetMax), Some(v.duration), None)
  }

  /** The body POSTed to `/api/projects`. */
  datatype ProjectBody = ProjectBody(project: ProjectInsert, requirements: seq<RequirementItem>)

  /** Submitting as written: the form's values must pass the schema, and the
      local list then replaces the form's `requirements` in the body. */
  function Submit(v: FormValues, reqs: seq<Requirement>): (r: Option<ProjectBody>)
    ensures r.Some? <==> Accepts(v)
    ensures r.Some? ==> r.value.project == Insert(v) && r.value.requirements == RequirementPayload(reqs)
  {
    if Accepts(v) then Some(ProjectBody(Insert(v), RequirementPayload(reqs))) else None
  }

  /** Submitting as evidently intended: the requirements that are sent are
      the ones the schema checks. */
  function SubmitIntended(v: FormValues, reqs: seq<Requirement>): (r: Option<ProjectBody>)
    ensures r.Some? <==> Accepts(v.(requirements := RequirementPayload(reqs)))
    ensures r.Some? ==> r.value.project == Insert(v) && r.value.requirements == RequirementPayload(reqs)
  {
    var w := v.(requirements := RequirementPayload(reqs));
    if Accepts(w) then Some(ProjectBody(Insert(w), w.requirements)) else None
  }

  /** After a successful post: the form back at its defaults, the list and
      the input box empty. */
  function AfterSuccess(v: FormValues, e: RequirementEditor): (r: (FormValues, RequirementEditor))
    ensures !Accepts(r.0)
    ensures r.1.requirements == [] && r.1.input == ""
  {
    (Defaults, RequirementEditor([], ""))
  }

  // ----- Properties -----

  /** Removing the entry just added restores the list, provided the fresh id
      really was fresh. */
  lemma RemoveUndoesAdd(e: RequirementEditor, freshId: string)
    requires forall x :: x in e.requirements ==> x.id != freshId
    ensures RemoveRequirement(AddRequirement(e, freshId).requirements, freshId) == e.requirements
  {
    var r := AddRequirement(e, freshId);
    FilterAll(Other(freshId), e.requirements);
    if !AllWhitespace(e.input) {
      var added := r.requirements[|e.requirements|];
      assert r.requirements == e.requirements + [added];
      FilterAppend(Other(freshId), e.requirements, [added]);
      assert Filter(Other(freshId), [added]) == [];
    }
  }

  /** Removing an id no entry carries changes nothing. */
  lemma RemoveAbsent(reqs: seq<Requirement>, id: string)
    requires forall x :: x in reqs ==> x.id != id
    ensures RemoveRequirement(reqs, id) == reqs
  {
    FilterAll(Other(id), reqs);
  }

  /** Toggling the same entry twice restores the list. */
  lemma ToggleTwice(reqs: seq<Requirement>, id: string)
    ensures ToggleRequirementStatus(ToggleRequirementStatus(reqs, id), id) == reqs
  {
    var t := ToggleRequirementStatus(ToggleRequirementStatus(reqs, id), id);
    assert forall i :: 0 <= i < |reqs| ==> t[i] == reqs[i];
  }

  /** Toggling never changes what the request says about the texts: the sent
      requirement texts are the same before and after. */
  lemma ToggleKeepsTexts(reqs: seq<Requirement>, id: string)
    ensures Map((x: RequirementItem) => x.requirement, RequirementPayload(ToggleRequirementStatus(reqs, id)))
         == Map((x: RequirementItem) => x.requirement, RequirementPayload(reqs))
  {
  }

  /** Removing an entry after toggling it removes the same entries as
      removing it directly. */
  lemma {:induction false} RemoveAfterToggle(reqs: seq<Requirement>, id: string)
    ensures RemoveRequirement(ToggleRequirementStatus(reqs, id), id) == RemoveRequirement(reqs, id)
  {
    if |reqs| > 0 {
      var t := ToggleRequirementStatus(reqs, id);
      assert t[1..] == ToggleRequirementStatus(reqs[1..], id);
      RemoveAfterToggle(reqs[1..], id);
    }
  }

  /** An added requirement reaches the request as the last item, required,
      with the trimmed text. */
  lemma AddedRequirementSent(v: FormValues, e: RequirementEditor, freshId: string)
    requires Accepts(v) && !AllWhitespace(e.input)
    ensures Submit(v, AddRequirement(e, freshId).requirements).value.requirements
         == RequirementPayload(e.requirements) + [RequirementItem(Trim(e.input), true)]
  {
    var x := Requirement(freshId, Trim(e.input), true);
    assert AddRequirement(e, freshId).requirements == e.requirements + [x];
    MapSnoc(Item, e.requirements, x);
  }

  /** The form's check of the requirement length never sees the requirements
      the user added: a two-letter requirement is sent. */
  lemma ShortRequirementSent(v: FormValues)
    requires Accepts(v)
    ensures Submit(v, AddRequirement(RequirementEditor([], "ab"), "r1").requirements).Some?
    ensures !ItemsAccepted(Submit(v, AddRequirement(RequirementEditor([], "ab"), "r1").requirements).value.requirements)
  {
    AddTwoLetters();
  }

  /** Adding "ab" to an empty list gives one required entry "ab". */
  lemma AddTwoLetters()
    ensures AddRequirement(RequirementEditor([], "ab"), "r1").requirements == [Requirement("r1", "ab", true)]
    ensures RequirementPayload([Requirement("r1", "ab", true)]) == [RequirementItem("ab", true)]
  {
    assert IsTrimmed("ab") && "ab" != "";
    AddTrimmedInput([], "ab", "r1");
    assert [] + [Requirement("r1", "ab", true)] == [Requirement("r1", "ab", true)];
  }

  /** Input that is already trimmed is added exactly as typed. */
  lemma AddTrimmedInput(reqs: seq<Requirement>, t: string, id: string)
    requires IsTrimmed(t) && t != ""
    ensures AddRequirement(RequirementEditor(reqs, t), id).requirements == reqs + [Requirement(id, t, true)]
  {
    TrimTrimmed(t);
  }

  /** Under the intended submission every requirement sent has at least 3
      characters, and a two-letter one stops the submission. */
  lemma IntendedRequirementsChecked(v: FormValues, reqs: seq<Requirement>)
    ensures SubmitIntended(v, reqs).Some? ==> ItemsAccepted(SubmitIntended(v, reqs).value.requirements)
    ensures SubmitIntended(v, AddRequirement(RequirementEditor([], "ab"), "r1").requirements).None?
  {
    AddTwoLetters();
  }

  /** The form's budgets may be in either order. */
  lemma BudgetsUnorderedInForm()
    ensures Accepts(FormValues("Depot", "Re-roof the loading depot", "construction", "Leeds",
                               Some(Num(9000.0)), Some(Num(100.0)), "2 weeks", []))
  {
  }

  /** An empty budget box leaves the budget undefined, which fails. */
  lemma EmptyBudgetRejected(v: FormValues)
    ensures !Accepts(v.(budgetMin := DecimalInput("")))
    ensures !Accepts(v.(budgetMax := DecimalInput("")))
  {
  }

  /** The body of an accepted form has no company id, so the server's
      project handler refuses it even for a signed-in company; the intended
      handler creates the project for that company. */
  lemma FormPostRefused(company: User, v: FormValues, reqs: seq<Requirement>, s: Routes.Store)
    requires company.role == Company && Accepts(v)
    ensures Routes.CreateProject(Some(company), Submit(v, reqs).value.project, s).response.code == 400
    ensures Routes.CreateProjectIntended(Some(company), Submit(v, reqs).value.project, s).response.code == 201
  {
    Routes.ProjectWithoutCompanyIdIntended(company, Insert(v), s);
  }
}
