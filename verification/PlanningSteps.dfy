/** What each step of the planning service does to the draft and the history, on the fields of the state. */
module PlanningSteps {
  import opened Wrappers
  import opened Planning
  import opened PlanningAcceptance
  import opened PlanningPatches
  import opened PlanningRuns

  /** The draft was made on this basis and from the newest revision. */
  predicate Standing(s: State) {
    s.draft.Some? && s.draft.value.basis == s.basis && s.draft.value.headRevision == |s.history|
  }

  predicate OnBasis(s: State) { s.history != [] && s.history[|s.history| - 1].basis == s.basis }

  /** A saved draft is judged against the newest revision of its own basis, if there is one. */
  function JudgedOnSave(s: State): Option<Plan> {
    if OnBasis(s) then Some(s.history[|s.history| - 1].plan) else None
  }

  /** A generated draft is judged against the newest revision, whatever its basis. */
  function JudgedOnLoad(s: State): Option<Plan> {
    if s.history == [] then None else Some(s.history[|s.history| - 1].plan)
  }

  /** The draft takes the normalised content exactly when that is acceptable; otherwise nothing changes. */
  ghost predicate Replaces(s: State, t: State, judged: Option<Plan>, content: DraftPlan, ids: nat -> string)
    requires s.draft.Some?
  {
    if Acceptable(content, judged, Some(s.draft.value.plan), ids) then
      && t.history == s.history && t.basis == s.basis && t.draft.Some?
      && t.draft.value.basis == s.draft.value.basis && t.draft.value.headRevision == s.draft.value.headRevision
      && Normalize(content, judged, Some(s.draft.value.plan), ids) == Success(t.draft.value.plan)
    else t == s
  }

  lemma NormalizedReplaces(s: State, judged: Option<Plan>, content: DraftPlan, ids: nat -> string)
    requires s.draft.Some?
    ensures Replaces(s, Normalized(s, judged, content, ids), judged, content, ids)
  {
    hide Acceptable, Normalize;
    AcceptedIff(content, judged, Some(s.draft.value.plan), ids);
  }

  lemma SaveStepIs(s: State, content: DraftPlan, ids: nat -> string, blank: string -> bool, fits: FieldRule)
    requires s.draft.Some?
    ensures var t := Next(s, Save(content, ids), blank, fits);
            if Standing(s) then Replaces(s, t, JudgedOnSave(s), content, ids)
            else t.draft == None && t.history == s.history && t.basis == s.basis
  {
    hide Replaces, Normalized;
    NormalizedReplaces(s, JudgedOnSave(s), content, ids);
  }

  lemma LoadStepIs(s: State, output: DraftPlan, ids: nat -> string, blank: string -> bool, fits: FieldRule)
    ensures var t := Next(s, Load(output, ids), blank, fits);
            if Standing(s) then Replaces(s, t, JudgedOnLoad(s), output, ids) else t == s
  {
    hide Replaces, Normalized;
    if s.draft.Some? {
      NormalizedReplaces(s, JudgedOnLoad(s), output, ids);
    }
  }

  /** A standing draft is returned; otherwise a new one holds the newest revision of the basis, or nothing. */
  lemma CreateStepIs(s: State, blank: string -> bool, fits: FieldRule)
    ensures var t := Next(s, Create, blank, fits);
            && Standing(t) && t.history == s.history && t.basis == s.basis
            && if Standing(s) then t == s
               else if OnBasis(s) then t.draft.value.plan == s.history[|s.history| - 1].plan
               else Nodes(t.draft.value.plan) == [] && t.draft.value.plan.activeBlock == None
  {
  }

  /** A standing draft fit for confirmation becomes the newest revision, on the basis of the day. */
  lemma ConfirmStepIs(s: State, blank: string -> bool, fits: FieldRule)
    requires s.draft.Some?
    ensures var t := Next(s, Confirm, blank, fits);
            && t.basis == s.basis
            && if !Standing(s) then t.draft == None && t.history == s.history
               else if Confirmable(s.draft.value.plan, blank) then
                 t.draft == None && t.history == s.history + [Revision(s.draft.value.plan, s.basis)]
               else t == s
  {
    hide Confirmable;
  }
}
