/**
  The four-step onboarding wizard: a step counter clamped to 1..4 and the
  partial onboarding record that each step's handler merges into.
*/
module OnboardingWizard {
  import opened Types

  const TotalSteps: int := 4

  /** `Partial<OnboardingData>`: `None` is a field that is absent or undefined. */
  datatype Draft = Draft(
    profession: Option<Profession>,
    routine: Option<string>,
    distractions: Option<seq<string>>,
    goals: Option<string>,
    permissionsGranted: Option<bool>,
    calendarEvents: Option<seq<CalendarEvent>>,
    appUsageData: Option<AppUsageData>)

  const EmptyDraft: Draft := Draft(None, None, None, None, None, None, None)

  function Pick<T>(prev: Option<T>, update: Option<T>): (picked: Option<T>)
  {
    if update.Some? then update else prev
  }

  /** `{ ...prev, ...update }` for an update that carries only defined fields. */
  function Merge(prev: Draft, update: Draft): (merged: Draft)
  {
    Draft(Pick(prev.profession, update.profession), Pick(prev.routine, update.routine),
          Pick(prev.distractions, update.distractions), Pick(prev.goals, update.goals),
          Pick(prev.permissionsGranted, update.permissionsGranted),
          Pick(prev.calendarEvents, update.calendarEvents), Pick(prev.appUsageData, update.appUsageData))
  }

  function NextStep(step: int): (next: int)
  {
    if step + 1 < TotalSteps then step + 1 else TotalSteps
  }

  function PrevStep(step: int): (prev: int)
  {
    if step - 1 > 1 then step - 1 else 1
  }

  /** The profession the distraction and permission steps are shown for. */
  function ShownProfession(data: Draft): (shown: Profession)
  {
    if data.profession.Some? then data.profession.value else Developer
  }

  /** Moving forward stops at step 4, moving back at step 1, and both stay in 1..4. */
  lemma StepClamping(step: int)
    requires 1 <= step <= TotalSteps
    ensures 1 <= NextStep(step) <= TotalSteps && 1 <= PrevStep(step) <= TotalSteps
    ensures NextStep(step) == (if step == TotalSteps then step else step + 1)
    ensures PrevStep(step) == (if step == 1 then step else step - 1)
  {
  }

  /** A back step undoes a forward step taken before the last step. */
  lemma BackUndoesNext(step: int)
    requires 1 <= step < TotalSteps
    ensures PrevStep(NextStep(step)) == step
  {
  }

  /** The merge overrides exactly the supplied fields. */
  lemma MergeOverrides(prev: Draft, update: Draft)
    ensures var m := Merge(prev, update);
      && (update.profession.Some? ==> m.profession == update.profession)
      && (update.profession.None? ==> m.profession == prev.profession)
      && (update.routine.Some? ==> m.routine == update.routine)
      && (update.routine.None? ==> m.routine == prev.routine)
      && (update.distractions.Some? ==> m.distractions == update.distractions)
      && (update.distractions.None? ==> m.distractions == prev.distractions)
      && (update.goals.Some? ==> m.goals == update.goals)
      && (update.goals.None? ==> m.goals == prev.goals)
      && (update.permissionsGranted.Some? ==> m.permissionsGranted == update.permissionsGranted)
      && (update.permissionsGranted.None? ==> m.permissionsGranted == prev.permissionsGranted)
      && (update.calendarEvents.Some? ==> m.calendarEvents == update.calendarEvents)
      && (update.calendarEvents.None? ==> m.calendarEvents == prev.calendarEvents)
      && (update.appUsageData.Some? ==> m.appUsageData == update.appUsageData)
      && (update.appUsageData.None? ==> m.appUsageData == prev.appUsageData)
  {
  }

  /** Merging nothing keeps the draft; merging the same update twice is merging it once. */
  lemma MergeLaws(prev: Draft, u: Draft, v: Draft)
    ensures Merge(prev, EmptyDraft) == prev
    ensures Merge(EmptyDraft, u) == u
    ensures Merge(Merge(prev, u), u) == Merge(prev, u)
    ensures Merge(Merge(prev, u), v) == Merge(prev, Merge(u, v))
  {
  }

  class Wizard {
    var step: int
    var data: Draft

    predicate Valid()
      reads this
    {
      1 <= step <= TotalSteps
    }

    constructor()
      ensures Valid() && step == 1 && data == EmptyDraft
    {
      step := 1;
      data := EmptyDraft;
    }

    method Next()
      requires Valid()
      modifies this
      ensures Valid() && step == NextStep(old(step)) && data == old(data)
    {
      step := if step + 1 < TotalSteps then step + 1 else TotalSteps;
    }

    /** The Back button of steps 2 to 4. */
    method Back()
      requires Valid()
      modifies this
      ensures Valid() && step == PrevStep(old(step)) && data == old(data)
    {
      step := if step - 1 > 1 then step - 1 else 1;
    }

    method UpdateData(update: Draft)
      modifies this
      ensures data == Merge(old(data), update) && step == old(step)
    {
      data := Merge(data, update);
    }

    method SelectProfession(profession: Profession)
      requires Valid()
      modifies this
      ensures Valid() && step == NextStep(old(step))
      ensures data == old(data).(profession := Some(profession))
    {
      UpdateData(EmptyDraft.(profession := Some(profession)));
      Next();
    }

    method SubmitRoutine(routine: string, goals: string)
      requires Valid()
      modifies this
      ensures Valid() && step == NextStep(old(step))
      ensures data == old(data).(routine := Some(routine), goals := Some(goals))
    {
      UpdateData(EmptyDraft.(routine := Some(routine), goals := Some(goals)));
      Next();
    }

    method SubmitDistractions(distractions: seq<string>)
      requires Valid()
      modifies this
      ensures Valid() && step == NextStep(old(step))
      ensures data == old(data).(distractions := Some(distractions))
    {
      UpdateData(EmptyDraft.(distractions := Some(distractions)));
      Next();
    }

    /**
      `handlePermissionsSubmit`: the record handed to `onComplete` carries the
      permission answer and exactly the given events and usage data (an
      absent one overrides an earlier value), and every earlier answer.
    */
    method SubmitPermissions(granted: bool, events: Option<seq<CalendarEvent>>, usage: Option<AppUsageData>)
      returns (final: Draft)
      ensures final.permissionsGranted == Some(granted)
      ensures final.calendarEvents == events && final.appUsageData == usage
      ensures final.profession == data.profession && final.routine == data.routine
      ensures final.distractions == data.distractions && final.goals == data.goals
    {
      final := data.(permissionsGranted := Some(granted), calendarEvents := events, appUsageData := usage);
    }
  }
}
