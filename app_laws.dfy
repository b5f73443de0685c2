/**
  What the focus-session engine promises, proved about the step functions of
  module `AppState`.
*/
module AppLaws {
  import opened Types
  import JsText
  import opened PomodoroTimer
  import opened SquadService
  import opened AppState
  import OnboardingWizard
  import CustomModeCard

  // ---------------------------------------------------------------------
  // The invariant

  /** While the service keeps the App's squad, it finds it for both squad updates. */
  lemma RegisteredSquadIsFound(st: State, goal: string)
    requires Registered(st) && st.squad.Some? && st.user.Some?
    ensures ProgressOutcome(st.registry, st.squad.value.id, st.user.value.uid).Ok?
    ensures GoalOutcome(st.registry, st.squad.value.id, st.user.value.uid, goal).Ok?
  {
  }

  lemma SessionCompleteKeepsInvariant(st: State)
    requires Inv(st)
    ensures Inv(SessionComplete(st))
  {
  }

  /** Every operation of the timer keeps an idle timer at full length and the squad registered. */
  lemma ToggleKeepsInvariant(st: State)
    requires Inv(st)
    ensures Inv(ToggleTimer(st))
  {
  }

  lemma ResetKeepsInvariant(st: State, now: nat)
    requires Inv(st)
    ensures Inv(ResetTimer(st, now))
  {
  }

  lemma SwitchModeKeepsInvariant(st: State, completed: bool, now: nat)
    requires Inv(st)
    ensures Inv(SwitchMode(st, completed, now))
  {
    SessionCompleteKeepsInvariant(st);
  }

  lemma TickKeepsInvariant(st: State, now: nat)
    requires Inv(st)
    ensures Inv(Tick(st, now))
  {
    SwitchModeKeepsInvariant(st, true, now);
  }

  lemma LengthChangeKeepsInvariant(st: State, mode: Option<CustomFocusMode>, card: CustomFocusMode, h: int)
    requires Inv(st)
    ensures Inv(ActivateMode(st, mode)) && Inv(ToggleModeActivation(st, card)) && Inv(ClockHour(st, h))
  {
  }

  /** The callbacks the timer reports to keep the invariant. */
  lemma CallbacksKeepInvariant(st: State, reason: string, now: nat, active: bool)
    requires Inv(st)
    ensures Inv(LogDistraction(st, reason, now)) && Inv(StreakBreak(st, now)) && Inv(FocusModeChange(st, active))
  {
  }

  lemma FeedbackKeepsInvariant(st: State, wasProductive: bool, now: nat)
    requires Inv(st)
    ensures Inv(SessionFeedback(st, wasProductive, now)) && Inv(FeedbackTimeout(st))
  {
  }

  lemma TasksKeepInvariant(st: State, text: string, now: nat, id: nat)
    requires Inv(st)
    ensures Inv(AddTask(st, text, now)) && Inv(ToggleTask(st, id)) && Inv(DeleteTask(st, id))
  {
  }

  lemma UsageAndModesKeepInvariant(st: State, entry: AppUsageRecord, modeData: Option<CustomModeData>, now: nat)
    requires Inv(st)
    ensures Inv(LogUsage(st, entry)) && Inv(CreateCustomMode(st, modeData, now))
  {
  }

  lemma RefineKeepsInvariant(st: State, outcome: Option<FocusProfile>)
    requires Inv(st)
    ensures Inv(RefineProfile(st, outcome))
  {
  }

  lemma OnboardingKeepsInvariant(st: State, data: OnboardingWizard.Draft, outcome: Option<FocusProfile>)
    requires Inv(st)
    ensures Inv(OnboardingComplete(st, data, outcome))
  {
  }

  lemma SignOutKeepsInvariant(st: State)
    requires Inv(st)
    ensures Inv(SignOut(st))
  {
  }

  lemma AuthKeepsInvariant(st: State, u: Option<User>)
    requires Inv(st)
    ensures Inv(AuthStateChanged(st, u))
  {
    if u.None? {
      SignOutKeepsInvariant(st.(user := None));
    }
  }

  lemma AcknowledgeKeepsInvariant(st: State)
    requires Inv(st)
    ensures Inv(AcknowledgeError(st))
  {
    if st.profile.None? {
      SignOutKeepsInvariant(st.(error := None));
    }
  }

  lemma SquadKeepsInvariant(st: State, now: nat, draws: seq<(Random, Random)>, goal: string)
    requires Inv(st) && |draws| == BotCount
    ensures Inv(JoinSquad(st, now, draws)) && Inv(SetDailyGoal(st, goal))
  {
  }

  // ---------------------------------------------------------------------
  // The decoded peak window

  /** With the window decoded, the focus length is FOCUS_TIME for the profile's descriptor. */
  lemma FullTimeFollowsProfile(st: State)
    requires Decoded(st)
    ensures st.activeMode.Some? ==> FullTime(st, false) == st.activeMode.value.pomodoro.focusMinutes * 60
    ensures st.activeMode.None? ==>
      (FullTime(st, false) == PeakFocusTime <==> InPeakWindow(PeakHours(st), st.hour))
    ensures st.activeMode.None? && !InPeakWindow(PeakHours(st), st.hour) ==> FullTime(st, false) == BaseFocusTime
    ensures FullTime(st, true) == BreakTime(st.activeMode)
  {
  }

  /** A descriptor-less state (no profile) has no window. */
  lemma NoProfileNoWindow(st: State)
    requires st.profile.None? && st.window == NoRange
    ensures Decoded(st)
  {
    assert JsText.Split("", RangeSeparator) == [""];
  }

  /** Two states with the same profile and window. */
  predicate SameProfile(a: State, b: State)
  {
    a.profile == b.profile && a.window == b.window
  }

  lemma SameProfileKeepsDecoded(a: State, b: State)
    requires Decoded(a) && SameProfile(a, b)
    ensures Decoded(b)
  {
  }

  /** The timer's steps leave the profile and its window alone. */
  lemma TimerLeavesProfile(st: State, now: nat, completed: bool, mode: Option<CustomFocusMode>,
                           card: CustomFocusMode, h: int)
    ensures SameProfile(st, ToggleTimer(st)) && SameProfile(st, ResetTimer(st, now))
    ensures SameProfile(st, SwitchMode(st, completed, now)) && SameProfile(st, Tick(st, now))
    ensures SameProfile(st, ActivateMode(st, mode)) && SameProfile(st, ToggleModeActivation(st, card))
    ensures SameProfile(st, ClockHour(st, h)) && SameProfile(st, Remount(st))
  {
  }

  /** The App's bookkeeping and the squad leave the profile and its window alone. */
  lemma BookkeepingLeavesProfile(st: State, reason: string, now: nat, active: bool, wasProductive: bool,
                                 text: string, id: nat, entry: AppUsageRecord, modeData: Option<CustomModeData>)
    ensures SameProfile(st, LogDistraction(st, reason, now)) && SameProfile(st, StreakBreak(st, now))
    ensures SameProfile(st, FocusModeChange(st, active)) && SameProfile(st, SessionComplete(st))
    ensures SameProfile(st, SessionFeedback(st, wasProductive, now)) && SameProfile(st, FeedbackTimeout(st))
    ensures SameProfile(st, AddTask(st, text, now)) && SameProfile(st, ToggleTask(st, id))
    ensures SameProfile(st, DeleteTask(st, id)) && SameProfile(st, LogUsage(st, entry))
    ensures SameProfile(st, CreateCustomMode(st, modeData, now))
  {
  }

  lemma SquadLeavesProfile(st: State, now: nat, draws: seq<(Random, Random)>, goal: string)
    requires |draws| == BotCount
    ensures SameProfile(st, JoinSquad(st, now, draws)) && SameProfile(st, SetDailyGoal(st, goal))
  {
  }

  /** A refined or onboarded profile comes with its own decoded window. */
  lemma NewProfileKeepsDecoded(st: State, outcome: Option<FocusProfile>, data: OnboardingWizard.Draft)
    requires Decoded(st)
    ensures Decoded(RefineProfile(st, outcome)) && Decoded(OnboardingComplete(st, data, outcome))
  {
  }

  /** Signing out drops the profile and its window together. */
  lemma SignOutKeepsDecoded(st: State, u: Option<User>)
    requires Decoded(st)
    ensures Decoded(SignOut(st)) && Decoded(AuthStateChanged(st, u)) && Decoded(AcknowledgeError(st))
  {
    NoProfileNoWindow(SignOut(st));
    if u.None? {
      NoProfileNoWindow(SignOut(st.(user := None)));
    }
    NoProfileNoWindow(SignOut(st.(error := None)));
  }

  /** The App starts with an idle timer at full length. */
  lemma InitialState(hour: int, registry: map<string, Squad>)
    requires forall id | id in registry :: registry[id].id == id
    ensures var st := Initial(hour, registry);
      && Inv(st) && Decoded(st) && !st.isActive && !st.isBreak && st.streak == 0 && st.feedback == Idle
      && st.time == BaseFocusTime && !HasNewDataForRefinement(st)
  {
    NoProfileNoWindow(Initial(hour, registry));
  }

  /** A change of phase length while the timer runs leaves the remaining time alone. */
  lemma RunningTimeUnaffected(st: State, mode: Option<CustomFocusMode>, h: int)
    requires st.isActive
    ensures ActivateMode(st, mode).time == st.time && ClockHour(st, h).time == st.time
    ensures ActivateMode(st, mode).activeMode == mode && ClockHour(st, h).hour == h
  {
  }

  /** The same change while the timer is idle shows the new full length at once. */
  lemma IdleTimeFollowsLength(st: State, mode: Option<CustomFocusMode>, h: int)
    requires !st.isActive
    ensures ActivateMode(st, mode).time == PhaseTime(st.isBreak, mode, st.window, st.hour)
    ensures ClockHour(st, h).time == PhaseTime(st.isBreak, st.activeMode, st.window, h)
  {
  }

  // ---------------------------------------------------------------------
  // The App's callbacks

  /** A streak break logs one entry and zeroes a positive streak, and does nothing to a zero streak. */
  lemma StreakBreakEffect(st: State, now: nat)
    ensures var r := StreakBreak(st, now);
      && (st.streak > 0 ==> r.distractions == st.distractions + [DistractionLog(now, StreakBrokenReason)] && r.streak == 0)
      && (st.streak == 0 ==> r == st)
      && r.feedback == st.feedback && r.focusMode == st.focusMode && r.isActive == st.isActive
  {
  }

  /** Activating focus mode hides the feedback prompt; deactivating leaves it. */
  lemma FocusModeChangeEffect(st: State, active: bool)
    ensures var r := FocusModeChange(st, active);
      && r.focusMode == active
      && r.feedback == (if active then Idle else st.feedback)
      && r.streak == st.streak && r.distractions == st.distractions && r.time == st.time
  {
  }

  /**
    A completed session adds exactly one to the streak, ends focus mode and
    asks for feedback; in a squad it adds one session to the user's own
    member, leaves every other member as it was, and stores the updated squad
    in the registry under its id.
  */
  lemma SessionCompleteEffect(st: State, k: nat)
    ensures var r := SessionComplete(st);
      && r.streak == st.streak + 1 && !r.focusMode && r.feedback == Pending
      && r.distractions == st.distractions && r.feedbackHistory == st.feedbackHistory
      && r.time == st.time && r.isActive == st.isActive && r.isBreak == st.isBreak
      && r.user == st.user
      && ((st.user.None? || st.squad.None?) ==> r.squad == st.squad && r.registry == st.registry)
      && (Registered(st) && st.user.Some? && st.squad.Some? ==>
            var before := st.squad.value;
            var uid := st.user.value.uid;
            && r.squad == Some(before.(members := WithSession(before.members, uid)))
            && r.registry == st.registry[before.id := r.squad.value]
            && |r.squad.value.members| == |before.members|
            && (forall i | 0 <= i < |before.members| ::
                  r.squad.value.members[i] ==
                    if before.members[i].id == uid then before.members[i].(completedSessions := before.members[i].completedSessions + 1)
                    else before.members[i])
            && (UniqueIds(before.members) && k < |before.members| && before.members[k].id == uid ==>
                  && r.squad.value.members[k].completedSessions == before.members[k].completedSessions + 1
                  && (forall i | 0 <= i < |before.members| && i != k :: r.squad.value.members[i] == before.members[i])
                  && TotalSessions(r.squad.value.members) == TotalSessions(before.members) + 1))
  {
    if st.user.Some? && st.squad.Some? {
      var before := st.squad.value;
      ProgressEffect(st.registry, before.id, st.user.value.uid, k);
      WithSessionEffect(before.members, st.user.value.uid);
    }
  }

  /**
    Submitting feedback records one entry carrying the answer and shows the
    thank-you state; the delayed step then returns to idle and keeps the entry.
  */
  lemma FeedbackEffect(st: State, wasProductive: bool, now: nat)
    ensures var r := SessionFeedback(st, wasProductive, now);
      && |r.feedbackHistory| == |st.feedbackHistory| + 1
      && r.feedbackHistory[..|st.feedbackHistory|] == st.feedbackHistory
      && r.feedbackHistory[|st.feedbackHistory|].wasProductive == wasProductive
      && r.feedback == Submitted && HasNewDataForRefinement(r)
      && FeedbackTimeout(r).feedback == Idle && FeedbackTimeout(r).feedbackHistory == r.feedbackHistory
  {
  }

  // ---------------------------------------------------------------------
  // The timer

  /**
    Toggling flips whether the clock runs and turns focus mode on exactly
    when the clock starts in the focus phase; stopping shows the full length
    again, starting keeps the time shown.
  */
  lemma ToggleEffect(st: State)
    ensures var r := ToggleTimer(st);
      && r.isActive == !st.isActive && r.isBreak == st.isBreak
      && r.focusMode == (r.isActive && !st.isBreak)
      && r.feedback == (if r.isActive && !st.isBreak then Idle else st.feedback)
      && r.time == (if r.isActive then st.time else FullTime(st, st.isBreak))
      && r.streak == st.streak && r.distractions == st.distractions
  {
  }

  /**
    A reset of a running focus phase reports one distraction and a streak
    break; any other reset reports nothing. Every reset stops the clock at
    the full length of the same phase and ends focus mode.
  */
  lemma ResetEffect(st: State, now: nat)
    ensures var r := ResetTimer(st, now);
      && !r.isActive && !r.focusMode && r.isBreak == st.isBreak
      && r.time == FullTime(st, st.isBreak) && r.feedback == st.feedback
      && (st.isActive && !st.isBreak ==>
            && r.distractions == st.distractions + [DistractionLog(now, ResetReason)]
                 + (if st.streak > 0 then [DistractionLog(now, StreakBrokenReason)] else [])
            && r.streak == 0)
      && (!(st.isActive && !st.isBreak) ==> r.distractions == st.distractions && r.streak == st.streak)
  {
  }

  /**
    Switching phase always flips the phase, shows its full length and stops
    the clock with focus mode off. Leaving focus reports a completed session
    when the phase ran out, a distraction and a streak break when the running
    clock was abandoned, and nothing otherwise; leaving a break reports nothing.
  */
  lemma SwitchModeEffect(st: State, completed: bool, now: nat)
    ensures var r := SwitchMode(st, completed, now);
      && r.isBreak == !st.isBreak && !r.isActive && !r.focusMode
      && r.time == FullTime(st, !st.isBreak)
      && (!st.isBreak && completed ==>
            r.streak == st.streak + 1 && r.feedback == Pending && r.distractions == st.distractions)
      && (!st.isBreak && !completed && st.isActive ==>
            && r.distractions == st.distractions + [DistractionLog(now, SwitchReason)]
                 + (if st.streak > 0 then [DistractionLog(now, StreakBrokenReason)] else [])
            && r.streak == 0 && r.feedback == st.feedback)
      && ((st.isBreak || (!completed && !st.isActive)) ==>
            r.streak == st.streak && r.feedback == st.feedback && r.distractions == st.distractions)
  {
  }

  /**
    A tick does nothing to an idle timer, takes exactly one second off a
    running timer above 1, and completes the phase of a running timer at 1
    or below.
  */
  lemma TickEffect(st: State, now: nat)
    ensures !st.isActive ==> Tick(st, now) == st
    ensures st.isActive && st.time > 1 ==> Tick(st, now) == st.(time := st.time - 1)
    ensures st.isActive && st.time <= 1 ==>
      var r := Tick(st, now);
      && r == SwitchMode(st, true, now)
      && r.isBreak == !st.isBreak && !r.isActive && r.time == FullTime(st, !st.isBreak)
      && (!st.isBreak ==> r.streak == st.streak + 1 && r.feedback == Pending && r.distractions == st.distractions)
      && (st.isBreak ==> r.streak == st.streak && r.distractions == st.distractions)
  {
    SwitchModeEffect(st, true, now);
  }

  /** A running timer that shows `n` seconds completes its phase on the `n`-th tick. */
  lemma {:induction false} Countdown(st: State, n: nat, now: nat)
    requires st.isActive && n >= 1 && st.time == n
    ensures RunTicks(st, n, now) == SwitchMode(st.(time := 1), true, now)
    decreases n
  {
    if n == 1 {
      assert st == st.(time := 1);
      assert RunTicks(st, 1, now) == RunTicks(Tick(st, now), 0, now);
    } else {
      var next := Tick(st, now);
      assert next == st.(time := n - 1);
      Countdown(next, n - 1, now);
      assert next.(time := 1) == st.(time := 1);
    }
  }

  /** Fewer ticks than the time shown only count down. */
  lemma {:induction false} CountdownPart(st: State, n: nat, now: nat)
    requires st.isActive && st.time > n
    ensures RunTicks(st, n, now) == st.(time := st.time - n)
    decreases n
  {
    if n > 0 {
      var next := Tick(st, now);
      assert next == st.(time := st.time - 1);
      CountdownPart(next, n - 1, now);
    }
  }

  /**
    A focus session left to run: started from an idle focus phase, the timer
    completes after exactly its full length in ticks, adds one to the streak,
    asks for feedback, logs no distraction, and waits idle at the full break
    length.
  */
  lemma FocusCycle(st: State, now: nat)
    requires Synced(st) && !st.isActive && !st.isBreak && FullTime(st, false) >= 1
    ensures var r := RunTicks(ToggleTimer(st), FullTime(st, false), now);
      && r.isBreak && !r.isActive && !r.focusMode
      && r.streak == st.streak + 1 && r.feedback == Pending
      && r.distractions == st.distractions
      && r.time == FullTime(st, true)
  {
    var started := ToggleTimer(st);
    assert started == st.(isActive := true, focusMode := true, feedback := Idle);
    Countdown(started, FullTime(st, false), now);
    SwitchModeEffect(started.(time := 1), true, now);
  }

  /**
    A break left to run: started from an idle break, the timer completes after
    exactly the full break length in ticks and waits idle at the full focus
    length, with the streak, the feedback prompt and the logs as they were.
  */
  lemma BreakCycle(st: State, now: nat)
    requires Synced(st) && !st.isActive && st.isBreak && FullTime(st, true) >= 1
    ensures var r := RunTicks(ToggleTimer(st), FullTime(st, true), now);
      && !r.isBreak && !r.isActive && !r.focusMode
      && r.streak == st.streak && r.feedback == st.feedback
      && r.distractions == st.distractions && r.feedbackHistory == st.feedbackHistory
      && r.time == FullTime(st, false)
  {
    var started := ToggleTimer(st);
    assert started == st.(isActive := true, focusMode := false);
    Countdown(started, FullTime(st, true), now);
    SwitchModeEffect(started.(time := 1), true, now);
  }

  // ---------------------------------------------------------------------
  // Tasks

  lemma {:induction false} ToggledTasksEffect(tasks: seq<Task>, id: nat)
    ensures var r := ToggledTasks(tasks, id);
      forall i | 0 <= i < |tasks| ::
        && r[i].id == tasks[i].id && r[i].text == tasks[i].text
        && r[i].completed == (if tasks[i].id == id then !tasks[i].completed else tasks[i].completed)
  {
    if tasks != [] {
      ToggledTasksEffect(tasks[1..], id);
      var r := ToggledTasks(tasks, id);
      forall i | 1 <= i < |tasks| ensures r[i] == ToggledTasks(tasks[1..], id)[i - 1] { }
    }
  }

  /** Toggling the same id twice restores every task. */
  lemma ToggleTaskTwice(st: State, id: nat)
    ensures ToggleTask(ToggleTask(st, id), id) == st
  {
    var r := ToggledTasks(ToggledTasks(st.tasks, id), id);
    ToggledTasksEffect(st.tasks, id);
    ToggledTasksEffect(ToggledTasks(st.tasks, id), id);
    assert r == st.tasks;
  }

  lemma {:induction false} WithoutTaskMembers(tasks: seq<Task>, id: nat)
    ensures forall t :: t in WithoutTask(tasks, id) <==> t in tasks && t.id != id
  {
    if tasks != [] {
      WithoutTaskMembers(tasks[1..], id);
      assert tasks == [tasks[0]] + tasks[1..];
    }
  }

  /** Deleting works piecewise, so the kept tasks keep their order. */
  lemma {:induction false} WithoutTaskConcat(a: seq<Task>, b: seq<Task>, id: nat)
    ensures WithoutTask(a + b, id) == WithoutTask(a, id) + WithoutTask(b, id)
  {
    if a != [] {
      assert (a + b)[1..] == a[1..] + b;
      WithoutTaskConcat(a[1..], b, id);
    } else {
      assert a + b == b;
    }
  }

  lemma {:induction false} WithoutTaskCount(tasks: seq<Task>, id: nat)
    ensures |WithoutTask(tasks, id)| == |tasks| - CountTask(tasks, id)
  {
    if tasks != [] {
      WithoutTaskCount(tasks[1..], id);
    }
  }

  /**
    Deleting removes exactly the tasks with that id: the rest stay, in order,
    and their number drops by the number of tasks with the id.
  */
  lemma DeleteTaskEffect(st: State, id: nat)
    ensures var r := DeleteTask(st, id);
      && (forall t :: t in r.tasks <==> t in st.tasks && t.id != id)
      && |r.tasks| == |st.tasks| - CountTask(st.tasks, id)
  {
    WithoutTaskMembers(st.tasks, id);
    WithoutTaskCount(st.tasks, id);
  }

  lemma {:induction false} WithoutAbsentTask(tasks: seq<Task>, id: nat)
    requires CountTask(tasks, id) == 0
    ensures WithoutTask(tasks, id) == tasks
  {
    if tasks != [] {
      WithoutAbsentTask(tasks[1..], id);
      assert tasks == [tasks[0]] + tasks[1..];
    }
  }

  /**
    Adding appends one open task; deleting it again (by a fresh id) gives back
    the list as it was.
  */
  lemma AddThenDelete(st: State, text: string, now: nat)
    requires CountTask(st.tasks, now) == 0
    ensures var r := AddTask(st, text, now);
      && r.tasks == st.tasks + [Task(now, text, false)]
      && DeleteTask(r, now) == st
  {
    WithoutTaskConcat(st.tasks, [Task(now, text, false)], now);
    WithoutAbsentTask(st.tasks, now);
    assert WithoutTask([Task(now, text, false)], now) == [];
  }

  // ---------------------------------------------------------------------
  // The usage log

  lemma {:induction false} NamesAt(log: seq<AppUsageRecord>)
    ensures forall i | 0 <= i < |log| :: Names(log)[i] == log[i].name
  {
    if log != [] {
      NamesAt(log[1..]);
      forall i | 1 <= i < |log| ensures Names(log)[i] == Names(log[1..])[i - 1] { }
    }
  }

  lemma {:induction false} AddMinutesEffect(log: seq<AppUsageRecord>, entry: AppUsageRecord)
    ensures var r := AddMinutes(log, entry);
      forall i | 0 <= i < |log| ::
        && r[i].name == log[i].name
        && r[i].minutes == log[i].minutes + (if log[i].name == entry.name then entry.minutes else 0)
  {
    if log != [] {
      AddMinutesEffect(log[1..], entry);
      var r := AddMinutes(log, entry);
      forall i | 1 <= i < |log| ensures r[i] == AddMinutes(log[1..], entry)[i - 1] { }
    }
  }

  function CountName(log: seq<AppUsageRecord>, name: string): (count: nat)
  {
    if log == [] then 0 else (if log[0].name == name then 1 else 0) + CountName(log[1..], name)
  }

  lemma {:induction false} AddMinutesTotal(log: seq<AppUsageRecord>, entry: AppUsageRecord)
    ensures TotalMinutes(AddMinutes(log, entry)) == TotalMinutes(log) + entry.minutes * CountName(log, entry.name)
  {
    if log != [] {
      AddMinutesTotal(log[1..], entry);
    }
  }

  lemma {:induction false} TotalMinutesAppend(log: seq<AppUsageRecord>, entry: AppUsageRecord)
    ensures TotalMinutes(log + [entry]) == TotalMinutes(log) + entry.minutes
  {
    if log != [] {
      assert (log + [entry])[1..] == log[1..] + [entry];
      TotalMinutesAppend(log[1..], entry);
    } else {
      assert TotalMinutes([entry]) == entry.minutes + TotalMinutes([entry][1..]);
    }
  }

  lemma {:induction false} UniqueNameCount(log: seq<AppUsageRecord>, k: nat)
    requires UniqueNames(log) && k < |log|
    ensures CountName(log, log[k].name) == 1
  {
    var tail := log[1..];
    assert UniqueNames(tail) by {
      forall i, j | 0 <= i < j < |tail| ensures tail[i].name != tail[j].name {
        assert tail[i] == log[i + 1] && tail[j] == log[j + 1];
      }
    }
    if k == 0 {
      AbsentNameCount(tail, log[0].name);
    } else {
      UniqueNameCount(tail, k - 1);
    }
  }

  lemma {:induction false} AbsentNameCount(log: seq<AppUsageRecord>, name: string)
    requires forall i | 0 <= i < |log| :: log[i].name != name
    ensures CountName(log, name) == 0
  {
    if log != [] {
      assert forall i | 0 <= i < |log[1..]| :: log[1..][i].name == log[i + 1].name;
      AbsentNameCount(log[1..], name);
    }
  }

  lemma {:induction false} NamesHold(log: seq<AppUsageRecord>, name: string)
    ensures name in Names(log) <==> exists k | 0 <= k < |log| :: log[k].name == name
  {
    NamesAt(log);
    if name in Names(log) {
      var k :| 0 <= k < |Names(log)| && Names(log)[k] == name;
      assert log[k].name == name;
    }
    if exists k | 0 <= k < |log| :: log[k].name == name {
      var k :| 0 <= k < |log| && log[k].name == name;
      assert Names(log)[k] == name;
    }
  }

  /**
    Logging usage for an app already in the log adds the minutes to that one
    record, keeps the length and the names, and raises the total by exactly
    the logged minutes.
  */
  lemma MergeUsageExisting(log: seq<AppUsageRecord>, entry: AppUsageRecord, k: nat)
    requires UniqueNames(log) && k < |log| && log[k].name == entry.name
    ensures var r := MergeUsage(log, entry);
      && |r| == |log| && UniqueNames(r)
      && TotalMinutes(r) == TotalMinutes(log) + entry.minutes
      && r[k].minutes == log[k].minutes + entry.minutes
      && forall i | 0 <= i < |log| ::
           r[i].name == log[i].name
           && (i != k ==> r[i] == log[i])
  {
    NamesHold(log, entry.name);
    AddMinutesEffect(log, entry);
    AddMinutesTotal(log, entry);
    UniqueNameCount(log, k);
  }

  /** A new app is appended, names stay unique and the total rises by the logged minutes. */
  lemma MergeUsageNew(log: seq<AppUsageRecord>, entry: AppUsageRecord)
    requires UniqueNames(log)
    requires forall k | 0 <= k < |log| :: log[k].name != entry.name
    ensures var r := MergeUsage(log, entry);
      && r == log + [entry] && UniqueNames(r)
      && TotalMinutes(r) == TotalMinutes(log) + entry.minutes
  {
    var r := log + [entry];
    assert entry.name !in Names(log) by {
      NamesAt(log);
    }
    assert MergeUsage(log, entry) == r;
    TotalMinutesAppend(log, entry);
    forall i, j | 0 <= i < j < |r| ensures r[i].name != r[j].name {
      if j == |log| {
        assert r[i] == log[i];
      }
    }
  }

  // ---------------------------------------------------------------------
  // Refinement, onboarding, custom modes, sign-out and the squad

  /** There is new data exactly when one of the three logs is not empty. */
  lemma NewDataRule(st: State)
    ensures HasNewDataForRefinement(st) <==> st.feedbackHistory != [] || st.distractions != [] || st.usageLog != []
  {
  }

  /**
    A successful refinement takes the new profile and empties all three logs,
    so there is no new data left; a failed one keeps the logs and shows an
    error. Either way the Dashboard comes back with an idle focus timer and
    no active custom mode. Without a profile nothing happens.
  */
  lemma RefineEffect(st: State, outcome: Option<FocusProfile>)
    ensures var r := RefineProfile(st, outcome);
      && (st.profile.None? ==> r == st)
      && (st.profile.Some? && outcome.Some? ==>
            && r.profile == outcome && r.error.None? && !HasNewDataForRefinement(r)
            && r.tasks == st.tasks && r.streak == st.streak && r.customModes == st.customModes)
      && (st.profile.Some? && outcome.None? ==>
            && r.profile == st.profile && r.error == Some(RefineFailed)
            && r.feedbackHistory == st.feedbackHistory && r.distractions == st.distractions
            && r.usageLog == st.usageLog && HasNewDataForRefinement(r) == HasNewDataForRefinement(st))
      && (st.profile.Some? ==> !r.isActive && !r.isBreak && r.activeMode.None? && Synced(r))
  {
  }

  /**
    Onboarding either shows an error, or takes the profile and, when the user
    granted access, the calendar events and usage data supplied.
  */
  lemma OnboardingEffect(st: State, data: OnboardingWizard.Draft, outcome: Option<FocusProfile>)
    ensures var r := OnboardingComplete(st, data, outcome);
      && (outcome.None? ==> r == st.(error := Some(OnboardingFailed)))
      && (outcome.Some? ==>
            && r.profile == outcome && r.error.None? && Synced(r) && !r.isActive
            && (data.permissionsGranted == Some(true) && data.calendarEvents.Some? ==> r.events == data.calendarEvents.value)
            && (data.permissionsGranted == Some(true) && data.appUsageData.Some? ==> r.usageData == data.appUsageData)
            && (data.permissionsGranted != Some(true) ==> r.events == st.events && r.usageData == st.usageData)
            && r.tasks == st.tasks && r.feedbackHistory == st.feedbackHistory)
  {
  }

  /** A generated mode is appended with the timestamp as id; a failed generation changes nothing. */
  lemma CreateCustomModeEffect(st: State, outcome: Option<CustomModeData>, now: nat)
    ensures var r := CreateCustomMode(st, outcome, now);
      && (outcome.None? ==> r == st)
      && (outcome.Some? ==>
            && |r.customModes| == |st.customModes| + 1
            && r.customModes[..|st.customModes|] == st.customModes
            && var m := r.customModes[|st.customModes|];
               m.id == now && m.name == outcome.value.name && m.pomodoro == outcome.value.pomodoro
               && m.blockedSites == outcome.value.blockedSites && m.goal == outcome.value.goal)
  {
  }

  /**
    Signing out clears the profile, the streak, focus mode, the feedback
    prompt, the tasks, every log, the custom modes and the squad; the user
    and the service's squad table are left as they are.
  */
  lemma SignOutEffect(st: State)
    ensures var r := SignOut(st);
      && r.profile.None? && r.error.None? && r.events == [] && r.usageData.None?
      && r.streak == 0 && !r.focusMode && r.feedback == Idle
      && r.tasks == [] && r.feedbackHistory == [] && r.distractions == [] && r.usageLog == []
      && r.customModes == [] && r.squad.None? && !HasNewDataForRefinement(r)
      && r.user == st.user && r.registry == st.registry
      && !r.isActive && Synced(r)
  {
  }

  /** Signing out twice is signing out once. */
  lemma SignOutIdempotent(st: State)
    ensures SignOut(SignOut(st)) == SignOut(st)
  {
  }

  /** A signed-in user is taken as is; a signed-out one resets the App. */
  lemma AuthStateChangedEffect(st: State, u: Option<User>)
    ensures u.Some? ==> AuthStateChanged(st, u) == st.(user := u)
    ensures u.None? ==> AuthStateChanged(st, u) == SignOut(st).(user := None)
  {
  }

  /**
    The "signed out" report of the service's initial check, as the App
    receives it: nobody is signed in, the profile and everything recorded for
    the session are gone, the squad table is kept, the invariant still holds,
    and a second such report (the notification of a later sign-out) changes
    nothing more.
  */
  lemma {:induction false} SignedOutReportResets(st: State)
    ensures var r := AuthStateChanged(st, None);
      && r.user.None? && r.profile.None? && r.squad.None? && r.error.None?
      && r.events == [] && r.usageLog == [] && r.tasks == [] && r.feedbackHistory == []
      && r.streak == 0 && !r.isActive && !HasNewDataForRefinement(r)
      && r.registry == st.registry
      && (Inv(st) ==> Inv(r))
      && AuthStateChanged(r, None) == r
  {
    SignOutEffect(st.(user := None));
    SignOutIdempotent(st.(user := None));
  }

  /**
    Joining needs a user; it puts the user first in a new squad, registers it
    under its id and stamps that id on the user.
  */
  lemma JoinSquadEffect(st: State, now: nat, draws: seq<(Random, Random)>)
    requires |draws| == BotCount
    ensures var r := JoinSquad(st, now, draws);
      && (st.user.None? ==> r == st)
      && (st.user.Some? ==>
            && r.squad.Some? && r.squad.value.id == SquadId(now)
            && r.registry == st.registry[SquadId(now) := r.squad.value]
            && r.user == Some(st.user.value.(squadId := Some(SquadId(now))))
            && |r.squad.value.members| == 1 + BotCount
            && r.squad.value.members[0].id == st.user.value.uid
            && r.squad.value.members[0].isCurrentUser)
  {
    if st.user.Some? {
      NewSquadShape(st.user.value, now, draws);
    }
  }

  /**
    Setting a goal needs a user and a squad. It changes only the user's own
    goal in the squad, stores the updated squad under its id and leaves every
    other part of the App as it was.
  */
  lemma SetDailyGoalEffect(st: State, goal: string)
    requires Registered(st)
    ensures var r := SetDailyGoal(st, goal);
      && ((st.user.None? || st.squad.None?) ==> r == st)
      && (st.user.Some? && st.squad.Some? ==>
            var before := st.squad.value;
            var uid := st.user.value.uid;
            && r == st.(squad := Some(before.(members := WithGoal(before.members, uid, goal))),
                        registry := st.registry[before.id := r.squad.value])
            && |r.squad.value.members| == |before.members|
            && forall i | 0 <= i < |before.members| ::
                 r.squad.value.members[i] ==
                   if before.members[i].id == uid then before.members[i].(dailyGoal := goal) else before.members[i])
  {
    if st.user.Some? && st.squad.Some? {
      GoalEffect(st.registry, st.squad.value.id, st.user.value.uid, goal);
    }
  }

  /** The custom-mode card's button activates a mode or clears the active one, and the timer follows when idle. */
  lemma ToggleModeActivationEffect(st: State, mode: CustomFocusMode)
    ensures var r := ToggleModeActivation(st, mode);
      && (r.activeMode.None? <==> st.activeMode.Some? && st.activeMode.value.id == mode.id && mode.id != 0)
      && (r.activeMode.Some? ==> r.activeMode == Some(mode))
      && (!st.isActive ==> r.time == PhaseTime(st.isBreak, r.activeMode, st.window, st.hour))
      && (st.isActive ==> r.time == st.time)
  {
    CustomModeCard.ToggleFromDashboard(st.activeMode, mode);
  }
}
