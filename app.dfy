/**
  The focus-session engine as one object: the Pomodoro timer's fields, the
  Dashboard's active custom mode and the App's session bookkeeping, updated
  in place by the timer's operations and the App's handlers. The timer
  reports to the handlers by calling them directly, as its callbacks do.

  Each field has a setter, as each piece of React state does; the handlers
  are sequences of setter calls. Every handler is proved against the step
  function of the same name in module `AppState`, and keeps `Valid()` (an
  idle timer shows the full phase length, and the App's squad is the one the
  squad service stores), so the properties proved in module `AppLaws` hold
  of this object.
*/
module App {
  import opened Types
  import PomodoroTimer
  import SquadService
  import AuthService
  import AppState
  import AppLaws
  import OnboardingWizard

  class Session {
    // the PomodoroTimer component
    var time: int
    var isActive: bool
    var isBreak: bool
    // the Dashboard
    var activeMode: Option<CustomFocusMode>
    var hour: int
    // the App component
    var user: Option<User>
    var profile: Option<FocusProfile>
    var window: PomodoroTimer.PeakWindow
    var events: seq<CalendarEvent>
    var usageData: Option<AppUsageData>
    var error: Option<string>
    var tasks: seq<Task>
    var streak: nat
    var focusMode: bool
    var feedback: AppState.FeedbackStatus
    var feedbackHistory: seq<Feedback>
    var distractions: seq<DistractionLog>
    var usageLog: seq<AppUsageRecord>
    var customModes: seq<CustomFocusMode>
    var squad: Option<Squad>
    // the services the App calls
    const squads: SquadService.SquadStore
    const auth: AuthService.AuthState

    function Snapshot(): AppState.State
      reads this, squads
    {
      AppState.State(time, isActive, isBreak, activeMode, hour, user, profile, window, events, usageData, error,
                     tasks, streak, focusMode, feedback, feedbackHistory, distractions, usageLog,
                     customModes, squad, squads.squads)
    }

    predicate Valid()
      reads this, squads
    {
      AppState.Inv(Snapshot())
    }

    constructor(hour: int, squads: SquadService.SquadStore, auth: AuthService.AuthState)
      requires forall id | id in squads.squads :: squads.squads[id].id == id
      ensures this.squads == squads && this.auth == auth
      ensures Snapshot() == AppState.Initial(hour, squads.squads) && Valid()
    {
      this.squads := squads;
      this.auth := auth;
      this.hour := hour;
      isActive, isBreak, activeMode := false, false, None;
      user, profile, window, events, usageData, error := None, None, PomodoroTimer.NoRange, [], None, None;
      tasks, streak, focusMode, feedback := [], 0, false, AppState.Idle;
      feedbackHistory, distractions, usageLog, customModes, squad := [], [], [], [], None;
      time := PomodoroTimer.PhaseTime(false, None, PomodoroTimer.NoRange, hour);
      AppLaws.InitialState(hour, squads.squads);
    }

    // -------------------------------------------------------------------
    // The state setters

    method SetTime(v: int)
      modifies this
      ensures Snapshot() == old(Snapshot()).(time := v)
    {
      time := v;
    }

    method SetIsActive(v: bool)
      modifies this
      ensures Snapshot() == old(Snapshot()).(isActive := v)
    {
      isActive := v;
    }

    method SetIsBreak(v: bool)
      modifies this
      ensures Snapshot() == old(Snapshot()).(isBreak := v)
    {
      isBreak := v;
    }

    method SetActiveMode(v: Option<CustomFocusMode>)
      modifies this
      ensures Snapshot() == old(Snapshot()).(activeMode := v)
    {
      activeMode := v;
    }

    method SetHour(v: int)
      modifies this
      ensures Snapshot() == old(Snapshot()).(hour := v)
    {
      hour := v;
    }

    method SetUser(v: Option<User>)
      modifies this
      ensures Snapshot() == old(Snapshot()).(user := v)
    {
      user := v;
    }

    /** The profile, with its peak hours decoded once for the timer. */
    method SetProfile(v: Option<FocusProfile>)
      modifies this
      ensures Snapshot() == old(Snapshot()).(profile := v,
        window := if v.Some? then PomodoroTimer.DecodeWindow(v.value.peakFocusHours) else PomodoroTimer.NoRange)
    {
      profile := v;
      window := if v.Some? then PomodoroTimer.DecodeWindow(v.value.peakFocusHours) else PomodoroTimer.NoRange;
    }

    method SetEvents(v: seq<CalendarEvent>)
      modifies this
      ensures Snapshot() == old(Snapshot()).(events := v)
    {
      events := v;
    }

    method SetUsageData(v: Option<AppUsageData>)
      modifies this
      ensures Snapshot() == old(Snapshot()).(usageData := v)
    {
      usageData := v;
    }

    method SetError(v: Option<string>)
      modifies this
      ensures Snapshot() == old(Snapshot()).(error := v)
    {
      error := v;
    }

    method SetTasks(v: seq<Task>)
      modifies this
      ensures Snapshot() == old(Snapshot()).(tasks := v)
    {
      tasks := v;
    }

    method SetStreak(v: nat)
      modifies this
      ensures Snapshot() == old(Snapshot()).(streak := v)
    {
      streak := v;
    }

    method SetFocusMode(v: bool)
      modifies this
      ensures Snapshot() == old(Snapshot()).(focusMode := v)
    {
      focusMode := v;
    }

    method SetFeedback(v: AppState.FeedbackStatus)
      modifies this
      ensures Snapshot() == old(Snapshot()).(feedback := v)
    {
      feedback := v;
    }

    method SetFeedbackHistory(v: seq<Feedback>)
      modifies this
      ensures Snapshot() == old(Snapshot()).(feedbackHistory := v)
    {
      feedbackHistory := v;
    }

    method SetDistractions(v: seq<DistractionLog>)
      modifies this
      ensures Snapshot() == old(Snapshot()).(distractions := v)
    {
      distractions := v;
    }

    method SetUsageLog(v: seq<AppUsageRecord>)
      modifies this
      ensures Snapshot() == old(Snapshot()).(usageLog := v)
    {
      usageLog := v;
    }

    method SetCustomModes(v: seq<CustomFocusMode>)
      modifies this
      ensures Snapshot() == old(Snapshot()).(customModes := v)
    {
      customModes := v;
    }

    method SetSquad(v: Option<Squad>)
      modifies this
      ensures Snapshot() == old(Snapshot()).(squad := v)
    {
      squad := v;
    }

    // -------------------------------------------------------------------
    // The App's callbacks

    method LogDistraction(reason: string, now: nat)
      modifies this
      ensures Snapshot() == AppState.LogDistraction(old(Snapshot()), reason, now)
      ensures old(Valid()) ==> Valid()
    {
      ghost var before := Snapshot();
      SetDistractions(distractions + [DistractionLog(now, reason)]);
      if AppState.Inv(before) {
        AppLaws.CallbacksKeepInvariant(before, reason, now, false);
      }
    }

    method StreakBreak(now: nat)
      modifies this
      ensures Snapshot() == AppState.StreakBreak(old(Snapshot()), now)
      ensures old(Valid()) ==> Valid()
    {
      ghost var before := Snapshot();
      if streak > 0 {
        LogDistraction(AppState.StreakBrokenReason, now);
        SetStreak(0);
      }
      if AppState.Inv(before) {
        AppLaws.CallbacksKeepInvariant(before, "", now, false);
      }
    }

    method FocusModeChange(active: bool)
      modifies this
      ensures Snapshot() == AppState.FocusModeChange(old(Snapshot()), active)
      ensures old(Valid()) ==> Valid()
    {
      ghost var before := Snapshot();
      SetFocusMode(active);
      if active {
        SetFeedback(AppState.Idle);
      }
      if AppState.Inv(before) {
        AppLaws.CallbacksKeepInvariant(before, "", 0, active);
      }
    }

    method SessionComplete()
      modifies this, squads
      ensures Snapshot() == AppState.SessionComplete(old(Snapshot()))
      ensures squads.botIntervals == old(squads.botIntervals)
      ensures old(Valid()) ==> Valid()
    {
      ghost var before := Snapshot();
      SetStreak(streak + 1);
      SetFocusMode(false);
      SetFeedback(AppState.Pending);
      if user.Some? && squad.Some? {
        var r := squads.UpdateProgress(squad.value.id, user.value.uid);
        if r.Ok? {
          SetSquad(Some(r.value));
        }
      }
      if AppState.Inv(before) {
        AppLaws.SessionCompleteKeepsInvariant(before);
      }
    }

    method SessionFeedback(wasProductive: bool, now: nat)
      modifies this
      ensures Snapshot() == AppState.SessionFeedback(old(Snapshot()), wasProductive, now)
      ensures old(Valid()) ==> Valid()
    {
      ghost var before := Snapshot();
      SetFeedbackHistory(feedbackHistory + [Feedback(now, wasProductive)]);
      SetFeedback(AppState.Submitted);
      if AppState.Inv(before) {
        AppLaws.FeedbackKeepsInvariant(before, wasProductive, now);
      }
    }

    method FeedbackTimeout()
      modifies this
      ensures Snapshot() == AppState.FeedbackTimeout(old(Snapshot()))
      ensures old(Valid()) ==> Valid()
    {
      ghost var before := Snapshot();
      SetFeedback(AppState.Idle);
      if AppState.Inv(before) {
        AppLaws.FeedbackKeepsInvariant(before, false, 0);
      }
    }

    // -------------------------------------------------------------------
    // The timer

    /** The effect that re-syncs an idle timer to the phase length. */
    method SyncIdle()
      modifies this
      ensures Snapshot() == AppState.Settle(old(Snapshot()))
    {
      if !isActive {
        SetTime(AppState.FullTime(Snapshot(), isBreak));
      }
    }

    method ToggleTimer()
      modifies this
      ensures Snapshot() == AppState.ToggleTimer(old(Snapshot()))
      ensures old(Valid()) ==> Valid()
    {
      ghost var before := Snapshot();
      var running := !isActive;
      SetIsActive(running);
      FocusModeChange(running && !isBreak);
      SyncIdle();
      if AppState.Inv(before) {
        AppLaws.ToggleKeepsInvariant(before);
      }
    }

    method ResetTimer(now: nat)
      modifies this
      ensures Snapshot() == AppState.ResetTimer(old(Snapshot()), now)
      ensures old(Valid()) ==> Valid()
    {
      ghost var before := Snapshot();
      if isActive && !isBreak {
        LogDistraction(AppState.ResetReason, now);
        StreakBreak(now);
      }
      SetIsActive(false);
      FocusModeChange(false);
      SetTime(AppState.FullTime(Snapshot(), isBreak));
      if AppState.Inv(before) {
        AppLaws.ResetKeepsInvariant(before, now);
      }
    }

    /** `switchMode(completed)`: the phase ran out (`completed`) or the user switched. */
    method SwitchMode(completed: bool, now: nat)
      modifies this, squads
      ensures Snapshot() == AppState.SwitchMode(old(Snapshot()), completed, now)
      ensures squads.botIntervals == old(squads.botIntervals)
      ensures old(Valid()) ==> Valid()
    {
      ghost var before := Snapshot();
      if !isBreak {
        if completed {
          SessionComplete();
        } else if isActive {
          LogDistraction(AppState.SwitchReason, now);
          StreakBreak(now);
        }
      }
      var nowBreak := !isBreak;
      SetIsBreak(nowBreak);
      SetTime(AppState.FullTime(Snapshot(), nowBreak));
      SetIsActive(false);
      FocusModeChange(false);
      if AppState.Inv(before) {
        AppLaws.SwitchModeKeepsInvariant(before, completed, now);
      }
    }

    /** One second of the running interval. */
    method Tick(now: nat)
      modifies this, squads
      ensures Snapshot() == AppState.Tick(old(Snapshot()), now)
      ensures squads.botIntervals == old(squads.botIntervals)
      ensures old(Valid()) ==> Valid()
      ensures Valid() && isActive ==> time >= 1
    {
      ghost var before := Snapshot();
      if isActive {
        if time <= 1 {
          SwitchMode(true, now);
        } else {
          SetTime(time - 1);
        }
      }
      if AppState.Inv(before) {
        AppLaws.TickKeepsInvariant(before, now);
      }
    }

    /** `setActiveCustomMode`. */
    method ActivateMode(mode: Option<CustomFocusMode>)
      modifies this
      ensures Snapshot() == AppState.ActivateMode(old(Snapshot()), mode)
      ensures old(Valid()) ==> Valid()
    {
      ghost var before := Snapshot();
      SetActiveMode(mode);
      SyncIdle();
      if AppState.Inv(before) {
        AppLaws.LengthChangeKeepsInvariant(before, mode, CustomFocusMode(0, "", "", [], PomodoroConfig(0, 0)), hour);
      }
    }

    /** The wall clock enters a new hour. */
    method ClockHour(h: int)
      modifies this
      ensures Snapshot() == AppState.ClockHour(old(Snapshot()), h)
      ensures old(Valid()) ==> Valid()
    {
      ghost var before := Snapshot();
      SetHour(h);
      SyncIdle();
      if AppState.Inv(before) {
        AppLaws.LengthChangeKeepsInvariant(before, None, CustomFocusMode(0, "", "", [], PomodoroConfig(0, 0)), h);
      }
    }

    // -------------------------------------------------------------------
    // Tasks, usage and custom modes

    method AddTask(text: string, now: nat)
      modifies this
      ensures Snapshot() == AppState.AddTask(old(Snapshot()), text, now)
      ensures old(Valid()) ==> Valid()
    {
      ghost var before := Snapshot();
      SetTasks(tasks + [Task(now, text, false)]);
      if AppState.Inv(before) {
        AppLaws.TasksKeepInvariant(before, text, now, 0);
      }
    }

    method ToggleTask(id: nat)
      modifies this
      ensures Snapshot() == AppState.ToggleTask(old(Snapshot()), id)
      ensures old(Valid()) ==> Valid()
    {
      ghost var before := Snapshot();
      SetTasks(AppState.ToggledTasks(tasks, id));
      if AppState.Inv(before) {
        AppLaws.TasksKeepInvariant(before, "", 0, id);
      }
    }

    method DeleteTask(id: nat)
      modifies this
      ensures Snapshot() == AppState.DeleteTask(old(Snapshot()), id)
      ensures old(Valid()) ==> Valid()
    {
      ghost var before := Snapshot();
      SetTasks(AppState.WithoutTask(tasks, id));
      if AppState.Inv(before) {
        AppLaws.TasksKeepInvariant(before, "", 0, id);
      }
    }

    /** One entry from the usage-logging interval. */
    method LogUsage(entry: AppUsageRecord)
      modifies this
      ensures Snapshot() == AppState.LogUsage(old(Snapshot()), entry)
      ensures old(Valid()) ==> Valid()
    {
      ghost var before := Snapshot();
      SetUsageLog(AppState.MergeUsage(usageLog, entry));
      if AppState.Inv(before) {
        AppLaws.UsageAndModesKeepInvariant(before, entry, None, 0);
      }
    }

    method CreateCustomMode(outcome: Option<CustomModeData>, now: nat)
      modifies this
      ensures Snapshot() == AppState.CreateCustomMode(old(Snapshot()), outcome, now)
      ensures old(Valid()) ==> Valid()
    {
      ghost var before := Snapshot();
      if outcome.Some? {
        var d := outcome.value;
        SetCustomModes(customModes + [CustomFocusMode(now, d.name, d.goal, d.blockedSites, d.pomodoro)]);
      }
      if AppState.Inv(before) {
        AppLaws.UsageAndModesKeepInvariant(before, AppUsageRecord("", 0), outcome, now);
      }
    }

    // -------------------------------------------------------------------
    // Profile, sign-out and the squad

    /** The Dashboard unmounts and mounts again. */
    method Remount()
      modifies this
      ensures Snapshot() == AppState.Remount(old(Snapshot()))
    {
      SetActiveMode(None);
      SetIsActive(false);
      SetIsBreak(false);
      SetTime(AppState.FullTime(Snapshot(), false));
    }

    method RefineProfile(outcome: Option<FocusProfile>)
      modifies this
      ensures Snapshot() == AppState.RefineProfile(old(Snapshot()), outcome)
      ensures old(Valid()) ==> Valid()
    {
      ghost var before := Snapshot();
      if profile.None? {
        return;
      }
      if outcome.Some? {
        SetProfile(outcome);
        SetError(None);
        SetFeedbackHistory([]);
        SetDistractions([]);
        SetUsageLog([]);
      } else {
        SetError(Some(AppState.RefineFailed));
      }
      Remount();
      if AppState.Inv(before) {
        AppLaws.RefineKeepsInvariant(before, outcome);
      }
    }

    /** The calendar events and usage data the wizard collected, kept only with permissions granted. */
    method TakeGrantedData(data: OnboardingWizard.Draft)
      modifies this
      ensures Snapshot() == AppState.GrantedData(old(Snapshot()), data)
    {
      if data.permissionsGranted == Some(true) {
        if data.calendarEvents.Some? {
          SetEvents(data.calendarEvents.value);
        }
        if data.appUsageData.Some? {
          SetUsageData(data.appUsageData);
        }
      }
    }

    method OnboardingComplete(data: OnboardingWizard.Draft, outcome: Option<FocusProfile>)
      modifies this
      ensures Snapshot() == AppState.OnboardingComplete(old(Snapshot()), data, outcome)
      ensures old(Valid()) ==> Valid()
    {
      ghost var before := Snapshot();
      if outcome.None? {
        SetError(Some(AppState.OnboardingFailed));
      } else {
        SetProfile(outcome);
        SetError(None);
        TakeGrantedData(data);
        Remount();
      }
      if AppState.Inv(before) {
        AppLaws.OnboardingKeepsInvariant(before, data, outcome);
      }
    }

    /** The account part of the sign-out reset: profile, calendar, usage data, error, squad. */
    method ClearAccount()
      modifies this
      ensures Snapshot() == old(Snapshot()).(profile := None, window := PomodoroTimer.NoRange, events := [],
                                             usageData := None, error := None, squad := None)
    {
      SetProfile(None);
      SetEvents([]);
      SetUsageData(None);
      SetError(None);
      SetSquad(None);
    }

    /** The session part of the sign-out reset: tasks, streak, feedback, the logs and the custom modes. */
    method ClearSessionLog()
      modifies this
      ensures Snapshot() == old(Snapshot()).(tasks := [], streak := 0, focusMode := false, feedback := AppState.Idle,
                                             feedbackHistory := [], distractions := [], usageLog := [], customModes := [])
    {
      SetTasks([]);
      SetStreak(0);
      SetFocusMode(false);
      SetFeedback(AppState.Idle);
      SetFeedbackHistory([]);
      SetDistractions([]);
      SetUsageLog([]);
      SetCustomModes([]);
    }

    /** `handleSignOut(callService)`. */
    method SignOut(callService: bool)
      modifies this, auth
      ensures Snapshot() == AppState.SignOut(old(Snapshot()))
      ensures old(Valid()) ==> Valid()
      ensures callService ==> auth.currentUser.None? && auth.listener == old(auth.listener)
      ensures !callService ==> auth.currentUser == old(auth.currentUser) && auth.listener == old(auth.listener)
      ensures auth.pendingNotifications ==
                old(auth.pendingNotifications) + (if callService && old(auth.listener).Some? then 1 else 0)
    {
      ghost var before := Snapshot();
      if callService {
        auth.SignOut();
      }
      ClearAccount();
      ClearSessionLog();
      Remount();
      if AppState.Inv(before) {
        AppLaws.SignOutKeepsInvariant(before);
      }
    }

    /** The listener the App registers with the auth service. */
    method AuthStateChanged(u: Option<User>)
      modifies this, auth
      ensures Snapshot() == AppState.AuthStateChanged(old(Snapshot()), u)
      ensures old(Valid()) ==> Valid()
      ensures auth.currentUser == old(auth.currentUser) && auth.listener == old(auth.listener)
      ensures auth.pendingNotifications == old(auth.pendingNotifications)
    {
      ghost var before := Snapshot();
      SetUser(u);
      if u.None? {
        SignOut(false);
      }
      if AppState.Inv(before) {
        AppLaws.AuthKeepsInvariant(before, u);
      }
    }

    /** The button of the error screen. */
    method AcknowledgeError()
      modifies this, auth
      ensures Snapshot() == AppState.AcknowledgeError(old(Snapshot()))
      ensures old(Valid()) ==> Valid()
      ensures old(profile).None? ==> auth.currentUser.None?
      ensures old(profile).Some? ==> auth.currentUser == old(auth.currentUser)
      ensures auth.listener == old(auth.listener)
      ensures auth.pendingNotifications ==
                old(auth.pendingNotifications) + (if old(profile).None? && old(auth.listener).Some? then 1 else 0)
    {
      ghost var before := Snapshot();
      SetError(None);
      if profile.None? {
        SignOut(true);
      }
      if AppState.Inv(before) {
        AppLaws.AcknowledgeKeepsInvariant(before);
      }
    }

    method JoinSquad(now: nat, draws: seq<(SquadService.Random, SquadService.Random)>)
      requires |draws| == SquadService.BotCount
      modifies this, squads
      ensures Snapshot() == AppState.JoinSquad(old(Snapshot()), now, draws)
      ensures squads.botIntervals == old(squads.botIntervals)
      ensures old(Valid()) ==> Valid()
    {
      ghost var before := Snapshot();
      if user.None? {
        return;
      }
      var sq, joined := squads.JoinSquad(user.value, now, draws);
      SetSquad(Some(sq));
      SetUser(Some(joined));
      if AppState.Inv(before) {
        AppLaws.SquadKeepsInvariant(before, now, draws, "");
      }
    }

    method SetDailyGoal(goal: string)
      modifies this, squads
      ensures Snapshot() == AppState.SetDailyGoal(old(Snapshot()), goal)
      ensures squads.botIntervals == old(squads.botIntervals)
      ensures old(Valid()) ==> Valid()
    {
      ghost var before := Snapshot();
      if user.None? || squad.None? {
        return;
      }
      var r := squads.SetDailyGoal(squad.value.id, user.value.uid, goal);
      if r.Ok? {
        SetSquad(Some(r.value));
      }
      if AppState.Inv(before) {
        AppLaws.SquadKeepsInvariant(before, 0, [(0.0, 0.0), (0.0, 0.0), (0.0, 0.0)], goal);
      }
    }

    /** `hasNewDataForRefinement`, which enables the refine button. */
    predicate HasNewDataForRefinement()
      reads this
    {
      |feedbackHistory| > 0 || |distractions| > 0 || |usageLog| > 0
    }
  }
}
