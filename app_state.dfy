/**
  The focus-session engine as a state machine on values: the countdown of the
  Pomodoro timer, the active custom mode and the clock hour it reads, the
  session bookkeeping of the App component, and the squad registry it calls
  into. Each handler is a function from the state before to the state after;
  the `Session` class in module `App` performs the same steps in place and is
  proved against these functions.

  React re-renders and effects are collapsed into the step that triggers them:
  the effect that re-syncs an idle timer to the full phase length runs at the
  end of every step that can change that length (`Settle`), and a component
  that unmounts and mounts again starts from its initial state (`Remount`).
*/
module AppState {
  import opened Types
  import opened JsText
  import opened PomodoroTimer
  import opened SquadService
  import OnboardingWizard
  import CustomModeCard

  datatype FeedbackStatus = Idle | Pending | Submitted

  const ResetReason: string := "Timer was reset during a focus session."
  const SwitchReason: string := "Switched modes during a focus session."
  const StreakBrokenReason: string := "Focus streak was broken."
  const OnboardingFailed: string := "Sorry, we couldn't create your focus profile. Please try again."
  const RefineFailed: string := "We couldn't refine your profile right now. Please try again later."

  datatype State = State(
    // the PomodoroTimer component
    time: int,
    isActive: bool,
    isBreak: bool,
    // the Dashboard: the active custom mode, and the hour of the clock the timer reads
    activeMode: Option<CustomFocusMode>,
    hour: int,
    // the App component
    user: Option<User>,
    profile: Option<FocusProfile>,
    // the profile's peak hours as `isPeakTime` decodes them (see `Decoded`)
    window: PeakWindow,
    events: seq<CalendarEvent>,
    usageData: Option<AppUsageData>,
    error: Option<string>,
    tasks: seq<Task>,
    streak: nat,
    focusMode: bool,
    feedback: FeedbackStatus,
    feedbackHistory: seq<Feedback>,
    distractions: seq<DistractionLog>,
    usageLog: seq<AppUsageRecord>,
    customModes: seq<CustomFocusMode>,
    squad: Option<Squad>,
    // the module-level squad table of the squad service
    registry: map<string, Squad>)

  // ---------------------------------------------------------------------
  // Phase lengths and the timer invariant

  function PeakHours(st: State): (descriptor: string)
  {
    if st.profile.Some? then st.profile.value.peakFocusHours else ""
  }

  /** The window kept with the profile is the decoding of its peak-hours descriptor. */
  predicate Decoded(st: State)
  {
    st.window == DecodeWindow(PeakHours(st))
  }

  /** A new focus profile, with its peak hours decoded. */
  function WithProfile(st: State, p: FocusProfile): (r: State)
  {
    st.(profile := Some(p), window := DecodeWindow(p.peakFocusHours))
  }

  /** FOCUS_TIME or BREAK_TIME as the timer computes them at this render. */
  function FullTime(st: State, isBreak: bool): (seconds: nat)
  {
    PhaseTime(isBreak, st.activeMode, st.window, st.hour)
  }

  /** An idle timer shows the full length of its phase. */
  predicate Synced(st: State)
  {
    !st.isActive ==> st.time == FullTime(st, st.isBreak)
  }

  /** The App's squad is the one the service keeps under its id. */
  predicate Registered(st: State)
  {
    && (forall id | id in st.registry :: st.registry[id].id == id)
    && (st.squad.Some? ==> st.squad.value.id in st.registry && st.registry[st.squad.value.id] == st.squad.value)
  }

  predicate Inv(st: State)
  {
    Synced(st) && Registered(st)
  }

  /** The effect that re-syncs an idle timer to the current phase length. */
  function Settle(st: State): (r: State)
  {
    if st.isActive then st else st.(time := FullTime(st, st.isBreak))
  }

  /** The Dashboard leaves the screen and returns: a fresh timer, no active mode. */
  function Remount(st: State): (r: State)
  {
    var blank := st.(activeMode := None, isActive := false, isBreak := false);
    blank.(time := FullTime(blank, false))
  }

  /** The state when the App first renders, at clock hour `hour`. */
  function Initial(hour: int, registry: map<string, Squad>): (r: State)
  {
    Remount(State(0, false, false, None, hour, None, None, NoRange, [], None, None, [], 0, false, Idle,
                  [], [], [], [], None, registry))
  }

  // ---------------------------------------------------------------------
  // The App's callbacks

  function LogDistraction(st: State, reason: string, now: nat): (r: State)
  {
    st.(distractions := st.distractions + [DistractionLog(now, reason)])
  }

  function StreakBreak(st: State, now: nat): (r: State)
  {
    if st.streak > 0 then LogDistraction(st, StreakBrokenReason, now).(streak := 0) else st
  }

  function FocusModeChange(st: State, active: bool): (r: State)
  {
    if active then st.(focusMode := true, feedback := Idle) else st.(focusMode := false)
  }

  /**
    `handleSessionComplete`. With a signed-in user in a squad it records the
    session with the squad service; the service cannot fail here while
    `Registered` holds (`RegisteredSquadIsFound`).
  */
  function SessionComplete(st: State): (r: State)
  {
    var done := st.(streak := st.streak + 1, focusMode := false, feedback := Pending);
    if st.user.Some? && st.squad.Some? then
      match ProgressOutcome(st.registry, st.squad.value.id, st.user.value.uid)
      case Ok(sq) => done.(squad := Some(sq), registry := st.registry[st.squad.value.id := sq])
      case Err(_) => done
    else done
  }

  function SessionFeedback(st: State, wasProductive: bool, now: nat): (r: State)
  {
    st.(feedbackHistory := st.feedbackHistory + [Feedback(now, wasProductive)], feedback := Submitted)
  }

  /** The delayed step two seconds after feedback. */
  function FeedbackTimeout(st: State): (r: State)
  {
    st.(feedback := Idle)
  }

  // ---------------------------------------------------------------------
  // The timer's operations

  function ToggleTimer(st: State): (r: State)
  {
    var running := !st.isActive;
    Settle(FocusModeChange(st.(isActive := running), running && !st.isBreak))
  }

  function ResetTimer(st: State, now: nat): (r: State)
  {
    var reported := if st.isActive && !st.isBreak then StreakBreak(LogDistraction(st, ResetReason, now), now) else st;
    FocusModeChange(reported.(isActive := false), false).(time := FullTime(reported, reported.isBreak))
  }

  function SwitchMode(st: State, completed: bool, now: nat): (r: State)
  {
    var reported :=
      if st.isBreak then st
      else if completed then SessionComplete(st)
      else if st.isActive then StreakBreak(LogDistraction(st, SwitchReason, now), now)
      else st;
    var nowBreak := !st.isBreak;
    FocusModeChange(reported.(isBreak := nowBreak, time := FullTime(reported, nowBreak), isActive := false), false)
  }

  /** One second of the interval; a running timer at 1 or below completes its phase. */
  function Tick(st: State, now: nat): (r: State)
  {
    if !st.isActive then st
    else if st.time <= 1 then SwitchMode(st, true, now)
    else st.(time := st.time - 1)
  }

  /** `n` ticks at the same timestamp. */
  function RunTicks(st: State, n: nat, now: nat): (r: State)
    decreases n
  {
    if n == 0 then st else RunTicks(Tick(st, now), n - 1, now)
  }

  /** `setActiveCustomMode` in the Dashboard. */
  function ActivateMode(st: State, mode: Option<CustomFocusMode>): (r: State)
  {
    Settle(st.(activeMode := mode))
  }

  /** An Activate/Active button of the custom-mode card. */
  function ToggleModeActivation(st: State, mode: CustomFocusMode): (r: State)
  {
    ActivateMode(st, CustomModeCard.Activation(CustomModeCard.ActiveModeId(st.activeMode), mode))
  }

  /** The wall clock enters hour `h`; the next render recomputes FOCUS_TIME. */
  function ClockHour(st: State, h: int): (r: State)
  {
    Settle(st.(hour := h))
  }

  // ---------------------------------------------------------------------
  // Tasks and the usage log

  function ToggledTasks(tasks: seq<Task>, id: nat): (r: seq<Task>)
    ensures |r| == |tasks|
  {
    if tasks == [] then []
    else
      var t := if tasks[0].id == id then tasks[0].(completed := !tasks[0].completed) else tasks[0];
      [t] + ToggledTasks(tasks[1..], id)
  }

  function WithoutTask(tasks: seq<Task>, id: nat): (r: seq<Task>)
    ensures |r| <= |tasks|
  {
    if tasks == [] then []
    else if tasks[0].id == id then WithoutTask(tasks[1..], id)
    else [tasks[0]] + WithoutTask(tasks[1..], id)
  }

  function CountTask(tasks: seq<Task>, id: nat): (count: nat)
  {
    if tasks == [] then 0 else (if tasks[0].id == id then 1 else 0) + CountTask(tasks[1..], id)
  }

  function AddTask(st: State, text: string, now: nat): (r: State)
  {
    st.(tasks := st.tasks + [Task(now, text, false)])
  }

  function ToggleTask(st: State, id: nat): (r: State)
  {
    st.(tasks := ToggledTasks(st.tasks, id))
  }

  function DeleteTask(st: State, id: nat): (r: State)
  {
    st.(tasks := WithoutTask(st.tasks, id))
  }

  function Names(log: seq<AppUsageRecord>): (names: seq<string>)
    ensures |names| == |log|
  {
    if log == [] then [] else [log[0].name] + Names(log[1..])
  }

  predicate UniqueNames(log: seq<AppUsageRecord>)
  {
    forall i, j | 0 <= i < j < |log| :: log[i].name != log[j].name
  }

  function AddMinutes(log: seq<AppUsageRecord>, entry: AppUsageRecord): (r: seq<AppUsageRecord>)
    ensures |r| == |log|
  {
    if log == [] then []
    else
      var e := if log[0].name == entry.name then log[0].(minutes := log[0].minutes + entry.minutes) else log[0];
      [e] + AddMinutes(log[1..], entry)
  }

  /** The usage-log update of the logging interval. */
  function MergeUsage(log: seq<AppUsageRecord>, entry: AppUsageRecord): (merged: seq<AppUsageRecord>)
  {
    if entry.name in Names(log) then AddMinutes(log, entry) else log + [entry]
  }

  function TotalMinutes(log: seq<AppUsageRecord>): (total: int)
  {
    if log == [] then 0 else log[0].minutes + TotalMinutes(log[1..])
  }

  function LogUsage(st: State, entry: AppUsageRecord): (r: State)
  {
    st.(usageLog := MergeUsage(st.usageLog, entry))
  }

  predicate HasNewDataForRefinement(st: State)
  {
    |st.feedbackHistory| > 0 || |st.distractions| > 0 || |st.usageLog| > 0
  }

  // ---------------------------------------------------------------------
  // Profile, custom modes, sign-out and the squad

  /**
    `handleRefineProfile` with the generator's answer (`None` when it fails).
    While it runs the App shows a loader, so the Dashboard remounts.
  */
  function RefineProfile(st: State, outcome: Option<FocusProfile>): (r: State)
  {
    if st.profile.None? then st
    else match outcome
      case Some(p) =>
        Remount(ClearLogs(WithProfile(st, p).(error := None)))
      case None => Remount(st.(error := Some(RefineFailed)))
  }

  /** A refined profile starts over with empty feedback, distraction and usage logs. */
  function ClearLogs(st: State): (r: State)
  {
    st.(feedbackHistory := [], distractions := [], usageLog := [])
  }

  /** `handleOnboardingComplete` with the wizard's data and the generator's answer. */
  function OnboardingComplete(st: State, data: OnboardingWizard.Draft, outcome: Option<FocusProfile>): (r: State)
  {
    match outcome
    case None => st.(error := Some(OnboardingFailed))
    case Some(p) => Remount(GrantedData(WithProfile(st, p).(error := None), data))
  }

  /** With permissions granted, the wizard's calendar events and usage data are taken over when present. */
  function GrantedData(st: State, data: OnboardingWizard.Draft): (r: State)
  {
    if data.permissionsGranted == Some(true) then
      st.(events := if data.calendarEvents.Some? then data.calendarEvents.value else st.events,
          usageData := if data.appUsageData.Some? then data.appUsageData else st.usageData)
    else st
  }

  /** `handleCreateCustomMode`; a failed generation only raises an alert. */
  function CreateCustomMode(st: State, outcome: Option<CustomModeData>, now: nat): (r: State)
  {
    match outcome
    case None => st
    case Some(d) => st.(customModes := st.customModes + [CustomFocusMode(now, d.name, d.goal, d.blockedSites, d.pomodoro)])
  }

  /** The reset part of `handleSignOut`; the Dashboard leaves the screen. */
  function SignOut(st: State): (r: State)
  {
    Remount(st.(profile := None, window := NoRange, events := [], usageData := None, error := None, tasks := [], streak := 0,
                focusMode := false, feedback := Idle, feedbackHistory := [], distractions := [],
                usageLog := [], customModes := [], squad := None))
  }

  /** The auth-state listener. */
  function AuthStateChanged(st: State, u: Option<User>): (r: State)
  {
    if u.Some? then st.(user := u) else SignOut(st.(user := None))
  }

  /** The error screen's button: clears the error, and signs out when there is no profile. */
  function AcknowledgeError(st: State): (r: State)
  {
    if st.profile.Some? then st.(error := None) else SignOut(st.(error := None))
  }

  function JoinSquad(st: State, now: nat, draws: seq<(Random, Random)>): (r: State)
    requires |draws| == BotCount
  {
    if st.user.None? then st
    else
      var sq := NewSquad(st.user.value, now, draws);
      st.(squad := Some(sq), registry := st.registry[sq.id := sq],
          user := Some(st.user.value.(squadId := Some(sq.id))))
  }

  function SetDailyGoal(st: State, goal: string): (r: State)
  {
    if st.user.None? || st.squad.None? then st
    else match GoalOutcome(st.registry, st.squad.value.id, st.user.value.uid, goal)
      case Ok(sq) => st.(squad := Some(sq), registry := st.registry[st.squad.value.id := sq])
      case Err(_) => st
  }
}
