# FocusForge focus-session engine, modelled in Dafny

FocusForge is a productivity web app. It has a Pomodoro timer whose focus
length follows the user's AI-generated focus profile: 35 minutes inside the
profile's peak hours, 25 outside them, and a 5-minute break, unless a custom
focus mode sets its own lengths. Around the timer, the App component keeps
the session bookkeeping:
- a focus streak;
- focus mode;
- a feedback prompt after each completed session;
- logs of feedback, distractions and app usage, which feed the next profile
  refinement;
- a task list, custom modes and a focus squad.

Two mock services back it, one for authentication and one for squads. An
onboarding wizard collects the data for the first profile.

This project models that engine and proves what it promises.

- `JsText` (js_text.dfy) holds the JavaScript string behaviour the code
  relies on:
  - `String.prototype.split` and `join`;
  - `Number` on digit strings;
  - the decimal rendering of `Date.now()`;
  - `String.prototype.trim`.
- `Types` (types.dfy) holds the records of `types.ts`.
- `PomodoroTimer` (pomodoro_timer.dfy) holds the duration policy of the
  timer:
  - `parseTime` and `isPeakTime`, with the peak-hours descriptor decoded
    into a window of clock hours;
  - `FOCUS_TIME` and `BREAK_TIME`.
- `AppState` (app_state.dfy) is the whole engine as a state machine on
  values:
  - the timer's countdown, the Dashboard's active custom mode and the clock
    hour;
  - the App's state and the squad registry;
  - one step function per handler.
- `AppLaws` (app_laws.dfy) proves properties of those step functions:
  - the invariant every step keeps: an idle timer shows the full phase
    length, and the App's squad is the one the squad service stores;
  - the effect of each handler;
  - the full focus cycle: started from idle, the timer completes after
    exactly its length in ticks.
- `App` (app.dfy) is class `Session`, the same engine as an object:
  - one field per piece of React state;
  - one setter per field;
  - every handler is a method built from setter calls and proved against
    its step function;
  - every handler keeps `Valid()`.
- `SquadService`, `AuthService`, `OnboardingWizard`, `StepDistractions` and
  `CustomModeCard` model their source files. Module-level state and
  component state are classes whose methods update them in place.

Inputs from outside the program are parameters:
- the clock hour (`getHours()`);
- `Date.now()`;
- the `Math.random()` draws;
- the answers of the AI generator (`None` when it fails);
- the app-usage entries the logging interval produces.

Timers and intervals become explicit steps: `Tick`, `FeedbackTimeout`,
`LogUsage` and `DeliverNotification`.

### Where the code departs from what a user would expect

The model follows the code in each case:
- **Stopping the timer.** The button of a running timer shows a pause icon
  (PomodoroTimer.tsx:164), which suggests that stopping keeps the remaining
  time. In the code, the effect at PomodoroTimer.tsx:64-68 runs as soon as
  `isActive` is false and sets the time back to the full phase length
  (`ToggleEffect`).
- **Length changes while running.** One might expect the remaining time
  never to exceed the phase length. A running timer keeps its time when the
  phase length changes (a custom mode is deactivated, or the peak window
  starts), so the remaining time can exceed the new length
  (`RunningTimeUnaffected`).
- **Distractions logged by a reset.** One might expect a reset of a running
  focus phase to log one distraction entry. The code also calls
  `handleStreakBreak`, which appends a second entry,
  "Focus streak was broken.", when the streak is positive (`ResetEffect`).

## Model

| member | source | states |
|---|---|---|
| JsText.JoinSplit | components/dashboard/PomodoroTimer.tsx:28 | joining the pieces of `split` with the separator gives the string back |
| JsText.SplitFirst | components/dashboard/PomodoroTimer.tsx:28 | the first piece of `split` is the text before the first occurrence of the separator, the rest is the split of what follows |
| JsText.SplitCharHead | services/authService.ts:53 | `s.split(c)[0]` is the prefix of `s` before the first `c`, and contains no `c` |
| JsText.NatToStringRoundTrip | services/authService.ts:51 | the decimal rendering of a timestamp is a non-empty digit string that `Number` reads back as the same number |
| JsText.NatToStringInjective | services/squadService.ts:15 | different timestamps render differently |
| JsText.Utf16LengthBmp | services/authService.ts:46 | `length` counts UTF-16 code units, which equals the number of characters on text without characters beyond U+FFFF |
| AuthService.PasswordLengthInCodeUnits | services/authService.ts:46 | three characters beyond U+FFFF pass the 6-unit length rule, three letters do not |
| JsText.TrimEmptyIffAllSpace | components/dashboard/CustomModeCard.tsx:21 | `trim()` gives "" exactly when the prompt is all JavaScript white space |
| PomodoroTimer.ParseClockTime | components/dashboard/PomodoroTimer.tsx:30-36 | on "h:mm MOD", `parseTime` gives 0 for 12 AM, h+12 for h PM with h < 12, and h otherwise; the minutes play no part |
| PomodoroTimer.TwelveOClock | components/dashboard/PomodoroTimer.tsx:33-34 | "12 AM" is hour 0 and "12 PM" is hour 12 |
| PomodoroTimer.WordIsNaN | components/dashboard/PomodoroTimer.tsx:31-35 | a single word with no space and no ':' that is not a decimal numeral reads as NaN (with `Number` restricted as under Left out) |
| PomodoroTimer.NoonIsNaN | components/dashboard/PomodoroTimer.tsx:31-35 | the word "noon" reads as NaN |
| PomodoroTimer.RangeParts | components/dashboard/PomodoroTimer.tsx:28 | "start - end" splits into exactly its two clock strings, and decodes into their two hours |
| PomodoroTimer.WindowMembership | components/dashboard/PomodoroTimer.tsx:41-45 | for two decodable ends, the hour is peak iff start <= hour < end (same day), or hour >= start or hour < end (overnight); the code as written agrees |
| PomodoroTimer.NoSeparatorIsOffPeak | components/dashboard/PomodoroTimer.tsx:46-49 | a descriptor without " - " is never peak, as written and as corrected |
| PomodoroTimer.UnparseableIsOffPeak | components/dashboard/PomodoroTimer.tsx:46-49 | in the corrected check, any descriptor with a missing or NaN end is not peak |
| PomodoroTimer.CorrectionOnlyAffectsNaN | components/dashboard/PomodoroTimer.tsx:38-45 | the corrected check equals the code whenever both ends decode to numbers |
| PomodoroTimer.AsWrittenNaNEndTime | components/dashboard/PomodoroTimer.tsx:41-45 | as written, a NaN end makes every hour at or after the start peak; corrected, none is |
| PomodoroTimer.AsWrittenNaNStartTime | components/dashboard/PomodoroTimer.tsx:41-45 | as written, a NaN start makes every hour before the end peak; corrected, none is |
| PomodoroTimer.MalformedEndCountsAsPeak | components/dashboard/PomodoroTimer.tsx:23-50 | "9:00 AM - noon" at 10 o'clock is peak as written and not peak as corrected |
| PomodoroTimer.MalformedStartCountsAsPeak | components/dashboard/PomodoroTimer.tsx:23-50 | "noon - 5:00 PM" at 10 o'clock is peak as written and not peak as corrected |
| PomodoroTimer.CustomModeIgnoresPeakHours | components/dashboard/PomodoroTimer.tsx:55-56 | with a custom mode, focus and break lengths are its minutes times 60, whatever the window and hour |
| PomodoroTimer.DefaultDurations | components/dashboard/PomodoroTimer.tsx:55-56 | without a custom mode, focus is 2100 s iff the hour is peak and 1500 s iff not; break is 300 s |
| PomodoroTimer.MorningPeakExample | components/dashboard/PomodoroTimer.tsx:55 | "9:00 AM - 11:30 AM": 2100 s of focus at 10 o'clock, 1500 s at 13 o'clock |
| PomodoroTimer.OvernightPeakExample | components/dashboard/PomodoroTimer.tsx:43-44 | "10:00 PM - 6:00 AM" wraps midnight: 23 o'clock is peak, 7 o'clock is not |
| PomodoroTimer.CustomModeExample | components/dashboard/PomodoroTimer.tsx:55-56 | a 45/15 mode gives 2700 s of focus and 900 s of break |
| SquadService.Pick | services/squadService.ts:28-29 | `Math.floor(Math.random() * n)` is an index below n |
| SquadService.UidPrefix | services/squadService.ts:18 | `uid.slice(0, 4)` is the first min(4, length) characters |
| SquadService.NewSquadShape | services/squadService.ts:14-38 | a new squad has id "squad_" + time and four members: the current user first (no goal, no sessions), then bot_0..bot_2 with their names, a goal from the list and 0 to 2 sessions |
| SquadService.MemberNameChoice | services/squadService.ts:18 | the user's member name is the display name when non-empty, else "User #" and the uid's first four characters |
| SquadService.SquadIdsDistinct | services/squadService.ts:15 | squads created at different instants have different ids |
| SquadService.WithGoalEffect | services/squadService.ts:57-59 | the goal update keeps length and order and changes exactly the goals of the members with that id |
| SquadService.WithGoalLastWins | services/squadService.ts:53-61 | of two goal updates, the last wins |
| SquadService.WithSessionEffect | services/squadService.ts:70-72 | the progress update keeps length and order and adds one session to exactly the members with that id |
| SquadService.WithSessionTotal | services/squadService.ts:70-72 | the total of sessions grows by the number of members with that id |
| SquadService.ProgressEffect | services/squadService.ts:66-74 | an unknown squad fails with "Squad not found"; otherwise the id and member count stay, and with unique ids the user's sessions and the total grow by exactly one |
| SquadService.GoalEffect | services/squadService.ts:53-61 | an unknown squad fails with "Squad not found"; otherwise the result is the squad with its `WithGoal` update: each member with the user's id gets the new goal and every other member, and every other field, is unchanged |
| SquadService.SquadStore.constructor | services/squadService.ts:5-6 | the registries start empty |
| SquadService.SquadStore.CreateNewSquad | services/squadService.ts:14-38 | returns the new squad and stores it under its id; intervals unchanged |
| SquadService.SquadStore.JoinSquad | services/squadService.ts:44-48 | creates and stores a new squad and stamps its id on the user |
| SquadService.SquadStore.SetDailyGoal | services/squadService.ts:53-61 | returns the goal outcome and stores the updated squad only on success |
| SquadService.SquadStore.UpdateProgress | services/squadService.ts:66-74 | returns the progress outcome and stores the updated squad only on success |
| SquadService.SquadStore.StartBotUpdates | services/squadService.ts:79-104 | registers the interval handle and returns it; squads unchanged |
| SquadService.SquadStore.StopBotUpdates | services/squadService.ts:106-109 | removes the handle; squads unchanged |
| AuthService.TakenEmailCheckedFirst | services/authService.ts:43-45 | exists@test.com is refused as already in use, whatever the password |
| AuthService.SignUpRules | services/authService.ts:39-57 | sign-up succeeds iff the address is free and the password is at least 6 UTF-16 code units long; the user carries the address, "uid_" + time, and the text before the first '@' as display name |
| AuthService.SignInRules | services/authService.ts:62-81 | sign-in succeeds iff user@test.com with password123; exists@test.com with another password is a wrong password; every other failure is an unknown user |
| AuthService.AuthState.constructor | services/authService.ts:5-6 | nobody signed in, no listener |
| AuthService.AuthState.NotifyListener | services/authService.ts:8-13 | schedules one delivery exactly when a listener is registered |
| AuthService.AuthState.DeliverNotification | services/authService.ts:11 | a scheduled delivery calls the listener registered when it fires with the current user, and nothing without one |
| AuthService.AuthState.Subscribe | services/authService.ts:20-21 | the callback becomes the listener |
| AuthService.AuthState.Unsubscribe | services/authService.ts:31-33 | clears the listener |
| AuthService.AuthState.SignUpWithEmail | services/authService.ts:39-57 | returns the sign-up outcome; on success the user is current and the listener is notified |
| AuthService.AuthState.SignInWithEmail | services/authService.ts:62-81 | returns the sign-in outcome; on success the user is current and the listener is notified |
| AuthService.AuthState.SignInWithGoogle | services/authService.ts:86-98 | always signs in the fixed Google account and notifies |
| AuthService.AuthState.SignOut | services/authService.ts:104-109 | nobody is signed in and the listener is notified |
| OnboardingWizard.StepClamping | components/onboarding/OnboardingWizard.tsx:18-19 | next stops at 4, back at 1, both stay in 1..4 |
| OnboardingWizard.BackUndoesNext | components/onboarding/OnboardingWizard.tsx:18-19 | back after next, below step 4, returns to the same step |
| OnboardingWizard.MergeOverrides | components/onboarding/OnboardingWizard.tsx:21-23 | the merge takes exactly the supplied fields and keeps the rest |
| OnboardingWizard.MergeLaws | components/onboarding/OnboardingWizard.tsx:21-23 | merging nothing is identity, merging twice is merging once, merges compose |
| OnboardingWizard.Wizard.constructor | components/onboarding/OnboardingWizard.tsx:15-16 | step 1, empty data |
| OnboardingWizard.Wizard.Next | components/onboarding/OnboardingWizard.tsx:18 | step becomes min(step + 1, 4) |
| OnboardingWizard.Wizard.Back | components/onboarding/OnboardingWizard.tsx:19 | step becomes max(step - 1, 1) |
| OnboardingWizard.Wizard.UpdateData | components/onboarding/OnboardingWizard.tsx:21-23 | data becomes the merge of old data and the update |
| OnboardingWizard.Wizard.SelectProfession | components/onboarding/OnboardingWizard.tsx:25-28 | records the profession and moves on |
| OnboardingWizard.Wizard.SubmitRoutine | components/onboarding/OnboardingWizard.tsx:30-33 | records routine and goals and moves on |
| OnboardingWizard.Wizard.SubmitDistractions | components/onboarding/OnboardingWizard.tsx:35-38 | records the distractions and moves on |
| OnboardingWizard.Wizard.SubmitPermissions | components/onboarding/OnboardingWizard.tsx:40-48 | the final record carries the permission answer, exactly the given events and usage data, and every earlier answer |
| StepDistractions.RemoveMembers | components/onboarding/StepDistractions.tsx:21 | the filter keeps exactly the members other than the removed one |
| StepDistractions.ToggleMembership | components/onboarding/StepDistractions.tsx:18-24 | after a toggle the item is selected iff it was not; no other item changes membership |
| StepDistractions.ToggleAppends | components/onboarding/StepDistractions.tsx:22 | an unselected item is appended at the end |
| StepDistractions.ToggleTwice | components/onboarding/StepDistractions.tsx:18-24 | toggling an unselected item twice restores the selection |
| StepDistractions.ToggleKeepsDistinct | components/onboarding/StepDistractions.tsx:18-24 | a selection without duplicates keeps none |
| StepDistractions.OptionsByProfession | components/onboarding/StepDistractions.tsx:11-16 | students get the student list, everyone else the developer list; six distinct options each |
| StepDistractions.DistractionPicker.constructor | components/onboarding/StepDistractions.tsx:15 | nothing selected |
| StepDistractions.DistractionPicker.ToggleSelection | components/onboarding/StepDistractions.tsx:18-24 | the selection becomes its toggle |
| StepDistractions.DistractionPicker.Submit | components/onboarding/StepDistractions.tsx:26-30 | forwards the selection iff it is not empty |
| CustomModeCard.ActivationRules | components/dashboard/CustomModeCard.tsx:29-35 | the button deactivates iff the mode is the active one, otherwise activates that mode |
| CustomModeCard.ToggleFromDashboard | components/dashboard/Dashboard.tsx:129-130 | seen from the Dashboard, the active mode's button deactivates it unless its id is 0; a second press restores an inactive start |
| CustomModeCard.ModeCard.constructor | components/dashboard/CustomModeCard.tsx:16-18 | list view, empty prompt, not loading |
| CustomModeCard.ModeCard.OpenCreate | components/dashboard/CustomModeCard.tsx:45 | shows the create view |
| CustomModeCard.ModeCard.Cancel | components/dashboard/CustomModeCard.tsx:62 | back to the list, only when not loading |
| CustomModeCard.ModeCard.EditPrompt | components/dashboard/CustomModeCard.tsx:57 | the prompt becomes the typed text |
| CustomModeCard.ModeCard.BeginCreate | components/dashboard/CustomModeCard.tsx:20-23 | a blank prompt changes nothing; otherwise loading starts and the prompt is submitted |
| CustomModeCard.ModeCard.FinishCreate | components/dashboard/CustomModeCard.tsx:24-26 | back to the list with an empty prompt, not loading, Create disabled |
| CustomModeCard.ModeCard.CreateDisabledRule | components/dashboard/CustomModeCard.tsx:63 | Create is disabled iff loading or the prompt is all white space |
| CustomModeCard.ModeCard.ToggleActivation | components/dashboard/CustomModeCard.tsx:29-35 | hands over null iff the mode is active, else the mode itself |
| AppState.ToggledTasks | App.tsx:200 | toggling keeps the number of tasks |
| AppState.WithoutTask | App.tsx:204 | deleting never lengthens the list |
| AppState.AddMinutes | App.tsx:75 | adding minutes keeps the number of records |
| AppLaws.RegisteredSquadIsFound | App.tsx:165-167 | while the service stores the App's squad, both squad updates succeed |
| AppLaws.SessionCompleteKeepsInvariant | App.tsx:161-169 | a completed session keeps the invariant |
| AppLaws.ToggleKeepsInvariant | components/dashboard/PomodoroTimer.tsx:70-74 | start/stop keeps the invariant |
| AppLaws.ResetKeepsInvariant | components/dashboard/PomodoroTimer.tsx:76-86 | reset keeps the invariant |
| AppLaws.SwitchModeKeepsInvariant | components/dashboard/PomodoroTimer.tsx:88-102 | a phase switch keeps the invariant |
| AppLaws.TickKeepsInvariant | components/dashboard/PomodoroTimer.tsx:104-115 | a tick keeps the invariant |
| AppLaws.LengthChangeKeepsInvariant | components/dashboard/PomodoroTimer.tsx:63-68 | a new active mode or a new clock hour keeps the invariant |
| AppLaws.CallbacksKeepInvariant | App.tsx:171-193 | logging a distraction, breaking the streak and switching focus mode keep the invariant |
| AppLaws.FeedbackKeepsInvariant | App.tsx:185-189 | feedback and its timeout keep the invariant |
| AppLaws.TasksKeepInvariant | App.tsx:195-205 | the task handlers keep the invariant |
| AppLaws.UsageAndModesKeepInvariant | App.tsx:127-140 | usage logging and custom-mode creation keep the invariant |
| AppLaws.RefineKeepsInvariant | App.tsx:108-125 | refinement keeps the invariant |
| AppLaws.OnboardingKeepsInvariant | App.tsx:90-106 | onboarding keeps the invariant |
| AppLaws.SignOutKeepsInvariant | App.tsx:142-159 | sign-out keeps the invariant |
| AppLaws.AuthKeepsInvariant | App.tsx:41-48 | the auth listener keeps the invariant |
| AppLaws.AcknowledgeKeepsInvariant | App.tsx:236 | the error button keeps the invariant |
| AppLaws.SquadKeepsInvariant | App.tsx:207-217 | joining a squad and setting a goal keep the invariant |
| AppLaws.FullTimeFollowsProfile | components/dashboard/PomodoroTimer.tsx:55-56 | with the window decoded from the profile, focus is the mode's minutes × 60, else 2100 s iff the profile's peak hours contain the hour, else 1500 s; break is BREAK_TIME |
| AppLaws.NoProfileNoWindow | components/dashboard/PomodoroTimer.tsx:28 | with no profile the empty window is the decoded one |
| AppLaws.TimerLeavesProfile | components/dashboard/PomodoroTimer.tsx:70-115 | the timer's steps leave the profile and its window alone |
| AppLaws.BookkeepingLeavesProfile | App.tsx:161-205 | the bookkeeping handlers leave the profile and its window alone |
| AppLaws.SquadLeavesProfile | App.tsx:207-217 | the squad handlers leave the profile and its window alone |
| AppLaws.NewProfileKeepsDecoded | App.tsx:90-125 | a refined or onboarded profile comes with its own decoded window |
| AppLaws.SignOutKeepsDecoded | App.tsx:142-159 | sign-out, the auth listener and the error button keep the window decoded |
| AppLaws.InitialState | App.tsx:15-34 | the App starts idle in the focus phase at 1500 s, streak 0, feedback idle, no new data, invariant holding |
| AppLaws.RunningTimeUnaffected | components/dashboard/PomodoroTimer.tsx:64-68 | a new mode or hour leaves a running timer's time alone |
| AppLaws.IdleTimeFollowsLength | components/dashboard/PomodoroTimer.tsx:64-68 | a new mode or hour shows the new full length at once on an idle timer |
| AppLaws.StreakBreakEffect | App.tsx:178-183 | a positive streak logs one "Focus streak was broken." entry and drops to 0; a zero streak changes nothing |
| AppLaws.FocusModeChangeEffect | App.tsx:171-176 | focus mode takes the value; turning it on hides the feedback prompt |
| AppLaws.SessionCompleteEffect | App.tsx:161-169 | streak + 1, focus mode off, feedback pending, timer untouched; in a squad, the squad becomes its `WithSession` update and is stored under its id, each member with the user's id gains one session and every other member is unchanged (with unique ids: only member k changes and the total grows by one) |
| AppLaws.FeedbackEffect | App.tsx:185-189 | feedback appends one entry with the answer and shows "submitted"; the timeout returns to idle and keeps the entry |
| AppLaws.ToggleEffect | components/dashboard/PomodoroTimer.tsx:70-74 | the clock flips; focus mode on iff it starts in focus; stopping shows the full length, starting keeps the time |
| AppLaws.ResetEffect | components/dashboard/PomodoroTimer.tsx:76-86 | reset stops at the full length of the same phase with focus mode off; only a running focus phase logs the reset (and a streak break) and zeroes the streak |
| AppLaws.SwitchModeEffect | components/dashboard/PomodoroTimer.tsx:88-102 | the phase flips, stopped at its full length; leaving focus completes the session, or logs a distraction and a streak break when abandoned while running |
| AppLaws.TickEffect | components/dashboard/PomodoroTimer.tsx:104-115 | idle: no change; running above 1: one second less; running at 1 or below: the phase completes |
| AppLaws.Countdown | components/dashboard/PomodoroTimer.tsx:104-115 | a running timer showing n seconds completes its phase on the n-th tick |
| AppLaws.CountdownPart | components/dashboard/PomodoroTimer.tsx:104-115 | fewer ticks than the time shown only count down |
| AppLaws.FocusCycle | components/dashboard/PomodoroTimer.tsx:53-115 | started from idle focus, the timer completes after exactly its full length in ticks: streak + 1, feedback pending, no distraction, idle at the full break length |
| AppLaws.BreakCycle | components/dashboard/PomodoroTimer.tsx:53-115 | started from an idle break, the timer completes after exactly the full break length in ticks: idle in focus at the full focus length, with streak, feedback prompt and logs unchanged |
| AppLaws.ToggledTasksEffect | App.tsx:199-201 | toggling flips exactly the tasks with the id, keeping ids and texts |
| AppLaws.ToggleTaskTwice | App.tsx:199-201 | toggling the same id twice restores the state |
| AppLaws.WithoutTaskMembers | App.tsx:203-205 | the filter keeps exactly the tasks without the id |
| AppLaws.WithoutTaskConcat | App.tsx:203-205 | deleting works piecewise, so kept tasks keep their order |
| AppLaws.WithoutTaskCount | App.tsx:203-205 | deleting removes as many tasks as carry the id |
| AppLaws.DeleteTaskEffect | App.tsx:203-205 | the tasks left are exactly those without the id; the count drops by their number |
| AppLaws.AddThenDelete | App.tsx:195-205 | adding appends an open task; deleting it by its fresh id restores the state |
| AppLaws.AddMinutesEffect | App.tsx:75 | the records named like the entry gain its minutes; names stay |
| AppLaws.AddMinutesTotal | App.tsx:75 | the total grows by the minutes times the number of records with that name |
| AppLaws.TotalMinutesAppend | App.tsx:77 | appending a record adds its minutes to the total |
| AppLaws.NamesHold | App.tsx:73 | `find` by name succeeds iff some record has the name |
| AppLaws.MergeUsageExisting | App.tsx:72-78 | an app already logged gets the minutes added to its one record; length, names and uniqueness stay; the total grows by the minutes |
| AppLaws.MergeUsageNew | App.tsx:72-78 | a new app is appended; names stay unique; the total grows by the minutes |
| AppLaws.NewDataRule | App.tsx:250 | there is new data iff one of the three logs is non-empty |
| AppLaws.RefineEffect | App.tsx:108-125 | without a profile nothing happens; success takes the profile and clears the three logs; failure keeps them and shows the error; either way the Dashboard remounts idle |
| AppLaws.OnboardingEffect | App.tsx:90-106 | failure only shows the error; success takes the profile, and the events and usage data only with permissions granted |
| AppLaws.CreateCustomModeEffect | App.tsx:127-140 | a generated mode is appended with the timestamp as id; a failure changes nothing |
| AppLaws.SignOutEffect | App.tsx:142-159 | sign-out clears profile, error, calendar, usage data, tasks, streak, focus mode, feedback, logs, modes and squad; user and squad table stay |
| AppLaws.SignOutIdempotent | App.tsx:142-159 | signing out twice is signing out once |
| AppLaws.AuthStateChangedEffect | App.tsx:41-48 | a user is taken as is; null also resets the App as sign-out does |
| AppLaws.SignedOutReportResets | services/authService.ts:23-29 | the initial check's "signed out" report leaves the App with no user, no profile, no squad and no session records, keeps the squad table and the invariant, and a repeated report changes nothing |
| AppLaws.JoinSquadEffect | App.tsx:207-211 | without a user nothing happens; otherwise a new squad with the user first is stored and its id stamped on the user |
| AppLaws.SetDailyGoalEffect | App.tsx:213-217 | without a user or squad nothing happens; otherwise the App's state differs only in the squad, now its `WithGoal` update (the user's members get the new goal, all others unchanged), and in the registry, which stores that squad under its id |
| AppLaws.ToggleModeActivationEffect | components/dashboard/CustomModeCard.tsx:29-35 | the card's button activates the mode or clears the active one, and an idle timer follows the new length |
| App.Session.constructor | App.tsx:15-34 | the object starts in the App's initial state, invariant holding |
| App.Session.SetProfile | App.tsx:18 | a new profile is stored with its decoded peak window |
| App.Session.LogDistraction | App.tsx:191-193 | appends one distraction entry; keeps the invariant |
| App.Session.StreakBreak | App.tsx:178-183 | performs the streak-break step; keeps the invariant |
| App.Session.FocusModeChange | App.tsx:171-176 | performs the focus-mode step; keeps the invariant |
| App.Session.SessionComplete | App.tsx:161-169 | performs the session-complete step through the squad service; keeps the invariant; leaves the bot intervals alone |
| App.Session.SessionFeedback | App.tsx:185-187 | performs the feedback step; keeps the invariant |
| App.Session.FeedbackTimeout | App.tsx:188 | the prompt returns to idle; keeps the invariant |
| App.Session.SyncIdle | components/dashboard/PomodoroTimer.tsx:64-68 | an idle timer is set to the full length of its phase |
| App.Session.ToggleTimer | components/dashboard/PomodoroTimer.tsx:70-74 | performs the toggle step; keeps the invariant |
| App.Session.ResetTimer | components/dashboard/PomodoroTimer.tsx:76-86 | performs the reset step; keeps the invariant |
| App.Session.SwitchMode | components/dashboard/PomodoroTimer.tsx:88-102 | performs the phase switch; keeps the invariant; leaves the bot intervals alone |
| App.Session.Tick | components/dashboard/PomodoroTimer.tsx:104-115 | performs one tick; keeps the invariant; a running valid timer shows at least 1 s; leaves the bot intervals alone |
| App.Session.ActivateMode | components/dashboard/Dashboard.tsx:130 | sets the active custom mode and re-syncs an idle timer; keeps the invariant |
| App.Session.ClockHour | components/dashboard/PomodoroTimer.tsx:55 | a new clock hour re-syncs an idle timer; keeps the invariant |
| App.Session.AddTask | App.tsx:195-197 | performs the add step; keeps the invariant |
| App.Session.ToggleTask | App.tsx:199-201 | performs the toggle step; keeps the invariant |
| App.Session.DeleteTask | App.tsx:203-205 | performs the delete step; keeps the invariant |
| App.Session.LogUsage | App.tsx:72-78 | merges one usage entry; keeps the invariant |
| App.Session.CreateCustomMode | App.tsx:127-140 | performs the custom-mode step; keeps the invariant |
| App.Session.Remount | App.tsx:219-229 | the Dashboard returns with a fresh idle focus timer and no active mode |
| App.Session.RefineProfile | App.tsx:108-125 | performs the refinement step; keeps the invariant |
| App.Session.TakeGrantedData | App.tsx:96-99 | with permissions granted, takes the events and usage data that are present |
| App.Session.OnboardingComplete | App.tsx:90-106 | performs the onboarding step; keeps the invariant |
| App.Session.ClearAccount | App.tsx:144-147 | clears profile, calendar, usage data, error and squad |
| App.Session.ClearSessionLog | App.tsx:148-155 | clears tasks, streak, focus mode, feedback, the logs and the modes |
| App.Session.SignOut | App.tsx:142-159 | performs the sign-out reset, signing out of the service when asked; keeps the invariant and the listener; exactly one notification is scheduled when the service is called with a listener registered, none otherwise |
| App.Session.AuthStateChanged | App.tsx:41-48 | performs the listener step without touching the service (user, listener and pending notifications unchanged); keeps the invariant |
| App.Session.AcknowledgeError | App.tsx:236 | clears the error, and without a profile signs out of the service (one notification scheduled when a listener is registered); with a profile the service's user and notifications are unchanged; the listener always stays; keeps the invariant |
| App.Session.JoinSquad | App.tsx:207-211 | performs the join step through the squad service; keeps the invariant; leaves the bot intervals alone |
| App.Session.SetDailyGoal | App.tsx:213-217 | performs the goal step through the squad service; keeps the invariant; leaves the bot intervals alone |

## Left out

- The AI generator (services/geminiService.ts) is not part of this model. Its answers for profile generation, refinement and custom modes are parameters (`None` for a thrown error).
- The app-usage service (services/appUsageService.ts) is not part of this model. The entry it produces is a parameter of `LogUsage`. The 15-second interval and `document.hasFocus()` are left out.
- The calendar service, rendering, formatting, progress bars and the components outside the named files are not modelled.
- Timers and intervals are explicit steps: the one-second tick, the two-second feedback timeout, the zero-delay auth notification and the usage logging. Their handles and cancellation (the `timerRef` and interval clearing) are not modelled.
- Two things about React updates are not modelled. The model applies updates immediately and in order; it does not model batching or stale closures. The tick's updater returns 0 and then calls `switchMode`, whose own update wins; the model goes straight to the switched state.
- The loading flags (`isAuthLoading`, `isLoading`, `isRefining`) are not modelled. Only their effect is: the Dashboard unmounts and remounts (`Remount`).
- Which screen offers which handler is not enforced: every handler can be called in any state.
- The `alert` of a failed custom-mode generation, and console logging, are not modelled.
- The bot-update effect of the App (App.tsx:53-64) is not modelled. Neither is the interval body of `startBotUpdates`: the 30% chance and the random bot.
- SquadService.SquadStore.StartBotUpdates: only registers the handle. Bot progress and the `onUpdate` callback are left out, because they depend on `Math.random()` inside an interval.
- SquadService.UidPrefix: slices by characters, not by UTF-16 code units as `slice` does; the two agree on the ASCII uids the service creates ("uid_" followed by digits).
- The simulated network delays of the auth service (the awaits at services/authService.ts:41, 64, 88 and 106) are left out. Each auth operation completes in one step, and no other handler runs in between.
- JsText.ToNumber: `Number` is modelled on "" (giving 0) and on ASCII digit strings. Every other text reads as NaN. JavaScript also accepts signs, decimals, exponents, hex and surrounding white space; clock strings in profiles do not use those.
- App.Session.SignOut: when it signs out of the service, the service's deferred notification of the App's own listener is not delivered inside the method. It is the separate step `AuthStateChanged(None)` (see `AuthService.AuthState.DeliverNotification`).
- App.Session.SessionComplete: the model keeps the state when the squad service throws "Squad not found". The source would propagate that error instead. It cannot happen while `Valid()` holds (`AppLaws.RegisteredSquadIsFound`). The same applies to `App.Session.SetDailyGoal`.
- `joinSquad` sets `squadId` on the very user object it is given, so that object is aliased. The model returns the updated user and the App stores it.
- The decoded peak window is kept beside the profile in the state, so that the timer's lengths do not decode the descriptor afresh. `AppLaws.NewProfileKeepsDecoded`, `AppLaws.SignOutKeepsDecoded` and the three `...LeavesProfile` lemmas prove that it always equals the decoding of the profile's peak hours.
- Durations use the corrected peak check (`InPeakWindow`); see Findings.

## Findings

| source | as written | input that shows it | evidently intended | confidence | as-written member | corrected member |
|---|---|---|---|---|---|---|
| components/dashboard/PomodoroTimer.tsx:41-49 | `isPeakTime` answers false only when decoding throws. An end time that reads as NaN throws nothing; `startHour <= endHour` is then false, so `currentHour >= startHour` alone decides | peak hours "9:00 AM - noon" at 10 o'clock: counted as peak, giving a 35-minute focus phase | a descriptor that does not decode into two hours is outside the peak window, as the catch-all `return false` intends | medium, not executed | PomodoroTimer.MalformedEndCountsAsPeak | PomodoroTimer.UnparseableIsOffPeak |
| components/dashboard/PomodoroTimer.tsx:41-49 | a start time that reads as NaN throws nothing either; `startHour <= endHour` is false, so `currentHour < endHour` alone decides | peak hours "noon - 5:00 PM" at 10 o'clock: counted as peak | a descriptor that does not decode into two hours is outside the peak window | medium, not executed | PomodoroTimer.MalformedStartCountsAsPeak | PomodoroTimer.UnparseableIsOffPeak |
