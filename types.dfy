/**
  The records shared by the focus-session engine and its collaborators.
  Timestamps and ids are `Date.now()` values, taken as non-negative integers.
*/
module Types {

  datatype Option<T> = None | Some(value: T)

  datatype Result<T, E> = Ok(value: T) | Err(error: E)

  datatype Profession = Student | Developer

  datatype AppUsageRecord = AppUsageRecord(name: string, minutes: int)

  datatype DistractionHotspot = DistractionHotspot(time: string, activity: string)

  datatype AppUsageData = AppUsageData(topApps: seq<AppUsageRecord>, hotspots: seq<DistractionHotspot>)

  datatype CalendarEvent = CalendarEvent(title: string, time: string)

  /** The part of a generated focus profile that the engine reads. */
  datatype FocusProfile = FocusProfile(peakFocusHours: string, profession: Profession)

  datatype Task = Task(id: nat, text: string, completed: bool)

  datatype Feedback = Feedback(timestamp: nat, wasProductive: bool)

  datatype DistractionLog = DistractionLog(timestamp: nat, reason: string)

  /** Session lengths of a custom mode, in minutes. */
  datatype PomodoroConfig = PomodoroConfig(focusMinutes: nat, breakMinutes: nat)

  datatype CustomFocusMode = CustomFocusMode(
    id: nat, name: string, goal: string, blockedSites: seq<string>, pomodoro: PomodoroConfig)

  /** What the custom-mode generator returns, before the app gives it an id. */
  datatype CustomModeData = CustomModeData(
    name: string, goal: string, blockedSites: seq<string>, pomodoro: PomodoroConfig)

  datatype User = User(uid: string, email: Option<string>, displayName: Option<string>, squadId: Option<string>)

  datatype SquadMember = SquadMember(
    id: string, name: string, isCurrentUser: bool, dailyGoal: string, completedSessions: int)

  datatype Squad = Squad(id: string, members: seq<SquadMember>)
}
