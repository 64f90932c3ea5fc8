/** The action buttons of the distribution schedule card: which of edit,
    start, pause and stop a schedule row offers, given its status and the
    handlers the card was given. */
module ScheduleCard {

  datatype ScheduleStatus = Active | Scheduled | Completed | Paused

  datatype Action = Edit | Start | Pause | Stop

  /** Which of `onEdit`, `onStart`, `onPause`, `onStop` were supplied. */
  datatype Handlers = Handlers(edit: bool, start: bool, pause: bool, stop: bool)

  /** The handlers the distribution page passes: none. */
  const PageHandlers: Handlers := Handlers(false, false, false, false)

  /** The buttons rendered for one schedule row. */
  function Offered(status: ScheduleStatus, h: Handlers): (acts: set<Action>)
    ensures Edit in acts <==> h.edit
    ensures Start in acts <==> h.start && status == Scheduled
    ensures Pause in acts <==> h.pause && status == Active
    ensures Stop in acts <==> h.stop && (status == Active || status == Paused)
  {
    (if h.edit then {Edit} else {})
    + (if status == Scheduled && h.start then {Start} else {})
    + (if status == Active && h.pause then {Pause} else {})
    + (if (status == Active || status == Paused) && h.stop then {Stop} else {})
  }

  /** A completed schedule can at most be edited; a scheduled one cannot
      be paused or stopped; a paused one cannot be resumed from the card. */
  lemma LifecycleActions(h: Handlers)
    ensures Offered(Completed, h) <= {Edit}
    ensures Offered(Scheduled, h) <= {Edit, Start}
    ensures Offered(Paused, h) <= {Edit, Stop}
    ensures Offered(Active, h) <= {Edit, Pause, Stop}
  {
  }

  /** On the distribution page the card gets no handlers, so no schedule
      shows any button. */
  lemma PageShowsNoActions(status: ScheduleStatus)
    ensures Offered(status, PageHandlers) == {}
  {
  }
}
