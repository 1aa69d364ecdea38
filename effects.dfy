/** The outgoing effects a handler performs, recorded in the order they
    happen instead of being sent over the chat transport, and what the stat
    parsers hand a handler. */
module Effects {
  import opened Wrappers

  datatype Effect =
    | Throttle                     // the short randomised pause before an action
    | Sleep(seconds: nat)          // a fixed cooldown sleep
    | SendGame(text: string)       // a text (or button label) sent to the game bot
    | Click(row: nat, col: nat)    // a click on button `col` of row `row` of the event's own keyboard
    | MarkRead                     // the incoming message is marked read
    | NotifyChannel(text: string)  // a notification to the operator's channel
    | ExitRequest(reason: string)  // a graceful-exit request to the run loop
    | Ping                         // the liveness ping to the game bot
    | SendMe(text: string)         // a reply to the operator's own chat

  /** What a stat parser (`get_energy_level`, `get_hp_level`) produced for
      a message: a level, `None`, or an exception. */
  datatype Parsed = Level(value: int) | NoLevel | Failed

  /** The level as the handlers with a `try` see it: `None` unless a level
      was read. */
  function Known(x: Parsed): (r: Option<int>)
    ensures r.Some? <==> x.Level?
    ensures r.Some? ==> r.value == x.value
  {
    if x.Level? then Some(x.value) else None
  }

  /** The one-hour cooldown used when energy runs out and while relaxing. */
  const CooldownSeconds: nat := 3600
}
