/** The externally visible effects of the main screen, as they are recorded in
    its log. */
module Events {
  import opened Domain

  datatype Event =
    | Saved(key: string, value: string)           // Repository.saveString
    | ExitWarning                                 // the "Press BACK again to exit" notice
    | FinishRequested                             // Activity.finish()
    | OpenedParticipants(name: string, id: RaffleId)  // RaffleActivity started for a raffle
}
