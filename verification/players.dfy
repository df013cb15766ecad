/** The live player count of one app, as the current-players endpoint reports it. */
module Players {
  import opened SteamApi

  /**
   * The count reported in a decoded answer; 0 when the request or its
   * decoding failed, so that a failed lookup never removes the app.
   */
  function CurrentPlayers(answer: Fetch<PlayerCountResponse>): int
  {
    match answer
    case Decoded(r) => r.playerCount
    case TransportFailed => 0
    case DecodeFailed => 0
  }
}
