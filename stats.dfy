/** The view-statistics service as the main service sees it through StatsClient:
    recording a hit and asking for per-URI hit counts. The HTTP transport is not
    modelled; the service is a pair of functions supplied by the caller. */
module Stats {
  import opened Common

  datatype HitDto = HitDto(app: string, uri: string, ip: string, timestamp: int)

  datatype StatsRequest = StatsRequest(start: int, end: int, uris: seq<string>, unique: bool)

  datatype StatsEntry = StatsEntry(app: string, uri: string, hits: int)

  /** What getStats yields once its body is converted to a list of StatsDto:
      the list, or an exception (transport failure, or an error body that does
      not convert). */
  datatype StatsOutcome = Entries(entries: seq<StatsEntry>) | Failed

  /** save returns false when it throws instead of returning a response. */
  datatype StatsClient = StatsClient(save: HitDto -> bool, getStats: StatsRequest -> StatsOutcome)

  /** statsDto.isEmpty() ? 0 : statsDto.getFirst().getHits() */
  function FirstHits(entries: seq<StatsEntry>): int
  {
    if entries == [] then 0 else entries[0].hits
  }

  /** String.format("/events/%s", id). */
  function EventUri(id: int): string
  {
    "/events/" + IntToString(id)
  }
}
