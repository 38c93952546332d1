/** The records that master and workers exchange. */
module Sites {

  datatype Status = Down | Running | ConfirmedDown

  /**
   One entry of a site's check history.  `at` is when the local result was recorded: the program keeps
   only the latest such time, in `lastCheck`; the model keeps them all.
   */
  datatype CheckRecord =
    | Local(status: Status, rtt: int, code: int, errorCode: int, at: int)
    | Remote(host: string, offline: bool, rtt: int, code: int, errorCode: int)

  /** A row of the sites table. */
  datatype Row = Row(blogId: int, url: string, status: Status, lastStatusChange: int)

  datatype Site = Site(
    blogId: int,
    url: string,
    siteStatus: Status,
    oldStatus: Status,
    lastStatusChange: int,
    lastCheck: int,
    processed: bool,
    checks: seq<CheckRecord>)
  {
    predicate SameSite(other: Site) { blogId == other.blogId && url == other.url }
  }

  /** The site record that a fetched row becomes; `lastCheck` has no meaning until the first check. */
  function FromRow(row: Row): Site {
    Site(row.blogId, row.url, row.status, row.status, row.lastStatusChange, 0, false, [])
  }

  /** What a worker tells the master. */
  datatype Report =
    | Recheck(site: Site)
    | StatusChange(site: Site)
    | StillDown(site: Site)
    | StopWork
    | SendWork
}
