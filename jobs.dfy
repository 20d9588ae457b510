/** The job record stored by the tracker and its three workflow states. */
module Jobs {
  import opened Wrappers

  /** Where a job stands: still to apply to, applied to, or hidden from the list. */
  datatype Status = Todo | Applied | Hidden

  /** The three statuses a job can be in. */
  function AllStatuses(): (r: set<Status>)
  {
    {Todo, Applied, Hidden}
  }

  /** A job record; nullable columns are `Option`s and timestamps are ISO-8601 strings. */
  datatype Job = Job(
    id: string,
    title: string,
    company: Option<string>,
    url: Option<string>,
    source: Option<string>,
    notes: Option<string>,
    status: Status,
    createdAt: string,
    appliedAt: Option<string>,
    hiddenAt: Option<string>)
}
