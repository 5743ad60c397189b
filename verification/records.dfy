/** The Store's records that the /parallels/ handlers read, and the job
    descriptor they hand to the search queue. */
module Records {
  import opened Values

  /** A text document, found by its object id. */
  datatype TextRecord = TextRecord(id: string, attributes: Value)

  /** Progress of one search, written by the worker and keyed by `results_id`.
      `matchSetId` is unset until the search has finished. */
  datatype StatusRecord = StatusRecord(resultsId: string, status: string, msg: string, matchSetId: Option<string>)

  /** The parameters a finished search ran with. */
  datatype MatchSetRecord = MatchSetRecord(id: string, parameters: Value)

  /** One parallel found by a search; `encoded` is what `json_encode()` gives. */
  datatype MatchRecord = MatchRecord(matchSet: string, encoded: Value)

  /** The Store as seen by the handlers: texts and match sets are found by id;
      status records and matches are found by a field value, in store order. */
  datatype Store = Store(
    texts: map<string, TextRecord>,
    statuses: seq<StatusRecord>,
    matchSets: map<string, MatchSetRecord>,
    matches: seq<MatchRecord>)

  /** The search parameters handed to the queue, with the Store's
      `freq_basis` and `distance_basis` renamed for the matcher. */
  datatype Descriptor = Descriptor(
    texts: seq<TextRecord>,
    unitType: Value,
    feature: Value,
    stopwords: Value,
    frequencyBasis: Value,
    maxDistance: Value,
    distanceMetric: Value)

  /** One queued search: its results id, its method name and its parameters. */
  datatype Job = Job(resultsId: string, methodName: string, params: Descriptor)
}
