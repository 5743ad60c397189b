/** GET /parallels/status/<results_id>/ and GET /parallels/<results_id>/:
    read-only lookups in the Store that end either in "not found" or in a
    reply built from the records found. */
module Retrieval {
  import opened Values
  import opened Records

  /** The reply to a status poll: 404, or the first status record's fields. */
  datatype StatusReply =
    | StatusNotFound
    | StatusFound(resultsId: string, status: string, message: string)

  /** The body of a results reply before it is JSON-encoded and gzipped. */
  datatype Payload = Payload(data: Value, parallels: seq<Value>)

  /** The reply to a results request: 404 for want of a status record,
      404 for want of a match set, or the payload. */
  datatype ResultsReply =
    | NoStatus
    | NoMatchSet
    | Results(payload: Payload)

  /** The Store's `find` by a field value: the records that match, in store order. */
  function Select<T(!new)>(records: seq<T>, matches: T -> bool): (r: seq<T>)
    ensures |r| <= |records|
    ensures forall x :: x in r <==> x in records && matches(x)
  {
    if records == [] then []
    else
      var rest := Select(records[1..], matches);
      assert forall x :: x in records <==> x == records[0] || x in records[1..];
      if matches(records[0]) then [records[0]] + rest else rest
  }

  /** The status records with the given results id. */
  function StatusesFor(store: Store, resultsId: string): seq<StatusRecord> {
    Select(store.statuses, (s: StatusRecord) => s.resultsId == resultsId)
  }

  /** The matches belonging to a match set, in store order. */
  function MatchesOf(store: Store, matchSetId: string): seq<MatchRecord> {
    Select(store.matches, (m: MatchRecord) => m.matchSet == matchSetId)
  }

  /** `[m.json_encode() for m in matches]`. */
  function Encoded(matches: seq<MatchRecord>): (r: seq<Value>)
    ensures |r| == |matches|
    ensures forall i :: 0 <= i < |matches| ==> r[i] == matches[i].encoded
  {
    seq(|matches|, i requires 0 <= i < |matches| => matches[i].encoded)
  }

  function RetrieveStatus(store: Store, resultsId: string): StatusReply {
    var found := StatusesFor(store, resultsId);
    if found == [] then StatusNotFound
    else StatusFound(found[0].resultsId, found[0].status, found[0].msg)
  }

  /** A status record without a match set id makes the handler look up
      `ObjectId(None)`, a newly generated id that no match set has. */
  function RetrieveResults(store: Store, resultsId: string): ResultsReply {
    var found := StatusesFor(store, resultsId);
    if found == [] then NoStatus
    else match found[0].matchSetId
      case None => NoMatchSet
      case Some(id) =>
        if id !in store.matchSets then NoMatchSet
        else
          var matchSet := store.matchSets[id];
          Results(Payload(matchSet.parameters, Encoded(MatchesOf(store, matchSet.id))))
  }
}
