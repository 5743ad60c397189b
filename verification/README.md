# apitess /parallels/ endpoints — a Dafny model

This project models the request-admission and job-lookup logic of the
`/parallels/` family of endpoints in apitess (`apitess/parallels.py`):

- **Submission** (`POST /parallels/`): a request body is checked in stages —
  the top-level keys `source`, `target`, `method`; the two unit specifications;
  the two text object ids against the Store; the method name; the keys the
  method registry requires for that name. The first stage that fails decides
  the 400 answer. A request that passes gets a results id and a `Location`
  header `/parallels/<id>/`, and its search descriptor is offered once, without
  blocking, to the bounded search queue.
- **Status poll** (`GET /parallels/status/<id>/`): the first status record with
  the results id, or "not found".
- **Results** (`GET /parallels/<id>/`): the first status record, its match set,
  and the match set's matches in store order, assembled into
  `{data: parameters, parallels: [matches]}`, or "not found".

Modules:

- `Values` (`values.dfy`): decoded JSON values and the Python operations the
  handlers apply to them — `key in v` (dict key, list member or substring; any
  other value raises `TypeError`), `v[key]`, `str(v)` and `sep.join`.
- `Records` (`records.dfy`): the Store's records (texts, status records, match
  sets, matches), the Store itself, and the job descriptor.
- `JobQueues` (`job_queue.dfy`): the bounded queue, a class whose `jobs` field
  the non-blocking put appends to.
- `Admission` (`admission.dfy`): the validation stages as functions (`Validate`
  and its parts), the whole submission as the function `Submission`, and the
  handler as the methods `SubmitSearch`, `ValidateRequest`, `ValidateSpecs`,
  `CheckMethodSpec` and `CollectMissing`, each proved to agree with those
  functions.
- `AdmissionProperties` (`admission_properties.dfy`): what each stage decides
  and what an admitted search looks like.
- `Retrieval` and `RetrievalProperties` (`retrieval.dfy`,
  `retrieval_properties.dfy`): the two lookups and what they return.

Exceptions the handler does not catch are outcomes of their own
(`Failed(TypeError | KeyError | AttributeError)`; Flask answers them with 500).
The loops that collect missing keys iterate a Python set, so the order of the
keys they list is unspecified: `CollectMissing` picks keys in an arbitrary
order, and `Agrees` compares its lists with the functions' as lists of the
same keys, each once.

Behaviour the model keeps as the code has it:

- An unregistered method name raises `KeyError` at `parallels.py:101`, because
  the registry is indexed before any membership test; the model answers
  `Failed(KeyError)` (`CheckMethod`, `MethodStage`). A list or dict name raises
  `TypeError` there instead (an unhashable key).
- The `except queue.Full` clause at `parallels.py:128` calls
  `apitess.error.error`, while `parallels.py:12` imports `apitess.errors`; the
  clause therefore raises `AttributeError`. The model answers
  `Failed(AttributeError)` for a valid request that meets a full queue, and the
  queue stays as it was (`Submission`, `SubmitSearch`).
- Each stage returns at its first failure (`parallels.py:53`, `:64`, `:80`,
  `:95`, `:104`): later stages are not reached, so one 400 answer reports the
  problems of one stage only (`Validate`).
- Both lookups take the first status record the Store returns for the results
  id (`parallels.py:146`, `:164`), whatever other records carry the same id
  (`RetrieveStatus`, `RetrieveResults`).

## Model

| member | source | states |
|---|---|---|
| Values.Has | apitess/parallels.py:33-35 | Python's `key in v` for a string key (also at :51, :95, :102): a dict's key, a list's member or a substring; defined only on dicts, lists and strings, every other value being the TypeError path of the callers (`ValidateUnits`, `TopLevelStage`, `MethodStage`) |
| Values.Get | apitess/parallels.py:38 | Python's `v[key]` (also at :59, :101): a dict's value, KeyError for a dict without the key, TypeError for any other value (stated through `ValidateUnits` and `MethodStage`) |
| Values.Show | apitess/parallels.py:40 | Python's `str(v)` of a units value in the unrecognized-units line; lists and dicts as placeholders (see "## Left out") |
| Values.Join | apitess/parallels.py:57 | Python's `sep.join(xs)` (also at :68, :84, :108); every joined string appears in the result (`JoinNames`, used by `MessageNames`) |
| Admission.UnitError.Text | apitess/parallels.py:34-40 | The message line for one unit-specification problem, beginning with the side it concerns |
| Admission.Message | apitess/parallels.py:53-108 | The 400 message of each stage: fixed text followed by the stage's keys, unit messages or ids joined with the handler's separators (stated by `MessageNames`) |
| Admission.UnitLines | apitess/parallels.py:68 | The unit-error lines the message joins; that every error's line appears in the 400 text is stated by `MessageNames` |
| Admission.ResolveTexts | apitess/parallels.py:70-86 | The object-id stage: unknown ids, source then target, reject; a non-string id raises TypeError; otherwise both texts (stated by `TextStage`) |
| Admission.CheckMethod | apitess/parallels.py:94-108 | The method stage: an unsearchable method, no name, a name that cannot be subscripted or looked up in the registry, missing registry keys, or the name (stated by `MethodStage` and `RegisteredMethodPasses`) |
| Admission.Describe | apitess/parallels.py:118-126 | The job descriptor: both texts, the source's units and the five method parameters under the matcher's names (stated by `PassedRequest` and `DescribedRequestPasses`) |
| Admission.UnitErrors | apitess/parallels.py:62-63 | The source's unit errors followed by the target's; the first exception raised is the stage's (stated by `UnitStageBeforeStore`) |
| Admission.ValidateParts | apitess/parallels.py:59-126 | The stages after the top-level keys, first failure deciding (stated by `PassedParts`, `TextStage`, `MethodStageDecides`) |
| Admission.Validate | apitess/parallels.py:47-126 | Every validation stage in the handler's order, first failure deciding (stated by `TopLevelStage` through `DescribedRequestPasses`) |
| Admission.PathJoin | apitess/parallels.py:115 | POSIX `os.path.join` of two parts: an absolute second part replaces the first; otherwise the parts are concatenated, with a separator inserted unless the first part is empty or already ends in one |
| Admission.Location | apitess/parallels.py:113-115 | The Location header always ends with a separator (and is `/parallels/<id>/` for a hex id, `LocationRoundTrip`) |
| Admission.Submission | apitess/parallels.py:110-133 | The whole submission for a results id and the queue's room (stated by `SubmissionOutcome`, `AdmittedSearch`, `AdmittedWhenRoom`) |
| Admission.ValidateUnits | apitess/parallels.py:17-41 | No errors exactly when the spec is a dict with `object_id` and with `units` equal to "line" or "phrase"; otherwise one or two errors, none listed twice, every one for the named side and its text starting with that name, the missing-object_id error present exactly when `object_id` is absent and then first, the missing-units error present exactly when `units` is absent, and an unrecognized-units error present exactly for a `units` value other than "line" or "phrase", naming that value; a value `in` cannot search, or a list or string containing "units", raises |
| Admission.Absent | apitess/parallels.py:49-52 | The keys listed are exactly the required keys the container lacks; none is listed twice when the required keys are distinct |
| Admission.CollectMissing | apitess/parallels.py:100-103 | The loop over a set of required keys returns each key the container lacks exactly once and nothing else, in any order; it raises TypeError exactly when the set is non-empty and the value cannot be searched with `in` |
| Admission.CheckMethodSpec | apitess/parallels.py:94-108 | The method-name stage as the handler runs it agrees with `CheckMethod` up to the order of the missing keys |
| Admission.ValidateSpecs | apitess/parallels.py:59-108 | The unit, text and method stages as the handler runs them (errors extended source then target, unknown ids appended source then target) agree with `ValidateParts` |
| Admission.ValidateRequest | apitess/parallels.py:47-108 | Every validation stage as the handler runs it agrees with `Validate` up to the order of missing-key lists |
| Admission.SubmitSearch | apitess/parallels.py:44-133 | The handler's outcome agrees with `Submission` for the queue's room before the call; the queue gains exactly the admitted job at its end, and is unchanged on every rejection, exception or full queue |
| JobQueues.JobQueue.PutNowait | apitess/parallels.py:117-127 | The non-blocking put accepts exactly when the queue has room; accepted, the job is appended at the end; refused (`queue.Full`), the queue is unchanged |
| AdmissionProperties.TopLevelStage | apitess/parallels.py:47-57 | A searchable body is rejected for missing keys exactly when one of source/target/method is absent, and the rejection names each absent key once and no other; an unsearchable body raises TypeError |
| AdmissionProperties.UnitStageBeforeStore | apitess/parallels.py:59-68 | With the top-level keys present, unit errors are the source's followed by the target's, and any of them rejects the request with the same answer whatever texts the Store holds |
| AdmissionProperties.TextStage | apitess/parallels.py:70-86 | With valid unit specs and string ids, the request is rejected for unknown texts exactly when an id is not in the Store, listing the source id if unknown and then the target id if unknown; a non-string id raises TypeError |
| AdmissionProperties.MethodStage | apitess/parallels.py:94-108 | `name` is required by every registry entry; a method `in` cannot search raises TypeError; a searchable method without `name` is rejected with the single no-name reason; a list or string method containing "name" raises TypeError at the subscript; a list or dict name raises TypeError and a null, bool or number name KeyError at the registry lookup; an unregistered string name raises KeyError; a registered one passes exactly when every required key is present, and otherwise is rejected listing each absent required key once, never `name` |
| AdmissionProperties.MethodStageDecides | apitess/parallels.py:94-108 | Once units and texts pass, the method stage's rejection or exception is the request's |
| AdmissionProperties.SubmissionOutcome | apitess/parallels.py:110-133 | A submission is admitted exactly when validation passes and the queue has room; a rejection or exception of validation is the answer whatever the queue holds; a valid request meeting a full queue raises AttributeError |
| AdmissionProperties.PassedRequest | apitess/parallels.py:59-126 | A request that passes validation has string ids both found in the Store, source and target units of "line" or "phrase", a registered method name with every required key, and yields the descriptor of both texts, the source's unit type and the method's parameters with freq_basis as frequency_basis and distance_basis as distance_metric, values unchanged |
| AdmissionProperties.PassedParts | apitess/parallels.py:62-126 | The same facts for the stages after the top-level keys, stated on the source, target and method specifications |
| AdmissionProperties.Describes | apitess/parallels.py:59-126 | What a well-formed request is for a search: dict specs with string object ids found in the Store, both units "line" or "phrase", a registered method name with every required key, and the descriptor the handler builds from them |
| AdmissionProperties.MessageNames | apitess/parallels.py:53-108 | Each 400 message that lists what it rejects opens with its stage's fixed text and contains every missing key, every unit-error line and every unknown id |
| AdmissionProperties.DescribedRequestPasses | apitess/parallels.py:59-126 | Conversely to `PassedRequest`: a request that describes a search passes every stage and yields exactly that search |
| AdmissionProperties.RegisteredMethodPasses | apitess/parallels.py:100-108 | A registered method name with every key its registry entry requires passes the method stage with that name |
| AdmissionProperties.AdmittedWhenRoom | apitess/parallels.py:110-133 | A request that describes a search, met by a queue with room, is admitted with the Location of its results id and the job of that search under that id |
| AdmissionProperties.AdmittedSearch | apitess/parallels.py:110-126 | An admitted submission answers with the Location of its results id and queues, under that id, the search the request describes |
| AdmissionProperties.LocationRoundTrip | apitess/parallels.py:113-115 | For a 32-character hex id the Location is `/parallels/<id>/`, and a client reading it back gets the id |
| Retrieval.StatusesFor | apitess/parallels.py:138-141 | The status records with a results id, in store order |
| Retrieval.MatchesOf | apitess/parallels.py:173-174 | The matches of a match set, in store order |
| Retrieval.Encoded | apitess/parallels.py:175 | The encoded matches; that they are, one for one and in store order, the encodings of the match set's matches is stated by `ParallelsInOrder` |
| Retrieval.RetrieveStatus | apitess/parallels.py:136-148 | The status poll (stated by `StatusLookup`) |
| Retrieval.RetrieveResults | apitess/parallels.py:150-186 | The results request (stated by `ResultsLookup`) |
| Retrieval.Select | apitess/parallels.py:138-141 | The Store's find by field value returns exactly the records that match, no more records than the Store holds |
| RetrievalProperties.SelectHead | apitess/parallels.py:146 | The first record found is the first matching record in store order |
| RetrievalProperties.SelectAppend | apitess/parallels.py:173-175 | Finding keeps store order: records found in two runs of the Store come out as the two selections, one after the other |
| RetrievalProperties.SelectIndices | apitess/parallels.py:173-175 | The records found are those at an increasing run of positions, which are exactly the positions of the matching records: every match once, in store order |
| RetrievalProperties.ParallelsInOrder | apitess/parallels.py:173-175 | The encoded matches of a match set are, one for one and in store order, the encodings of the Store's matches that reference it |
| RetrievalProperties.ParallelsOfMatchSet | apitess/parallels.py:173-175 | A value is among the encoded matches of a match set exactly when some match of the Store references the match set and encodes to it (drawn from the positions `SelectIndices` gives) |
| RetrievalProperties.InOrderMembers | apitess/parallels.py:173-175 | Encodings listed at positions that are exactly those of the match set's matches contain exactly the encodings of those matches |
| RetrievalProperties.StatusLookup | apitess/parallels.py:136-148 | A status poll is "not found" exactly when no status record has the results id; otherwise it echoes the id, status and message of the first record that has it |
| RetrievalProperties.ResultsLookup | apitess/parallels.py:150-186 | A results request lacks a status exactly when a status poll would; it lacks a match set when the first status record names none or one the Store lacks; otherwise its data are that match set's parameters and its parallels, one for one and in store order, the encodings of the Store's matches that reference the match set |

## Left out

- Flask routing, request and response objects, and status codes: outcomes are
  datatype values (`Rejected` is the 400 answer, `Admitted` the 201 answer,
  `Failed` an uncaught exception, the two "not found" replies the 404 answers).
- `gzip.compress` and `flask.json.dumps` of the results payload: the payload is
  the structured value before encoding.
- The Store's query engine (`flask.g.db.find`): texts and match sets are finite
  maps by id, status records and matches are sequences searched in store order.
- `ObjectId(...)`: object ids are taken to be well-formed, canonical (lower-case)
  id strings; a malformed id string, which would raise `InvalidId`, is not
  modelled and is looked up like any other string.
- `uuid.uuid4().hex`: the results id is a parameter; its uniqueness is a matter
  of probability and is not modelled.
- `JobQueue` has at least one slot; a `queue.Queue` built with a maximum size
  of 0, which Python treats as unbounded and never full, is not modelled.
- The internals of `queue_search` and of the search worker, including thread
  safety and the dequeue side: only the non-blocking bounded put is modelled.
- The request body's decoding by `get_json`: the body is a decoded JSON value;
  JSON numbers are integers only (no floating point).
- Show: `str()` of a list or dict in the "unrecognized units" message is a
  placeholder (`[...]`, `{...}`), not Python's repr of the container.
