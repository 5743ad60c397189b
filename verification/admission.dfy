/** POST /parallels/: validating a search request stage by stage and, when
    it passes, handing the search to the queue under a fresh results id. */
module Admission {
  import opened Values
  import opened Records
  import opened JobQueues

  /** The top-level keys every request needs (a set literal in the handler,
      listed here in an arbitrary fixed order). */
  const RequiredKeys: seq<string> := ["source", "target", "method"]

  /** The method registry: for each known method name, the keys its
      parameters must have (again a set, listed here). */
  const MethodRequirements: map<string, seq<string>> :=
    map["original" := ["name", "feature", "stopwords", "freq_basis", "max_distance", "distance_basis"]]

  /** The parameters copied from the method into the job descriptor. */
  const DescriptorKeys: seq<string> := ["feature", "stopwords", "freq_basis", "max_distance", "distance_basis"]

  const UrlPrefix: string := "/parallels"

  /** One problem with a `source` or `target` unit specification. */
  datatype UnitError =
    | MissingObjectId(side: string)
    | MissingUnits(side: string)
    | UnrecognizedUnits(side: string, units: Value)
  {
    /** The message line reported to the client. */
    function Text(): string {
      match this
      case MissingObjectId(side) => side + " is missing object_id."
      case MissingUnits(side) => side + " is missing units."
      case UnrecognizedUnits(side, units) => side + " has unrecognized units: " + Show(units)
    }
  }

  /** Why a request was answered with 400, one case per validation stage. */
  datatype Rejection =
    | MissingKeys(keys: seq<string>)
    | BadUnits(errors: seq<UnitError>)
    | UnknownTexts(ids: seq<string>)
    | NoMethodName
    | MissingMethodKeys(keys: seq<string>)

  /** The result of one stage: go on with a value, answer 400, or raise. */
  datatype Check<+T> = Pass(value: T) | Reject(reason: Rejection) | Raise(fault: Fault)

  /** A validated search, ready to be queued. */
  datatype Search = Search(methodName: string, params: Descriptor)

  /** What a submission ends in: 400, an uncaught exception, or 201 with a Location. */
  datatype Outcome =
    | Rejected(reason: Rejection)
    | Failed(fault: Fault)
    | Admitted(location: string, job: Job)

  /** The fixed openings of the 400 messages that list what they reject. */
  const MissingKeysOpening: string := "The request data payload is missing the following required key(s): "
  const BadUnitsOpening: string := "The following errors were found in source and target unit specifications:\n"
  const UnknownTextsOpening: string := "Unable to find the following object_id(s) among the texts in the database:\n\t"
  const MissingMethodKeysOpening: string := "The specified method is missing the following required key(s): "

  /** The lines of the unit-specification errors, in order. */
  function UnitLines(errors: seq<UnitError>): (lines: seq<string>)
    ensures |lines| == |errors| && forall i :: 0 <= i < |errors| ==> lines[i] == errors[i].Text()
  {
    seq(|errors|, i requires 0 <= i < |errors| => errors[i].Text())
  }

  /** The message of the 400 response. */
  function Message(r: Rejection): string {
    match r
    case MissingKeys(keys) => MissingKeysOpening + Join(", ", keys)
    case BadUnits(errors) => BadUnitsOpening + Join("\n\t", UnitLines(errors))
    case UnknownTexts(ids) => UnknownTextsOpening + Join("\n\t", ids)
    case NoMethodName => "No specified method name."
    case MissingMethodKeys(keys) => MissingMethodKeysOpening + Join(", ", keys)
  }

  predicate IsUnitName(v: Value) {
    v == Str("line") || v == Str("phrase")
  }

  /** The checks of one unit specification, `name` being "source" or "target". */
  function ValidateUnits(specs: Value, name: string): (r: Result<seq<UnitError>, Fault>)
    ensures r.Err? <==> !IsContainer(specs) || (Has(specs, "units") && !specs.Obj?)
    ensures r == Ok([]) <==>
      specs.Obj? && "object_id" in specs.fields && "units" in specs.fields && IsUnitName(specs.fields["units"])
    ensures r.Ok? ==> |r.value| <= 2 && NoDuplicates(r.value)
    ensures r.Ok? ==> forall e <- r.value :: e.side == name && name <= e.Text()
    ensures r.Ok? ==> (MissingObjectId(name) in r.value <==> !Has(specs, "object_id"))
    ensures r.Ok? && MissingObjectId(name) in r.value ==> r.value[0] == MissingObjectId(name)
    ensures r.Ok? ==> (MissingUnits(name) in r.value <==> !Has(specs, "units"))
    ensures r.Ok? ==> forall v :: UnrecognizedUnits(name, v) in r.value <==>
      specs.Obj? && "units" in specs.fields && v == specs.fields["units"] && !IsUnitName(v)
  {
    if !IsContainer(specs) then Err(TypeError)
    else
      var idErrors := if Has(specs, "object_id") then [] else [MissingObjectId(name)];
      if !Has(specs, "units") then Ok(idErrors + [MissingUnits(name)])
      else match Get(specs, "units")
        case Err(f) => Err(f)
        case Ok(units) => Ok(idErrors + if IsUnitName(units) then [] else [UnrecognizedUnits(name, units)])
  }

  /** The keys of `required` that `container` lacks, in the order of `required`. */
  function Absent(required: seq<string>, container: Value): (r: seq<string>)
    requires IsContainer(container)
    ensures forall k :: k in r <==> k in required && !Has(container, k)
    ensures NoDuplicates(required) ==> NoDuplicates(r)
  {
    if required == [] then []
    else
      var rest := Absent(required[1..], container);
      assert forall k :: k in required <==> k == required[0] || k in required[1..];
      if Has(container, required[0]) then rest else [required[0]] + rest
  }

  /** The loop that collects the keys of `required` absent from `container`.
      It iterates a set, so the order of the keys it reports is unspecified. */
  method CollectMissing(required: set<string>, container: Value) returns (r: Result<seq<string>, Fault>)
    ensures r.Err? <==> required != {} && !IsContainer(container)
    ensures r.Err? ==> r.error == TypeError
    ensures r.Ok? ==> NoDuplicates(r.value)
    ensures r.Ok? ==> forall k :: k in r.value <==> k in required && IsContainer(container) && !Has(container, k)
  {
    var missing: seq<string> := [];
    var rest := required;
    while rest != {}
      invariant rest <= required
      invariant rest != required ==> IsContainer(container)
      invariant NoDuplicates(missing)
      invariant forall k :: k in missing <==> k in required && k !in rest && IsContainer(container) && !Has(container, k)
      decreases rest
    {
      var req :| req in rest;
      if !IsContainer(container) {
        return Err(TypeError);
      }
      if !Has(container, req) {
        missing := missing + [req];
      }
      rest := rest - {req};
    }
    return Ok(missing);
  }

  /** Resolves the two object ids against the Store's texts. */
  function ResolveTexts(sourceId: Value, targetId: Value, texts: map<string, TextRecord>): Check<(TextRecord, TextRecord)> {
    match (sourceId, targetId)
    case (Str(s), Str(t)) =>
      var unknown := (if s in texts then [] else [s]) + (if t in texts then [] else [t]);
      if unknown != [] then Reject(UnknownTexts(unknown)) else Pass((texts[s], texts[t]))
    // ObjectId() refuses a number, list, dict or bool; a null id reaches the join of the message
    case _ => Raise(TypeError)
  }

  /** The method-name stage: the name must be there, must be registered, and
      every key the registry requires for it must be there. */
  function CheckMethod(methodSpec: Value): Check<string> {
    if !IsContainer(methodSpec) then Raise(TypeError)
    else if !Has(methodSpec, "name") then Reject(NoMethodName)
    else match Get(methodSpec, "name")
      case Err(f) => Raise(f)
      case Ok(Str(n)) =>
        if n !in MethodRequirements then Raise(KeyError)
        else
          var missing := Absent(MethodRequirements[n], methodSpec);
          if missing != [] then Reject(MissingMethodKeys(missing)) else Pass(n)
      case Ok(Arr(_)) => Raise(TypeError)  // unhashable registry key
      case Ok(Obj(_)) => Raise(TypeError)
      case Ok(_) => Raise(KeyError)
  }

  /** The job descriptor: both texts, the source's unit type and the method's
      parameters under the matcher's names. */
  function Describe(sourceText: TextRecord, targetText: TextRecord, units: Value, methodSpec: Value): Check<Descriptor> {
    if methodSpec.Obj? && forall k <- DescriptorKeys :: k in methodSpec.fields then
      var m := methodSpec.fields;
      Pass(Descriptor([sourceText, targetText], units,
        m["feature"], m["stopwords"], m["freq_basis"], m["max_distance"], m["distance_basis"]))
    else Raise(if methodSpec.Obj? then KeyError else TypeError)
  }

  /** All validation stages in order; the first that fails decides. */
  function Validate(received: Value, texts: map<string, TextRecord>): Check<Search> {
    if !IsContainer(received) then Raise(TypeError)
    else if Absent(RequiredKeys, received) != [] then Reject(MissingKeys(Absent(RequiredKeys, received)))
    else if !received.Obj? then Raise(TypeError)
    else
      assert "source" in RequiredKeys && "target" in RequiredKeys && "method" in RequiredKeys;
      ValidateParts(received.fields["source"], received.fields["target"], received.fields["method"], texts)
  }

  /** The unit-specification errors of the source followed by those of the target. */
  function UnitErrors(source: Value, target: Value): Result<seq<UnitError>, Fault> {
    match ValidateUnits(source, "source")
    case Err(f) => Err(f)
    case Ok(sourceErrors) =>
      match ValidateUnits(target, "target")
      case Err(f) => Err(f)
      case Ok(targetErrors) => Ok(sourceErrors + targetErrors)
  }

  /** The stages after the top-level keys: units, texts, method, descriptor. */
  function ValidateParts(source: Value, target: Value, methodSpec: Value, texts: map<string, TextRecord>): Check<Search> {
    match UnitErrors(source, target)
    case Err(f) => Raise(f)
    case Ok(errors) =>
      if errors != [] then Reject(BadUnits(errors))
      else match ResolveTexts(source.fields["object_id"], target.fields["object_id"], texts)
        case Raise(f) => Raise(f)
        case Reject(r) => Reject(r)
        case Pass((sourceText, targetText)) =>
          match CheckMethod(methodSpec)
          case Raise(f) => Raise(f)
          case Reject(r) => Reject(r)
          case Pass(name) =>
            match Describe(sourceText, targetText, source.fields["units"], methodSpec)
            case Raise(f) => Raise(f)
            case Reject(r) => Reject(r)
            case Pass(d) => Pass(Search(name, d))
  }

  /** `os.path.join(a, b)` on POSIX paths. */
  function PathJoin(a: string, b: string): string {
    if b != [] && b[0] == '/' then b
    else if a == [] || a[|a| - 1] == '/' then a + b
    else a + "/" + b
  }

  /** The Location header of an admitted search: the results id under the
      endpoint's prefix, with a final separator. */
  function Location(resultsId: string): (r: string)
    ensures r != [] && r[|r| - 1] == '/'
  {
    PathJoin(PathJoin(UrlPrefix, resultsId), "")
  }

  /** The whole submission for a given results id; `room` says whether the
      queue accepts one more job. A full queue sends the handler into its
      except clause, which names a module that does not exist. */
  function Submission(received: Value, texts: map<string, TextRecord>, resultsId: string, room: bool): Outcome {
    match Validate(received, texts)
    case Reject(r) => Rejected(r)
    case Raise(f) => Failed(f)
    case Pass(search) =>
      if room then Admitted(Location(resultsId), Job(resultsId, search.methodName, search.params))
      else Failed(AttributeError)
  }

  /** Two key lists name the same keys, each once. */
  ghost predicate SameKeys(a: seq<string>, b: seq<string>) {
    NoDuplicates(a) && NoDuplicates(b) && forall k :: k in a <==> k in b
  }

  /** Two rejections are the same up to the order of a missing-key list. */
  ghost predicate SameRejection(a: Rejection, b: Rejection) {
    match (a, b)
    case (MissingKeys(x), MissingKeys(y)) => SameKeys(x, y)
    case (MissingMethodKeys(x), MissingMethodKeys(y)) => SameKeys(x, y)
    case _ => a == b
  }

  ghost predicate CheckAgrees<T>(out: Check<T>, spec: Check<T>) {
    match (out, spec)
    case (Reject(a), Reject(b)) => SameRejection(a, b)
    case _ => out == spec
  }

  /** `out` is `spec` up to the order of the missing-key lists. */
  ghost predicate Agrees(out: Outcome, spec: Outcome) {
    match (out, spec)
    case (Rejected(a), Rejected(b)) => SameRejection(a, b)
    case _ => out == spec
  }

  /** Two lists with the same elements are empty together. */
  lemma EmptyTogether(a: seq<string>, b: seq<string>)
    requires forall k :: k in a <==> k in b
    ensures a == [] <==> b == []
  {
    if a != [] {
      assert a[0] in b;
    }
    if b != [] {
      assert b[0] in a;
    }
  }

  /** Lines 95-108 of the handler: the method-name stage, with its loop over
      the registry's set of required keys. */
  method CheckMethodSpec(methodSpec: Value) returns (c: Check<string>)
    ensures CheckAgrees(c, CheckMethod(methodSpec))
  {
    if !IsContainer(methodSpec) {
      return Raise(TypeError);
    }
    if !Has(methodSpec, "name") {
      return Reject(NoMethodName);
    }
    var nameValue := Get(methodSpec, "name");
    if nameValue.Err? {
      return Raise(nameValue.error);
    }
    var name: string;
    match nameValue.value {
      case Str(n) =>
        if n !in MethodRequirements {
          return Raise(KeyError);
        }
        name := n;
      case Arr(_) => return Raise(TypeError);
      case Obj(_) => return Raise(TypeError);
      case _ => return Raise(KeyError);
    }
    var requiredKeys := set k | k in MethodRequirements[name];
    assert "name" in requiredKeys;
    var missing := CollectMissing(requiredKeys, methodSpec);
    ghost var expected := Absent(MethodRequirements[name], methodSpec);
    assert NoDuplicates(MethodRequirements[name]);
    EmptyTogether(missing.value, expected);
    if missing.value != [] {
      return Reject(MissingMethodKeys(missing.value));
    }
    return Pass(name);
  }

  /** Lines 47-108 of the handler: every validation stage, in order. */
  method ValidateRequest(received: Value, texts: map<string, TextRecord>) returns (v: Check<Search>)
    ensures CheckAgrees(v, Validate(received, texts))
  {
    var requiredKeys := set k | k in RequiredKeys;
    assert "source" in requiredKeys;
    var top := CollectMissing(requiredKeys, received);
    if top.Err? {
      return Raise(top.error);
    }
    ghost var expected := Absent(RequiredKeys, received);
    assert "source" in RequiredKeys && "target" in RequiredKeys && "method" in RequiredKeys;
    assert NoDuplicates(RequiredKeys);
    EmptyTogether(top.value, expected);
    if top.value != [] {
      return Reject(MissingKeys(top.value));
    }
    var sourceSpec := Get(received, "source");
    if sourceSpec.Err? {
      return Raise(sourceSpec.error);
    }
    v := ValidateSpecs(sourceSpec.value, received.fields["target"], received.fields["method"], texts);
  }

  /** Lines 59-108 of the handler: the stages after the top-level keys. */
  method ValidateSpecs(source: Value, target: Value, methodSpec: Value, texts: map<string, TextRecord>) returns (v: Check<Search>)
    ensures CheckAgrees(v, ValidateParts(source, target, methodSpec, texts))
  {
    var sourceErrors := ValidateUnits(source, "source");
    if sourceErrors.Err? {
      return Raise(sourceErrors.error);
    }
    var targetErrors := ValidateUnits(target, "target");
    if targetErrors.Err? {
      return Raise(targetErrors.error);
    }
    var errors := sourceErrors.value;
    errors := errors + targetErrors.value;
    if errors != [] {
      return Reject(BadUnits(errors));
    }

    var sourceId, targetId := source.fields["object_id"], target.fields["object_id"];
    if !sourceId.Str? || !targetId.Str? {
      return Raise(TypeError);
    }
    var unknown: seq<string> := [];
    if sourceId.s !in texts {
      unknown := unknown + [sourceId.s];
    }
    if targetId.s !in texts {
      unknown := unknown + [targetId.s];
    }
    if unknown != [] {
      return Reject(UnknownTexts(unknown));
    }
    var sourceText, targetText := texts[sourceId.s], texts[targetId.s];

    var name := CheckMethodSpec(methodSpec);
    if !name.Pass? {
      return match name
        case Raise(f) => Raise(f)
        case Reject(r) => Reject(r);
    }
    var described := Describe(sourceText, targetText, source.fields["units"], methodSpec);
    if !described.Pass? {
      return match described
        case Raise(f) => Raise(f)
        case Reject(r) => Reject(r);
    }
    return Pass(Search(name.value, described.value));
  }

  /** The handler: validation, then one attempt to queue the job under
      `resultsId` (the handler draws it from `uuid4`). */
  method SubmitSearch(received: Value, store: Store, resultsId: string, q: JobQueue) returns (out: Outcome)
    requires q.Valid()
    modifies q
    ensures q.Valid()
    ensures Agrees(out, Submission(received, store.texts, resultsId, old(q.HasRoom())))
    ensures q.jobs == if out.Admitted? then old(q.jobs) + [out.job] else old(q.jobs)
  {
    var validation := ValidateRequest(received, store.texts);
    match validation {
      case Reject(r) => return Rejected(r);
      case Raise(f) => return Failed(f);
      case Pass(search) =>
        var location := Location(resultsId);
        var job := Job(resultsId, search.methodName, search.params);
        var accepted := q.PutNowait(job);
        if !accepted {
          return Failed(AttributeError);
        }
        return Admitted(location, job);
    }
  }
}
