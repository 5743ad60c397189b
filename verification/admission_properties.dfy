/** What the submission handler promises, stage by stage, and the shape of
    what it queues and answers when a request passes. */
module AdmissionProperties {
  import opened Values
  import opened Records
  import opened Admission

  /** Stage 1: a request is rejected for missing top-level keys exactly when
      one of `source`, `target`, `method` is absent, and the rejection lists
      each absent key once and nothing else. A body that `in` cannot search
      raises. */
  lemma TopLevelStage(received: Value, texts: map<string, TextRecord>)
    ensures !IsContainer(received) ==> Validate(received, texts) == Raise(TypeError)
    ensures IsContainer(received) ==>
      ((Validate(received, texts).Reject? && Validate(received, texts).reason.MissingKeys?) <==>
        exists k <- RequiredKeys :: !Has(received, k))
    ensures Validate(received, texts).Reject? && Validate(received, texts).reason.MissingKeys? ==>
      var keys := Validate(received, texts).reason.keys;
      NoDuplicates(keys) && forall k :: k in keys <==> k in RequiredKeys && !Has(received, k)
  {
    if IsContainer(received) {
      var missing := Absent(RequiredKeys, received);
      assert NoDuplicates(RequiredKeys);
      if missing != [] {
        assert missing[0] in missing;
        assert Validate(received, texts) == Reject(MissingKeys(missing));
      } else if received.Obj? {
        assert "source" in RequiredKeys && "target" in RequiredKeys && "method" in RequiredKeys;
        PartsNeverMissKeys(received.fields["source"], received.fields["target"], received.fields["method"], texts);
      }
    }
  }

  /** The stages after the top-level keys never reject for missing top-level
      keys. A step of `TopLevelStage`'s proof, kept apart so that proof stays
      small; it follows from the definitions alone and states nothing the
      handler promises beyond `TopLevelStage`. */
  lemma PartsNeverMissKeys(source: Value, target: Value, spec: Value, texts: map<string, TextRecord>)
    ensures !ValidateParts(source, target, spec, texts).Reject?
      || !ValidateParts(source, target, spec, texts).reason.MissingKeys?
  {
  }

  /** Stage 2: with the top-level keys present, the unit-specification errors
      are the source's followed by the target's, and any of them rejects the
      request whatever the Store holds. */
  lemma UnitStageBeforeStore(received: Value, texts: map<string, TextRecord>, otherTexts: map<string, TextRecord>)
    requires received.Obj? && "source" in received.fields && "target" in received.fields && "method" in received.fields
    ensures
      var source, target := received.fields["source"], received.fields["target"];
      match (ValidateUnits(source, "source"), ValidateUnits(target, "target"))
      case (Err(f), _) => Validate(received, texts) == Raise(f)
      case (Ok(_), Err(f)) => Validate(received, texts) == Raise(f)
      case (Ok(sourceErrors), Ok(targetErrors)) =>
        sourceErrors + targetErrors != [] ==>
          Validate(received, texts) == Validate(received, otherTexts) == Reject(BadUnits(sourceErrors + targetErrors))
  {
    NoneAbsent(received);
  }

  /** Stage 3: with valid unit specifications, the request is rejected for
      unknown texts exactly when an object id is not in the Store, and the
      rejection lists the source id if unknown, then the target id if unknown.
      A non-string object id raises. */
  lemma TextStage(received: Value, texts: map<string, TextRecord>)
    requires received.Obj? && "source" in received.fields && "target" in received.fields && "method" in received.fields
    requires ValidateUnits(received.fields["source"], "source") == Ok([])
    requires ValidateUnits(received.fields["target"], "target") == Ok([])
    ensures
      var sourceId := received.fields["source"].fields["object_id"];
      var targetId := received.fields["target"].fields["object_id"];
      if sourceId.Str? && targetId.Str? then
        var unknown := (if sourceId.s in texts then [] else [sourceId.s]) + (if targetId.s in texts then [] else [targetId.s]);
        ((Validate(received, texts).Reject? && Validate(received, texts).reason.UnknownTexts?) <==> unknown != [])
        && (unknown != [] ==> Validate(received, texts) == Reject(UnknownTexts(unknown)))
      else Validate(received, texts) == Raise(TypeError)
  {
    NoneAbsent(received);
  }

  /** Stage 4 and 5 on the method specification alone: no name rejects with
      the single "no method name" reason; a registered name rejects exactly
      when a key its registry entry requires is absent, listing each such key
      once (never `name` itself); an unregistered string name raises
      KeyError instead of being rejected. */
  lemma MethodStage(methodSpec: Value)
    ensures forall n <- MethodRequirements :: "name" in MethodRequirements[n]
    ensures IsContainer(methodSpec) && !Has(methodSpec, "name") ==> CheckMethod(methodSpec) == Reject(NoMethodName)
    ensures (methodSpec.Obj? && "name" in methodSpec.fields && methodSpec.fields["name"].Str?
      && methodSpec.fields["name"].s !in MethodRequirements) ==> CheckMethod(methodSpec) == Raise(KeyError)
    ensures (methodSpec.Obj? && "name" in methodSpec.fields && methodSpec.fields["name"].Str?
      && methodSpec.fields["name"].s in MethodRequirements) ==>
        var required := MethodRequirements[methodSpec.fields["name"].s];
        match CheckMethod(methodSpec)
        case Pass(n) => n == methodSpec.fields["name"].s && forall k <- required :: k in methodSpec.fields
        case Reject(MissingMethodKeys(keys)) =>
          keys != [] && NoDuplicates(keys) && "name" !in keys
          && forall k :: k in keys <==> k in required && k !in methodSpec.fields
        case _ => false
    ensures !IsContainer(methodSpec) ==> CheckMethod(methodSpec) == Raise(TypeError)
    ensures (methodSpec.Arr? || methodSpec.Str?) && Has(methodSpec, "name") ==> CheckMethod(methodSpec) == Raise(TypeError)
    ensures methodSpec.Obj? && "name" in methodSpec.fields ==>
      var name := methodSpec.fields["name"];
      ((name.Arr? || name.Obj?) ==> CheckMethod(methodSpec) == Raise(TypeError))
      && ((name.Null? || name.Bool? || name.Num?) ==> CheckMethod(methodSpec) == Raise(KeyError))
  {
    if methodSpec.Obj? && "name" in methodSpec.fields && methodSpec.fields["name"].Str?
      && methodSpec.fields["name"].s in MethodRequirements {
      var required := MethodRequirements[methodSpec.fields["name"].s];
      var missing := Absent(required, methodSpec);
      assert NoDuplicates(required);
      if missing == [] {
        forall k <- required
          ensures k in methodSpec.fields
        {
          assert k !in missing;
        }
      }
    }
  }

  /** With the earlier stages passed, the method stage decides: its rejection
      or exception is the request's. */
  lemma MethodStageDecides(received: Value, texts: map<string, TextRecord>)
    requires received.Obj? && "source" in received.fields && "target" in received.fields && "method" in received.fields
    requires ValidateUnits(received.fields["source"], "source") == Ok([])
    requires ValidateUnits(received.fields["target"], "target") == Ok([])
    requires received.fields["source"].fields["object_id"].Str? && received.fields["source"].fields["object_id"].s in texts
    requires received.fields["target"].fields["object_id"].Str? && received.fields["target"].fields["object_id"].s in texts
    ensures CheckMethod(received.fields["method"]).Reject? ==>
      Validate(received, texts) == Reject(CheckMethod(received.fields["method"]).reason)
    ensures CheckMethod(received.fields["method"]).Raise? ==>
      Validate(received, texts) == Raise(CheckMethod(received.fields["method"]).fault)
  {
    NoneAbsent(received);
  }

  /** Only a request that passes every stage is queued; a full queue makes
      the handler raise (its except clause names a missing module) rather
      than answer, and a rejection does not depend on the queue. */
  lemma SubmissionOutcome(received: Value, texts: map<string, TextRecord>, resultsId: string, room: bool)
    ensures Submission(received, texts, resultsId, room).Admitted? <==> room && Validate(received, texts).Pass?
    ensures Validate(received, texts).Reject? ==>
      Submission(received, texts, resultsId, room) == Rejected(Validate(received, texts).reason)
    ensures Validate(received, texts).Raise? ==>
      Submission(received, texts, resultsId, room) == Failed(Validate(received, texts).fault)
    ensures Validate(received, texts).Pass? && !room ==>
      Submission(received, texts, resultsId, room) == Failed(AttributeError)
  {
  }

  /** `search` is what the handler queues for `received`: both resolved
      texts, the source's unit type, and the method's parameters with
      `freq_basis` renamed `frequency_basis` and `distance_basis` renamed
      `distance_metric`, values unchanged. */
  ghost predicate Describes(search: Search, received: Value, texts: map<string, TextRecord>) {
    && received.Obj? && "source" in received.fields && "target" in received.fields && "method" in received.fields
    && var source, target, spec := received.fields["source"], received.fields["target"], received.fields["method"];
    && source.Obj? && target.Obj? && spec.Obj?
    && "object_id" in source.fields && source.fields["object_id"].Str? && source.fields["object_id"].s in texts
    && "object_id" in target.fields && target.fields["object_id"].Str? && target.fields["object_id"].s in texts
    && "units" in source.fields && IsUnitName(source.fields["units"])
    && "units" in target.fields && IsUnitName(target.fields["units"])
    && "name" in spec.fields && spec.fields["name"] == Str(search.methodName)
    && search.methodName in MethodRequirements
    && (forall k <- MethodRequirements[search.methodName] :: k in spec.fields)
    && search.params == Descriptor(
         [texts[source.fields["object_id"].s], texts[target.fields["object_id"].s]],
         source.fields["units"],
         spec.fields["feature"], spec.fields["stopwords"], spec.fields["freq_basis"],
         spec.fields["max_distance"], spec.fields["distance_basis"])
  }

  /** A request that passes validation yields the search it describes. */
  lemma PassedRequest(received: Value, texts: map<string, TextRecord>)
    requires Validate(received, texts).Pass?
    ensures Describes(Validate(received, texts).value, received, texts)
  {
    assert IsContainer(received) && Absent(RequiredKeys, received) == [];
    assert "source" in RequiredKeys && "target" in RequiredKeys && "method" in RequiredKeys;
    PassedParts(received.fields["source"], received.fields["target"], received.fields["method"], texts);
  }

  /** Conversely, a request that describes a search passes every stage of
      validation and yields exactly that search. */
  lemma DescribedRequestPasses(search: Search, received: Value, texts: map<string, TextRecord>)
    requires Describes(search, received, texts)
    ensures Validate(received, texts) == Pass(search)
  {
    NoneAbsent(received);
    var source, target, spec := received.fields["source"], received.fields["target"], received.fields["method"];
    assert UnitErrors(source, target) == Ok([]);
    var sourceText, targetText := texts[source.fields["object_id"].s], texts[target.fields["object_id"].s];
    assert ResolveTexts(source.fields["object_id"], target.fields["object_id"], texts) == Pass((sourceText, targetText));
    RegisteredMethodPasses(spec, search.methodName);
    assert search.methodName == "original";
    assert forall k <- DescriptorKeys :: k in MethodRequirements[search.methodName];
    assert Describe(sourceText, targetText, source.fields["units"], spec) == Pass(search.params);
    assert ValidateParts(source, target, spec, texts) == Pass(search);
  }

  /** A registered method name with every key its registry entry requires passes the method stage. */
  lemma RegisteredMethodPasses(methodSpec: Value, name: string)
    requires methodSpec.Obj? && "name" in methodSpec.fields && methodSpec.fields["name"] == Str(name)
    requires name in MethodRequirements && forall k <- MethodRequirements[name] :: k in methodSpec.fields
    ensures CheckMethod(methodSpec) == Pass(name)
  {
    var missing := Absent(MethodRequirements[name], methodSpec);
    EmptyTogether(missing, []);
  }

  /** A request that describes a search, met by a queue with room, is
      admitted with the Location of its results id and queues that search. */
  lemma AdmittedWhenRoom(search: Search, received: Value, texts: map<string, TextRecord>, resultsId: string)
    requires Describes(search, received, texts)
    ensures Submission(received, texts, resultsId, true)
      == Admitted(Location(resultsId), Job(resultsId, search.methodName, search.params))
  {
    DescribedRequestPasses(search, received, texts);
  }

  /** An admitted search answers with the results id under /parallels/ and
      queues, under that id, the search the request describes. */
  lemma AdmittedSearch(received: Value, texts: map<string, TextRecord>, resultsId: string, room: bool)
    ensures
      var out := Submission(received, texts, resultsId, room);
      out.Admitted? ==>
        && out.location == Location(resultsId)
        && out.job.resultsId == resultsId
        && Describes(Search(out.job.methodName, out.job.params), received, texts)
  {
    var out := Submission(received, texts, resultsId, room);
    if out.Admitted? {
      PassedRequest(received, texts);
    }
  }

  /** The specifications of a request that passes the later stages, and the search they give. */
  lemma PassedParts(source: Value, target: Value, spec: Value, texts: map<string, TextRecord>)
    requires ValidateParts(source, target, spec, texts).Pass?
    ensures source.Obj? && target.Obj? && spec.Obj?
    ensures "object_id" in source.fields && source.fields["object_id"].Str? && source.fields["object_id"].s in texts
    ensures "object_id" in target.fields && target.fields["object_id"].Str? && target.fields["object_id"].s in texts
    ensures "units" in source.fields && IsUnitName(source.fields["units"])
    ensures "units" in target.fields && IsUnitName(target.fields["units"])
    ensures var name := ValidateParts(source, target, spec, texts).value.methodName;
      "name" in spec.fields && spec.fields["name"] == Str(name)
      && name in MethodRequirements
      && (forall k <- MethodRequirements[name] :: k in spec.fields)
      && ValidateParts(source, target, spec, texts).value.params == Descriptor(
           [texts[source.fields["object_id"].s], texts[target.fields["object_id"].s]],
           source.fields["units"],
           spec.fields["feature"], spec.fields["stopwords"], spec.fields["freq_basis"],
           spec.fields["max_distance"], spec.fields["distance_basis"])
  {
    MethodStage(spec);
  }

  /** With all three top-level keys in a dict, none is reported missing. */
  lemma NoneAbsent(received: Value)
    requires received.Obj? && "source" in received.fields && "target" in received.fields && "method" in received.fields
    ensures Absent(RequiredKeys, received) == []
  {
    forall k
      ensures k !in Absent(RequiredKeys, received)
    {
    }
    EmptyTogether(Absent(RequiredKeys, received), []);
  }

  /** The 400 messages name what they reject: each missing key, each unit
      problem's line and each unknown id appears in the text, after the
      stage's fixed opening. */
  lemma MessageNames(r: Rejection)
    ensures r.MissingKeys? ==>
      MissingKeysOpening <= Message(r) && forall k <- r.keys :: Occurs(k, Message(r))
    ensures r.BadUnits? ==>
      BadUnitsOpening <= Message(r) && forall e <- r.errors :: Occurs(e.Text(), Message(r))
    ensures r.UnknownTexts? ==>
      UnknownTextsOpening <= Message(r) && forall id <- r.ids :: Occurs(id, Message(r))
    ensures r.MissingMethodKeys? ==>
      MissingMethodKeysOpening <= Message(r) && forall k <- r.keys :: Occurs(k, Message(r))
  {
    match r
    case MissingKeys(keys) =>
      JoinedAfter(MissingKeysOpening, ", ", keys);
    case BadUnits(errors) =>
      var lines := UnitLines(errors);
      JoinedAfter(BadUnitsOpening, "\n\t", lines);
      forall e <- errors
        ensures e.Text() in lines
      {
        var i :| 0 <= i < |errors| && errors[i] == e;
        assert lines[i] == e.Text();
      }
    case UnknownTexts(ids) =>
      JoinedAfter(UnknownTextsOpening, "\n\t", ids);
    case NoMethodName =>
    case MissingMethodKeys(keys) =>
      JoinedAfter(MissingMethodKeysOpening, ", ", keys);
  }

  /** A 128-bit uuid4 rendered as lower-case hex, as the handler draws it. */
  predicate IsHexId(id: string) {
    |id| == 32 && forall c <- id :: c in "0123456789abcdef"
  }

  /** How a client reads the results id back out of a Location header. */
  function ParseLocation(location: string): Option<string> {
    var prefix := UrlPrefix + "/";
    if |location| > |prefix| && prefix <= location && location[|location| - 1] == '/' then
      Some(location[|prefix|..|location| - 1])
    else None
  }

  /** For a hex id the Location is `/parallels/<id>/`, and the client gets the id back. */
  lemma LocationRoundTrip(resultsId: string)
    requires IsHexId(resultsId)
    ensures Location(resultsId) == "/parallels/" + resultsId + "/"
    ensures ParseLocation(Location(resultsId)) == Some(resultsId)
  {
    assert resultsId[0] in resultsId;
    assert resultsId[|resultsId| - 1] in resultsId;
    var joined := PathJoin(UrlPrefix, resultsId);
    assert joined == "/parallels/" + resultsId;
    assert joined[|joined| - 1] == resultsId[|resultsId| - 1];
    assert Location(resultsId) == joined + "/";
    var prefix := UrlPrefix + "/";
    var location := prefix + resultsId + "/";
    assert |prefix| == 11 && |location| == 11 + |resultsId| + 1;
    assert prefix <= location;
    assert location[11..|location| - 1] == resultsId;
  }
}
