/** What the two lookup handlers promise about the replies they build. */
module RetrievalProperties {
  import opened Values
  import opened Records
  import opened Retrieval

  /** The first record `Select` returns is the first matching record in store order. */
  lemma {:induction false} SelectHead<T(!new)>(records: seq<T>, matches: T -> bool) returns (i: nat)
    requires Select(records, matches) != []
    ensures i < |records| && records[i] == Select(records, matches)[0] && matches(records[i])
    ensures forall j :: 0 <= j < i ==> !matches(records[j])
  {
    if matches(records[0]) {
      i := 0;
    } else {
      var k := SelectHead(records[1..], matches);
      i := k + 1;
    }
  }

  /** `Select` keeps store order: selecting from two runs of records one after
      the other gives the selections from each, one after the other. */
  lemma {:induction false} SelectAppend<T(!new)>(a: seq<T>, b: seq<T>, matches: T -> bool)
    ensures Select(a + b, matches) == Select(a, matches) + Select(b, matches)
  {
    if a == [] {
      assert a + b == b;
    } else {
      assert (a + b)[1..] == a[1..] + b;
      SelectAppend(a[1..], b, matches);
    }
  }

  /** Strictly increasing positions. */
  ghost predicate Increasing(idx: seq<nat>) {
    forall k, l :: 0 <= k < l < |idx| ==> idx[k] < idx[l]
  }

  /** `Select` picks, in increasing order, exactly the positions of the
      matching records, each once: `idx[k]` is where its `k`-th record sits. */
  lemma {:induction false} SelectIndices<T(!new)>(records: seq<T>, matches: T -> bool) returns (idx: seq<nat>)
    ensures Increasing(idx) && |idx| == |Select(records, matches)|
    ensures forall k :: 0 <= k < |idx| ==> idx[k] < |records| && Select(records, matches)[k] == records[idx[k]]
    ensures forall i :: 0 <= i < |records| ==> (matches(records[i]) <==> i in idx)
  {
    if records == [] {
      return [];
    }
    var rest := Select(records[1..], matches);
    var tail := SelectIndices(records[1..], matches);
    if matches(records[0]) {
      assert Select(records, matches) == [records[0]] + rest;
      idx := IndicesAfterHead(records, rest, tail, true);
    } else {
      assert Select(records, matches) == rest;
      idx := IndicesAfterHead(records, rest, tail, false);
    }
    forall i | 0 < i < |records|
      ensures matches(records[i]) <==> i in idx
    {
      assert records[i] == records[1..][i - 1];
    }
  }

  /** Positions into a list's tail, counted in the whole list, with the head's
      position in front when `keepHead`. */
  lemma IndicesAfterHead<T>(records: seq<T>, rest: seq<T>, tail: seq<nat>, keepHead: bool) returns (idx: seq<nat>)
    requires records != []
    requires Increasing(tail) && |tail| == |rest|
    requires forall k :: 0 <= k < |tail| ==> tail[k] < |records| - 1 && rest[k] == records[1..][tail[k]]
    ensures Increasing(idx)
    ensures var picked := if keepHead then [records[0]] + rest else rest;
      |idx| == |picked| && forall k :: 0 <= k < |idx| ==> idx[k] < |records| && picked[k] == records[idx[k]]
    ensures forall i :: 0 <= i < |records| ==> (i in idx <==> (i == 0 && keepHead) || (i > 0 && i - 1 in tail))
  {
    var shifted := Shift(tail);
    assert forall k :: 0 <= k < |tail| ==> rest[k] == records[shifted[k]];
    if keepHead {
      idx := [0] + shifted;
      var picked := [records[0]] + rest;
      forall k | 0 < k < |idx|
        ensures idx[k] < |records| && picked[k] == records[idx[k]]
      {
        assert idx[k] == shifted[k - 1] && picked[k] == rest[k - 1];
      }
      forall k, l | 0 <= k < l < |idx|
        ensures idx[k] < idx[l]
      {
        assert idx[l] == shifted[l - 1];
        if k > 0 {
          assert idx[k] == shifted[k - 1];
        }
      }
    } else {
      idx := shifted;
    }
  }

  /** Positions one further on: the positions of a list's tail, counted in the whole list. */
  lemma Shift(tail: seq<nat>) returns (shifted: seq<nat>)
    requires Increasing(tail)
    ensures Increasing(shifted) && |shifted| == |tail|
    ensures forall k :: 0 <= k < |tail| ==> shifted[k] == tail[k] + 1
    ensures forall i :: i in shifted <==> i > 0 && i - 1 in tail
  {
    shifted := seq(|tail|, k requires 0 <= k < |tail| => tail[k] + 1);
    forall i
      ensures i in shifted <==> i > 0 && i - 1 in tail
    {
      if i in shifted {
        var k :| 0 <= k < |shifted| && shifted[k] == i;
        assert tail[k] == i - 1;
      }
      if i > 0 && i - 1 in tail {
        var k :| 0 <= k < |tail| && tail[k] == i - 1;
        assert shifted[k] == i;
      }
    }
  }

  /** `parallels` are the encodings of the matches of one match set, each
      match once, in store order: `idx` lists, increasing, exactly the
      positions of that match set's matches, and `parallels[k]` encodes the
      match at `idx[k]`. */
  ghost predicate EncodesInOrder(parallels: seq<Value>, matches: seq<MatchRecord>, matchSetId: string) {
    exists idx: seq<nat> ::
      && Increasing(idx) && |idx| == |parallels|
      && (forall k :: 0 <= k < |idx| ==> idx[k] < |matches| && parallels[k] == matches[idx[k]].encoded)
      && (forall j :: 0 <= j < |matches| ==> (matches[j].matchSet == matchSetId <==> j in idx))
  }

  /** The encoded matches of a match set keep the Store's order and count. */
  lemma ParallelsInOrder(store: Store, matchSetId: string)
    ensures EncodesInOrder(Encoded(MatchesOf(store, matchSetId)), store.matches, matchSetId)
  {
    var idx := SelectIndices(store.matches, (m: MatchRecord) => m.matchSet == matchSetId);
    var parallels := Encoded(MatchesOf(store, matchSetId));
    assert |idx| == |parallels|;
  }

  /** A status poll finds nothing exactly when no status record carries the
      results id; otherwise it echoes the first record that does. */
  lemma StatusLookup(store: Store, resultsId: string)
    ensures RetrieveStatus(store, resultsId).StatusNotFound? <==>
      forall s <- store.statuses :: s.resultsId != resultsId
    ensures RetrieveStatus(store, resultsId).StatusFound? ==>
      exists i :: 0 <= i < |store.statuses| && store.statuses[i].resultsId == resultsId
        && RetrieveStatus(store, resultsId) == StatusFound(resultsId, store.statuses[i].status, store.statuses[i].msg)
        && forall j :: 0 <= j < i ==> store.statuses[j].resultsId != resultsId
  {
    var matches := (s: StatusRecord) => s.resultsId == resultsId;
    var found := StatusesFor(store, resultsId);
    if found != [] {
      var i := SelectHead(store.statuses, matches);
      assert store.statuses[i] == found[0];
    }
  }

  /** A results request fails for want of a status record exactly when a
      status poll would; it succeeds exactly when the first status record
      names a match set the Store holds, and then the payload carries that
      match set's parameters and exactly the encodings of its matches. */
  lemma ResultsLookup(store: Store, resultsId: string)
    ensures RetrieveResults(store, resultsId).NoStatus? <==> RetrieveStatus(store, resultsId).StatusNotFound?
    ensures RetrieveResults(store, resultsId).NoMatchSet? ==>
      exists i :: 0 <= i < |store.statuses| && store.statuses[i].resultsId == resultsId
        && (forall j :: 0 <= j < i ==> store.statuses[j].resultsId != resultsId)
        && (store.statuses[i].matchSetId.None? || store.statuses[i].matchSetId.value !in store.matchSets)
    ensures RetrieveResults(store, resultsId).Results? ==>
      exists i :: 0 <= i < |store.statuses| && store.statuses[i].resultsId == resultsId
        && (forall j :: 0 <= j < i ==> store.statuses[j].resultsId != resultsId)
        && store.statuses[i].matchSetId.Some?
        && store.statuses[i].matchSetId.value in store.matchSets
        && var matchSet := store.matchSets[store.statuses[i].matchSetId.value];
           RetrieveResults(store, resultsId).payload.data == matchSet.parameters
           && (forall v :: v in RetrieveResults(store, resultsId).payload.parallels <==>
                exists m :: m in store.matches && m.matchSet == matchSet.id && m.encoded == v)
           && EncodesInOrder(RetrieveResults(store, resultsId).payload.parallels, store.matches, matchSet.id)
  {
    var found := StatusesFor(store, resultsId);
    var reply := RetrieveResults(store, resultsId);
    if reply.NoMatchSet? {
      var i := SelectHead(store.statuses, (s: StatusRecord) => s.resultsId == resultsId);
      assert store.statuses[i] == found[0];
    }
    if reply.Results? {
      var i := SelectHead(store.statuses, (s: StatusRecord) => s.resultsId == resultsId);
      assert store.statuses[i] == found[0];
      var matchSet := store.matchSets[found[0].matchSetId.value];
      assert reply.payload == Payload(matchSet.parameters, Encoded(MatchesOf(store, matchSet.id)));
      ParallelsInOrder(store, matchSet.id);
      ParallelsOfMatchSet(store, matchSet.id);
    }
  }

  /** The encoded matches of a match set are the encodings of exactly the
      Store's matches that reference it. */
  lemma ParallelsOfMatchSet(store: Store, matchSetId: string)
    ensures forall v :: v in Encoded(MatchesOf(store, matchSetId)) <==>
      exists m :: m in store.matches && m.matchSet == matchSetId && m.encoded == v
  {
    var idx := SelectIndices(store.matches, (m: MatchRecord) => m.matchSet == matchSetId);
    InOrderMembers(Encoded(MatchesOf(store, matchSetId)), store.matches, matchSetId, idx);
  }

  /** Encodings listed in store order at the positions `idx`, one per match
      of the match set, contain exactly the encodings of those matches. */
  lemma InOrderMembers(parallels: seq<Value>, matches: seq<MatchRecord>, matchSetId: string, idx: seq<nat>)
    requires |idx| == |parallels|
    requires forall k :: 0 <= k < |idx| ==> idx[k] < |matches| && parallels[k] == matches[idx[k]].encoded
    requires forall j :: 0 <= j < |matches| ==> (matches[j].matchSet == matchSetId <==> j in idx)
    ensures forall v :: v in parallels <==>
      exists m :: m in matches && m.matchSet == matchSetId && m.encoded == v
  {
    forall v
      ensures v in parallels <==> exists m :: m in matches && m.matchSet == matchSetId && m.encoded == v
    {
      if v in parallels {
        var k :| 0 <= k < |parallels| && parallels[k] == v;
        assert idx[k] in idx;
        assert matches[idx[k]] in matches;
      }
      if exists m :: m in matches && m.matchSet == matchSetId && m.encoded == v {
        var m :| m in matches && m.matchSet == matchSetId && m.encoded == v;
        var j :| 0 <= j < |matches| && matches[j] == m;
        var k :| 0 <= k < |idx| && idx[k] == j;
        assert parallels[k] == v;
      }
    }
  }
}
