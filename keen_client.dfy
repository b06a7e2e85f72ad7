/** The bookkeeping core of the Keen metrics client (ViroKeenClient.java):
    the singleton, event validation, the merge of global and per-event
    properties, the retry counting that decides which cached events are sent
    again, and the removal of cached events after the server answers.
    Events are values; the event store, whose cache and attempt counts the
    client changes in place, is a class. */
module KeenClient {
  import opened Wrappers

  /** A property value: a string, a nested map, a list (any Iterable), or
      anything else (numbers, booleans, null), which validation accepts. */
  datatype Value = Str(s: string) | MapV(m: map<string, Value>) | ListV(items: seq<Value>) | Scalar

  type Event = map<string, Value>

  datatype KeenError =
    | NotInitialized      // client() before initialize()
    | NullClient          // initialize(null)
    | NoWriteKey          // the project has no write key
    | InvalidCollection   // a collection name that is null, empty or too long
    | InvalidEvent        // an event that fails validateEvent

  /** Longest collection name and property name accepted. */
  const MaxNameLength := 256
  /** A string property value must be shorter than this. */
  const MaxStringLength := 10000

  // ---------------------------------------------------------------------
  // The singleton
  // ---------------------------------------------------------------------

  /** Identity of a ViroKeenClient instance. */
  type ClientId = int

  /** The client held after one initialize(c) call: a null argument is an
      error and changes nothing, and only the first non-null client is kept. */
  function AfterInitialize(current: Option<ClientId>, c: Option<ClientId>): Option<ClientId>
  {
    if c.None? || current.Some? then current else c
  }

  /** The client held after a sequence of initialize calls, in order. */
  function InitializeAll(current: Option<ClientId>, calls: seq<Option<ClientId>>): Option<ClientId>
    decreases |calls|
  {
    if calls == [] then current
    else InitializeAll(AfterInitialize(current, calls[0]), calls[1..])
  }

  /** The first non-null client in a sequence of calls, if any. */
  function FirstPresent(calls: seq<Option<ClientId>>): Option<ClientId>
  {
    if calls == [] then None
    else if calls[0].Some? then calls[0]
    else FirstPresent(calls[1..])
  }

  /** Only the first non-null initialize takes effect: whatever is called
      later, the held client is the one already held, or else the first
      non-null argument. */
  lemma {:induction false} FirstInitializeWins(current: Option<ClientId>, calls: seq<Option<ClientId>>)
    ensures InitializeAll(current, calls) == if current.Some? then current else FirstPresent(calls)
    ensures current.None? && (forall i :: 0 <= i < |calls| ==> calls[i].None?) ==> InitializeAll(current, calls).None?
    decreases |calls|
  {
    if calls != [] {
      FirstInitializeWins(AfterInitialize(current, calls[0]), calls[1..]);
      if current.None? && (forall i :: 0 <= i < |calls| ==> calls[i].None?) {
        assert forall i :: 0 <= i < |calls[1..]| ==> calls[1..][i] == calls[i + 1];
      }
    }
  }

  class ClientSingleton {
    var client: Option<ClientId>

    constructor()
      ensures client.None?
    {
      client := None;
    }

    /** initialize(c): null is refused; a second non-null client is ignored. */
    method Initialize(c: Option<ClientId>) returns (error: Option<KeenError>)
      modifies this
      ensures error == (if c.None? then Some(NullClient) else None)
      ensures client == AfterInitialize(old(client), c)
      ensures old(client).Some? ==> client == old(client)
    {
      if c.None? {
        return Some(NullClient);
      }
      error := None;
      if client.Some? {
        return;
      }
      client := c;
    }

    /** client(): the held client, or an error before initialization. */
    method Client() returns (r: Result<ClientId, KeenError>)
      ensures r.Ok? <==> client.Some?
      ensures r.Ok? ==> r.value == client.value
      ensures r.Err? ==> r.error == NotInitialized
    {
      if client.None? {
        return Err(NotInitialized);
      }
      return Ok(client.value);
    }

    /** isInitialized(). */
    function IsInitialized(): (b: bool)
      reads this
      ensures b <==> client.Some?
    {
      client != None
    }
  }

  // ---------------------------------------------------------------------
  // Validation
  // ---------------------------------------------------------------------

  /** validateEventCollection: a collection name must be non-null, non-empty
      and at most 256 characters long. */
  predicate ValidCollection(collection: Option<string>)
  {
    collection.Some? && |collection.value| != 0 && |collection.value| <= MaxNameLength
  }

  /** A property name may not contain '.' and is at most 256 characters. */
  predicate KeyOk(key: string)
  {
    '.' !in key && |key| <= MaxNameLength
  }

  /** validateEvent(event, depth): at the root the event must be non-empty and
      have no "keen" property; below the root the depth may not exceed
      maxDepth; every key must be acceptable and every value valid at the
      same depth. */
  predicate ValidEvent(event: Event, depth: nat, maxDepth: nat)
    decreases MapV(event), 0
  {
    (if depth == 0 then |event| != 0 && "keen" !in event else depth <= maxDepth)
    && forall key :: key in event ==> KeyOk(key) && ValidValue(event[key], depth, maxDepth)
  }

  /** validateEventValue(value, depth): strings must be short, a nested map is
      one level deeper, list elements stay at the list's depth. */
  predicate ValidValue(v: Value, depth: nat, maxDepth: nat)
    decreases v, 1
  {
    match v
    case Str(s) => |s| < MaxStringLength
    case MapV(m) => ValidEvent(m, depth + 1, maxDepth)
    case ListV(items) => forall i :: 0 <= i < |items| ==> ValidValue(items[i], depth, maxDepth)
    case Scalar => true
  }

  /** validateEvent(event) on a possibly null event. */
  predicate ValidRootEvent(event: Option<Event>, maxDepth: nat)
  {
    event.Some? && ValidEvent(event.value, 0, maxDepth)
  }

  // Independent reference definitions of what validation demands.

  /** Every property name anywhere inside the value is acceptable. */
  predicate KeysOk(v: Value)
  {
    match v
    case MapV(m) => forall k :: k in m ==> KeyOk(k) && KeysOk(m[k])
    case ListV(items) => forall i :: 0 <= i < |items| ==> KeysOk(items[i])
    case _ => true
  }

  /** Every string anywhere inside the value is shorter than the limit. */
  predicate StringsShort(v: Value)
  {
    match v
    case Str(s) => |s| < MaxStringLength
    case MapV(m) => forall k :: k in m ==> StringsShort(m[k])
    case ListV(items) => forall i :: 0 <= i < |items| ==> StringsShort(items[i])
    case Scalar => true
  }

  /** Maps are nested at most n deep inside the value (lists do not count). */
  predicate NestedAtMost(v: Value, n: int)
  {
    match v
    case MapV(m) => 1 <= n && forall k :: k in m ==> NestedAtMost(m[k], n - 1)
    case ListV(items) => forall i :: 0 <= i < |items| ==> NestedAtMost(items[i], n)
    case _ => true
  }

  /** A value met at a given depth is valid exactly when all its keys are
      acceptable, all its strings are short and its maps nest no deeper
      than the remaining depth allowance. */
  lemma {:induction false} ValidValueIff(v: Value, depth: nat, maxDepth: nat)
    ensures ValidValue(v, depth, maxDepth) <==> KeysOk(v) && StringsShort(v) && NestedAtMost(v, maxDepth - depth)
    decreases v
  {
    match v
    case Str(s) =>
    case Scalar =>
    case MapV(m) =>
      forall k | k in m
        ensures ValidValue(m[k], depth + 1, maxDepth)
                <==> KeysOk(m[k]) && StringsShort(m[k]) && NestedAtMost(m[k], maxDepth - (depth + 1))
      {
        ValidValueIff(m[k], depth + 1, maxDepth);
      }
    case ListV(items) =>
      forall i | 0 <= i < |items|
        ensures ValidValue(items[i], depth, maxDepth)
                <==> KeysOk(items[i]) && StringsShort(items[i]) && NestedAtMost(items[i], maxDepth - depth)
      {
        ValidValueIff(items[i], depth, maxDepth);
      }
  }

  /** A root event is accepted exactly when it is non-empty, has no root
      "keen" property, and, seen as a value, has acceptable keys, short
      strings and maps nested at most maxDepth + 1 deep (the root included). */
  lemma ValidRootEventIff(event: Event, maxDepth: nat)
    ensures ValidEvent(event, 0, maxDepth)
            <==> |event| != 0 && "keen" !in event && KeysOk(MapV(event)) && StringsShort(MapV(event))
                 && NestedAtMost(MapV(event), maxDepth + 1)
  {
    forall k | k in event
      ensures ValidValue(event[k], 0, maxDepth)
              <==> KeysOk(event[k]) && StringsShort(event[k]) && NestedAtMost(event[k], maxDepth)
    {
      ValidValueIff(event[k], 0, maxDepth);
    }
  }

  // ---------------------------------------------------------------------
  // Property merging
  // ---------------------------------------------------------------------

  /** The entries of a global-properties map's "keen" value, when that value
      is a map; nothing otherwise. */
  function KeenPart(global: Event): Event
  {
    if "keen" in global && global["keen"].MapV? then global["keen"].m else map[]
  }

  /** mergeGlobalProperties: the "keen" map of a copy of the globals goes into
      the keen properties, everything else into the new event. The caller's
      globals are a value and so are never changed. */
  function MergeGlobalProperties(global: Option<Event>, keenProperties: Event, newEvent: Event): (r: (Event, Event))
    ensures global.None? ==> r == (keenProperties, newEvent)
    ensures global.Some? ==> forall k :: k in r.0 <==> k in keenProperties || k in KeenPart(global.value)
    ensures global.Some? ==> forall k :: k in KeenPart(global.value) ==> r.0[k] == KeenPart(global.value)[k]
    ensures global.Some? ==> forall k :: k in keenProperties && k !in KeenPart(global.value) ==> r.0[k] == keenProperties[k]
    ensures global.Some? ==> forall k :: k in r.1 <==> k in newEvent || (k in global.value && k != "keen")
    ensures global.Some? ==> forall k :: k in global.value && k != "keen" ==> r.1[k] == global.value[k]
    ensures global.Some? ==> forall k :: k in newEvent && (k !in global.value || k == "keen") ==> r.1[k] == newEvent[k]
  {
    if global.None? then (keenProperties, newEvent)
    else (keenProperties + KeenPart(global.value), newEvent + (global.value - {"keen"}))
  }

  /** validateAndBuildEvent. The dynamic globals are what the global
      properties evaluator returns for this collection (None when there is no
      evaluator or it returns null); the timestamp is the formatted current
      time. */
  function ValidateAndBuildEvent(writeKey: Option<string>, collection: Option<string>, event: Option<Event>,
                                 keenProperties: Option<Event>, globalProperties: Option<Event>,
                                 dynamicGlobals: Option<Event>, timestamp: string, maxDepth: nat): (r: Result<Event, KeenError>)
    ensures writeKey.None? ==> r == Err(NoWriteKey)
    ensures writeKey.Some? && !ValidCollection(collection) ==> r == Err(InvalidCollection)
    ensures writeKey.Some? && ValidCollection(collection) && !ValidRootEvent(event, maxDepth) ==> r == Err(InvalidEvent)
    ensures r.Ok? <==> writeKey.Some? && ValidCollection(collection) && ValidRootEvent(event, maxDepth)
    ensures r.Ok? ==> "keen" in r.value && r.value["keen"].MapV? && "timestamp" in r.value["keen"].m
    ensures r.Ok? ==> forall k :: k in event.value ==> k in r.value && r.value[k] == event.value[k]
  {
    if writeKey.None? then Err(NoWriteKey)
    else if !ValidCollection(collection) then Err(InvalidCollection)
    else if !ValidRootEvent(event, maxDepth) then Err(InvalidEvent)
    else
      var (k1, e1) := MergeGlobalProperties(globalProperties, map[], map[]);
      var (k2, e2) := MergeGlobalProperties(dynamicGlobals, k1, e1);
      var k3 := if keenProperties.Some? then k2 + keenProperties.value else k2;
      var k4 := if "timestamp" in k3 then k3 else k3["timestamp" := Str(timestamp)];
      var e3 := e2["keen" := MapV(k4)];
      Ok(e3 + event.value)
  }

  /** The layers a property can come from, highest precedence first. */
  predicate InLayer(layer: Option<Event>, k: string)
  {
    layer.Some? && k in layer.value
  }

  /** Non-keen properties: the event's own values win over the dynamic
      globals, which win over the static globals; no other property appears
      besides "keen". */
  lemma EventPropertyPrecedence(writeKey: Option<string>, collection: Option<string>, event: Option<Event>,
                                keenProperties: Option<Event>, globalProperties: Option<Event>,
                                dynamicGlobals: Option<Event>, timestamp: string, maxDepth: nat)
    requires ValidateAndBuildEvent(writeKey, collection, event, keenProperties, globalProperties, dynamicGlobals, timestamp, maxDepth).Ok?
    ensures var e := ValidateAndBuildEvent(writeKey, collection, event, keenProperties, globalProperties, dynamicGlobals, timestamp, maxDepth).value;
      && (forall k :: k in e <==> k == "keen" || InLayer(event, k) || InLayer(dynamicGlobals, k) || InLayer(globalProperties, k))
      && (forall k :: k != "keen" && !InLayer(event, k) && InLayer(dynamicGlobals, k) ==> e[k] == dynamicGlobals.value[k])
      && (forall k :: k != "keen" && !InLayer(event, k) && !InLayer(dynamicGlobals, k) && InLayer(globalProperties, k)
                     ==> e[k] == globalProperties.value[k])
  {
    var (k1, e1) := MergeGlobalProperties(globalProperties, map[], map[]);
    var (k2, e2) := MergeGlobalProperties(dynamicGlobals, k1, e1);
    assert forall k :: k in e1 <==> k != "keen" && InLayer(globalProperties, k);
    assert forall k :: k in e2 <==> k != "keen" && (InLayer(dynamicGlobals, k) || InLayer(globalProperties, k));
    assert forall k :: k != "keen" && InLayer(dynamicGlobals, k) ==> e2[k] == dynamicGlobals.value[k];
    assert forall k :: k != "keen" && !InLayer(dynamicGlobals, k) && InLayer(globalProperties, k) ==>
      e2[k] == globalProperties.value[k];
  }

  /** Keen properties: the per-event ones win over those of the dynamic
      globals, which win over those of the static globals; "timestamp" is the
      given time only when none of them supplies one. */
  lemma KeenPropertyPrecedence(writeKey: Option<string>, collection: Option<string>, event: Option<Event>,
                               keenProperties: Option<Event>, globalProperties: Option<Event>,
                               dynamicGlobals: Option<Event>, timestamp: string, maxDepth: nat)
    requires ValidateAndBuildEvent(writeKey, collection, event, keenProperties, globalProperties, dynamicGlobals, timestamp, maxDepth).Ok?
    ensures var km := ValidateAndBuildEvent(writeKey, collection, event, keenProperties, globalProperties, dynamicGlobals, timestamp, maxDepth).value["keen"].m;
      var dyn := if dynamicGlobals.Some? then Some(KeenPart(dynamicGlobals.value)) else None;
      var stat := if globalProperties.Some? then Some(KeenPart(globalProperties.value)) else None;
      && (forall k :: k in km <==> k == "timestamp" || InLayer(keenProperties, k) || InLayer(dyn, k) || InLayer(stat, k))
      && (forall k :: InLayer(keenProperties, k) ==> km[k] == keenProperties.value[k])
      && (forall k :: !InLayer(keenProperties, k) && InLayer(dyn, k) ==> km[k] == dyn.value[k])
      && (forall k :: !InLayer(keenProperties, k) && !InLayer(dyn, k) && InLayer(stat, k) ==> km[k] == stat.value[k])
      && (!InLayer(keenProperties, "timestamp") && !InLayer(dyn, "timestamp") && !InLayer(stat, "timestamp")
          ==> km["timestamp"] == Str(timestamp))
  {
  }

  // ---------------------------------------------------------------------
  // Retry counting (buildEventMap with an attempt-counting store)
  // ---------------------------------------------------------------------

  /** A handle of a cached event; the attempt counts are keyed by its hash code. */
  datatype Handle = Handle(id: int, hashCode: int)

  /** The remaining attempts recorded for a handle; a missing count means
      "this is the last attempt". */
  function Remaining(counts: map<int, int>, h: Handle): int
  {
    if h.hashCode in counts then counts[h.hashCode] else 1
  }

  /** The outcome of one pass over a collection's handles: the handles sent
      again, the new attempt counts, and the handles dropped from the store. */
  datatype Pass = Pass(sent: seq<Handle>, counts: map<int, int>, dropped: set<Handle>)

  /** One pass, handle by handle: the count is decremented and stored; a
      handle is sent iff the new count is not negative, and otherwise it is
      removed from the store and its count deleted. */
  function AttemptPass(handles: seq<Handle>, counts: map<int, int>): (p: Pass)
    decreases |handles|
  {
    if handles == [] then Pass([], counts, {})
    else AttemptStep(AttemptPass(handles[..|handles| - 1], counts), handles[|handles| - 1])
  }

  /** The pass's treatment of one handle. */
  function AttemptStep(p: Pass, h: Handle): Pass
  {
    var left := Remaining(p.counts, h) - 1;
    if left >= 0 then Pass(p.sent + [h], p.counts[h.hashCode := left], p.dropped)
    else Pass(p.sent, p.counts - {h.hashCode}, p.dropped + {h})
  }

  /** A pass leaves alone the counts of hash codes none of its handles has. */
  lemma {:induction false} AttemptPassKeepsOthers(handles: seq<Handle>, counts: map<int, int>, key: int)
    requires forall i :: 0 <= i < |handles| ==> handles[i].hashCode != key
    ensures var p := AttemptPass(handles, counts);
      (key in p.counts <==> key in counts) && (key in counts ==> p.counts[key] == counts[key])
    decreases |handles|
  {
    if handles != [] {
      var init := handles[..|handles| - 1];
      assert forall i :: 0 <= i < |init| ==> init[i] == handles[i];
      AttemptPassKeepsOthers(init, counts, key);
    }
  }

  /** A pass drops only its own handles. */
  lemma {:induction false} AttemptPassDropsOwn(handles: seq<Handle>, counts: map<int, int>, h: Handle)
    requires h in AttemptPass(handles, counts).dropped
    ensures h in handles
    decreases |handles|
  {
    var init, last := handles[..|handles| - 1], handles[|handles| - 1];
    if h != last {
      AttemptPassDropsOwn(init, counts, h);
    }
  }

  /** A pass over one more handle takes one more step. */
  lemma AttemptPassStep(handles: seq<Handle>, i: int, counts: map<int, int>, p: Pass)
    requires 0 <= i < |handles| && p == AttemptPass(handles[..i], counts)
    ensures AttemptStep(p, handles[i]) == AttemptPass(handles[..i + 1], counts)
  {
    assert handles[..i + 1][..i] == handles[..i];
  }

  /** The handles whose initial count leaves at least one attempt, in order. */
  function StillAttempted(handles: seq<Handle>, counts: map<int, int>): seq<Handle>
    decreases |handles|
  {
    if handles == [] then []
    else
      var rest := StillAttempted(handles[..|handles| - 1], counts);
      var h := handles[|handles| - 1];
      if Remaining(counts, h) >= 1 then rest + [h] else rest
  }

  predicate DistinctHashes(handles: seq<Handle>)
  {
    forall i, j :: 0 <= i < j < |handles| ==> handles[i].hashCode != handles[j].hashCode
  }

  /** When no two handles share a hash code, the handles sent are, in
      order, those whose initial count (1 when missing) is at least 1. */
  lemma {:induction false} AttemptPassSent(handles: seq<Handle>, counts: map<int, int>)
    requires DistinctHashes(handles)
    ensures AttemptPass(handles, counts).sent == StillAttempted(handles, counts)
    decreases |handles|
  {
    if handles != [] {
      var init := handles[..|handles| - 1];
      var h := handles[|handles| - 1];
      assert DistinctHashes(init);
      AttemptPassSent(init, counts);
      assert forall i :: 0 <= i < |init| ==> init[i].hashCode != h.hashCode;
      AttemptPassKeepsOthers(init, counts, h.hashCode);
      assert Remaining(AttemptPass(init, counts).counts, h) == Remaining(counts, h);
    }
  }

  /** When no two handles share a hash code, each handle is judged by its
      own initial count: with at least one attempt left its count drops by
      one and it stays in the store; otherwise it is dropped from the store
      and its count deleted. */
  lemma {:induction false} AttemptPassHandle(handles: seq<Handle>, counts: map<int, int>, i: nat)
    requires DistinctHashes(handles)
    requires i < |handles|
    ensures var p := AttemptPass(handles, counts);
      var h := handles[i];
      && (h in p.dropped <==> Remaining(counts, h) <= 0)
      && (Remaining(counts, h) >= 1 ==> h.hashCode in p.counts && p.counts[h.hashCode] == Remaining(counts, h) - 1)
      && (Remaining(counts, h) <= 0 ==> h.hashCode !in p.counts)
    decreases |handles|
  {
    var n := |handles| - 1;
    var init := handles[..n];
    var q := AttemptPass(init, counts);
    assert DistinctHashes(init);
    if i == n {
      assert forall j :: 0 <= j < |init| ==> init[j].hashCode != handles[n].hashCode;
      AttemptPassKeepsOthers(init, counts, handles[n].hashCode);
      assert Remaining(q.counts, handles[n]) == Remaining(counts, handles[n]);
      assert handles[n] !in init;
      if handles[n] in q.dropped {
        AttemptPassDropsOwn(init, counts, handles[n]);
      }
    } else {
      AttemptPassHandle(init, counts, i);
      assert init[i] == handles[i];
      var key := handles[i].hashCode;
      assert key != handles[n].hashCode;
      var p := AttemptPass(handles, counts);
      assert key in p.counts <==> key in q.counts;
      assert key in q.counts ==> p.counts[key] == q.counts[key];
      assert handles[i] in p.dropped <==> handles[i] in q.dropped;
    }
  }

  /** A handle alone in its collection with a recorded count n >= 0 is sent
      again and kept while n > 0, each pass taking one from its count; with
      n <= 0 the next pass drops it. */
  lemma AttemptsRunOut(h: Handle, counts: map<int, int>)
    requires h.hashCode in counts
    ensures var p := AttemptPass([h], counts);
      && (counts[h.hashCode] >= 1 ==> p.sent == [h] && p.dropped == {} && p.counts[h.hashCode] == counts[h.hashCode] - 1)
      && (counts[h.hashCode] <= 0 ==> p.sent == [] && p.dropped == {h} && h.hashCode !in p.counts)
  {
    assert [h][..0] == [];
  }

  /** Attempt counts of a collection; a missing map is a fresh one (which is
      also what an unreadable one becomes). */
  function CountsFor(attempts: map<string, map<int, int>>, collection: string): map<int, int>
  {
    if collection in attempts then attempts[collection] else map[]
  }

  /** A handle dropped by the pass over one of the given collections. */
  predicate DroppedIn(eventHandles: map<string, seq<Handle>>, attempts: map<string, map<int, int>>,
                      collections: set<string>, h: Handle)
  {
    exists c :: c in collections && c in eventHandles && h in AttemptPass(eventHandles[c], CountsFor(attempts, c)).dropped
  }

  /** Collections that hold at least one handle. */
  function NonEmptyCollections(eventHandles: map<string, seq<Handle>>): set<string>
  {
    set c | c in eventHandles && |eventHandles[c]| != 0
  }

  // ---------------------------------------------------------------------
  // Response handling (handleAddEventsResponse)
  // ---------------------------------------------------------------------

  datatype ErrorName =
    | InvalidCollectionName
    | InvalidPropertyName
    | InvalidPropertyValue
    | OtherError(name: string)

  /** The server's verdict on one event. */
  datatype EventResult = Inserted | Rejected(error: ErrorName)

  /** A cached event is removed when it was inserted or when the server
      found it invalid (bad collection name, property name or value); any
      other error keeps it for a later attempt. */
  predicate RemoveCacheEntry(r: EventResult)
  {
    match r
    case Inserted => true
    case Rejected(e) => !e.OtherError?
  }

  function HandlesOf(handles: Option<seq<Handle>>): seq<Handle>
  {
    if handles.Some? then handles.value else []
  }

  /** The handles removed for one collection's results: the handle at the
      index of each removable result. */
  function ToRemove(handles: Option<seq<Handle>>, results: seq<EventResult>): (s: set<Handle>)
    ensures forall h :: h in s ==> h in HandlesOf(handles)
    decreases |results|
  {
    if results == [] then {}
    else
      var n := |results| - 1;
      ToRemove(handles, results[..n])
        + (if RemoveCacheEntry(results[n]) && n < |HandlesOf(handles)| then {HandlesOf(handles)[n]} else {})
  }

  /** A removable result with no handle at its index (the collection has no
      handle list, or the list is shorter) makes the lookup fail. */
  predicate Faults(handles: Option<seq<Handle>>, results: seq<EventResult>)
  {
    exists i :: 0 <= i < |results| && RemoveCacheEntry(results[i]) && i >= |HandlesOf(handles)|
  }

  /** With distinct handles, the handle at index i is removed exactly when
      the result at index i is removable. */
  lemma {:induction false} RemovalIff(handles: Option<seq<Handle>>, results: seq<EventResult>, i: nat)
    requires forall a, b :: 0 <= a < b < |HandlesOf(handles)| ==> HandlesOf(handles)[a] != HandlesOf(handles)[b]
    requires i < |results| && i < |HandlesOf(handles)|
    ensures HandlesOf(handles)[i] in ToRemove(handles, results) <==> RemoveCacheEntry(results[i])
    decreases |results|
  {
    var hs := HandlesOf(handles);
    var n := |results| - 1;
    if i < n {
      RemovalIff(handles, results[..n], i);
      assert results[..n][i] == results[i];
    } else {
      ToRemoveBelow(handles, results[..n], i);
    }
  }

  /** Only handles at indices below the number of results are removed. */
  lemma {:induction false} ToRemoveBelow(handles: Option<seq<Handle>>, results: seq<EventResult>, i: nat)
    requires forall a, b :: 0 <= a < b < |HandlesOf(handles)| ==> HandlesOf(handles)[a] != HandlesOf(handles)[b]
    requires |results| <= i < |HandlesOf(handles)|
    ensures HandlesOf(handles)[i] !in ToRemove(handles, results)
    decreases |results|
  {
    if results != [] {
      ToRemoveBelow(handles, results[..|results| - 1], i);
    }
  }

  /** Some collection of the response faults. */
  predicate ResponseFaults(handles: map<string, seq<Handle>>, response: map<string, seq<EventResult>>)
  {
    exists c :: c in response && Faults(LookupHandles(handles, c), response[c])
  }

  function LookupHandles(handles: map<string, seq<Handle>>, c: string): Option<seq<Handle>>
  {
    if c in handles then Some(handles[c]) else None
  }

  /** A handle some collection of the response asks to remove. */
  predicate RemovedBy(handles: map<string, seq<Handle>>, response: map<string, seq<EventResult>>, h: Handle)
  {
    exists c :: c in response && h in ToRemove(LookupHandles(handles, c), response[c])
  }

  /** The attempt-counting loop over one collection's handles, on the
      collection's counts and the store's cache. */
  method RunAttemptPass(handles: seq<Handle>, counts0: map<int, int>, cached0: set<Handle>)
    returns (sent: seq<Handle>, counts: map<int, int>, cached: set<Handle>)
    ensures var p := AttemptPass(handles, counts0);
      sent == p.sent && counts == p.counts && cached == cached0 - p.dropped
  {
    counts := counts0;
    cached := cached0;
    ghost var p := AttemptPass([], counts0);
    sent := [];
    var i := 0;
    while i < |handles|
      invariant 0 <= i <= |handles|
      invariant p == AttemptPass(handles[..i], counts0)
      invariant sent == p.sent && counts == p.counts && cached == cached0 - p.dropped
    {
      var h := handles[i];
      AttemptPassStep(handles, i, counts0, p);
      p := AttemptStep(p, h);
      var remaining := if h.hashCode in counts then counts[h.hashCode] else 1;
      remaining := remaining - 1;
      counts := counts[h.hashCode := remaining];
      if remaining >= 0 {
        sent := sent + [h];
      } else {
        cached := cached - {h};
        counts := counts - {h.hashCode};
      }
      i := i + 1;
    }
    assert handles[..i] == handles;
  }

  /** What buildEventMap keeps while it takes the collections result.Keys,
      for a store whose counts and cache started as attempts0 and cached0. */
  ghost predicate CollectedState(eventHandles: map<string, seq<Handle>>, attempts0: map<string, map<int, int>>,
                                 cached0: set<Handle>, result: map<string, seq<Handle>>,
                                 counting: bool, attempts: map<string, map<int, int>>, cached: set<Handle>)
  {
    result.Keys <= eventHandles.Keys &&
    (!counting ==> (forall c :: c in result ==> result[c] == eventHandles[c]) && cached == cached0 && attempts == attempts0) &&
    (counting ==>
      (forall c :: c in result ==> result[c] == AttemptPass(eventHandles[c], CountsFor(attempts0, c)).sent) &&
      (forall c :: c in attempts <==> c in attempts0 || c in result) &&
      (forall c :: c in result && c in attempts ==> attempts[c] == AttemptPass(eventHandles[c], CountsFor(attempts0, c)).counts) &&
      (forall c :: c in attempts0 && c !in result && c in attempts ==> attempts[c] == attempts0[c]) &&
      (forall h :: h in cached <==> h in cached0 && !DroppedIn(eventHandles, attempts0, result.Keys, h)))
  }

  /** Once every collection with handles is taken, CollectedState says what
      buildEventMap promises. */
  lemma CollectedAll(eventHandles: map<string, seq<Handle>>, attempts0: map<string, map<int, int>>, cached0: set<Handle>,
                     result: map<string, seq<Handle>>, counting: bool, attempts: map<string, map<int, int>>, cached: set<Handle>)
    requires CollectedState(eventHandles, attempts0, cached0, result, counting, attempts, cached)
    requires result.Keys == NonEmptyCollections(eventHandles)
    ensures !counting ==> result == map c | c in NonEmptyCollections(eventHandles) :: eventHandles[c]
    ensures !counting ==> cached == cached0 && attempts == attempts0
    ensures counting ==>
              forall c :: c in result ==> result[c] == AttemptPass(eventHandles[c], CountsFor(attempts0, c)).sent
    ensures counting ==> forall c :: c in attempts <==> c in attempts0 || c in result
    ensures counting ==> forall c :: c in result ==> attempts[c] == AttemptPass(eventHandles[c], CountsFor(attempts0, c)).counts
    ensures counting ==> forall c :: c in attempts0 && c !in result ==> attempts[c] == attempts0[c]
    ensures counting ==>
              forall h :: h in cached <==> h in cached0 && !DroppedIn(eventHandles, attempts0, result.Keys, h)
  {
  }

  /** Counting the attempts of one more collection keeps CollectedState. */
  lemma CountStep(eventHandles: map<string, seq<Handle>>, attempts0: map<string, map<int, int>>, cached0: set<Handle>,
                  result: map<string, seq<Handle>>, c: string, attempts: map<string, map<int, int>>, cached: set<Handle>)
    requires c in eventHandles && c !in result
    requires CollectedState(eventHandles, attempts0, cached0, result, true, attempts, cached)
    ensures CountsFor(attempts, c) == CountsFor(attempts0, c)
    ensures var p := AttemptPass(eventHandles[c], CountsFor(attempts0, c));
      CollectedState(eventHandles, attempts0, cached0, result[c := p.sent], true, attempts[c := p.counts], cached - p.dropped)
  {
    var p := AttemptPass(eventHandles[c], CountsFor(attempts0, c));
    var result', attempts' := result[c := p.sent], attempts[c := p.counts];
    assert result'.Keys == result.Keys + {c};
    DroppedStep(eventHandles, attempts0, cached0, result.Keys, c, cached);
    assert forall k :: k in result' ==> result'[k] == AttemptPass(eventHandles[k], CountsFor(attempts0, k)).sent;
    assert forall k :: k in attempts' <==> k in attempts0 || k in result';
    assert forall k :: k in result' && k in attempts' ==> attempts'[k] == AttemptPass(eventHandles[k], CountsFor(attempts0, k)).counts;
    assert forall k :: k in attempts0 && k !in result' && k in attempts' ==> attempts'[k] == attempts0[k];
  }

  /** The handles dropped by one more collection leave the cache. */
  lemma DroppedStep(eventHandles: map<string, seq<Handle>>, attempts0: map<string, map<int, int>>, cached0: set<Handle>,
                    keys: set<string>, c: string, cached: set<Handle>)
    requires c in eventHandles
    requires forall h :: h in cached <==> h in cached0 && !DroppedIn(eventHandles, attempts0, keys, h)
    ensures var d := AttemptPass(eventHandles[c], CountsFor(attempts0, c)).dropped;
      forall h :: h in cached - d <==> h in cached0 && !DroppedIn(eventHandles, attempts0, keys + {c}, h)
  {
    var d := AttemptPass(eventHandles[c], CountsFor(attempts0, c)).dropped;
    forall h
      ensures h in cached - d <==> h in cached0 && !DroppedIn(eventHandles, attempts0, keys + {c}, h)
    {
      if h in d {
        assert DroppedIn(eventHandles, attempts0, keys + {c}, h);
      } else {
        assert DroppedIn(eventHandles, attempts0, keys + {c}, h) <==> DroppedIn(eventHandles, attempts0, keys, h);
      }
    }
  }

  // ---------------------------------------------------------------------
  // The event store
  // ---------------------------------------------------------------------

  /** The cache of queued events and, for an attempt-counting store, the
      attempt counts of each collection. */
  class EventStore {
    var cached: set<Handle>
    var attempts: map<string, map<int, int>>
    const counting: bool

    constructor(counting: bool)
      ensures cached == {} && attempts == map[] && this.counting == counting
    {
      cached := {};
      attempts := map[];
      this.counting := counting;
    }

    /** The attempt-counting pass over one collection's handles. */
    method CountAttempts(collection: string, handles: seq<Handle>) returns (sent: seq<Handle>)
      modifies this
      ensures var p := AttemptPass(handles, CountsFor(old(attempts), collection));
        && sent == p.sent
        && attempts == old(attempts)[collection := p.counts]
        && cached == old(cached) - p.dropped
    {
      var counts;
      sent, counts, cached := RunAttemptPass(handles, CountsFor(attempts, collection), cached);
      attempts := attempts[collection := counts];
    }

    /** buildEventMap: for every collection with handles, the handles to send
      (all of them for a store that does not count attempts). */
    method BuildEventMap(eventHandles: map<string, seq<Handle>>) returns (result: map<string, seq<Handle>>)
      modifies this
      ensures result.Keys == NonEmptyCollections(eventHandles)
      ensures !counting ==> result == map c | c in NonEmptyCollections(eventHandles) :: eventHandles[c]
      ensures !counting ==> cached == old(cached) && attempts == old(attempts)
      ensures counting ==>
                forall c :: c in result ==> result[c] == AttemptPass(eventHandles[c], CountsFor(old(attempts), c)).sent
      ensures counting ==> forall c :: c in attempts <==> c in old(attempts) || c in result
      ensures counting ==> forall c :: c in result ==> attempts[c] == AttemptPass(eventHandles[c], CountsFor(old(attempts), c)).counts
      ensures counting ==> forall c :: c in old(attempts) && c !in result ==> attempts[c] == old(attempts)[c]
      ensures counting ==>
                forall h :: h in cached <==> h in old(cached) && !DroppedIn(eventHandles, old(attempts), result.Keys, h)
    {
      result := map[];
      var todo := eventHandles.Keys;
      ghost var attempts0, cached0 := attempts, cached;
      while todo != {}
        invariant todo <= eventHandles.Keys
        invariant result.Keys == NonEmptyCollections(eventHandles) - todo
        invariant attempts0 == old(attempts) && cached0 == old(cached)
        invariant CollectedState(eventHandles, attempts0, cached0, result, counting, attempts, cached)
        decreases todo
      {
        var c :| c in todo;
        todo := todo - {c};
        if |eventHandles[c]| == 0 {
          continue;
        }
        result := CollectOne(eventHandles, c, result, attempts0, cached0);
      }
      CollectedAll(eventHandles, attempts0, cached0, result, counting, attempts, cached);
    }

    /** The loop body of buildEventMap for a collection that holds handles:
      its handles to send, counted first by an attempt-counting store. */
    method CollectOne(eventHandles: map<string, seq<Handle>>, c: string, result: map<string, seq<Handle>>,
                      ghost attempts0: map<string, map<int, int>>, ghost cached0: set<Handle>)
      returns (result': map<string, seq<Handle>>)
      modifies this
      requires c in eventHandles && c !in result && |eventHandles[c]| != 0
      requires CollectedState(eventHandles, attempts0, cached0, result, counting, attempts, cached)
      ensures result'.Keys == result.Keys + {c}
      ensures CollectedState(eventHandles, attempts0, cached0, result', counting, attempts, cached)
    {
      var handles := eventHandles[c];
      var events;
      if counting {
        CountStep(eventHandles, attempts0, cached0, result, c, attempts, cached);
        assert CountsFor(attempts, c) == CountsFor(attempts0, c);
        events := CountAttempts(c, handles);
      } else {
        events := handles;
      }
      result' := result[c := events];
    }

    /** One collection's results: each removable result removes the handle at
      its index; a missing handle stops the work with a failure. */
    method RemoveResults(handles: Option<seq<Handle>>, results: seq<EventResult>) returns (ok: bool)
      modifies this
      ensures attempts == old(attempts)
      ensures ok <==> !Faults(handles, results)
      ensures ok ==> cached == old(cached) - ToRemove(handles, results)
      ensures old(cached) - ToRemove(handles, results) <= cached <= old(cached)
    {
      var i := 0;
      while i < |results|
        invariant 0 <= i <= |results|
        invariant attempts == old(attempts)
        invariant cached == old(cached) - ToRemove(handles, results[..i])
        invariant !Faults(handles, results[..i])
      {
        assert results[..i + 1][..i] == results[..i];
        if RemoveCacheEntry(results[i]) {
          if handles.None? || i >= |handles.value| {
            assert results[..i + 1][i] == results[i];
            FaultsExtend(handles, results[..i + 1], results);
            ToRemoveMonotone(handles, results[..i], results);
            return false;
          }
          cached := cached - {handles.value[i]};
        }
        assert forall j :: 0 <= j < i ==> results[..i + 1][j] == results[..i][j];
        i := i + 1;
      }
      assert results[..i] == results;
      return true;
    }

    /** handleAddEventsResponse: every collection of the response is handled
      in turn; a fault stops the work with a failure. */
    method HandleAddEventsResponse(handles: map<string, seq<Handle>>, response: map<string, seq<EventResult>>)
      returns (ok: bool)
      modifies this
      ensures attempts == old(attempts)
      ensures ok <==> !ResponseFaults(handles, response)
      ensures ok ==> forall h :: h in cached <==> h in old(cached) && !RemovedBy(handles, response, h)
      ensures forall h :: h in cached ==> h in old(cached)
      ensures forall h :: h in old(cached) && !RemovedBy(handles, response, h) ==> h in cached
    {
      var todo := response.Keys;
      while todo != {}
        invariant todo <= response.Keys
        invariant attempts == old(attempts)
        invariant forall c :: c in response && c !in todo ==> !Faults(LookupHandles(handles, c), response[c])
        invariant forall h :: h in cached <==> h in old(cached) && !RemovedBy(handles, response - todo, h)
        decreases todo
      {
        var c :| c in todo;
        var collectionHandles := LookupHandles(handles, c);
        ok := RemoveResults(collectionHandles, response[c]);
        if !ok {
          return;
        }
        todo := todo - {c};
      }
      return true;
    }
  }

  /** A fault in a prefix of the results is a fault of the results. */
  lemma FaultsExtend(handles: Option<seq<Handle>>, prefix: seq<EventResult>, results: seq<EventResult>)
    requires prefix <= results
    requires Faults(handles, prefix)
    ensures Faults(handles, results)
  {
    var i :| 0 <= i < |prefix| && RemoveCacheEntry(prefix[i]) && i >= |HandlesOf(handles)|;
    assert results[i] == prefix[i];
  }

  /** More results never remove fewer handles. */
  lemma {:induction false} ToRemoveMonotone(handles: Option<seq<Handle>>, prefix: seq<EventResult>, results: seq<EventResult>)
    requires prefix <= results
    ensures ToRemove(handles, prefix) <= ToRemove(handles, results)
    decreases |results|
  {
    if |prefix| < |results| {
      var n := |results| - 1;
      assert prefix <= results[..n];
      ToRemoveMonotone(handles, prefix, results[..n]);
    } else {
      assert prefix == results;
    }
  }
}
