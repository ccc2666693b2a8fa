/**
 * The normaliser of the roadmap object (the tree a YAML reader returns): one
 * capability record per object entry of `capabilities`, every field coerced
 * to its expected shape, and the provenance record `sync_metadata`.
 */
module Roadmap {

  import opened JsValue

  datatype Links = Links(frs: seq<Value>, rnfs: seq<Value>, epics: seq<Value>, stories: seq<Value>)

  /** The three counters; a counter is `undefined` when `progress` itself is the number 0. */
  datatype Progress = Progress(storiesTotal: Value, storiesDone: Value, storiesInProgress: Value)

  /** Fields that the source copies with `x || ''` stay whatever truthy value they held. */
  datatype Capability = Capability(
    id: Value,
    title: Value,
    description: string,
    valueProposition: Value,
    priority: int,
    status: Value,
    dependsOn: seq<Value>,
    links: Links,
    progress: Progress)

  /** `{}` when the object has no usable `sync_metadata`; the copied fields otherwise. */
  datatype SyncMetadata =
    | NoMetadata
    | Metadata(sourcePrd: Value, sourceEpics: Value, sourceSprintStatus: Value, capabilityCount: Value, strategy: Value)

  datatype Normalized = Normalized(capabilities: seq<Capability>, syncMetadata: SyncMetadata)

  /** `v && v.key` */
  function Guarded(v: Value, key: string): (r: Value)
    ensures !Truthy(v) ==> r == v
    ensures Truthy(v) ==> r == Get(v, key)
  {
    if Truthy(v) then Get(v, key) else v
  }

  /** `Array.isArray(v) ? v : []` */
  function ArrayOrEmpty(v: Value): (r: seq<Value>)
    ensures v.Arr? ==> r == v.items
    ensures !v.Arr? ==> r == []
  {
    if v.Arr? then v.items else []
  }

  /** `typeof v === 'number' ? v : d` */
  function NumberOr(v: Value, d: int): (r: int)
    ensures v.Num? ==> r == v.n
    ensures !v.Num? ==> r == d
  {
    if v.Num? then v.n else d
  }

  /**
   * `typeof (p && p.key) === 'number' ? p.key : 0`. The test is guarded but the
   * read is not: a falsy number p passes the test and `p.key` is undefined.
   */
  function Counter(p: Value, key: string): (r: Value)
    ensures Truthy(p) && Get(p, key).Num? ==> r == Get(p, key)
    ensures Truthy(p) && !Get(p, key).Num? ==> r == Num(0)
    ensures p == Num(0) ==> r == Undefined
    ensures !Truthy(p) && p != Num(0) ==> r == Num(0)
  {
    if Guarded(p, key).Num? then Get(p, key) else Num(0)
  }

  /** The record built for entry c at position i of the raw array. */
  function NormalizeCapability(c: Value, i: nat): (cap: Capability)
    ensures cap.id == Or(Get(c, "id"), Str(""))
    ensures cap.title == Or(Get(c, "title"), Str(""))
    ensures cap.valueProposition == Or(Get(c, "value_proposition"), Str(""))
    ensures cap.status == Or(Get(c, "status"), Str("backlog"))
    ensures Get(c, "description").Str? ==> cap.description == Get(c, "description").s
    ensures !Get(c, "description").Str? ==> cap.description == ""
    ensures cap.priority == NumberOr(Get(c, "priority"), i + 1)
    ensures cap.dependsOn == ArrayOrEmpty(Get(c, "depends_on"))
    ensures !Get(c, "links").Obj? ==> cap.links == Links([], [], [], [])
    ensures Get(c, "links").Obj? ==> var l := Get(c, "links");
      cap.links == Links(ArrayOrEmpty(Get(l, "frs")), ArrayOrEmpty(Get(l, "rnfs")), ArrayOrEmpty(Get(l, "epics")), ArrayOrEmpty(Get(l, "stories")))
    ensures Get(c, "progress") == Num(0) ==> cap.progress == Progress(Undefined, Undefined, Undefined)
    ensures !Get(c, "progress").Obj? && Get(c, "progress") != Num(0) ==>
      cap.progress == Progress(Num(0), Num(0), Num(0))
    ensures Get(c, "progress").Obj? ==> var p := Get(c, "progress");
      && (Get(p, "stories_total").Num? ==> cap.progress.storiesTotal == Get(p, "stories_total"))
      && (Get(p, "stories_done").Num? ==> cap.progress.storiesDone == Get(p, "stories_done"))
      && (Get(p, "stories_in_progress").Num? ==> cap.progress.storiesInProgress == Get(p, "stories_in_progress"))
      && (!Get(p, "stories_total").Num? ==> cap.progress.storiesTotal == Num(0))
      && (!Get(p, "stories_done").Num? ==> cap.progress.storiesDone == Num(0))
      && (!Get(p, "stories_in_progress").Num? ==> cap.progress.storiesInProgress == Num(0))
  {
    var description := Get(c, "description");
    var links := Get(c, "links");
    var progress := Get(c, "progress");
    Capability(
      Or(Get(c, "id"), Str("")),
      Or(Get(c, "title"), Str("")),
      if description.Str? then description.s else "",
      Or(Get(c, "value_proposition"), Str("")),
      NumberOr(Get(c, "priority"), i + 1),
      Or(Get(c, "status"), Str("backlog")),
      ArrayOrEmpty(Get(c, "depends_on")),
      Links(
        ArrayOrEmpty(Guarded(links, "frs")),
        ArrayOrEmpty(Guarded(links, "rnfs")),
        ArrayOrEmpty(Guarded(links, "epics")),
        ArrayOrEmpty(Guarded(links, "stories"))),
      Progress(
        Counter(progress, "stories_total"),
        Counter(progress, "stories_done"),
        Counter(progress, "stories_in_progress")))
  }

  /** The capabilities of the raw entries, skipping those that are not objects. */
  function Capabilities(raw: seq<Value>): seq<Capability> {
    if raw == [] then []
    else
      var i := |raw| - 1;
      Capabilities(raw[..i]) + (if IsObjectLike(raw[i]) then [NormalizeCapability(raw[i], i)] else [])
  }

  function SyncOf(obj: Value): (m: SyncMetadata)
    ensures m.NoMetadata? <==> !IsObjectLike(Guarded(obj, "sync_metadata"))
    ensures m.Metadata? ==> var sm := Get(obj, "sync_metadata");
      m == Metadata(Get(sm, "source_prd"), Get(sm, "source_epics"), Get(sm, "source_sprint_status"),
                    Get(sm, "capability_count"), Or(Get(sm, "strategy"), Str("")))
  {
    var sm := Guarded(obj, "sync_metadata");
    if Truthy(sm) && IsObjectLike(sm) then
      Metadata(
        Get(sm, "source_prd"),
        Get(sm, "source_epics"),
        Get(sm, "source_sprint_status"),
        Get(sm, "capability_count"),
        Or(Get(sm, "strategy"), Str("")))
    else NoMetadata
  }

  /** `parseRoadmapYamlFromObject(obj)` */
  function RoadmapOf(obj: Value): (r: Normalized)
    ensures !Guarded(obj, "capabilities").Arr? ==> r.capabilities == []
    ensures !IsObjectLike(Get(obj, "sync_metadata")) ==> r.syncMetadata == NoMetadata
    ensures IsObjectLike(Get(obj, "sync_metadata")) ==> var sm := Get(obj, "sync_metadata");
      r.syncMetadata == Metadata(Get(sm, "source_prd"), Get(sm, "source_epics"), Get(sm, "source_sprint_status"),
                                 Get(sm, "capability_count"), Or(Get(sm, "strategy"), Str("")))
  {
    Normalized(Capabilities(ArrayOrEmpty(Guarded(obj, "capabilities"))), SyncOf(obj))
  }

  method ParseRoadmapYamlFromObject(obj: Value) returns (capabilities: seq<Capability>, syncMetadata: SyncMetadata)
    ensures Normalized(capabilities, syncMetadata) == RoadmapOf(obj)
  {
    capabilities := [];
    var raw := Guarded(obj, "capabilities");
    if raw.Arr? {
      var entries := raw.items;
      for i := 0 to |entries|
        invariant capabilities == Capabilities(entries[..i])
      {
        assert entries[..i + 1][..i] == entries[..i];
        var c := entries[i];
        if !Truthy(c) || !IsObjectLike(c) {
          continue;
        }
        capabilities := capabilities + [NormalizeCapability(c, i)];
      }
      assert entries[..|entries|] == entries;
    }
    syncMetadata := SyncOf(obj);
  }

  // ---------------------------------------------------------------------------
  // Properties
  // ---------------------------------------------------------------------------

  /** The positions of the object entries, in increasing order. */
  function ObjectPositions(raw: seq<Value>): seq<nat> {
    if raw == [] then []
    else
      var i := |raw| - 1;
      ObjectPositions(raw[..i]) + (if IsObjectLike(raw[i]) then [i] else [])
  }

  /** The positions name object entries only. */
  lemma {:induction false} PositionsOfObjects(raw: seq<Value>)
    ensures forall k :: 0 <= k < |ObjectPositions(raw)| ==>
      ObjectPositions(raw)[k] < |raw| && IsObjectLike(raw[ObjectPositions(raw)[k]])
    decreases |raw|
  {
    if raw != [] {
      var i := |raw| - 1;
      var init := raw[..i];
      PositionsOfObjects(init);
      var p := ObjectPositions(init);
      var q := ObjectPositions(raw);
      assert q == p + (if IsObjectLike(raw[i]) then [i] else []);
      forall k | 0 <= k < |q| ensures q[k] < |raw| && IsObjectLike(raw[q[k]]) {
        if k < |p| {
          assert q[k] == p[k] && init[p[k]] == raw[p[k]];
        }
      }
    }
  }

  /** The positions increase. */
  lemma {:induction false} PositionsIncrease(raw: seq<Value>)
    ensures forall k, l :: 0 <= k < l < |ObjectPositions(raw)| ==> ObjectPositions(raw)[k] < ObjectPositions(raw)[l]
    decreases |raw|
  {
    if raw != [] {
      var i := |raw| - 1;
      var init := raw[..i];
      PositionsIncrease(init);
      PositionsOfObjects(init);
      var p := ObjectPositions(init);
      var q := ObjectPositions(raw);
      assert q == p + (if IsObjectLike(raw[i]) then [i] else []);
      forall k, l | 0 <= k < l < |q| ensures q[k] < q[l] {
        if l < |p| {
          assert q[k] == p[k] && q[l] == p[l];
        } else {
          assert q[k] == p[k] && q[l] == i;
        }
      }
    }
  }

  /** No object entry is missed. */
  lemma {:induction false} PositionsComplete(raw: seq<Value>)
    ensures forall j :: 0 <= j < |raw| && IsObjectLike(raw[j]) ==> j in ObjectPositions(raw)
    decreases |raw|
  {
    if raw != [] {
      var i := |raw| - 1;
      var init := raw[..i];
      PositionsComplete(init);
      var p := ObjectPositions(init);
      var q := ObjectPositions(raw);
      assert q == p + (if IsObjectLike(raw[i]) then [i] else []);
      forall j | 0 <= j < |raw| && IsObjectLike(raw[j]) ensures j in q {
        if j < i {
          assert init[j] == raw[j];
        }
      }
    }
  }

  /**
   * Exactly one capability per object entry, in order: the k-th capability is
   * built from the entry at the k-th object position, with that position.
   */
  lemma {:induction false} OnePerObjectEntry(raw: seq<Value>)
    ensures |Capabilities(raw)| == |ObjectPositions(raw)|
    ensures forall k :: 0 <= k < |ObjectPositions(raw)| ==>
      ObjectPositions(raw)[k] < |raw|
      && Capabilities(raw)[k] == NormalizeCapability(raw[ObjectPositions(raw)[k]], ObjectPositions(raw)[k])
    decreases |raw|
  {
    if raw != [] {
      var i := |raw| - 1;
      var init := raw[..i];
      OnePerObjectEntry(init);
      PositionsOfObjects(init);
      var p := ObjectPositions(init);
      var q := ObjectPositions(raw);
      var cs := Capabilities(raw);
      assert q == p + (if IsObjectLike(raw[i]) then [i] else []);
      assert cs == Capabilities(init) + (if IsObjectLike(raw[i]) then [NormalizeCapability(raw[i], i)] else []);
      forall k | 0 <= k < |q| ensures q[k] < |raw| && cs[k] == NormalizeCapability(raw[q[k]], q[k]) {
        if k < |p| {
          assert q[k] == p[k] && init[p[k]] == raw[p[k]] && cs[k] == Capabilities(init)[k];
        }
      }
    }
  }

  /**
   * Without a numeric priority, the k-th capability ranks at its raw position
   * plus one, which is k + 1 or more: skipped entries still take a rank.
   */
  lemma PriorityAfterSkips(raw: seq<Value>, k: nat)
    requires k < |Capabilities(raw)|
    ensures k < |ObjectPositions(raw)| && k <= ObjectPositions(raw)[k] < |raw|
    ensures !Get(raw[ObjectPositions(raw)[k]], "priority").Num? ==>
      Capabilities(raw)[k].priority == ObjectPositions(raw)[k] + 1
  {
    OnePerObjectEntry(raw);
    PositionsAtLeastRank(raw);
  }

  /** The k-th object entry sits at position k or later. */
  lemma {:induction false} PositionsAtLeastRank(raw: seq<Value>)
    ensures forall k :: 0 <= k < |ObjectPositions(raw)| ==> ObjectPositions(raw)[k] >= k
    decreases |raw|
  {
    if raw != [] {
      var i := |raw| - 1;
      PositionsAtLeastRank(raw[..i]);
      OnePerObjectEntry(raw[..i]);
      ObjectPositionsBound(raw[..i]);
    }
  }

  lemma {:induction false} ObjectPositionsBound(raw: seq<Value>)
    ensures |ObjectPositions(raw)| <= |raw|
    decreases |raw|
  {
    if raw != [] {
      ObjectPositionsBound(raw[..|raw| - 1]);
    }
  }

  /** When no entry is skipped, the fallback priorities are 1, 2, 3, … */
  lemma {:induction false} NoSkipsRanks(raw: seq<Value>)
    requires forall j :: 0 <= j < |raw| ==> IsObjectLike(raw[j])
    ensures ObjectPositions(raw) == seq(|raw|, j => j)
    decreases |raw|
  {
    if raw != [] {
      NoSkipsRanks(raw[..|raw| - 1]);
    }
  }
}
