/** The instance registry of `InstancesManager`, without the directory
    watcher, the file reads and the coroutines: what one instance file does
    to the registry, the stale-instance sweep, the shutdown cleanup, forced
    eviction, and the loop delays. The current Unix time is the parameter
    `now`; listener calls are returned as events. */
module InstancesManagers {
  import opened Wrappers
  import opened JvmNumbers
  import opened KotlinText
  import opened InstanceIds
  import opened Instances
  import opened MapEviction

  /** An instance file older than this many seconds is dead. */
  const READ_TIMEOUT_SEC: int := 10

  /** Longest and shortest pause of the loops, in milliseconds. */
  const READ_LOOP_DELAY_MAX_MS: int := 3000
  const READ_LOOP_DELAY_MIN_MS: int := 100

  /** `VtInstance`: the decoded contents of an instance file. */
  datatype VtInstance = VtInstance(time: Int64, name: string, server: string)

  /** The `InstancesListener` calls. */
  datatype InstanceEvent =
    | Start(instance: Instance)
    | Change(newInstance: Instance, oldInstance: Instance)
    | End(id: InstanceID)

  /** The registry: `instancesMap`, keyed by what `InstanceID.equals` looks
      at, and `instancesIDMap`, the file name to id memo. */
  datatype Registry = Registry(instances: map<IdKey, Instance>, ids: map<string, InstanceID>)

  const EmptyRegistry := Registry(map[], map[])

  /** `getUnixTime() - READ_TIMEOUT_SEC`, in `Long` arithmetic. */
  function Cutoff(now: Int64): Int64 {
    Wrap64(now - READ_TIMEOUT_SEC)
  }

  /** The checker's test: last seen before the cutoff. */
  predicate Stale(inst: Instance, now: Int64) {
    inst.fileLastModified < Cutoff(now)
  }

  /** The acceptance rules for the contents of an instance file, in source
      order: non-blank text longer than two characters (UTF-16 code units,
      as `String.length` counts them) that decodes
      (`decode` is the JSON decoder; `None` is a serialization or argument
      exception), a positive timestamp that is not older than the timeout,
      a non-blank name, a non-blank server longer than three characters. */
  function Descriptor(contents: string, decode: string -> Option<VtInstance>, now: Int64): (r: Option<VtInstance>)
    ensures r.Some? <==>
      !IsBlank(contents) && Length(contents) > 2 && decode(contents).Some? &&
      decode(contents).value.time > 0 && decode(contents).value.time >= Cutoff(now) &&
      !IsBlank(decode(contents).value.name) &&
      !IsBlank(decode(contents).value.server) && Length(decode(contents).value.server) > 3
    ensures r.Some? ==> r == decode(contents)
  {
    if IsBlank(contents) || Length(contents) <= 2 then None
    else
      match decode(contents)
      case None => None
      case Some(v) =>
        if !(v.time > 0) then None
        else if !(v.time >= Cutoff(now)) then None
        else if !(!IsBlank(v.name)) then None
        else if !(!IsBlank(v.server) && Length(v.server) > 3) then None
        else Some(v)
  }

  /** `instancesIDMap.getOrPut(filename) { InstanceID(filename) }`, without
      the insertion: the memoised id, else the parse of the file name. */
  function IdOf(ids: map<string, InstanceID>, filename: string, chars: CharTables): (r: Option<InstanceID>)
    ensures filename in ids ==> r == Some(ids[filename])
    ensures filename !in ids ==> (r.Some? <==> Parse(filename, chars).Success?)
    ensures filename !in ids && r.Some? ==> r.value == Parse(filename, chars).value
  {
    if filename in ids then Some(ids[filename])
    else
      match Parse(filename, chars)
      case Success(id) => Some(id)
      case Failure(_) => None
  }

  /** Every memoised id is the parse of its file name. */
  predicate MemoValid(ids: map<string, InstanceID>, chars: CharTables) {
    forall f :: f in ids ==> Parse(f, chars) == Success(ids[f])
  }

  /** Every instance is stored under its own id and satisfies the
      constructor's invariants. */
  predicate WellKeyed(m: map<IdKey, Instance>) {
    forall k :: k in m ==> KeyOf(m[k].id) == k && Valid(m[k])
  }

  /** The registry update for an accepted descriptor `v` of the file
      `filename`, whose id is `id`: the memo records the id, then
      - a new id inserts a new instance seen at the descriptor's time and
        reports its start;
      - a known id has its time refreshed first; if name or server differ
        it is replaced by a new instance and the change is reported with the
        refreshed old instance; otherwise nothing is reported.
      A constructor failure (only possible for an id with an empty edition)
      is swallowed after the memo and the time refresh. */
  function Register(reg: Registry, filename: string, id: InstanceID, v: VtInstance): (r: (Registry, seq<InstanceEvent>))
    ensures var k, m := KeyOf(id), r.0.instances;
      && r.0.ids == reg.ids[filename := id]
      && m.Keys == reg.instances.Keys + (if |id.kind| > 0 && !IsBlank(v.name) && !IsBlank(v.server) then {k} else {})
      && (forall j :: j in reg.instances && j != k ==> m[j] == reg.instances[j])
      && (k !in reg.instances ==>
            if k in m then m[k] == NewInstance(id, v.name, v.server).value.(fileLastModified := v.time) && r.1 == [Start(m[k])]
            else r.1 == [])
      && (k in reg.instances ==>
            var prior := reg.instances[k].(fileLastModified := v.time);
            if (prior.name == v.name && prior.server == v.server) || NewInstance(id, v.name, v.server).Failure? then m[k] == prior && r.1 == []
            else m[k] == NewInstanceAt(id, v.name, v.server, v.time).value && r.1 == [Change(m[k], prior)])
  {
    var ids := reg.ids[filename := id];
    var k := KeyOf(id);
    if k !in reg.instances then
      match NewInstance(id, v.name, v.server)
      case Failure(_) => (Registry(reg.instances, ids), [])
      case Success(inst) =>
        var started := inst.(fileLastModified := v.time);
        (Registry(reg.instances[k := started], ids), [Start(started)])
    else
      var prior := reg.instances[k].(fileLastModified := v.time);
      if prior.name != v.name || prior.server != v.server then
        match NewInstanceAt(id, v.name, v.server, v.time)
        case Failure(_) => (Registry(reg.instances[k := prior], ids), [])
        case Success(inst) => (Registry(reg.instances[k := inst], ids), [Change(inst, prior)])
      else (Registry(reg.instances[k := prior], ids), [])
  }

  /** `processInstanceFileCreateModify` once the file was read: a rejected
      descriptor or file name is swallowed, with nothing changed and
      nothing reported; an accepted one is registered. */
  function ProcessFile(reg: Registry, filename: string, contents: string,
                       decode: string -> Option<VtInstance>, chars: CharTables, now: Int64): (r: (Registry, seq<InstanceEvent>))
    ensures Descriptor(contents, decode, now).None? || IdOf(reg.ids, filename, chars).None? ==> r == (reg, [])
    ensures Descriptor(contents, decode, now).Some? && IdOf(reg.ids, filename, chars).Some? ==>
      r == Register(reg, filename, IdOf(reg.ids, filename, chars).value, Descriptor(contents, decode, now).value)
  {
    match Descriptor(contents, decode, now)
    case None => (reg, [])
    case Some(v) =>
      match IdOf(reg.ids, filename, chars)
      case None => (reg, [])
      case Some(id) => Register(reg, filename, id, v)
  }

  /** An accepted descriptor is what the registry then holds for its id:
      seen at the descriptor's time, with its name and server. */
  lemma RegisteredAsDescribed(reg: Registry, filename: string, id: InstanceID, v: VtInstance)
    requires |id.kind| > 0 && !IsBlank(v.name) && !IsBlank(v.server)
    ensures var m := Register(reg, filename, id, v).0.instances;
      KeyOf(id) in m && m[KeyOf(id)].fileLastModified == v.time &&
      m[KeyOf(id)].name == v.name && m[KeyOf(id)].server == v.server
  {
  }

  /** The registry invariants hold from the empty registry on: memoised ids
      are parses of their names, and every instance is valid and stored
      under its own id. */
  lemma ProcessFileKeepsInvariants(reg: Registry, filename: string, contents: string,
                                   decode: string -> Option<VtInstance>, chars: CharTables, now: Int64)
    requires MemoValid(reg.ids, chars) && WellKeyed(reg.instances)
    ensures var r := ProcessFile(reg, filename, contents, decode, chars, now).0;
      MemoValid(r.ids, chars) && WellKeyed(r.instances)
  {
    if Descriptor(contents, decode, now).Some? && IdOf(reg.ids, filename, chars).Some? {
      var v, id := Descriptor(contents, decode, now).value, IdOf(reg.ids, filename, chars).value;
      assert Parse(filename, chars) == Success(id);
      RegisterKeepsInvariants(reg, filename, id, v, chars);
    }
  }

  lemma RegisterKeepsInvariants(reg: Registry, filename: string, id: InstanceID, v: VtInstance, chars: CharTables)
    requires MemoValid(reg.ids, chars) && WellKeyed(reg.instances)
    requires Parse(filename, chars) == Success(id)
    ensures var r := Register(reg, filename, id, v).0;
      MemoValid(r.ids, chars) && WellKeyed(r.instances)
  {
    var ids := Register(reg, filename, id, v).0.ids;
    assert ids == reg.ids[filename := id];
    forall f | f in ids
      ensures Parse(f, chars) == Success(ids[f])
    {
      if f != filename {
        assert f in reg.ids;
      }
    }
    RegisterKeepsKeys(reg, filename, id, v);
  }

  /** Whatever the id, registering keeps every instance valid and under its
      own key. */
  lemma RegisterKeepsKeys(reg: Registry, filename: string, id: InstanceID, v: VtInstance)
    requires WellKeyed(reg.instances)
    ensures WellKeyed(Register(reg, filename, id, v).0.instances)
  {
    var m := Register(reg, filename, id, v).0.instances;
    forall j | j in m
      ensures KeyOf(m[j].id) == j && Valid(m[j])
    {
      if j != KeyOf(id) {
        assert m[j] == reg.instances[j];
      }
    }
  }

  /** With a valid memo, an accepted file always ends up in the registry,
      and at the same `now` the checker does not consider it stale:
      acceptance wants `time >= now - 10`, the sweep removes `< now - 10`. */
  lemma AcceptedSurvivesSweep(reg: Registry, filename: string, contents: string,
                              decode: string -> Option<VtInstance>, chars: CharTables, now: Int64)
    requires MemoValid(reg.ids, chars)
    requires Descriptor(contents, decode, now).Some? && IdOf(reg.ids, filename, chars).Some?
    ensures var k, m := KeyOf(IdOf(reg.ids, filename, chars).value), ProcessFile(reg, filename, contents, decode, chars, now).0.instances;
      k in m && !Stale(m[k], now)
  {
    var v, id := Descriptor(contents, decode, now).value, IdOf(reg.ids, filename, chars).value;
    assert Parse(filename, chars) == Success(id);
    RegisteredAsDescribed(reg, filename, id, v);
  }

  /** Registering the same descriptor again changes nothing and reports
      nothing. */
  lemma RegisterIdempotent(reg: Registry, filename: string, id: InstanceID, v: VtInstance)
    ensures var r1 := Register(reg, filename, id, v);
      Register(r1.0, filename, id, v) == (r1.0, [])
  {
    var reg1 := Register(reg, filename, id, v).0;
    var k := KeyOf(id);
    assert reg1.ids[filename := id] == reg1.ids;
    if k in reg1.instances {
      var prior := reg1.instances[k].(fileLastModified := v.time);
      assert prior == reg1.instances[k];
      assert reg1.instances[k := prior] == reg1.instances;
    }
  }

  /** Reading the same file again at the same time changes nothing and
      reports nothing: the memo now answers for the file name. */
  lemma ProcessFileIdempotent(reg: Registry, filename: string, contents: string,
                              decode: string -> Option<VtInstance>, chars: CharTables, now: Int64)
    ensures var r1 := ProcessFile(reg, filename, contents, decode, chars, now);
      ProcessFile(r1.0, filename, contents, decode, chars, now) == (r1.0, [])
  {
    if Descriptor(contents, decode, now).Some? && IdOf(reg.ids, filename, chars).Some? {
      var v, id := Descriptor(contents, decode, now).value, IdOf(reg.ids, filename, chars).value;
      var reg1 := Register(reg, filename, id, v).0;
      assert IdOf(reg1.ids, filename, chars) == Some(id);
      RegisterIdempotent(reg, filename, id, v);
    }
  }

  /** The ids of the instances `drop` selects. */
  function DroppedIds(instances: map<IdKey, Instance>, drop: Instance -> bool): set<InstanceID> {
    set inst | inst in instances.Values && drop(inst) :: inst.id
  }

  /** The `onInstanceEnd` arguments for a batch of removed instances. */
  function EndedIds(removed: seq<Instance>): (ids: seq<InstanceID>)
    ensures |ids| == |removed|
    ensures forall i :: 0 <= i < |ids| ==> ids[i] == removed[i].id
  {
    seq(|removed|, i requires 0 <= i < |removed| => removed[i].id)
  }

  /** One pass of the checker: the stale instances are removed and each one
      ends; the fresh ones stay as they were. */
  method Sweep(instances: map<IdKey, Instance>, now: Int64) returns (kept: map<IdKey, Instance>, ended: seq<InstanceID>)
    ensures kept == map k | k in instances && !Stale(instances[k], now) :: instances[k]
    ensures forall k :: k in kept ==> !Stale(kept[k], now)
    ensures |ended| == |instances| - |kept|
    ensures forall i :: 0 <= i < |ended| ==> ended[i] in DroppedIds(instances, inst => Stale(inst, now))
    ensures forall k :: k in instances && Stale(instances[k], now) ==> instances[k].id in ended
  {
    var removed;
    kept, removed := Evict(instances, inst => Stale(inst, now));
    ended := EndedIds(removed);
    forall k | k in instances && Stale(instances[k], now)
      ensures instances[k].id in ended
    {
      var i :| 0 <= i < |removed| && removed[i] == instances[k];
      assert ended[i] == instances[k].id;
    }
  }

  /** The checker's `finally`: every remaining instance ends and the map is
      emptied. */
  method Shutdown(instances: map<IdKey, Instance>) returns (kept: map<IdKey, Instance>, ended: seq<InstanceID>)
    ensures kept == map[]
    ensures |ended| == |instances|
    ensures forall k :: k in instances ==> instances[k].id in ended
    ensures forall i :: 0 <= i < |ended| ==> ended[i] in DroppedIds(instances, inst => true)
  {
    var removed;
    kept, removed := Evict(instances, inst => true);
    ended := EndedIds(removed);
    forall k | k in instances
      ensures instances[k].id in ended
    {
      var i :| 0 <= i < |removed| && removed[i] == instances[k];
      assert ended[i] == instances[k].id;
    }
  }

  /** `markInstanceFailed(id)`: the id is removed and its end reported,
      whether or not it was registered. */
  function MarkInstanceFailed(instances: map<IdKey, Instance>, id: InstanceID): (r: (map<IdKey, Instance>, seq<InstanceEvent>))
    ensures KeyOf(id) !in r.0 && r.1 == [End(id)]
    ensures forall k :: k in instances && k != KeyOf(id) ==> k in r.0 && r.0[k] == instances[k]
    ensures r.0.Keys == instances.Keys - {KeyOf(id)}
  {
    (instances - {KeyOf(id)}, [End(id)])
  }

  /** Forced eviction does not need the id to be present: failing an
      instance twice leaves the same map and reports two ends. */
  lemma MarkFailedTwice(instances: map<IdKey, Instance>, id: InstanceID)
    ensures var r1 := MarkInstanceFailed(instances, id);
      var r2 := MarkInstanceFailed(r1.0, id);
      r2.0 == r1.0 && r1.1 + r2.1 == [End(id), End(id)]
  {
  }

  /** `getInstance(id)`: the registered instance with an equal id. */
  function GetInstance(instances: map<IdKey, Instance>, id: InstanceID): (r: Option<Instance>)
    ensures r.Some? <==> KeyOf(id) in instances
    ensures r.Some? ==> r.value == instances[KeyOf(id)]
  {
    if KeyOf(id) in instances then Some(instances[KeyOf(id)]) else None
  }

  /** The directory watcher's pause: three seconds less the loop's duration
      (in `Long` arithmetic), clamped to [100, 3000] ms, doubled when the
      loop processed no file. */
  function WatcherDelay(loopSeconds: Int64, filesFound: bool): (ms: Int64)
    ensures READ_LOOP_DELAY_MIN_MS <= ms <= 2 * READ_LOOP_DELAY_MAX_MS
    ensures filesFound ==> ms <= READ_LOOP_DELAY_MAX_MS
    ensures !filesFound ==> 2 * READ_LOOP_DELAY_MIN_MS <= ms && ms % 2 == 0
  {
    var clamped := ClampDelay(Wrap64(READ_LOOP_DELAY_MAX_MS - Wrap64(loopSeconds * 1000)));
    if filesFound then clamped else clamped * 2
  }

  /** The `when` that raises a pause below the minimum and lowers one above
      the maximum. */
  function ClampDelay(d: Int64): (c: Int64)
    ensures READ_LOOP_DELAY_MIN_MS <= c <= READ_LOOP_DELAY_MAX_MS
    ensures READ_LOOP_DELAY_MIN_MS <= d <= READ_LOOP_DELAY_MAX_MS ==> c == d
  {
    if d < READ_LOOP_DELAY_MIN_MS then READ_LOOP_DELAY_MIN_MS
    else if d > READ_LOOP_DELAY_MAX_MS then READ_LOOP_DELAY_MAX_MS
    else d
  }

  /** On realistic loop durations the pause is `3000 - 1000 * seconds`
      clamped, and a longer loop never pauses longer. */
  lemma WatcherDelayShape(a: Int64, b: Int64, filesFound: bool)
    requires 0 <= a <= b <= 1_000_000
    ensures WatcherDelay(a, true) == if a <= 2 then READ_LOOP_DELAY_MAX_MS - 1000 * a else READ_LOOP_DELAY_MIN_MS
    ensures WatcherDelay(a, false) == 2 * WatcherDelay(a, true)
    ensures WatcherDelay(b, filesFound) <= WatcherDelay(a, filesFound)
  {
  }

  /** The checker's pause: three seconds, six when the map is empty. */
  function CheckerDelay(instances: map<IdKey, Instance>): (ms: Int64)
    ensures ms == READ_LOOP_DELAY_MAX_MS || ms == 2 * READ_LOOP_DELAY_MAX_MS
    ensures ms == 2 * READ_LOOP_DELAY_MAX_MS <==> |instances| == 0
  {
    if |instances| != 0 then READ_LOOP_DELAY_MAX_MS else READ_LOOP_DELAY_MAX_MS * 2
  }

  /** The checker's pauses are the watcher's after an instant loop. */
  lemma CheckerMatchesWatcher(instances: map<IdKey, Instance>)
    ensures CheckerDelay(instances) == WatcherDelay(0, |instances| != 0)
  {
  }
}
