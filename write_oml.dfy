/** The write_oml plugin's session: the schema registry, the start-up gate, the
    sample dispatcher and the configuration, over the OML library treated as a
    sink whose calls are recorded in a ghost log. */
module WriteOml {
  import opened Opt
  import opened CStrings
  import opened Schema
  import opened Row
  import opened Registry
  import opened Config

  /** One call into the OML library. The handle `omlc_add_mp` returns is stood
      for by the index of the `MPoint` record that keeps it. */
  datatype SinkEvent =
    | AddMp(name: string, defs: seq<MPDef>)
    | Start
    | Inject(handle: nat, row: seq<OmlValue>)
    | InitSink(appName: string, argv: seq<string>)

  /** Number of `omlc_start` calls in `log`. */
  ghost function StartCount(log: seq<SinkEvent>): nat {
    if log == [] then 0
    else StartCount(log[..|log| - 1]) + (if log[|log| - 1].Start? then 1 else 0)
  }

  /** The `omlc_add_mp` calls in `log`, in order. */
  ghost function Declarations(log: seq<SinkEvent>): seq<(string, seq<MPDef>)> {
    if log == [] then []
    else
      var last := match log[|log| - 1] case AddMp(n, d) => [(n, d)] case _ => [];
      Declarations(log[..|log| - 1]) + last
  }

  lemma LogAppend(log: seq<SinkEvent>, e: SinkEvent)
    ensures StartCount(log + [e]) == StartCount(log) + (if e.Start? then 1 else 0)
    ensures Declarations(log + [e]) == Declarations(log) + (if e.AddMp? then [(e.name, e.defs)] else [])
  {
    assert (log + [e])[..|log|] == log;
  }

  /** Name and definitions of every record of the store, in allocation order. */
  ghost function Declared(nodes: seq<MPoint>): seq<(string, seq<MPDef>)> {
    seq(|nodes|, i requires 0 <= i < |nodes| => (nodes[i].name, nodes[i].defs))
  }

  lemma DeclaredSame(a: seq<MPoint>, b: seq<MPoint>)
    requires |a| == |b| && forall i | 0 <= i < |a| :: a[i].name == b[i].name && a[i].defs == b[i].defs
    ensures Declared(a) == Declared(b)
  {
  }

  /** The gate holds samples back: OML has not been started and the start-up
      delay has not yet passed. */
  predicate Warming(initialized: bool, now: int, startTime: int, startupDelay: int) {
    !initialized && now - startTime < startupDelay
  }

  /** The `omlc_start` call a gate decision makes. */
  function StartEvents(initialized: bool, now: int, startTime: int, startupDelay: int): seq<SinkEvent> {
    if !initialized && !Warming(initialized, now, startTime, startupDelay) then [Start] else []
  }

  /** The `omlc_add_mp` call a sample under `name` makes: one when the chain
      does not find the name. */
  ghost function DeclEvents(nodes: seq<MPoint>, cycle: seq<nat>, name: string, defs: seq<MPDef>): seq<SinkEvent>
    requires forall j | 0 <= j < |cycle| :: cycle[j] < |nodes|
  {
    if Lookup(nodes, cycle, name).None? then [AddMp(Prefix(name, DATA_MAX_NAME_LEN), defs)] else []
  }

  /** The record a sample under `name` resolves to: the one found, or the new
      one at the end of the store. */
  function Target(nodes: seq<MPoint>, cycle: seq<nat>, name: string): nat
    requires forall j | 0 <= j < |cycle| :: cycle[j] < |nodes|
  {
    match Lookup(nodes, cycle, name)
    case Some(i) => i
    case None => |nodes|
  }

  /** What `find_mpoint` does to the chain: nothing when the name is found,
      otherwise the insertion of a new record for it. */
  ghost predicate Resolution(nodes0: seq<MPoint>, head0: Option<nat>, cycle0: seq<nat>, name: string, defs: seq<MPDef>,
                             nodes1: seq<MPoint>, head1: Option<nat>, cycle1: seq<nat>)
  {
    && Chain(nodes0, head0, cycle0)
    && if Lookup(nodes0, cycle0, name).Some? then
         nodes1 == nodes0 && head1 == head0 && cycle1 == cycle0
       else
         && nodes1 == Insert(nodes0, head0, name, defs)
         && head1 == Some(|nodes0|)
         && cycle1 == InsertCycle(head0, |nodes0|)
  }

  /** The global `session` and `start_time`. */
  class Session {
    var serverUrl: Option<string>
    var contextName: Option<string>
    var nodeId: Option<string>
    var startupDelay: int
    /** Every `MPoint` record ever allocated, indexed by address. */
    var mpoints: seq<MPoint>
    /** `session.mpoint`. */
    var head: Option<nat>
    /** `session.oml_intialized`. */
    var initialized: bool
    var startTime: int
    /** The records of the chain, from the head on. */
    ghost var cycle: seq<nat>
    /** The calls made into the OML library so far. */
    ghost var log: seq<SinkEvent>

    /** The chain is a cycle through the head, `omlc_start` has been called
        once if the gate is open and never otherwise, and every record was
        declared by exactly one `omlc_add_mp`, in allocation order. */
    ghost predicate Valid()
      reads this
    {
      && Chain(mpoints, head, cycle)
      && StartCount(log) == (if initialized then 1 else 0)
      && Declarations(log) == Declared(mpoints)
    }

    function Settings(): (Option<string>, Option<string>, Option<string>, int)
      reads this
    {
      (serverUrl, contextName, nodeId, startupDelay)
    }

    /** `module_register`: an all-zero session with a delay of 10, started at `now`. */
    constructor Register(now: int)
      ensures Valid()
      ensures serverUrl == None && contextName == None && nodeId == None && startupDelay == 10
      ensures mpoints == [] && head == None && cycle == [] && !initialized && startTime == now
      ensures log == []
    {
      serverUrl, contextName, nodeId, startupDelay := None, None, None, 0;
      mpoints, head, initialized := [], None, false;
      startTime := now;
      startupDelay := 10;
      cycle, log := [], [];
    }

    /** `find_mpoint_struct`: one walk round the chain from the head, visiting
        each record of the cycle at most once. */
    method FindMPointStruct(name: string) returns (mp: Option<nat>)
      requires Valid()
      ensures mp == Lookup(mpoints, cycle, name)
    {
      var first := head;
      mp := first;
      ghost var k := 0;
      while true
        invariant mp.None? ==> head.None? && k == 0
        invariant mp.Some? ==> k < |cycle| && mp.value == cycle[k]
        invariant FirstMatchFrom(mpoints, cycle, name, 0) == FirstMatchFrom(mpoints, cycle, name, k)
        decreases |cycle| - k
      {
        if mp.None? {
          return None;
        }
        if StrnEq(mpoints[mp.value].name, name, DATA_MAX_NAME_LEN) {
          return mp;
        }
        mp := Some(mpoints[mp.value].next);
        k := k + 1;
        if mp == first {
          break;
        }
      }
      mp := None;
    }

    /** `configure_mpoint`: builds the definitions of the newest record and
        declares them. */
    method ConfigureMPoint(k: nat, ds: seq<DataSource>)
      requires ValidTypes(ds)
      requires Chain(mpoints, head, cycle) && k + 1 == |mpoints|
      requires StartCount(log) == (if initialized then 1 else 0)
      requires Declarations(log) == Declared(mpoints[..k])
      modifies this
      ensures Valid()
      ensures mpoints == old(mpoints)[k := old(mpoints)[k].(defs := SchemaFor(ds))]
      ensures log == old(log) + [AddMp(old(mpoints)[k].name, SchemaFor(ds))]
      ensures head == old(head) && cycle == old(cycle)
      ensures Settings() == old(Settings()) && initialized == old(initialized) && startTime == old(startTime)
    {
      var defs := BuildDefs(ds);
      SameLinksKeepChain(mpoints, mpoints[k := mpoints[k].(defs := defs[..])], head, cycle);
      mpoints := mpoints[k := mpoints[k].(defs := defs[..])];
      LogAppend(log, AddMp(mpoints[k].name, defs[..]));
      log := log + [AddMp(mpoints[k].name, defs[..])];
      assert Declared(mpoints) == Declared(old(mpoints)[..k]) + [(mpoints[k].name, mpoints[k].defs)];
    }

    /** The linking half of `create_mpoint`, as written: a record for `name`
        becomes the head and is linked with the previous head only. The walk
        to the last record of the cycle ends, but its result is not used. */
    method LinkMPoint(name: string) returns (mp: nat)
      requires Chain(mpoints, head, cycle)
      modifies this
      ensures mp == |old(mpoints)| && head == Some(mp)
      ensures mpoints == Insert(old(mpoints), old(head), name, [])
      ensures cycle == InsertCycle(old(head), mp)
      ensures log == old(log) && Settings() == old(Settings())
      ensures initialized == old(initialized) && startTime == old(startTime)
    {
      mp := |mpoints|;
      var record := MPoint(Prefix(name, DATA_MAX_NAME_LEN), [], mp);
      var pmp := head;
      if pmp.None? {
        mpoints := mpoints + [record];
        cycle := [mp];
      } else {
        var p := pmp.value;
        var last := p;
        ghost var k := 0;
        while mpoints[last].next != p
          invariant k < |cycle| && last == cycle[k]
          decreases |cycle| - k
        {
          last := mpoints[last].next;
          k := k + 1;
        }
        mpoints := mpoints[p := mpoints[p].(next := mp)] + [record.(next := p)];
        cycle := [mp, p];
      }
      head := Some(mp);
    }

    /** `create_mpoint`: links a new record as the head, then configures and
        declares it. */
    method CreateMPoint(name: string, ds: seq<DataSource>) returns (mp: nat)
      requires Valid() && ValidTypes(ds)
      modifies this
      ensures Valid()
      ensures mp == |old(mpoints)| && head == Some(mp)
      ensures mpoints == Insert(old(mpoints), old(head), name, SchemaFor(ds))
      ensures cycle == InsertCycle(old(head), mp)
      ensures Lookup(mpoints, cycle, name) == Some(mp)
      ensures log == old(log) + [AddMp(Prefix(name, DATA_MAX_NAME_LEN), SchemaFor(ds))]
      ensures Settings() == old(Settings()) && initialized == old(initialized) && startTime == old(startTime)
    {
      InsertKeepsChain(mpoints, head, cycle, name, []);
      InsertKeepsChain(mpoints, head, cycle, name, SchemaFor(ds));
      InsertThenDefine(mpoints, head, name, SchemaFor(ds));
      DeclaredSame(mpoints, Insert(mpoints, head, name, [])[..|mpoints|]);
      mp := LinkMPoint(name);
      ConfigureMPoint(mp, ds);
    }

    /** The first half of `find_mpoint`: the record for `name`, created (and
        declared) when the chain does not find it, whatever the gate says. */
    method Resolve(name: string, ds: seq<DataSource>) returns (mp: nat)
      requires Valid() && ValidTypes(ds)
      modifies this
      ensures Valid()
      ensures Resolution(old(mpoints), old(head), old(cycle), name, SchemaFor(ds), mpoints, head, cycle)
      ensures mp == Target(old(mpoints), old(cycle), name)
      ensures mp < |mpoints| && Matches(mpoints[mp], name)
      ensures log == old(log) + DeclEvents(old(mpoints), old(cycle), name, SchemaFor(ds))
      ensures Settings() == old(Settings()) && initialized == old(initialized) && startTime == old(startTime)
    {
      var found := FindMPointStruct(name);
      if found.None? {
        mp := CreateMPoint(name, ds);
      } else {
        mp := found.value;
      }
      assert Lookup(mpoints, cycle, name) == Some(mp);
      LookupMeaning(mpoints, cycle, name);
    }

    /** The second half of `find_mpoint`: the start-up gate. Closed while OML
        is not started and the delay has not passed; otherwise open, starting
        OML first if the re-check under the lock finds it not started. */
    method PassGate(now: int) returns (open: bool)
      requires Valid()
      modifies this
      ensures Valid()
      ensures open == !Warming(old(initialized), now, startTime, startupDelay)
      ensures initialized == (old(initialized) || open)
      ensures log == old(log) + StartEvents(old(initialized), now, startTime, startupDelay)
      ensures Settings() == old(Settings()) && startTime == old(startTime)
      ensures mpoints == old(mpoints) && head == old(head) && cycle == old(cycle)
    {
      if !initialized {
        if now - startTime < startupDelay {
          return false;
        }
        // the critical section under session.init_lock
        if !initialized {
          LogAppend(log, Start);
          log := log + [Start];
          initialized := true;
        }
      }
      return true;
    }

    /** `find_mpoint`: resolves `name`, creating a record when the chain does
        not find it (also while warming up), then consults the gate and
        answers NULL while it is closed. */
    method FindMPoint(name: string, ds: seq<DataSource>, now: int) returns (mp: Option<nat>)
      requires Valid() && ValidTypes(ds)
      modifies this
      ensures Valid()
      ensures Resolution(old(mpoints), old(head), old(cycle), name, SchemaFor(ds), mpoints, head, cycle)
      ensures mp == if Warming(old(initialized), now, startTime, startupDelay) then None
                    else Some(Target(old(mpoints), old(cycle), name))
      ensures mp.Some? ==> mp.value < |mpoints| && Matches(mpoints[mp.value], name)
      ensures initialized == (old(initialized) || now - startTime >= startupDelay)
      ensures log == old(log) + DeclEvents(old(mpoints), old(cycle), name, SchemaFor(ds))
                    + StartEvents(old(initialized), now, startTime, startupDelay)
      ensures Settings() == old(Settings()) && startTime == old(startTime)
    {
      var resolved := Resolve(name, ds);
      var open := PassGate(now);
      mp := if open then Some(resolved) else None;
    }

    /** `oml_write`: drops the sample while warming up (0), refuses more than 57
        values (-1), and otherwise injects one tuple (0). */
    method Write(ds: DataSet, vl: ValueList, now: int) returns (rc: int)
      requires Valid() && ValidTypes(ds.sources) && |ds.sources| == |vl.values|
      modifies this
      ensures Valid()
      ensures Resolution(old(mpoints), old(head), old(cycle), ds.typeName, SchemaFor(ds.sources), mpoints, head, cycle)
      ensures initialized == (old(initialized) || now - startTime >= startupDelay)
      ensures rc == if !Warming(old(initialized), now, startTime, startupDelay)
                       && |vl.values| >= ROW_CAPACITY - HEADER then -1 else 0
      ensures Settings() == old(Settings()) && startTime == old(startTime)
      ensures var before := old(log) + DeclEvents(old(mpoints), old(cycle), ds.typeName, SchemaFor(ds.sources))
                            + StartEvents(old(initialized), now, startTime, startupDelay);
        if Warming(old(initialized), now, startTime, startupDelay) || |vl.values| >= ROW_CAPACITY - HEADER then
          log == before
        else
          && |log| == |before| + 1 && log[..|before|] == before
          && log[|before|].Inject?
          && log[|before|].handle == Target(old(mpoints), old(cycle), ds.typeName)
          && |log[|before|].row| == ROW_CAPACITY
          && log[|before|].row[..|ds.sources| + HEADER] == EncodeRow(ds.sources, vl)
    {
      var mp := FindMPoint(ds.typeName, ds.sources, now);
      if mp.None? {
        return 0;
      }
      var header := HEADER;
      if |vl.values| >= ROW_CAPACITY - header {
        return -1;
      }
      InjectRow(mp.value, ds.sources, vl);
      return 0;
    }

    /** The tail of `oml_write`: fills the tuple buffer and hands it to
        `omlc_inject` with the measurement point of record `mp`. */
    method InjectRow(mp: nat, ds: seq<DataSource>, vl: ValueList)
      requires Valid() && ValidTypes(ds) && |ds| == |vl.values|
      requires |vl.values| < ROW_CAPACITY - HEADER
      modifies this
      ensures Valid()
      ensures |log| == |old(log)| + 1 && log[..|old(log)|] == old(log)
      ensures log[|old(log)|].Inject? && log[|old(log)|].handle == mp
      ensures |log[|old(log)|].row| == ROW_CAPACITY && log[|old(log)|].row[..|ds| + HEADER] == EncodeRow(ds, vl)
      ensures Settings() == old(Settings()) && startTime == old(startTime) && initialized == old(initialized)
      ensures mpoints == old(mpoints) && head == old(head) && cycle == old(cycle)
    {
      var v := FillRow(ds, vl);
      LogAppend(log, Inject(mp, v[..]));
      log := log + [Inject(mp, v[..])];
    }

    /** `oml_config`: sets the one setting `key` names, in any case, and
        answers 0; an unknown key answers -1 and changes nothing. */
    method Configure(key: string, value: string) returns (rc: int)
      requires Valid()
      modifies this
      ensures Valid()
      ensures rc == if ConfigKeyOf(key).Some? then 0 else -1
      ensures serverUrl == if ConfigKeyOf(key) == Some(ServerUrlKey) then Some(value) else old(serverUrl)
      ensures contextName == if ConfigKeyOf(key) == Some(ContextNameKey) then Some(value) else old(contextName)
      ensures nodeId == if ConfigKeyOf(key) == Some(NodeNameKey) then Some(value) else old(nodeId)
      ensures startupDelay == if ConfigKeyOf(key) == Some(StartupDelayKey) then Atoi(value) else old(startupDelay)
      ensures mpoints == old(mpoints) && head == old(head) && cycle == old(cycle)
      ensures initialized == old(initialized) && startTime == old(startTime) && log == old(log)
    {
      if StrCaseEq("ServerURL", key) {
        serverUrl := Some(value);
      } else if StrCaseEq("ContextName", key) {
        contextName := Some(value);
      } else if StrCaseEq("NodeName", key) {
        nodeId := Some(value);
      } else if StrCaseEq("StartupDelay", key) {
        startupDelay := Atoi(value);
      } else {
        return -1;
      }
      return 0;
    }

    /** `oml_init`: builds the argument vector from the defaults and the
        configured settings and hands it to `omlc_init`. */
    method Init(hostname: string) returns (rc: int)
      requires Valid()
      modifies this
      ensures Valid() && rc == 0
      ensures log == old(log) + [InitSink(APP_NAME, InitArgv(serverUrl, nodeId, contextName, hostname))]
      ensures Settings() == old(Settings()) && mpoints == old(mpoints) && head == old(head) && cycle == old(cycle)
      ensures initialized == old(initialized) && startTime == old(startTime)
    {
      var argv := BuildArgv(serverUrl, nodeId, contextName, hostname);
      LogAppend(log, InitSink(APP_NAME, argv[..]));
      log := log + [InitSink(APP_NAME, argv[..])];
      rc := 0;
    }
  }
}
