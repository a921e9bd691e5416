/** Clients of the session that exercise the plugin's behaviour from its
    contracts alone. */
module Scenarios {
  import opened Opt
  import opened CStrings
  import opened Schema
  import opened Row
  import opened Registry
  import opened Config
  import opened WriteOml

  /** Three types seen in turn during warm-up: as written, the first one is no
      longer found in the chain afterwards, so its next sample creates and
      declares it a second time. */
  method LostEntry(now: int) returns (s: Session, found: Option<nat>)
    ensures found.None?
    ensures |Declarations(s.log)| == 4
    ensures Declarations(s.log)[0].0 == "cpu" && Declarations(s.log)[3].0 == "cpu"
  {
    s := new Session.Register(now);
    var a := s.FindMPoint("cpu", [], now);
    var b := s.FindMPoint("memory", [], now);
    var c := s.FindMPoint("load", [], now);
    assert s.mpoints[2].name == "load" && s.mpoints[1].name == "memory";
    found := s.FindMPointStruct("cpu");
    var d := s.FindMPoint("cpu", [], now);
  }

  /** With the default delay of 10, a sample at start + 9 is held back and one
      at start + 10 opens the gate and resolves to the record made first. */
  method WarmUpBoundary(t0: int) returns (early: Option<nat>, onTime: Option<nat>)
    ensures early.None? && onTime == Some(0)
  {
    var s := new Session.Register(t0);
    early := s.FindMPoint("cpu", [DataSource("value", DS_TYPE_GAUGE)], t0 + 9);
    assert s.mpoints[0].name == "cpu";
    onTime := s.FindMPoint("cpu", [DataSource("value", DS_TYPE_GAUGE)], t0 + 10);
  }

  /** The key spelled in lower case still selects the start-up delay. */
  lemma LowerCaseKey()
    ensures ConfigKeyOf("startupdelay") == Some(StartupDelayKey)
  {
    assert LowerString("StartupDelay") == "startupdelay";
    assert LowerString("startupdelay") == "startupdelay";
    ConfigKeyOfExact(StartupDelayKey, "startupdelay");
  }

  /** A fresh session after `StartupDelay` is set to "0". */
  method ZeroDelaySession(t0: int) returns (s: Session)
    ensures fresh(s) && s.Valid()
    ensures s.startupDelay == 0 && s.startTime == t0 && !s.initialized
    ensures s.log == [] && s.mpoints == [] && s.cycle == [] && s.head.None?
    ensures s.serverUrl.None? && s.contextName.None? && s.nodeId.None?
  {
    s := new Session.Register(t0);
    AtoiDecimal(0, []);
    assert Decimal(0) + [] == "0";
    LowerCaseKey();
    var cfg := s.Configure("startupdelay", "0");
  }

  /** `StartupDelay` set to "0", then one gauge sample of type "cpu" from host
      "h1": it is delivered at once, after the declaration and the start. */
  method EndToEnd(t0: int, reading: Word64) returns (s: Session, rc: int)
    ensures s.Valid() && s.initialized && rc == 0
    ensures |s.log| == 3 && s.log[0].AddMp? && s.log[1] == Start && s.log[2].Inject?
    ensures s.log[0].name == "cpu" && |s.log[2].row| == ROW_CAPACITY
    ensures s.log[0].defs == SchemaFor([DataSource("value", DS_TYPE_GAUGE)]) && s.log[2].handle == 0
    ensures s.log[2].row[..HEADER + 1]
      == [Int64V(t0), StringV("h1"), StringV("cpu"), StringV(""), StringV("cpu"), StringV(""), DoubleV(reading)]
  {
    s := ZeroDelaySession(t0);
    var vl := ValueList([reading], t0, Some("h1"), Some("cpu"), None, Some("cpu"), None);
    var ds := DataSet("cpu", [DataSource("value", DS_TYPE_GAUGE)]);
    ghost var row := EncodeRow(ds.sources, vl);
    assert row == [Int64V(t0), StringV("h1"), StringV("cpu"), StringV(""), StringV("cpu"), StringV(""), DoubleV(reading)];
    assert Lookup([], [], "cpu") == None;
    assert !Warming(false, t0, t0, 0);
    rc := s.Write(ds, vl, t0);
    assert s.log[..2] == [AddMp("cpu", SchemaFor(ds.sources)), Start];
  }
}
