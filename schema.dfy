/** The measurement-point schema that `configure_mpoint` declares for a collectd
    data set: six provenance fields, one field per data source, a terminator. */
module Schema {
  import opened Opt

  /** The OML value kinds the plugin uses. `NullType` stands for the
      `(OmlValueT)0` stored in the terminating entry. */
  datatype OmlValueType = Int64Value | DoubleValue | StringValue | NullType

  /** One `OmlMPDef`: a field name (None for the terminator's NULL) and its kind. */
  datatype MPDef = MPDef(name: Option<string>, kind: OmlValueType)

  const Terminator: MPDef := MPDef(None, NullType)

  /** A collectd `data_source_t`: its name and its type tag. */
  datatype DataSource = DataSource(name: string, dsType: nat)

  /** A collectd `data_set_t`: the type name and its data sources. */
  datatype DataSet = DataSet(typeName: string, sources: seq<DataSource>)

  const DS_TYPE_COUNTER: nat := 0
  const DS_TYPE_GAUGE: nat := 1
  const DS_TYPE_DERIVE: nat := 2
  const DS_TYPE_ABSOLUTE: nat := 3

  /** What `assert(d->type <= 3)` demands of every data source. */
  predicate ValidTypes(ds: seq<DataSource>) {
    forall i | 0 <= i < |ds| :: ds[i].dsType <= DS_TYPE_ABSOLUTE
  }

  /** Number of provenance fields ahead of the measured values. */
  const HEADER: nat := 6

  /** The OML kind declared for a data source of type `tag`: only gauges are
      doubles; counters, derives and absolutes are all signed 64-bit integers. */
  function KindOfTag(tag: nat): (k: OmlValueType)
    requires tag <= DS_TYPE_ABSOLUTE
    ensures k == DoubleValue <==> tag == DS_TYPE_GAUGE
    ensures k == Int64Value || k == DoubleValue
  {
    match tag
    case 0 => Int64Value
    case 1 => DoubleValue
    case 2 => Int64Value
    case _ => Int64Value
  }

  /** The six provenance fields every measurement point starts with. */
  const HeaderDefs: seq<MPDef> := [
    MPDef(Some("time"), Int64Value),
    MPDef(Some("host"), StringValue),
    MPDef(Some("plugin"), StringValue),
    MPDef(Some("plugin_instance"), StringValue),
    MPDef(Some("type"), StringValue),
    MPDef(Some("type_instance"), StringValue)
  ]

  function ValueDef(d: DataSource): MPDef
    requires d.dsType <= DS_TYPE_ABSOLUTE
  {
    MPDef(Some(d.name), KindOfTag(d.dsType))
  }

  /** The field definitions declared for data sources `ds`. */
  function SchemaFor(ds: seq<DataSource>): seq<MPDef>
    requires ValidTypes(ds)
  {
    HeaderDefs + seq(|ds|, i requires 0 <= i < |ds| => ValueDef(ds[i])) + [Terminator]
  }

  /** The layout of a schema: `|ds| + 7` entries, the provenance fields, the
      data source fields in order, and a terminator that is the only entry
      without a name. */
  lemma SchemaLayout(ds: seq<DataSource>)
    requires ValidTypes(ds)
    ensures |SchemaFor(ds)| == |ds| + HEADER + 1
    ensures SchemaFor(ds)[..HEADER] == HeaderDefs
    ensures forall i | 0 <= i < |ds| ::
      SchemaFor(ds)[HEADER + i] == MPDef(Some(ds[i].name), KindOfTag(ds[i].dsType))
    ensures SchemaFor(ds)[|ds| + HEADER] == Terminator
    ensures forall j | 0 <= j < |ds| + HEADER + 1 ::
      SchemaFor(ds)[j].name.None? <==> j == |ds| + HEADER
  {
  }

  /** `configure_mpoint` (without the declaration call): allocates `ds_num + 7`
      definitions and fills them slot by slot. */
  method BuildDefs(ds: seq<DataSource>) returns (defs: array<MPDef>)
    requires ValidTypes(ds)
    ensures fresh(defs) && defs.Length == |ds| + HEADER + 1
    ensures defs[..] == SchemaFor(ds)
  {
    defs := new MPDef[|ds| + HEADER + 1];
    var i := 0;
    defs[i] := MPDef(Some("time"), Int64Value);
    i := i + 1; defs[i] := MPDef(Some("host"), StringValue);
    i := i + 1; defs[i] := MPDef(Some("plugin"), StringValue);
    i := i + 1; defs[i] := MPDef(Some("plugin_instance"), StringValue);
    i := i + 1; defs[i] := MPDef(Some("type"), StringValue);
    i := i + 1; defs[i] := MPDef(Some("type_instance"), StringValue);
    var offset := i + 1;
    i := 0;
    while i < |ds|
      invariant 0 <= i <= |ds|
      invariant defs[..HEADER] == HeaderDefs
      invariant forall k | 0 <= k < i :: defs[offset + k] == ValueDef(ds[k])
    {
      defs[i + offset] := MPDef(Some(ds[i].name), KindOfTag(ds[i].dsType));
      i := i + 1;
    }
    defs[|ds| + offset] := Terminator;
    assert forall j | 0 <= j < defs.Length :: defs[j] == SchemaFor(ds)[j];
  }
}
