/** The value tuple `oml_write` builds for one collectd value list. */
module Row {
  import opened Opt
  import opened Schema

  const TWO_63: int := 0x8000_0000_0000_0000
  const TWO_64: int := 0x1_0000_0000_0000_0000

  /** The eight bytes of one collectd `value_t`, read as an unsigned number. The
      union's members are views of these bytes: counter and absolute unsigned,
      derive signed, gauge a double. */
  type Word64 = w: int | 0 <= w < TWO_64

  /** The signed 64-bit integer with the same bits as `w`. */
  function ToInt64(w: Word64): (i: int)
    ensures -TWO_63 <= i < TWO_63
    ensures i % TWO_64 == w
  {
    if w < TWO_63 then w else w - TWO_64
  }

  /** One `OmlValueU`; a double is kept as the bits it was read from. */
  datatype OmlValue = Int64V(i: int) | DoubleV(bits: Word64) | StringV(s: string)

  function KindOf(v: OmlValue): OmlValueType {
    match v
    case Int64V(_) => Int64Value
    case DoubleV(_) => DoubleValue
    case StringV(_) => StringValue
  }

  /** A collectd `value_list_t`: the values and the provenance strings, each of
      which the plugin allows to be NULL. */
  datatype ValueList = ValueList(
    values: seq<Word64>,
    time: int,
    host: Option<string>,
    plugin: Option<string>,
    pluginInstance: Option<string>,
    typeName: Option<string>,
    typeInstance: Option<string>)

  /** Size of the tuple buffer `v`. */
  const ROW_CAPACITY: nat := 64

  /** Value `w` of a data source of type `tag`, as the `switch` in `oml_write` sets it. */
  function Convert(tag: nat, w: Word64): (v: OmlValue)
    requires tag <= DS_TYPE_ABSOLUTE
    ensures KindOf(v) == KindOfTag(tag)
    ensures v.Int64V? ==> -TWO_63 <= v.i < TWO_63 && v.i % TWO_64 == w
    ensures v.DoubleV? ==> v.bits == w
  {
    match tag
    case 0 => Int64V(ToInt64(w))
    case 1 => DoubleV(w)
    case 2 => Int64V(ToInt64(w))
    case _ => Int64V(ToInt64(w))
  }

  /** The tuple for `vl`: time, five provenance strings with NULL read as the
      empty string, then the values converted per data source type. */
  function EncodeRow(ds: seq<DataSource>, vl: ValueList): seq<OmlValue>
    requires ValidTypes(ds) && |ds| == |vl.values|
  {
    HeaderRow(vl) + seq(|ds|, i requires 0 <= i < |ds| => Convert(ds[i].dsType, vl.values[i]))
  }

  function HeaderRow(vl: ValueList): seq<OmlValue> {
    [ Int64V(vl.time),
      StringV(vl.host.GetOr("")),
      StringV(vl.plugin.GetOr("")),
      StringV(vl.pluginInstance.GetOr("")),
      StringV(vl.typeName.GetOr("")),
      StringV(vl.typeInstance.GetOr("")) ]
  }

  /** Fills the 64-slot buffer as `oml_write` does; every slot it writes is
      below 64 (Dafny checks each index), the rest stay unset. */
  method FillRow(ds: seq<DataSource>, vl: ValueList) returns (v: array<OmlValue>)
    requires ValidTypes(ds) && |ds| == |vl.values|
    requires |vl.values| < ROW_CAPACITY - HEADER
    ensures fresh(v) && v.Length == ROW_CAPACITY
    ensures v[..|ds| + HEADER] == EncodeRow(ds, vl)
  {
    v := new OmlValue[ROW_CAPACITY];
    var header := HEADER;
    FillHeader(v, vl);
    var i := 0;
    while i < |ds|
      invariant 0 <= i <= |ds|
      invariant v[..header] == HeaderRow(vl)
      invariant forall k | 0 <= k < i :: v[k + header] == Convert(ds[k].dsType, vl.values[k])
    {
      v[i + header] := Convert(ds[i].dsType, vl.values[i]);
      i := i + 1;
    }
    assert forall j | 0 <= j < |ds| + header :: v[j] == EncodeRow(ds, vl)[j];
  }

  /** The six header slots: the time, then the provenance strings, each NULL
      written as the empty string. */
  method FillHeader(v: array<OmlValue>, vl: ValueList)
    requires v.Length == ROW_CAPACITY
    modifies v
    ensures v[..HEADER] == HeaderRow(vl)
    ensures v[HEADER..] == old(v[HEADER..])
  {
    v[0] := Int64V(vl.time);
    v[1] := StringV(if vl.host.Some? then vl.host.value else "");
    v[2] := StringV(if vl.plugin.Some? then vl.plugin.value else "");
    v[3] := StringV(if vl.pluginInstance.Some? then vl.pluginInstance.value else "");
    v[4] := StringV(if vl.typeName.Some? then vl.typeName.value else "");
    v[5] := StringV(if vl.typeInstance.Some? then vl.typeInstance.value else "");
  }

  /** The tuple agrees with the schema declared for the same data sources:
      one value per field before the terminator, each of the declared kind. */
  lemma RowMatchesSchema(ds: seq<DataSource>, vl: ValueList)
    requires ValidTypes(ds) && |ds| == |vl.values|
    ensures |EncodeRow(ds, vl)| + 1 == |SchemaFor(ds)|
    ensures forall k | 0 <= k < |EncodeRow(ds, vl)| ::
      KindOf(EncodeRow(ds, vl)[k]) == SchemaFor(ds)[k].kind
  {
    var row, schema := EncodeRow(ds, vl), SchemaFor(ds);
    forall k | 0 <= k < |row| ensures KindOf(row[k]) == schema[k].kind {
      if k >= HEADER {
        assert row[k] == Convert(ds[k - HEADER].dsType, vl.values[k - HEADER]);
        assert schema[k] == ValueDef(ds[k - HEADER]);
      }
    }
  }
}
