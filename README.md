# write_oml: a Dafny model of collectd's OML write plugin

collectd's `write_oml` plugin forwards every value list collectd dispatches to
an OML (ORBIT Measurement Library) collection point. For each collectd *type*
it sees, it declares an OML measurement point (MP). The MP has six provenance
fields (time, host, plugin, plugin instance, type, type instance), then one
field per data source. The plugin remembers the MP records in a circular chain.
It holds samples back for a start-up delay (10 by default) and then calls
`omlc_start` exactly once. From then on it injects one tuple per value list of at most 57 values.
Four configuration keys, matched in any case, set the server URL, the
experiment (context) name, the node name and the delay. `oml_init` builds the
argument vector `omlc_init` receives from these keys and their defaults.

The model has these modules:

- `CStrings` (`c_strings.dfy`): the C library the plugin uses.
  - `strncpy`/`strncmp` with a bound, as `Prefix`/`StrnEq`.
  - `strcasecmp` as `StrCaseEq`.
  - `atoi` as `Atoi`: leading white space, an optional sign, then the digits that follow.
- `Schema` (`schema.dfy`): the `OmlMPDef` array `configure_mpoint` builds.
  - `SchemaFor` is its value.
  - `BuildDefs` fills an array slot by slot, as the C code does.
- `Row` (`row.dfy`): the `OmlValueU v[64]` tuple `oml_write` builds.
  - `EncodeRow` is its value.
  - `FillRow` fills the 64-slot array.
  - A collectd `value_t` is a 64-bit word. Counter, derive and absolute all become the signed 64-bit integer with the same bits (`ToInt64`). A gauge is kept as its bits.
- `Registry` (`registry.dfy`): the chain of `MPoint` records.
  - Records live in a store indexed by address (`seq<MPoint>`); `next` is an index.
  - A ghost `cycle` lists the records reachable from the head, in order.
  - `Lookup` is what `find_mpoint_struct` returns.
  - `Insert` is what `create_mpoint` does to the chain, *as written*: line 140 points the old head (not the last record) at the new one. Lemmas state the consequence: after an insertion, only the new record and the previous head stay reachable, so the third type seen makes the first one unreachable.
- `Config` (`config.dfy`): the configuration keys and the `omlc_init` argument vector.
- `WriteOml` (`write_oml.dfy`): class `Session` stands for the globals `session` and `start_time`.
  - Its methods are the plugin's functions.
  - The OML library is a sink. Each call into it (`omlc_add_mp`, `omlc_start`, `omlc_inject`, `omlc_init`) is appended to a ghost `log`.
  - `Valid()` keeps three invariants: the chain is a cycle through its head; `omlc_start` was logged once if the gate is open and never otherwise; every allocated record was declared by exactly one `omlc_add_mp`, in allocation order.
- `Scenarios` (`scenarios.dfy`): clients that derive concrete behaviours from the contracts alone.

The clock (`time(&now)`) is an argument, `now`, of the operations that read it.
`hostname_g` is an argument of `Init`. The handle `omlc_add_mp` returns is stood
for by the index of the record that keeps it.

## Model

| member | source | states |
|---|---|---|
| CStrings.Prefix | src/write_oml.c:130 | the copy `strncpy` keeps is a prefix of the source: the whole source when it fits, otherwise exactly its first `n` characters |
| CStrings.CopyComparesEqual | src/write_oml.c:64 | a name copied with the bound compares equal to the original under `strncmp` with the same bound, however long it is |
| CStrings.AtoiUnsigned | src/write_oml.c:242 | on a string that starts with a digit, `atoi` reads the leading digits, negated after a minus sign |
| CStrings.AtoiDecimal | src/write_oml.c:242 | `atoi` reads back every decimal rendering of a natural number, with or without a minus sign, whatever non-digit text follows |
| CStrings.DecimalValue | src/write_oml.c:242 | the digits of the decimal rendering of `n` have value `n` |
| CStrings.DigitRunOf | src/write_oml.c:242 | the digit run that `atoi` reads stops exactly at the first non-digit |
| Registry.FirstMatchFrom | src/write_oml.c:62-68 | the position found is the first one from `k` on whose record matches the name; none before it matches |
| Registry.LookupMeaning | src/write_oml.c:55-70 | the search returns NULL exactly when no record of the cycle matches (always on an empty chain); otherwise it returns a matching record of the cycle with no match before it |
| Registry.Insert | src/write_oml.c:126-143 | the store grows by one record, holding the truncated name and the given definitions |
| Registry.InsertKeepsChain | src/write_oml.c:131-143 | after an insertion the chain is again a cycle through the new head, the new record is found under its name, and every old record keeps its name and definitions, and every old record other than the previous head is unchanged |
| Registry.WalkAlongCycle | src/write_oml.c:67 | following `next` from a record of the cycle visits the cycle in order and returns to the head after the last record |
| Registry.WalkStaysInCycle | src/write_oml.c:67 | however many `next` links are followed, a walk from the cycle never leaves it |
| Registry.OnlyNewAndOldHeadReachable | src/write_oml.c:140-141 | as written, after inserting into a non-empty chain, only the new record and the previous head are reachable from the new head |
| Registry.ThirdInsertLosesFirst | src/write_oml.c:140-141 | as written, of three distinct names inserted in turn into an empty chain, the first is no longer found, although its record is still in the store |
| Registry.SameLinksKeepChain | src/write_oml.c:84-117 | filling in names or definitions without touching `next` keeps the chain |
| Registry.InsertThenDefine | src/write_oml.c:143-144 | linking a record and then setting its definitions gives the same store as inserting it with them |
| Schema.KindOfTag | src/write_oml.c:101-112 | a data source is declared as a double exactly when it is a gauge; every other type is a signed 64-bit integer |
| Schema.SchemaLayout | src/write_oml.c:84-116 | a schema has `ds_num + 7` entries: the six provenance fields, then each data source's name and kind in order, then a terminator, which is the only entry without a name |
| Schema.BuildDefs | src/write_oml.c:84-116 | the array allocated and filled slot by slot has `ds_num + 7` entries and equals the schema |
| Row.ToInt64 | src/write_oml.c:217-220 | the signed 64-bit reading of a word lies in the int64 range and agrees with the word modulo 2^64 |
| Row.Convert | src/write_oml.c:214-221 | each value gets the kind its data source is declared with; an integer is the signed 64-bit number with the value's bits (in the int64 range and equal to the word modulo 2^64), and a double keeps its bits |
| Row.FillHeader | src/write_oml.c:202-207 | the first six slots hold the time, then host, plugin, plugin instance, type and type instance, each NULL written as the empty string; the other 58 slots are left as they were |
| Row.FillRow | src/write_oml.c:195-222 | the 64-slot buffer, filled in place, holds the header and then each value converted by its data source type, in order |
| Row.RowMatchesSchema | src/write_oml.c:208-221 | the tuple has one value per schema field before the terminator, each of the kind that field is declared with |
| Config.ConfigKeyOf | src/write_oml.c:232-245 | a key is taken for a setting only if it equals that setting's name ignoring case |
| Config.ConfigKeyOfExact | src/write_oml.c:16-23 | a key selects a setting exactly when it spells that setting's name in any mix of cases, so no key selects two settings |
| Config.BuildArgv | src/write_oml.c:253-259 | the vector has six entries: the three flags, each followed by the configured value or, when none is configured, its default |
| Config.InitArgvOptions | src/write_oml.c:254-259 | read back as options, the vector gives the configured server, node and context, and otherwise file:-, the host name and collectd |
| WriteOml.Session.Register | src/write_oml.c:266-273 | the session starts with no settings, an empty chain, the gate closed, a delay of 10, the start time set to now and nothing sent to OML |
| WriteOml.Session.FindMPointStruct | src/write_oml.c:55-70 | one walk round the chain from the head, visiting each record at most once, returns exactly the specified lookup |
| WriteOml.Session.ConfigureMPoint | src/write_oml.c:72-118 | the record's definitions become the schema for the data set, one `omlc_add_mp` with its name and that schema is logged, and the session invariant is restored |
| WriteOml.Session.LinkMPoint | src/write_oml.c:126-143 | the new record becomes the head and the store is the as-written insertion; the walk to the last record ends |
| WriteOml.Session.CreateMPoint | src/write_oml.c:120-146 | the store grows by exactly the as-written insertion of the record with its schema, the new head is that record, and its declaration is logged |
| WriteOml.Session.Resolve | src/write_oml.c:154-161 | a found name leaves the chain unchanged and logs nothing; an unknown name is inserted and declared; either way the answer is a record matching the name |
| WriteOml.Session.PassGate | src/write_oml.c:162-180 | the gate is closed exactly while OML is not started and the delay has not passed; opening it logs `omlc_start` only if OML was not started |
| WriteOml.Session.FindMPoint | src/write_oml.c:148-182 | the record is resolved (and, if new, declared) even during warm-up; NULL is returned exactly while warming, otherwise a record matching the name; the start is logged once, when the gate opens |
| WriteOml.Session.Write | src/write_oml.c:185-225 | answers -1 exactly when the gate is open and there are 58 or more values; otherwise 0; injects one 64-slot tuple holding the encoded row into the resolved record exactly when the gate is open and the values fit |
| WriteOml.Session.InjectRow | src/write_oml.c:202-223 | exactly one `omlc_inject` is logged, into the given record, with a 64-slot tuple whose first `ds_num + 6` slots are the encoded row; nothing else changes |
| WriteOml.Session.Configure | src/write_oml.c:227-247 | answers 0 for one of the four keys in any case and -1 otherwise; sets only the selected setting (the delay through `atoi`) and changes nothing else |
| WriteOml.Session.Init | src/write_oml.c:249-263 | logs one `omlc_init` call with application name collectd and the argument vector built from the settings, and answers 0 |
| Scenarios.LostEntry | src/write_oml.c:140-141 | after samples of three types, the first type is no longer found by the chain search, and its next sample declares it a second time |
| Scenarios.WarmUpBoundary | src/write_oml.c:162-170 | with the default delay, a sample 9 seconds after start is held back and one 10 seconds after start goes to the first record |
| Scenarios.LowerCaseKey | src/write_oml.c:241 | `startupdelay` in lower case selects the start-up delay |
| Scenarios.ZeroDelaySession | src/write_oml.c:241-242 | a fresh session configured with `StartupDelay` "0" has delay 0, no server, context or node setting, an empty chain, the gate closed and nothing sent to OML |
| Scenarios.EndToEnd | src/write_oml.c:185-225 | with a delay of 0, the first gauge sample declares the MP with the gauge schema, starts OML and injects its tuple into that MP, in that order |

## Left out

- The OML library itself (`omlc_add_mp`, `omlc_start`, `omlc_inject`, `omlc_init`): its calls are recorded in the ghost log, not executed. The handle an MP declaration returns is stood for by the record's index.
- The mutex `session.init_lock`, and concurrent calls of the write callback: operations run one at a time. The double check of `oml_intialized` under the lock is kept as written.
- The clock: `time(&now)` and `time(&start_time)` are the `now` arguments.
- `hostname_g` is the `hostname` argument of `Init`.
- Floating point: a gauge is carried as its 64 bits; nothing is computed on it.
- `Session.Configure`: the delay is an unbounded integer. `atoi`'s C `int` width and its behaviour on overflow (undefined in C) are not modelled.
- `Row.ToInt64`: counter and absolute values are unsigned 64-bit in collectd. They are modelled by the signed 64-bit integer with the same bits, since `omlc_set_int64` receives them as int64.
- `vl->time` is passed through as an integer. The conversion of collectd's time type into `int64` is not modelled.
- `malloc` and `strcpy` of the settings and definition names: allocating cannot fail in the model, and copies are values.
- The four per-record fields `plugin`, `plugin_instance`, `type` and `type_instance` of `MPoint` are never written (their copies are commented out in `configure_mpoint`), so they are not in the model.
- `vl` is passed to `create_mpoint` and `configure_mpoint` but not used by them; the model does not pass it.
- `module_register`'s calls registering the callbacks with collectd (`plugin_register_config`, `plugin_register_init`, `plugin_register_write`), and the `ERROR` and `DEBUG` log messages: they have no effect on the plugin's state.
- The address of `argc` that `omlc_init` receives, and any options it removes from `argv`.
- The `assert(d->type <= 3)` in the C code becomes a precondition (`ValidTypes`) on the operations that read data source types.
- `DATA_MAX_NAME_LEN` is taken as 64, collectd's value; plugin.h is not part of this model.
- `oml_write` checks only the number of values, not that it matches the data set's number of data sources. As in collectd, the model requires the two to be equal.
