/** The four configuration keys `oml_config` accepts and the argument vector
    `oml_init` hands to the OML library. */
module Config {
  import opened Opt
  import opened CStrings

  datatype ConfigKey = ServerUrlKey | ContextNameKey | NodeNameKey | StartupDelayKey

  /** The spelling of each key in `config_keys`. */
  function KeyName(k: ConfigKey): string {
    match k
    case ServerUrlKey => "ServerURL"
    case ContextNameKey => "ContextName"
    case NodeNameKey => "NodeName"
    case StartupDelayKey => "StartupDelay"
  }

  /** The key `oml_config` takes `key` for: the first of its `strcasecmp` tests
      that succeeds, or None when all four fail. */
  function ConfigKeyOf(key: string): (r: Option<ConfigKey>)
    ensures r.Some? ==> StrCaseEq(KeyName(r.value), key)
  {
    if StrCaseEq("ServerURL", key) then Some(ServerUrlKey)
    else if StrCaseEq("ContextName", key) then Some(ContextNameKey)
    else if StrCaseEq("NodeName", key) then Some(NodeNameKey)
    else if StrCaseEq("StartupDelay", key) then Some(StartupDelayKey)
    else None
  }

  /** `key` selects setting `k` exactly when it spells `k`'s name in any mix of
      cases: no key can select two settings, and none outside the four is
      accepted. */
  lemma ConfigKeyOfExact(k: ConfigKey, key: string)
    ensures ConfigKeyOf(key) == Some(k) <==> StrCaseEq(KeyName(k), key)
  {
    if StrCaseEq(KeyName(k), key) {
      var r := ConfigKeyOf(key);
      assert |LowerString(KeyName(k))| == |key|;
      assert r.Some? && |LowerString(KeyName(r.value))| == |key|;
    }
  }

  const APP_NAME: string := "collectd"
  const DEFAULT_SERVER_URL: string := "file:-"
  const DEFAULT_CONTEXT_NAME: string := "collectd"

  /** The `argv` that `oml_init` passes to `omlc_init`: each of the three
      defaults replaced by the setting configured for it, if any. */
  function InitArgv(serverUrl: Option<string>, nodeId: Option<string>, contextName: Option<string>,
                    hostname: string): seq<string>
  {
    [ "--oml-server", serverUrl.GetOr(DEFAULT_SERVER_URL),
      "--oml-id", nodeId.GetOr(hostname),
      "--oml-exp-id", contextName.GetOr(DEFAULT_CONTEXT_NAME) ]
  }

  /** The vector as `oml_init` fills it: the six defaults, then each of the
      three settings that is configured written over its slot. */
  method BuildArgv(serverUrl: Option<string>, nodeId: Option<string>, contextName: Option<string>,
                   hostname: string) returns (argv: array<string>)
    ensures fresh(argv) && argv.Length == 6
    ensures argv[..] == InitArgv(serverUrl, nodeId, contextName, hostname)
  {
    argv := new string[6];
    argv[0], argv[1] := "--oml-server", DEFAULT_SERVER_URL;
    argv[2], argv[3] := "--oml-id", hostname;
    argv[4], argv[5] := "--oml-exp-id", DEFAULT_CONTEXT_NAME;
    if serverUrl.Some? { argv[1] := serverUrl.value; }
    if nodeId.Some? { argv[3] := nodeId.value; }
    if contextName.Some? { argv[5] := contextName.value; }
    ghost var expected := InitArgv(serverUrl, nodeId, contextName, hostname);
    assert argv[0] == expected[0] && argv[1] == expected[1] && argv[2] == expected[2];
    assert argv[3] == expected[3] && argv[4] == expected[4] && argv[5] == expected[5];
    assert argv[..] == expected;
  }

  /** The argument that follows the first occurrence of `flag` in the flag
      positions of `argv`, flags and arguments alternating. */
  function OptionValue(argv: seq<string>, flag: string): (r: Option<string>)
    ensures r.Some? ==> r.value in argv
    decreases |argv|
  {
    if |argv| < 2 then None
    else if argv[0] == flag then Some(argv[1])
    else OptionValue(argv[2..], flag)
  }

  /** Read back as options, the vector names the configured server, node and
      context, and the defaults (file:-, the host name, collectd) for whichever
      was not configured. */
  lemma InitArgvOptions(serverUrl: Option<string>, nodeId: Option<string>, contextName: Option<string>,
                        hostname: string)
    ensures |InitArgv(serverUrl, nodeId, contextName, hostname)| == 6
    ensures OptionValue(InitArgv(serverUrl, nodeId, contextName, hostname), "--oml-server")
      == Some(serverUrl.GetOr(DEFAULT_SERVER_URL))
    ensures OptionValue(InitArgv(serverUrl, nodeId, contextName, hostname), "--oml-id")
      == Some(nodeId.GetOr(hostname))
    ensures OptionValue(InitArgv(serverUrl, nodeId, contextName, hostname), "--oml-exp-id")
      == Some(contextName.GetOr(DEFAULT_CONTEXT_NAME))
  {
    var argv := InitArgv(serverUrl, nodeId, contextName, hostname);
    var flag := "--oml-exp-id";
    assert argv[0] != flag && argv[2] != flag;
    assert argv[2..][2..] == argv[4..];
    assert OptionValue(argv[4..], flag) == Some(argv[5]);
    assert OptionValue(argv[2..], flag) == OptionValue(argv[4..], flag);
  }
}
