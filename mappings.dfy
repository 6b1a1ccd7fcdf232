/** The flag table (`get_mappings`) and its helpers: every flag name the
    converter knows maps to the kind of value it carries and the
    `/`-separated slot path in the service where it is written. */
module Mappings {
  import opened Wrappers
  import opened Strings
  import opened IndexMaps
  import Yaml

  /** `ArgType`: how a flag's value is written into the service. */
  datatype ArgType =
    | Array
    | Ulimits
    | Switch
    | Value
    | IntValue
    | FloatValue
    | DeviceBlockIOConfigRate
    | DeviceBlockIOConfigWeight
    | Networks
    | MapArray
    | Map
    | Envs
    | Gpus

  datatype Mapping = Mapping(argType: ArgType, path: string)

  /** The segment of a slot path that stands for the service's network. */
  const NetworkPlaceholder: string := "\U{A4}network\U{A4}"

  /** The flags whose slot path runs through the placeholder segment. */
  const NetworkFlags: set<string> := {"ip", "ip6", "link-local-ip", "network-alias"}

  /** The table's long flag names, each with its kind and slot path; the
      rows are filed under the name's first character, and a name without
      a row gives `None`. */
  function LongForm(flag: string): (r: Option<Mapping>)
    ensures r.Some? && r.value.path == [] ==> flag in {"detached", "rm"}
    ensures r.Some? && r.value.argType == Switch ==> flag in LongSwitches
  {
    if flag == [] then None
    else match flag[0]
      case 'a' => LongFormA(flag)
      case 'b' => LongFormB(flag)
      case 'c' => LongFormC(flag)
      case 'd' => LongFormD(flag)
      case 'e' => LongFormE(flag)
      case 'g' => LongFormG(flag)
      case 'h' => LongFormH(flag)
      case 'i' => LongFormI(flag)
      case 'l' => LongFormL(flag)
      case 'm' => LongFormM(flag)
      case 'n' => LongFormN(flag)
      case 'o' => LongFormO(flag)
      case 'p' => LongFormP(flag)
      case 'r' => LongFormR(flag)
      case 's' => LongFormS(flag)
      case 't' => LongFormT(flag)
      case 'u' => LongFormU(flag)
      case 'v' => LongFormV(flag)
      case 'w' => LongFormW(flag)
      case _ => None
  }

  function LongFormA(flag: string): (r: Option<Mapping>)
    ensures r.Some? && r.value.path == [] ==> flag in {"detached", "rm"}
    ensures r.Some? && r.value.argType == Switch ==> flag in LongSwitches
  {
    match flag
    case "add-host" => Some(Mapping(Array, "extra_hosts"))
    case _ => None
  }

  function LongFormB(flag: string): (r: Option<Mapping>)
    ensures r.Some? && r.value.path == [] ==> flag in {"detached", "rm"}
    ensures r.Some? && r.value.argType == Switch ==> flag in LongSwitches
  {
    match flag
    case "blkio-weight" => Some(Mapping(IntValue, "blkio_config/weight"))
    case "blkio-weight-device" => Some(Mapping(DeviceBlockIOConfigWeight, "blkio_config/weight_device"))
    case _ => None
  }

  function LongFormC(flag: string): (r: Option<Mapping>)
    ensures r.Some? && r.value.path == [] ==> flag in {"detached", "rm"}
    ensures r.Some? && r.value.argType == Switch ==> flag in LongSwitches
  {
    match flag
    case "cap-add" => Some(Mapping(Array, "cap_add"))
    case "cap-drop" => Some(Mapping(Array, "cap_drop"))
    case "cgroup-parent" => Some(Mapping(Value, "cgroup_parent"))
    case "cgroupns" => Some(Mapping(Value, "cgroup"))
    case "cpu-period" => Some(Mapping(Value, "cpu_period"))
    case "cpu-quota" => Some(Mapping(Value, "cpu_quota"))
    case "cpu-rt-period" => Some(Mapping(Value, "cpu_rt_period"))
    case "cpu-rt-runtime" => Some(Mapping(Value, "cpu_rt_runtime"))
    case "cpu-shares" => Some(Mapping(IntValue, "cpu_shares"))
    case "cpus" => Some(Mapping(FloatValue, "deploy/resources/limits/cpus"))
    case _ => None
  }

  function LongFormD(flag: string): (r: Option<Mapping>)
    ensures r.Some? && r.value.path == [] ==> flag in {"detached", "rm"}
    ensures r.Some? && r.value.argType == Switch ==> flag in LongSwitches
  {
    match flag
    case "detached" => Some(Mapping(Switch, ""))
    case "device-cgroup-rule" => Some(Mapping(Array, "device_cgroup_rules"))
    case "device-read-bps" => Some(Mapping(DeviceBlockIOConfigRate, "blkio_config/device_read_bps"))
    case "device-read-iops" => Some(Mapping(DeviceBlockIOConfigRate, "blkio_config/device_read_iops"))
    case "device-write-bps" => Some(Mapping(DeviceBlockIOConfigRate, "blkio_config/device_write_bps"))
    case "device-write-iops" => Some(Mapping(DeviceBlockIOConfigRate, "blkio_config/device_write_iops"))
    case "device" => Some(Mapping(Array, "devices"))
    case "dns-opt" => Some(Mapping(Array, "dns_opt"))
    case "dns-search" => Some(Mapping(Array, "dns_search"))
    case "dns" => Some(Mapping(Array, "dns"))
    case "domainname" => Some(Mapping(Value, "domainname"))
    case _ => None
  }

  function LongFormE(flag: string): (r: Option<Mapping>)
    ensures r.Some? && r.value.path == [] ==> flag in {"detached", "rm"}
    ensures r.Some? && r.value.argType == Switch ==> flag in LongSwitches
  {
    match flag
    case "entrypoint" => Some(Mapping(Array, "entrypoint"))
    case "env-file" => Some(Mapping(Array, "env_file"))
    case "env" => Some(Mapping(Envs, "environment"))
    case "expose" => Some(Mapping(Array, "expose"))
    case _ => None
  }

  function LongFormG(flag: string): (r: Option<Mapping>)
    ensures r.Some? && r.value.path == [] ==> flag in {"detached", "rm"}
    ensures r.Some? && r.value.argType == Switch ==> flag in LongSwitches
  {
    match flag
    case "gpus" => Some(Mapping(Gpus, "deploy"))
    case "group-add" => Some(Mapping(Array, "group_add"))
    case _ => None
  }

  function LongFormH(flag: string): (r: Option<Mapping>)
    ensures r.Some? && r.value.path == [] ==> flag in {"detached", "rm"}
    ensures r.Some? && r.value.argType == Switch ==> flag in LongSwitches
  {
    match flag
    case "health-cmd" => Some(Mapping(Value, "healthcheck/test"))
    case "health-interval" => Some(Mapping(Value, "healthcheck/interval"))
    case "health-retries" => Some(Mapping(IntValue, "healthcheck/retries"))
    case "health-start-period" => Some(Mapping(Value, "healthcheck/start_period"))
    case "health-timeout" => Some(Mapping(Value, "healthcheck/timeout"))
    case "hostname" => Some(Mapping(Value, "hostname"))
    case _ => None
  }

  function LongFormI(flag: string): (r: Option<Mapping>)
    ensures r.Some? && r.value.path == [] ==> flag in {"detached", "rm"}
    ensures r.Some? && r.value.argType == Switch ==> flag in LongSwitches
  {
    match flag
    case "init" => Some(Mapping(Switch, "init"))
    case "interactive" => Some(Mapping(Switch, "stdin_open"))
    case "ip6" => Some(Mapping(Value, "networks/" + NetworkPlaceholder + "/ipv6_address"))
    case "ip" => Some(Mapping(Value, "networks/" + NetworkPlaceholder + "/ipv4_address"))
    case "ipc" => Some(Mapping(Value, "ipc"))
    case "isolation" => Some(Mapping(Value, "isolation"))
    case _ => None
  }

  function LongFormL(flag: string): (r: Option<Mapping>)
    ensures r.Some? && r.value.path == [] ==> flag in {"detached", "rm"}
    ensures r.Some? && r.value.argType == Switch ==> flag in LongSwitches
  {
    match flag
    case "label" => Some(Mapping(Array, "labels"))
    case "link-local-ip" => Some(Mapping(Array, "networks/" + NetworkPlaceholder + "/link_local_ips"))
    case "link" => Some(Mapping(Array, "links"))
    case "log-driver" => Some(Mapping(Value, "logging/driver"))
    case "log-opt" => Some(Mapping(Map, "logging/options"))
    case _ => None
  }

  function LongFormM(flag: string): (r: Option<Mapping>)
    ensures r.Some? && r.value.path == [] ==> flag in {"detached", "rm"}
    ensures r.Some? && r.value.argType == Switch ==> flag in LongSwitches
  {
    match flag
    case "mac-address" => Some(Mapping(Value, "mac_address"))
    case "memory-reservation" => Some(Mapping(Value, "deploy/resources/reservations/memory"))
    case "memory-swap" => Some(Mapping(Value, "memswap_limit"))
    case "memory-swappiness" => Some(Mapping(Value, "mem_swappiness"))
    case "memory" => Some(Mapping(Value, "deploy/resources/limits/memory"))
    case "mount" => Some(Mapping(MapArray, "volumes"))
    case _ => None
  }

  function LongFormN(flag: string): (r: Option<Mapping>)
    ensures r.Some? && r.value.path == [] ==> flag in {"detached", "rm"}
    ensures r.Some? && r.value.argType == Switch ==> flag in LongSwitches
  {
    match flag
    case "name" => Some(Mapping(Value, "container_name"))
    case "net" => Some(Mapping(Networks, "network_mode"))
    case "network-alias" => Some(Mapping(Array, "networks/" + NetworkPlaceholder + "/aliases"))
    case "network" => Some(Mapping(Networks, "network_mode"))
    case "no-healthcheck" => Some(Mapping(Switch, "healthcheck/disable"))
    case _ => None
  }

  function LongFormO(flag: string): (r: Option<Mapping>)
    ensures r.Some? && r.value.path == [] ==> flag in {"detached", "rm"}
    ensures r.Some? && r.value.argType == Switch ==> flag in LongSwitches
  {
    match flag
    case "oom-kill-disable" => Some(Mapping(Switch, "oom_kill_disable"))
    case "oom-score-adj" => Some(Mapping(Value, "oom_score_adj"))
    case _ => None
  }

  function LongFormP(flag: string): (r: Option<Mapping>)
    ensures r.Some? && r.value.path == [] ==> flag in {"detached", "rm"}
    ensures r.Some? && r.value.argType == Switch ==> flag in LongSwitches
  {
    match flag
    case "pid" => Some(Mapping(Value, "pid"))
    case "pids-limit" => Some(Mapping(IntValue, "deploy/resources/limits/pids"))
    case "platform" => Some(Mapping(Value, "platform"))
    case "privileged" => Some(Mapping(Switch, "privileged"))
    case "publish" => Some(Mapping(Array, "ports"))
    case "pull" => Some(Mapping(Value, "pull_policy"))
    case _ => None
  }

  function LongFormR(flag: string): (r: Option<Mapping>)
    ensures r.Some? && r.value.path == [] ==> flag in {"detached", "rm"}
    ensures r.Some? && r.value.argType == Switch ==> flag in LongSwitches
  {
    match flag
    case "read-only" => Some(Mapping(Switch, "read_only"))
    case "restart" => Some(Mapping(Value, "restart"))
    case "rm" => Some(Mapping(Switch, ""))
    case "runtime" => Some(Mapping(Value, "runtime"))
    case _ => None
  }

  function LongFormS(flag: string): (r: Option<Mapping>)
    ensures r.Some? && r.value.path == [] ==> flag in {"detached", "rm"}
    ensures r.Some? && r.value.argType == Switch ==> flag in LongSwitches
  {
    match flag
    case "security-opt" => Some(Mapping(Array, "security_opt"))
    case "shm-size" => Some(Mapping(Value, "shm_size"))
    case "stop-signal" => Some(Mapping(Value, "stop_signal"))
    case "stop-timeout" => Some(Mapping(Value, "stop_grace_period"))
    case "storage-opt" => Some(Mapping(Map, "storage_opt"))
    case "sysctl" => Some(Mapping(Array, "sysctls"))
    case _ => None
  }

  function LongFormT(flag: string): (r: Option<Mapping>)
    ensures r.Some? && r.value.path == [] ==> flag in {"detached", "rm"}
    ensures r.Some? && r.value.argType == Switch ==> flag in LongSwitches
  {
    match flag
    case "tmpfs" => Some(Mapping(Array, "tmpfs"))
    case "tty" => Some(Mapping(Switch, "tty"))
    case _ => None
  }

  function LongFormU(flag: string): (r: Option<Mapping>)
    ensures r.Some? && r.value.path == [] ==> flag in {"detached", "rm"}
    ensures r.Some? && r.value.argType == Switch ==> flag in LongSwitches
  {
    match flag
    case "ulimit" => Some(Mapping(Ulimits, "ulimits"))
    case "user" => Some(Mapping(Value, "user"))
    case "userns" => Some(Mapping(Value, "userns_mode"))
    case "uts" => Some(Mapping(Value, "uts"))
    case _ => None
  }

  function LongFormV(flag: string): (r: Option<Mapping>)
    ensures r.Some? && r.value.path == [] ==> flag in {"detached", "rm"}
    ensures r.Some? && r.value.argType == Switch ==> flag in LongSwitches
  {
    match flag
    case "volume" => Some(Mapping(Array, "volumes"))
    case "volumes-from" => Some(Mapping(Array, "volumes_from"))
    case _ => None
  }

  function LongFormW(flag: string): (r: Option<Mapping>)
    ensures r.Some? && r.value.path == [] ==> flag in {"detached", "rm"}
    ensures r.Some? && r.value.argType == Switch ==> flag in LongSwitches
  {
    match flag
    case "workdir" => Some(Mapping(Value, "working_dir"))
    case _ => None
  }

  /** The one-letter flags, each naming the long flag whose entry it copies. */
  function ShortAlias(flag: string): Option<string> {
    match flag
    case "v" => Some("volume")
    case "p" => Some("publish")
    case "e" => Some("env")
    case "l" => Some("label")
    case "h" => Some("hostname")
    case "u" => Some("user")
    case "w" => Some("workdir")
    case "c" => Some("cpu-shares")
    case "t" => Some("tty")
    case "i" => Some("interactive")
    case "m" => Some("memory")
    case "d" => Some("detached")
    case _ => None
  }

  /** `get_mappings().get(flag)`: a long form's own entry, or for a short
      alias a copy of its long form's entry. */
  function GetMapping(flag: string): Option<Mapping> {
    match ShortAlias(flag)
    case Some(long) => LongForm(long)
    case None => LongForm(flag)
  }

  /** `is_boolean_flag`: the flag is in the table with kind `Switch`. */
  predicate IsBooleanFlag(flag: string) {
    GetMapping(flag).Some? && GetMapping(flag).value.argType == Switch
  }

  /** The long forms of kind `Switch`. */
  const LongSwitches: set<string> :=
    {"detached", "init", "interactive", "no-healthcheck", "oom-kill-disable", "privileged", "read-only", "rm", "tty"}

  lemma LongSwitchesAreSwitches(flag: string)
    requires flag in LongSwitches
    ensures LongForm(flag).Some? && LongForm(flag).value.argType == Switch
  {
    if flag in {"detached", "init", "interactive", "no-healthcheck"} {
      LongSwitchesFirst(flag);
    } else {
      LongSwitchesSecond(flag);
    }
  }

  lemma LongSwitchesFirst(flag: string)
    requires flag in {"detached", "init", "interactive", "no-healthcheck"}
    ensures LongForm(flag).Some? && LongForm(flag).value.argType == Switch
  {
  }

  lemma LongSwitchesSecond(flag: string)
    requires flag in {"oom-kill-disable", "privileged", "read-only", "rm", "tty"}
    ensures LongForm(flag).Some? && LongForm(flag).value.argType == Switch
  {
  }

  /** Every one-letter alias has a long form in the table, and looking the
      alias up gives exactly the long form's kind and path. */
  lemma AliasesCopyLongForms(flag: string)
    requires ShortAlias(flag).Some?
    ensures GetMapping(flag).Some?
    ensures GetMapping(flag) == GetMapping(ShortAlias(flag).value)
  {
    var long := ShortAlias(flag).value;
    AliasTargets(flag);
    assert ShortAlias(long) == None;
  }

  /** Every alias stands for a longer name the table knows. */
  lemma AliasTargets(flag: string)
    requires ShortAlias(flag).Some?
    ensures |ShortAlias(flag).value| > 1 && LongForm(ShortAlias(flag).value).Some?
  {
    if flag in {"v", "p", "e", "l", "h", "u"} {
      AliasTargetsFirst(flag);
    } else {
      AliasTargetsSecond(flag);
    }
  }

  lemma AliasTargetsFirst(flag: string)
    requires flag in {"v", "p", "e", "l", "h", "u"}
    ensures ShortAlias(flag).Some? && |ShortAlias(flag).value| > 1 && LongForm(ShortAlias(flag).value).Some?
  {
  }

  lemma AliasTargetsSecond(flag: string)
    requires ShortAlias(flag).Some? && flag !in {"v", "p", "e", "l", "h", "u"}
    ensures |ShortAlias(flag).value| > 1 && LongForm(ShortAlias(flag).value).Some?
  {
  }

  /** The names `is_boolean_flag` accepts: the long switches and their
      one-letter aliases. */
  const BooleanFlagNames: set<string> := LongSwitches + {"t", "i", "d"}

  /** The switches are exactly these names; every other name, known or not,
      is not a boolean flag. */
  lemma BooleanFlags(flag: string)
    ensures IsBooleanFlag(flag) <==> flag in BooleanFlagNames
  {
    match ShortAlias(flag)
    case Some(long) =>
      AliasSwitches(flag);
      if long in LongSwitches {
        LongSwitchesAreSwitches(long);
      }
    case None =>
      assert flag !in {"t", "i", "d"};
      if flag in LongSwitches {
        LongSwitchesAreSwitches(flag);
      }
  }

  /** The aliases of switches are `t`, `i` and `d`, and no alias is itself
      a long switch. */
  lemma AliasSwitches(flag: string)
    requires ShortAlias(flag).Some?
    ensures ShortAlias(flag).value in LongSwitches <==> flag in {"t", "i", "d"}
    ensures flag !in LongSwitches
  {
  }

  /** Only `detached`, `rm` and `d` have an empty slot path. */
  lemma EmptyPaths(flag: string)
    requires GetMapping(flag).Some?
    ensures GetMapping(flag).value.path == [] <==> flag in {"detached", "rm", "d"}
  {
  }

  /** `ip`, `ip6`, `link-local-ip` and `network-alias` write one level below
      the service's network, whose name is the placeholder segment. */
  lemma PlaceholderPaths()
    ensures GetMapping("ip") == Some(Mapping(Value, "networks/" + NetworkPlaceholder + "/ipv4_address"))
    ensures GetMapping("ip6") == Some(Mapping(Value, "networks/" + NetworkPlaceholder + "/ipv6_address"))
    ensures GetMapping("link-local-ip") == Some(Mapping(Array, "networks/" + NetworkPlaceholder + "/link_local_ips"))
    ensures GetMapping("network-alias") == Some(Mapping(Array, "networks/" + NetworkPlaceholder + "/aliases"))
  {
    IpPath();
    Ip6Path();
    LinkLocalIpPath();
    NetworkAliasPath();
  }

  /** No other flag's path holds the placeholder: a known flag's path
      contains the placeholder's marker character exactly when the flag is
      one of those four. */
  lemma PlaceholderOnly(flag: string)
    requires GetMapping(flag).Some?
    ensures NetworkPlaceholder[0] in GetMapping(flag).value.path <==> flag in NetworkFlags
  {
    assert NetworkPlaceholder[0] == '\U{A4}';
    if flag in NetworkFlags {
      MarkerIn(flag);
    } else {
      match ShortAlias(flag)
      case Some(long) =>
        NoMarker(long);
        assert long !in NetworkFlags;
      case None =>
        NoMarker(flag);
    }
  }

  lemma MarkerIn(flag: string)
    requires flag in NetworkFlags
    ensures GetMapping(flag).Some? && '\U{A4}' in GetMapping(flag).value.path
  {
    PlaceholderPaths();
    var p := GetMapping(flag).value.path;
    assert p[9] == '\U{A4}';
  }

  /** Of the long forms, only the four network flags have the marker in
      their path; the rows are checked letter by letter. */
  lemma NoMarker(flag: string)
    ensures LongForm(flag).Some? && '\U{A4}' in LongForm(flag).value.path ==> flag in NetworkFlags
  {
    if flag != [] {
      match flag[0]
      case 'a' => NoMarkerA(flag);
      case 'b' => NoMarkerB(flag);
      case 'c' => NoMarkerC(flag);
      case 'd' => NoMarkerD(flag);
      case 'e' => NoMarkerE(flag);
      case 'g' => NoMarkerG(flag);
      case 'h' => NoMarkerH(flag);
      case 'i' => NoMarkerI(flag);
      case 'l' => NoMarkerL(flag);
      case 'm' => NoMarkerM(flag);
      case 'n' => NoMarkerN(flag);
      case 'o' => NoMarkerO(flag);
      case 'p' => NoMarkerP(flag);
      case 'r' => NoMarkerR(flag);
      case 's' => NoMarkerS(flag);
      case 't' => NoMarkerT(flag);
      case 'u' => NoMarkerU(flag);
      case 'v' => NoMarkerV(flag);
      case 'w' => NoMarkerW(flag);
      case _ =>
    }
  }

  lemma NoMarkerA(flag: string)
    ensures LongFormA(flag).Some? && '\U{A4}' in LongFormA(flag).value.path ==> flag in NetworkFlags
  {
    match flag
    case "add-host" => assert '\U{A4}' !in "extra_hosts";
    case _ =>
  }

  lemma NoMarkerB(flag: string)
    ensures LongFormB(flag).Some? && '\U{A4}' in LongFormB(flag).value.path ==> flag in NetworkFlags
  {
    match flag
    case "blkio-weight" => assert '\U{A4}' !in "blkio_config/weight";
    case "blkio-weight-device" => assert '\U{A4}' !in "blkio_config/weight_device";
    case _ =>
  }

  lemma NoMarkerC(flag: string)
    ensures LongFormC(flag).Some? && '\U{A4}' in LongFormC(flag).value.path ==> flag in NetworkFlags
  {
    match flag
    case "cap-add" => assert '\U{A4}' !in "cap_add";
    case "cap-drop" => assert '\U{A4}' !in "cap_drop";
    case "cgroup-parent" => assert '\U{A4}' !in "cgroup_parent";
    case "cgroupns" => assert '\U{A4}' !in "cgroup";
    case "cpu-period" => assert '\U{A4}' !in "cpu_period";
    case "cpu-quota" => assert '\U{A4}' !in "cpu_quota";
    case "cpu-rt-period" => assert '\U{A4}' !in "cpu_rt_period";
    case "cpu-rt-runtime" => assert '\U{A4}' !in "cpu_rt_runtime";
    case "cpu-shares" => assert '\U{A4}' !in "cpu_shares";
    case "cpus" => assert '\U{A4}' !in "deploy/resources/limits/cpus";
    case _ =>
  }

  lemma NoMarkerD(flag: string)
    ensures LongFormD(flag).Some? && '\U{A4}' in LongFormD(flag).value.path ==> flag in NetworkFlags
  {
    match flag
    case "detached" => assert '\U{A4}' !in "";
    case "device-cgroup-rule" => assert '\U{A4}' !in "device_cgroup_rules";
    case "device-read-bps" => assert '\U{A4}' !in "blkio_config/device_read_bps";
    case "device-read-iops" => assert '\U{A4}' !in "blkio_config/device_read_iops";
    case "device-write-bps" => assert '\U{A4}' !in "blkio_config/device_write_bps";
    case "device-write-iops" => assert '\U{A4}' !in "blkio_config/device_write_iops";
    case "device" => assert '\U{A4}' !in "devices";
    case "dns-opt" => assert '\U{A4}' !in "dns_opt";
    case "dns-search" => assert '\U{A4}' !in "dns_search";
    case "dns" => assert '\U{A4}' !in "dns";
    case "domainname" => assert '\U{A4}' !in "domainname";
    case _ =>
  }

  lemma NoMarkerE(flag: string)
    ensures LongFormE(flag).Some? && '\U{A4}' in LongFormE(flag).value.path ==> flag in NetworkFlags
  {
    match flag
    case "entrypoint" => assert '\U{A4}' !in "entrypoint";
    case "env-file" => assert '\U{A4}' !in "env_file";
    case "env" => assert '\U{A4}' !in "environment";
    case "expose" => assert '\U{A4}' !in "expose";
    case _ =>
  }

  lemma NoMarkerG(flag: string)
    ensures LongFormG(flag).Some? && '\U{A4}' in LongFormG(flag).value.path ==> flag in NetworkFlags
  {
    match flag
    case "gpus" => assert '\U{A4}' !in "deploy";
    case "group-add" => assert '\U{A4}' !in "group_add";
    case _ =>
  }

  lemma NoMarkerH(flag: string)
    ensures LongFormH(flag).Some? && '\U{A4}' in LongFormH(flag).value.path ==> flag in NetworkFlags
  {
    match flag
    case "health-cmd" => assert '\U{A4}' !in "healthcheck/test";
    case "health-interval" => assert '\U{A4}' !in "healthcheck/interval";
    case "health-retries" => assert '\U{A4}' !in "healthcheck/retries";
    case "health-start-period" => assert '\U{A4}' !in "healthcheck/start_period";
    case "health-timeout" => assert '\U{A4}' !in "healthcheck/timeout";
    case "hostname" => assert '\U{A4}' !in "hostname";
    case _ =>
  }

  lemma NoMarkerI(flag: string)
    ensures LongFormI(flag).Some? && '\U{A4}' in LongFormI(flag).value.path ==> flag in NetworkFlags
  {
    match flag
    case "init" => assert '\U{A4}' !in "init";
    case "interactive" => assert '\U{A4}' !in "stdin_open";
    case "ip6" =>
    case "ip" =>
    case "ipc" => assert '\U{A4}' !in "ipc";
    case "isolation" => assert '\U{A4}' !in "isolation";
    case _ =>
  }

  lemma NoMarkerL(flag: string)
    ensures LongFormL(flag).Some? && '\U{A4}' in LongFormL(flag).value.path ==> flag in NetworkFlags
  {
    match flag
    case "label" => assert '\U{A4}' !in "labels";
    case "link-local-ip" =>
    case "link" => assert '\U{A4}' !in "links";
    case "log-driver" => assert '\U{A4}' !in "logging/driver";
    case "log-opt" => assert '\U{A4}' !in "logging/options";
    case _ =>
  }

  lemma NoMarkerM(flag: string)
    ensures LongFormM(flag).Some? && '\U{A4}' in LongFormM(flag).value.path ==> flag in NetworkFlags
  {
    match flag
    case "mac-address" => assert '\U{A4}' !in "mac_address";
    case "memory-reservation" => assert '\U{A4}' !in "deploy/resources/reservations/memory";
    case "memory-swap" => assert '\U{A4}' !in "memswap_limit";
    case "memory-swappiness" => assert '\U{A4}' !in "mem_swappiness";
    case "memory" => assert '\U{A4}' !in "deploy/resources/limits/memory";
    case "mount" => assert '\U{A4}' !in "volumes";
    case _ =>
  }

  lemma NoMarkerN(flag: string)
    ensures LongFormN(flag).Some? && '\U{A4}' in LongFormN(flag).value.path ==> flag in NetworkFlags
  {
    match flag
    case "name" => assert '\U{A4}' !in "container_name";
    case "net" => assert '\U{A4}' !in "network_mode";
    case "network-alias" =>
    case "network" => assert '\U{A4}' !in "network_mode";
    case "no-healthcheck" => assert '\U{A4}' !in "healthcheck/disable";
    case _ =>
  }

  lemma NoMarkerO(flag: string)
    ensures LongFormO(flag).Some? && '\U{A4}' in LongFormO(flag).value.path ==> flag in NetworkFlags
  {
    match flag
    case "oom-kill-disable" => assert '\U{A4}' !in "oom_kill_disable";
    case "oom-score-adj" => assert '\U{A4}' !in "oom_score_adj";
    case _ =>
  }

  lemma NoMarkerP(flag: string)
    ensures LongFormP(flag).Some? && '\U{A4}' in LongFormP(flag).value.path ==> flag in NetworkFlags
  {
    match flag
    case "pid" => assert '\U{A4}' !in "pid";
    case "pids-limit" => assert '\U{A4}' !in "deploy/resources/limits/pids";
    case "platform" => assert '\U{A4}' !in "platform";
    case "privileged" => assert '\U{A4}' !in "privileged";
    case "publish" => assert '\U{A4}' !in "ports";
    case "pull" => assert '\U{A4}' !in "pull_policy";
    case _ =>
  }

  lemma NoMarkerR(flag: string)
    ensures LongFormR(flag).Some? && '\U{A4}' in LongFormR(flag).value.path ==> flag in NetworkFlags
  {
    match flag
    case "read-only" => assert '\U{A4}' !in "read_only";
    case "restart" => assert '\U{A4}' !in "restart";
    case "rm" => assert '\U{A4}' !in "";
    case "runtime" => assert '\U{A4}' !in "runtime";
    case _ =>
  }

  lemma NoMarkerS(flag: string)
    ensures LongFormS(flag).Some? && '\U{A4}' in LongFormS(flag).value.path ==> flag in NetworkFlags
  {
    match flag
    case "security-opt" => assert '\U{A4}' !in "security_opt";
    case "shm-size" => assert '\U{A4}' !in "shm_size";
    case "stop-signal" => assert '\U{A4}' !in "stop_signal";
    case "stop-timeout" => assert '\U{A4}' !in "stop_grace_period";
    case "storage-opt" => assert '\U{A4}' !in "storage_opt";
    case "sysctl" => assert '\U{A4}' !in "sysctls";
    case _ =>
  }

  lemma NoMarkerT(flag: string)
    ensures LongFormT(flag).Some? && '\U{A4}' in LongFormT(flag).value.path ==> flag in NetworkFlags
  {
    match flag
    case "tmpfs" => assert '\U{A4}' !in "tmpfs";
    case "tty" => assert '\U{A4}' !in "tty";
    case _ =>
  }

  lemma NoMarkerU(flag: string)
    ensures LongFormU(flag).Some? && '\U{A4}' in LongFormU(flag).value.path ==> flag in NetworkFlags
  {
    match flag
    case "ulimit" => assert '\U{A4}' !in "ulimits";
    case "user" => assert '\U{A4}' !in "user";
    case "userns" => assert '\U{A4}' !in "userns_mode";
    case "uts" => assert '\U{A4}' !in "uts";
    case _ =>
  }

  lemma NoMarkerV(flag: string)
    ensures LongFormV(flag).Some? && '\U{A4}' in LongFormV(flag).value.path ==> flag in NetworkFlags
  {
    match flag
    case "volume" => assert '\U{A4}' !in "volumes";
    case "volumes-from" => assert '\U{A4}' !in "volumes_from";
    case _ =>
  }

  lemma NoMarkerW(flag: string)
    ensures LongFormW(flag).Some? && '\U{A4}' in LongFormW(flag).value.path ==> flag in NetworkFlags
  {
    match flag
    case "workdir" => assert '\U{A4}' !in "working_dir";
    case _ =>
  }

  lemma IpPath()
    ensures GetMapping("ip") == Some(Mapping(Value, "networks/" + NetworkPlaceholder + "/ipv4_address"))
  {
  }

  lemma Ip6Path()
    ensures GetMapping("ip6") == Some(Mapping(Value, "networks/" + NetworkPlaceholder + "/ipv6_address"))
  {
  }

  lemma LinkLocalIpPath()
    ensures GetMapping("link-local-ip") == Some(Mapping(Array, "networks/" + NetworkPlaceholder + "/link_local_ips"))
  {
  }

  lemma NetworkAliasPath()
    ensures GetMapping("network-alias") == Some(Mapping(Array, "networks/" + NetworkPlaceholder + "/aliases"))
  {
  }

  // ---------------------------------------------------------------------
  // strip_quotes

  predicate IsQuote(c: char) {
    c == '"' || c == '\''
  }

  /** `t` is `r` enclosed in one pair of matching quotes. */
  predicate Encloses(t: string, r: string) {
    |t| >= 2 && IsQuote(t[0]) && t == [t[0]] + r + [t[0]]
  }

  /** The quote removal of `strip_quotes` on an already trimmed value, as
      written: a value that starts and ends with the same quote character
      loses its first and last character. `None` stands for the panic on a
      value that is a single quote character, where the slice `[1..0]` is
      reversed. */
  function UnquoteAsWritten(t: string): (r: Option<string>)
    ensures r.None? <==> |t| == 1 && IsQuote(t[0])
  {
    if (StartsWith(t, "\"") && EndsWith(t, "\"")) || (StartsWith(t, "'") && EndsWith(t, "'")) then
      if |t| < 2 then None else Some(t[1..|t| - 1])
    else Some(t)
  }

  /** `strip_quotes` as written: trim, then remove the quotes, panicking
      on a lone quote. */
  function StripQuotesAsWritten(v: string): (r: Option<string>)
    ensures r.None? <==> |Trim(v)| == 1 && IsQuote(Trim(v)[0])
  {
    UnquoteAsWritten(Trim(v))
  }

  /** The quote removal as intended: one enclosing pair of matching quotes
      goes, and a lone quote is kept. */
  function Unquote(t: string): (r: string)
    ensures r == t || Encloses(t, r)
  {
    if |t| >= 2 && IsQuote(t[0]) && t[|t| - 1] == t[0] then
      assert t == [t[0]] + t[1..|t| - 1] + [t[0]];
      t[1..|t| - 1]
    else t
  }

  /** `strip_quotes` as intended: the trimmed value, without one enclosing
      pair of matching quotes when it has one. */
  function StripQuotes(v: string): (r: string)
    ensures r == Trim(v) || Encloses(Trim(v), r)
  {
    Unquote(Trim(v))
  }

  /** Wherever the source does not panic, the corrected function gives the
      same result. */
  lemma StripQuotesAgrees(v: string)
    ensures StripQuotesAsWritten(v).Some? ==> StripQuotesAsWritten(v).value == StripQuotes(v)
  {
  }

  /** A lone quote, whatever whitespace surrounds it (`docker run nginx '`
      ends in such a positional): the source panics, the corrected function
      keeps the quote. */
  lemma StripQuotesLoneQuote(q: char, pre: string, post: string)
    requires IsQuote(q)
    requires forall i :: 0 <= i < |pre| ==> IsWhitespace(pre[i])
    requires forall i :: 0 <= i < |post| ==> IsWhitespace(post[i])
    ensures StripQuotesAsWritten(pre + [q] + post) == None
    ensures StripQuotes(pre + [q] + post) == [q]
  {
    TrimPadded(pre, [q], post);
  }

  /** Exactly one enclosing pair of quotes is removed, whatever it encloses
      (inner quotes and inner whitespace included), and surrounding
      whitespace is dropped. */
  lemma StripQuotesQuoted(q: char, s: string, pre: string, post: string)
    requires IsQuote(q)
    requires forall i :: 0 <= i < |pre| ==> IsWhitespace(pre[i])
    requires forall i :: 0 <= i < |post| ==> IsWhitespace(post[i])
    ensures StripQuotes(pre + [q] + s + [q] + post) == s
  {
    var w := [q] + s + [q];
    assert pre + [q] + s + [q] + post == pre + w + post;
    TrimPadded(pre, w, post);
    assert w[1..|w| - 1] == s;
  }

  /** A value that does not both start and end with the same quote is only
      trimmed. */
  lemma StripQuotesUnquoted(v: string)
    requires Trim(v) == [] || !IsQuote(Trim(v)[0]) || Trim(v)[|Trim(v)| - 1] != Trim(v)[0]
    ensures StripQuotes(v) == Trim(v)
  {
  }

  // ---------------------------------------------------------------------
  // parse_key_value_list

  /** A value becomes an integer when `str::parse::<i64>` accepts it, and
      stays a string otherwise. */
  function ParseScalar(s: string): (r: Yaml.Value)
    ensures r.Int? || r == Yaml.Str(s)
    ensures r.Int? <==> ParseI64(s).Some?
    ensures r.Int? ==> I64Min <= r.i <= I64Max
  {
    match ParseI64(s)
    case Some(n) => Yaml.Int(n)
    case None => Yaml.Str(s)
  }

  /** Every i64 written in decimal comes back as that integer. */
  lemma ParseScalarInt(n: int)
    requires I64Min <= n <= I64Max
    ensures ParseScalar(IntToString(n)) == Yaml.Int(n)
  {
    IntToStringParses(n);
  }

  /** One item of the list: split at the first `entrySep`, key and value
      trimmed; an item without `entrySep` gives nothing. */
  function KeyValueEntry(item: string, entrySep: char): (r: Option<Entry<Yaml.Value>>)
    ensures r.None? <==> entrySep !in item
  {
    match SplitOnce(item, entrySep)
    case None => None
    case Some((k, v)) => Some(Entry(Trim(k), ParseScalar(Trim(v))))
  }

  /** The entries of the items, in order, skipping the items without
      `entrySep`. */
  function KeyValueEntries(items: seq<string>, entrySep: char): (r: seq<Entry<Yaml.Value>>)
    ensures |r| <= |items|
  {
    if items == [] then []
    else KeyValueEntries(items[..|items| - 1], entrySep) + EntryOf(items[|items| - 1], entrySep)
  }

  function EntryOf(item: string, entrySep: char): seq<Entry<Yaml.Value>> {
    match KeyValueEntry(item, entrySep)
    case Some(e) => [e]
    case None => []
  }

  lemma KeyValueEntriesSnoc(items: seq<string>, item: string, entrySep: char)
    ensures KeyValueEntries(items + [item], entrySep) == KeyValueEntries(items, entrySep) + EntryOf(item, entrySep)
  {
    assert (items + [item])[..|items|] == items;
  }

  /** What `parse_key_value_list` returns: the entries of the items of
      `input`, inserted one after the other into an empty map. */
  function KeyValueList(input: string, listSep: char, entrySep: char): Yaml.Mapping {
    InsertAll([], KeyValueEntries(Split(input, listSep), entrySep))
  }

  /** `parse_key_value_list`: the items of `input` split at `listSep`,
      inserted one after the other into an empty insertion-ordered map. */
  method ParseKeyValueList(input: string, listSep: char, entrySep: char) returns (result: Yaml.Mapping)
    ensures result == KeyValueList(input, listSep, entrySep)
  {
    var items := Split(input, listSep);
    result := [];
    var i := 0;
    while i < |items|
      invariant 0 <= i <= |items|
      invariant result == InsertAll([], KeyValueEntries(items[..i], entrySep))
    {
      assert items[..i + 1][..i] == items[..i];
      ghost var before := KeyValueEntries(items[..i], entrySep);
      match SplitOnce(items[i], entrySep) {
        case Some((k, v)) =>
          var key := Trim(k);
          var value := Trim(v);
          match ParseI64(value) {
            case Some(n) => result := Insert(result, key, Yaml.Int(n));
            case None => result := Insert(result, key, Yaml.Str(value));
          }
          InsertAllAppend([], before, [Entry(key, ParseScalar(value))]);
        case None =>
          assert KeyValueEntries(items[..i + 1], entrySep) == before;
      }
      i := i + 1;
    }
    assert items[..i] == items;
  }

  /** A key's value in the parsed map is the value of its last item; a key
      without an item is absent. */
  lemma KeyValueListLastWins(input: string, listSep: char, entrySep: char, key: string)
    ensures Get(KeyValueList(input, listSep, entrySep), key)
         == LastValue(KeyValueEntries(Split(input, listSep), entrySep), key)
  {
    InsertAllGet([], KeyValueEntries(Split(input, listSep), entrySep), key);
  }

  /** The parsed map's keys are distinct and in the order of each key's
      first item. */
  lemma KeyValueListKeyOrder(input: string, listSep: char, entrySep: char)
    ensures UniqueKeys(KeyValueList(input, listSep, entrySep))
    ensures Keys(KeyValueList(input, listSep, entrySep))
         == Dedup(Keys(KeyValueEntries(Split(input, listSep), entrySep)))
  {
    InsertAllUnique([], KeyValueEntries(Split(input, listSep), entrySep));
    InsertAllKeys(KeyValueEntries(Split(input, listSep), entrySep));
  }
}
