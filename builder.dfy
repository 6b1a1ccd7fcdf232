/** `build_compose_value` and `apply_mapping`: every recorded flag value
    is written into the service mapping at its flag's slot path, the way
    the flag's kind says, with the `¤network¤` segment replaced by the
    service's network. The first error ends the build. */
module Builder {
  import opened Wrappers
  import opened Strings
  import opened IndexMaps
  import opened Yaml
  import opened NestedWrite
  import M = Mappings
  import Mounts
  import Classifier

  /** The slot path of a table path, with the network substituted. */
  function SlotPath(path: string, network: string): string {
    ReplaceAll(path, M.NetworkPlaceholder, network)
  }

  /** A health-check command: the last part is `test` and some part is
      `healthcheck`. */
  predicate IsHealthTest(parts: seq<string>) {
    |parts| > 0 && parts[|parts| - 1] == "test" && "healthcheck" in parts
  }

  /** An environment entry: `KEY=value` with the value's quotes stripped;
      an entry without `=` is kept as it is. */
  function EnvEntry(value: string): string {
    match SplitOnce(value, '=')
    case None => value
    case Some((k, v)) => k + "=" + M.StripQuotes(v)
  }

  /** A user-defined network, as opposed to a network mode: no `:`, not one
      of the built-in modes and not another container's network. */
  predicate IsNamedNetwork(v: string) {
    ':' !in v && v != "host" && v != "bridge" && v != "none" && !StartsWith(v, "container:")
  }

  /** `parse_ulimit`: `name=n` writes an integer at `<path>/name`, and
      `name=soft:hard` merges `{soft, hard}` there; a limit with two or
      more colons is ignored. */
  function Ulimit(service: Mapping, parts: seq<string>, value: string): (r: Result<Mapping>)
    ensures '=' !in value ==> r == Err("Invalid ulimit format: " + value)
  {
    match SplitOnce(value, '=')
    case None => Err("Invalid ulimit format: " + value)
    case Some((name, limit)) =>
      var full := Split(Join(parts, "/") + "/" + name, '/');
      if ':' in limit then
        var limits := Split(limit, ':');
        if |limits| == 2 then
          match ParseI64(limits[0])
          case None => Err("Invalid soft limit: " + limits[0])
          case Some(soft) =>
            match ParseI64(limits[1])
            case None => Err("Invalid hard limit: " + limits[1])
            case Some(hard) => Ok(SetNestedMap(service, full, [Entry("soft", Int(soft)), Entry("hard", Int(hard))]))
        else Ok(service)
      else
        match ParseI64(limit)
        case None => Err("Invalid limit: " + limit)
        case Some(n) => Ok(SetNestedValue(service, full, Int(n)))
  }

  /** The GPU count: `all` or an integer. */
  function GpuCount(value: string): Result<Value> {
    if value == "all" then Ok(Str("all"))
    else match ParseI64(value)
      case None => Err("Invalid GPU count: " + value)
      case Some(n) => Ok(Int(n))
  }

  /** The reservation `parse_gpus` merges into `deploy`. */
  function GpuReservation(count: Value): Mapping {
    var device := [Entry("driver", Str("nvidia")), Entry("count", count), Entry("capabilities", Seq([Str("gpu")]))];
    [Entry("resources", Map([Entry("reservations", Map([Entry("devices", Seq([Map(device)]))]))]))]
  }

  /** `parse_gpus`. */
  function Gpus(service: Mapping, value: string): Result<Mapping> {
    var count :- GpuCount(value);
    Ok(SetNestedMap(service, ["deploy"], GpuReservation(count)))
  }

  /** A network value: a user-defined network replaces `networks`, any
      other value sets `network_mode`. */
  function Network(service: Mapping, value: string): Mapping {
    if IsNamedNetwork(value) then SetNestedValue(service, ["networks"], Map([Entry(value, Map([]))]))
    else SetNestedValue(service, ["network_mode"], Str(value))
  }

  /** A mount value: tmpfs mounts go to `tmpfs` in the `--tmpfs` syntax,
      bind and volume mounts to `volumes` in the short syntax, and anything
      else to the flag's own slot as written. */
  function Mount(service: Mapping, parts: seq<string>, value: string): Mapping {
    if StartsWith(value, "type=tmpfs") then SetNestedArray(service, ["tmpfs"], Mounts.TmpfsEntry(value))
    else if StartsWith(value, "type=bind") || StartsWith(value, "type=volume") then
      SetNestedArray(service, ["volumes"], Mounts.VolumeEntry(value))
    else SetNestedArray(service, parts, value)
  }

  /** `apply_mapping`: one value of a flag of kind `kind` written at the
      slot `path`. */
  function ApplyMapping(service: Mapping, path: string, value: string, kind: M.ArgType): (r: Result<Mapping>)
    ensures r.Err? ==> kind in {M.IntValue, M.FloatValue, M.Ulimits, M.Gpus}
  {
    var parts := Split(path, '/');
    match kind
    case Array => Ok(SetNestedArray(service, parts, value))
    case Switch => Ok(SetNestedValue(service, parts, Bool(value == "true")))
    case Value =>
      if IsHealthTest(parts) then Ok(SetNestedValue(service, parts, Seq([Str("CMD-SHELL"), Str(value)])))
      else Ok(SetNestedValue(service, parts, Str(value)))
    case IntValue =>
      (match ParseI64(value)
       case None => Err("Invalid integer: " + value)
       case Some(n) => Ok(SetNestedValue(service, parts, Int(n))))
    case FloatValue =>
      if IsF64Literal(value) then Ok(SetNestedValue(service, parts, Float(value)))
      else Err("Invalid float: " + value)
    case Envs => Ok(SetNestedArray(service, parts, EnvEntry(value)))
    case Map => Ok(SetNestedMap(service, parts, M.KeyValueList(value, ',', '=')))
    case MapArray => Ok(Mount(service, parts, value))
    case Networks => Ok(Network(service, value))
    case Ulimits => Ulimit(service, parts, value)
    case Gpus => Gpus(service, value)
    case DeviceBlockIOConfigRate => Ok(SetNestedValue(service, parts, Str(value)))
    case DeviceBlockIOConfigWeight => Ok(SetNestedValue(service, parts, Str(value)))
  }

  /** The values of one flag, applied in order. */
  function ApplyValues(service: Mapping, path: string, values: seq<string>, kind: M.ArgType): Result<Mapping>
    decreases |values|
  {
    if values == [] then Ok(service)
    else
      var next :- ApplyMapping(service, path, values[0], kind);
      ApplyValues(next, path, values[1..], kind)
  }

  /** The flags, applied in the multimap's order; a flag the table does not
      know or whose path is empty is skipped. */
  function ApplyFlags(service: Mapping, args: Classifier.FlagMap, network: string): Result<Mapping>
    decreases |args|
  {
    if args == [] then Ok(service)
    else
      match M.GetMapping(args[0].key)
      case None => ApplyFlags(service, args[1..], network)
      case Some(mapping) =>
        if mapping.path == "" then ApplyFlags(service, args[1..], network)
        else
          var next :- ApplyValues(service, SlotPath(mapping.path, network), args[0].val, mapping.argType);
          ApplyFlags(next, args[1..], network)
  }

  /** The rest of the build after a step: an error stays, a mapping goes
      on with the remaining flags. */
  function Then(r: Result<Mapping>, rest: Classifier.FlagMap, network: string): Result<Mapping> {
    match r
    case Err(e) => Err(e)
    case Ok(service) => ApplyFlags(service, rest, network)
  }

  /** What `build_compose_value` returns. */
  function ServiceValue(args: Classifier.FlagMap, network: string): Result<Value> {
    var service :- ApplyFlags([], args, network);
    Ok(Map(service))
  }

  /** `build_compose_value`: the loop over the flags and, inside it, over
      each flag's values. */
  method BuildComposeValue(args: Classifier.FlagMap, network: string) returns (r: Result<Value>)
    ensures r == ServiceValue(args, network)
  {
    var service: Mapping := [];
    var i := 0;
    while i < |args|
      invariant 0 <= i <= |args|
      invariant ApplyFlags(service, args[i..], network) == ApplyFlags([], args, network)
    {
      var key, values := args[i].key, args[i].val;
      assert args[i..][0] == args[i] && args[i..][1..] == args[i + 1..];
      var mapping := M.GetMapping(key);
      if mapping.Some? && mapping.value.path != "" {
        ghost var slot := SlotPath(mapping.value.path, network);
        var j := 0;
        while j < |values|
          invariant 0 <= j <= |values|
          invariant Then(ApplyValues(service, slot, values[j..], mapping.value.argType), args[i + 1..], network)
                 == ApplyFlags([], args, network)
        {
          assert values[j..][0] == values[j] && values[j..][1..] == values[j + 1..];
          var path := ReplaceAll(mapping.value.path, M.NetworkPlaceholder, network);
          var step := ApplyMapping(service, path, values[j], mapping.value.argType);
          if step.Err? {
            return Err(step.msg);
          }
          service := step.value;
          j := j + 1;
        }
        assert values[j..] == [];
      }
      i := i + 1;
    }
    assert args[i..] == [];
    r := Ok(Map(service));
  }

  // ---------------------------------------------------------------------
  // The build loop

  /** A flag that writes somewhere: the table knows it and its path is
      not empty. */
  predicate Applies(key: string) {
    M.GetMapping(key).Some? && M.GetMapping(key).value.path != ""
  }

  /** The flags that write somewhere, in order. */
  function Mapped(args: Classifier.FlagMap): Classifier.FlagMap
    decreases |args|
  {
    if args == [] then []
    else (if Applies(args[0].key) then [args[0]] else []) + Mapped(args[1..])
  }

  /** A flag the table does not know, or one whose path is empty
      (`--detached`, `-d`, `--rm`), has no effect: building from the flags
      is building from the flags that write somewhere. */
  lemma {:induction false} SkipsUnmapped(service: Mapping, args: Classifier.FlagMap, network: string)
    ensures ApplyFlags(service, args, network) == ApplyFlags(service, Mapped(args), network)
    decreases |args|
  {
    if args != [] {
      var e, rest := args[0], args[1..];
      if Applies(e.key) {
        var m := [e] + Mapped(rest);
        assert Mapped(args) == m;
        assert m[0] == e && m[1..] == Mapped(rest);
        var mapping := M.GetMapping(e.key).value;
        var r := ApplyValues(service, SlotPath(mapping.path, network), e.val, mapping.argType);
        if r.Ok? {
          SkipsUnmapped(r.value, rest, network);
        }
      } else {
        assert Mapped(args) == [] + Mapped(rest) == Mapped(rest);
        SkipsUnmapped(service, rest, network);
      }
    }
  }

  /** Flags are applied in the multimap's order: building from `a + b` is
      building from `a`, then going on with `b`, unless `a` failed, in
      which case its error is the result. */
  lemma {:induction false} ApplyFlagsAppend(service: Mapping, a: Classifier.FlagMap, b: Classifier.FlagMap, network: string)
    ensures ApplyFlags(service, a + b, network) == Then(ApplyFlags(service, a, network), b, network)
    decreases |a|
  {
    if a == [] {
      assert a + b == b;
    } else {
      assert (a + b)[0] == a[0] && (a + b)[1..] == a[1..] + b;
      match M.GetMapping(a[0].key)
      case None =>
        ApplyFlagsAppend(service, a[1..], b, network);
      case Some(mapping) =>
        if mapping.path == "" {
          ApplyFlagsAppend(service, a[1..], b, network);
        } else {
          var r := ApplyValues(service, SlotPath(mapping.path, network), a[0].val, mapping.argType);
          if r.Ok? {
            ApplyFlagsAppend(r.value, a[1..], b, network);
          }
        }
    }
  }

  /** The first error ends the build: whatever follows is not applied. */
  lemma FirstErrorAborts(service: Mapping, a: Classifier.FlagMap, b: Classifier.FlagMap, network: string)
    requires ApplyFlags(service, a, network).Err?
    ensures ApplyFlags(service, a + b, network) == ApplyFlags(service, a, network)
  {
    ApplyFlagsAppend(service, a, b, network);
  }

  /** Within one flag, an error in a value ends the flag's values too. */
  lemma {:induction false} ApplyValuesAppend(service: Mapping, path: string, a: seq<string>, b: seq<string>, kind: M.ArgType)
    ensures ApplyValues(service, path, a + b, kind) ==
            match ApplyValues(service, path, a, kind)
            case Err(e) => Err(e)
            case Ok(s) => ApplyValues(s, path, b, kind)
    decreases |a|
  {
    if a == [] {
      assert a + b == b;
    } else {
      assert (a + b)[0] == a[0] && (a + b)[1..] == a[1..] + b;
      var r := ApplyMapping(service, path, a[0], kind);
      if r.Ok? {
        ApplyValuesAppend(r.value, path, a[1..], b, kind);
      }
    }
  }

  // ---------------------------------------------------------------------
  // One value of each kind

  /** A switch stores whether its value is exactly `true`. */
  lemma SwitchStoresTruth(service: Mapping, path: string, value: string)
    requires Writable(service, Split(path, '/'))
    ensures ApplyMapping(service, path, value, M.Switch).Ok?
    ensures GetPath(ApplyMapping(service, path, value, M.Switch).value, Split(path, '/')) == Some(Bool(value == "true"))
  {
    SetNestedValueSets(service, Split(path, '/'), Bool(value == "true"));
  }

  /** A plain value is stored as a string, except at a health-check
      command's slot, where it is wrapped as `["CMD-SHELL", value]`. */
  lemma ValueStores(service: Mapping, path: string, value: string)
    requires Writable(service, Split(path, '/'))
    ensures ApplyMapping(service, path, value, M.Value).Ok?
    ensures GetPath(ApplyMapping(service, path, value, M.Value).value, Split(path, '/')) ==
            if IsHealthTest(Split(path, '/')) then Some(Seq([Str("CMD-SHELL"), Str(value)])) else Some(Str(value))
  {
    var parts := Split(path, '/');
    if IsHealthTest(parts) {
      SetNestedValueSets(service, parts, Seq([Str("CMD-SHELL"), Str(value)]));
    } else {
      SetNestedValueSets(service, parts, Str(value));
    }
  }

  /** The block-IO kinds never fail: the value is stored as a string at
      its slot, and a slot that cannot be reached leaves the service as it
      was. */
  lemma BlockIOStores(service: Mapping, path: string, value: string, kind: M.ArgType)
    requires kind == M.DeviceBlockIOConfigRate || kind == M.DeviceBlockIOConfigWeight
    ensures ApplyMapping(service, path, value, kind).Ok?
    ensures Writable(service, Split(path, '/')) ==>
            GetPath(ApplyMapping(service, path, value, kind).value, Split(path, '/')) == Some(Str(value))
    ensures !Writable(service, Split(path, '/')) ==> ApplyMapping(service, path, value, kind).value == service
  {
    SetNestedValueSets(service, Split(path, '/'), Str(value));
  }

  /** An integer flag fails exactly when its value is not an i64, with the
      value in the message; otherwise the parsed integer is stored. */
  lemma IntValueParses(service: Mapping, path: string, value: string)
    requires Writable(service, Split(path, '/'))
    ensures ApplyMapping(service, path, value, M.IntValue).Err? <==> ParseI64(value).None?
    ensures ParseI64(value).None? ==> ApplyMapping(service, path, value, M.IntValue) == Err("Invalid integer: " + value)
    ensures ParseI64(value).Some? ==>
            GetPath(ApplyMapping(service, path, value, M.IntValue).value, Split(path, '/')) == Some(Int(ParseI64(value).value))
  {
    if ParseI64(value).Some? {
      SetNestedValueSets(service, Split(path, '/'), Int(ParseI64(value).value));
    }
  }

  /** Every i64 written in decimal is stored as that integer. */
  lemma IntValueRoundTrip(service: Mapping, path: string, n: int)
    requires Writable(service, Split(path, '/'))
    requires I64Min <= n <= I64Max
    ensures ApplyMapping(service, path, IntToString(n), M.IntValue).Ok?
    ensures GetPath(ApplyMapping(service, path, IntToString(n), M.IntValue).value, Split(path, '/')) == Some(Int(n))
  {
    IntToStringParses(n);
    IntValueParses(service, path, IntToString(n));
  }

  /** A float flag fails exactly when `f64` parsing rejects its value;
      otherwise the accepted literal is stored. */
  lemma FloatValueParses(service: Mapping, path: string, value: string)
    requires Writable(service, Split(path, '/'))
    ensures ApplyMapping(service, path, value, M.FloatValue).Err? <==> !IsF64Literal(value)
    ensures !IsF64Literal(value) ==> ApplyMapping(service, path, value, M.FloatValue) == Err("Invalid float: " + value)
    ensures IsF64Literal(value) ==>
            GetPath(ApplyMapping(service, path, value, M.FloatValue).value, Split(path, '/')) == Some(Float(value))
  {
    if IsF64Literal(value) {
      SetNestedValueSets(service, Split(path, '/'), Float(value));
    }
  }

  /** `s` was appended at `path`: a missing slot now holds `[s]`, and a
      sequence there grew by `s` at its end. */
  predicate AppendedAt(before: Mapping, after: Mapping, path: seq<string>, s: string) {
    && (GetPath(before, path) == None ==> GetPath(after, path) == Some(Seq([Str(s)])))
    && (GetPath(before, path).Some? && GetPath(before, path).value.Seq? ==>
          GetPath(after, path) == Some(Seq(GetPath(before, path).value.items + [Str(s)])))
  }

  lemma AppendedAtArray(m: Mapping, path: seq<string>, s: string)
    requires path != [] && Writable(m, path)
    ensures AppendedAt(m, SetNestedArray(m, path, s), path, s)
  {
    SetNestedArrayAppends(m, path, s);
  }

  /** An array flag appends its value at its slot. */
  lemma ArrayAppends(service: Mapping, path: string, value: string)
    requires Writable(service, Split(path, '/'))
    ensures ApplyMapping(service, path, value, M.Array).Ok?
    ensures AppendedAt(service, ApplyMapping(service, path, value, M.Array).value, Split(path, '/'), value)
  {
    AppendedAtArray(service, Split(path, '/'), value);
  }

  /** An environment flag appends `KEY=value` with the value's quotes
      stripped. */
  lemma EnvAppends(service: Mapping, path: string, value: string)
    requires Writable(service, Split(path, '/'))
    ensures ApplyMapping(service, path, value, M.Envs).Ok?
    ensures AppendedAt(service, ApplyMapping(service, path, value, M.Envs).value, Split(path, '/'), EnvEntry(value))
  {
    EnvStep(service, path, value);
    AppendedAtArray(service, Split(path, '/'), EnvEntry(value));
  }

  lemma EnvStep(service: Mapping, path: string, value: string)
    ensures ApplyMapping(service, path, value, M.Envs) == Ok(SetNestedArray(service, Split(path, '/'), EnvEntry(value)))
  {
  }

  lemma MapStep(service: Mapping, path: string, value: string)
    ensures ApplyMapping(service, path, value, M.Map) == Ok(SetNestedMap(service, Split(path, '/'), M.KeyValueList(value, ',', '=')))
  {
  }

  /** `KEY="v"` and `KEY='v'` become `KEY=v`: the key ends at the first `=`
      and only the value's enclosing quotes go. */
  lemma EnvEntryQuoted(key: string, q: char, body: string)
    requires '=' !in key && M.IsQuote(q)
    ensures EnvEntry(key + "=" + [q] + body + [q]) == key + "=" + body
  {
    var v := [q] + body + [q];
    assert key + "=" + [q] + body + [q] == key + ['='] + v;
    SplitOnceAt(key, v, '=');
    M.StripQuotesQuoted(q, body, "", "");
    assert "" + [q] + body + [q] + "" == v;
  }

  /** A map flag merges its `k=v` list into the mapping at its slot: each
      listed key reads the value of its last item, every other key keeps
      its value. */
  lemma MapMerges(service: Mapping, path: string, value: string, key: string)
    requires Writable(service, Split(path, '/'))
    requires GetPath(service, Split(path, '/')) == None || GetPath(service, Split(path, '/')).value.Map?
    ensures ApplyMapping(service, path, value, M.Map).Ok?
    ensures var slot := GetPath(ApplyMapping(service, path, value, M.Map).value, Split(path, '/'));
            var prev := if GetPath(service, Split(path, '/')) == None then [] else GetPath(service, Split(path, '/')).value.entries;
            var last := LastValue(M.KeyValueEntries(Split(value, ','), '='), key);
            && slot.Some? && slot.value.Map?
            && Get(slot.value.entries, key) == if last.Some? then last else Get(prev, key)
  {
    var kv := M.KeyValueList(value, ',', '=');
    MapStep(service, path, value);
    SetNestedMapMerges(service, Split(path, '/'), kv, key);
    M.KeyValueListKeyOrder(value, ',', '=');
    LastValueUnique(kv, key);
    M.KeyValueListLastWins(value, ',', '=', key);
  }

  /** A mount goes to `tmpfs` in the `--tmpfs` syntax when its type is
      tmpfs, to `volumes` in the short syntax when it is a bind or volume
      mount, and otherwise to the flag's own slot as written. */
  lemma MountRoutes(service: Mapping, path: string, value: string)
    requires Writable(service, Split(path, '/'))
    ensures ApplyMapping(service, path, value, M.MapArray).Ok?
    ensures var r := ApplyMapping(service, path, value, M.MapArray).value;
            if StartsWith(value, "type=tmpfs") then AppendedAt(service, r, ["tmpfs"], Mounts.TmpfsEntry(value))
            else if StartsWith(value, "type=bind") || StartsWith(value, "type=volume") then
              AppendedAt(service, r, ["volumes"], Mounts.VolumeEntry(value))
            else AppendedAt(service, r, Split(path, '/'), value)
  {
    assert ApplyMapping(service, path, value, M.MapArray) == Ok(Mount(service, Split(path, '/'), value));
    if StartsWith(value, "type=tmpfs") {
      AppendedAtArray(service, ["tmpfs"], Mounts.TmpfsEntry(value));
    } else if StartsWith(value, "type=bind") || StartsWith(value, "type=volume") {
      AppendedAtArray(service, ["volumes"], Mounts.VolumeEntry(value));
    } else {
      AppendedAtArray(service, Split(path, '/'), value);
    }
  }

  /** A mount written under another top-level key than the one it goes to
      leaves that key alone. */
  lemma MountFrame(service: Mapping, path: string, value: string, k: string)
    requires StartsWith(value, "type=tmpfs") || StartsWith(value, "type=bind") || StartsWith(value, "type=volume")
    requires k != "tmpfs" && k != "volumes"
    ensures Get(ApplyMapping(service, path, value, M.MapArray).value, k) == Get(service, k)
  {
    assert ApplyMapping(service, path, value, M.MapArray) == Ok(Mount(service, Split(path, '/'), value));
    if StartsWith(value, "type=tmpfs") {
      UpdateAtOtherKey(service, ["tmpfs"], Append(Mounts.TmpfsEntry(value)), k);
    } else {
      UpdateAtOtherKey(service, ["volumes"], Append(Mounts.VolumeEntry(value)), k);
    }
  }

  /** A user-defined network replaces the service's `networks` with that
      one network; any other value sets `network_mode`. Nothing else at the
      top level changes. */
  lemma NetworkRoutes(service: Mapping, path: string, value: string, k: string)
    ensures ApplyMapping(service, path, value, M.Networks).Ok?
    ensures var r := ApplyMapping(service, path, value, M.Networks).value;
            && (IsNamedNetwork(value) ==> Get(r, "networks") == Some(Map([Entry(value, Map([]))])))
            && (!IsNamedNetwork(value) ==> Get(r, "network_mode") == Some(Str(value)))
            && (k != (if IsNamedNetwork(value) then "networks" else "network_mode") ==> Get(r, k) == Get(service, k))
  {
    assert ApplyMapping(service, path, value, M.Networks) == Ok(Network(service, value));
    NetworkSets(service, value, k);
  }

  lemma NetworkSets(service: Mapping, value: string, k: string)
    ensures IsNamedNetwork(value) ==> Get(Network(service, value), "networks") == Some(Map([Entry(value, Map([]))]))
    ensures !IsNamedNetwork(value) ==> Get(Network(service, value), "network_mode") == Some(Str(value))
    ensures k != (if IsNamedNetwork(value) then "networks" else "network_mode") ==>
            Get(Network(service, value), k) == Get(service, k)
  {
    var key := if IsNamedNetwork(value) then "networks" else "network_mode";
    var v := if IsNamedNetwork(value) then Map([Entry(value, Map([]))]) else Str(value);
    assert Network(service, value) == Insert(service, key, v);
    InsertGet(service, key, v, key);
    InsertGet(service, key, v, k);
  }

  /** Of several named networks, the last one given is the service's only
      network. */
  lemma LastNamedNetworkWins(service: Mapping, path: string, a: string, b: string)
    requires IsNamedNetwork(a) && IsNamedNetwork(b)
    ensures ApplyValues(service, path, [a, b], M.Networks).Ok?
    ensures Get(ApplyValues(service, path, [a, b], M.Networks).value, "networks") == Some(Map([Entry(b, Map([]))]))
  {
    var s1 := ApplyMapping(service, path, a, M.Networks).value;
    var s2 := ApplyMapping(s1, path, b, M.Networks).value;
    NetworkRoutes(service, path, a, "networks");
    NetworkRoutes(s1, path, b, "networks");
    assert [a, b][0] == a && [a, b][1..] == [b];
    assert [b][0] == b && [b][1..] == [];
    assert ApplyValues(s1, path, [b], M.Networks) == Ok(s2);
  }

  // ---------------------------------------------------------------------
  // Ulimits

  /** The slot of ulimit `name` below the flag's path. */
  function UlimitPath(parts: seq<string>, name: string): seq<string> {
    Split(Join(parts, "/") + "/" + name, '/')
  }

  /** A printed integer holds no colon. */
  lemma NoColonInInt(n: int)
    ensures ':' !in IntToString(n)
  {
    var d := NatToString(if n < 0 then -n else n);
    assert forall i :: 0 <= i < |d| ==> d[i] != ':';
  }

  /** `name=n` stores the integer `n` at the limit's slot. */
  lemma UlimitSingle(service: Mapping, parts: seq<string>, name: string, n: int)
    requires '=' !in name && I64Min <= n <= I64Max
    requires Writable(service, UlimitPath(parts, name))
    ensures Ulimit(service, parts, name + "=" + IntToString(n)).Ok?
    ensures GetPath(Ulimit(service, parts, name + "=" + IntToString(n)).value, UlimitPath(parts, name)) == Some(Int(n))
  {
    var limit := IntToString(n);
    assert name + "=" + limit == name + ['='] + limit;
    SplitOnceAt(name, limit, '=');
    NoColonInInt(n);
    IntToStringParses(n);
    SetNestedValueSets(service, UlimitPath(parts, name), Int(n));
  }

  /** `name=soft:hard` merges `soft` and `hard` into the mapping at the
      limit's slot, which may be missing or hold an earlier limit; the
      slot's other keys keep their values. */
  lemma UlimitPair(service: Mapping, parts: seq<string>, name: string, soft: int, hard: int)
    requires '=' !in name && I64Min <= soft <= I64Max && I64Min <= hard <= I64Max
    requires Writable(service, UlimitPath(parts, name))
    requires GetPath(service, UlimitPath(parts, name)) == None || GetPath(service, UlimitPath(parts, name)).value.Map?
    ensures var r := Ulimit(service, parts, name + "=" + IntToString(soft) + ":" + IntToString(hard));
            var slot := UlimitPath(parts, name);
            var prev := if GetPath(service, slot) == None then [] else GetPath(service, slot).value.entries;
            && r.Ok?
            && GetPath(r.value, slot).Some?
            && GetPath(r.value, slot).value.Map?
            && Get(GetPath(r.value, slot).value.entries, "soft") == Some(Int(soft))
            && Get(GetPath(r.value, slot).value.entries, "hard") == Some(Int(hard))
            && forall k :: k != "soft" && k != "hard" ==> Get(GetPath(r.value, slot).value.entries, k) == Get(prev, k)
  {
    var a, b := IntToString(soft), IntToString(hard);
    var limit := a + ":" + b;
    assert name + "=" + a + ":" + b == name + ['='] + limit;
    SplitOnceAt(name, limit, '=');
    PairSplits(soft, hard);
    UlimitPairStep(service, parts, name, limit, soft, hard);
    PairMerged(service, UlimitPath(parts, name), soft, hard);
  }

  /** `soft:hard` printed from two integers splits and parses back. */
  lemma PairSplits(soft: int, hard: int)
    requires I64Min <= soft <= I64Max && I64Min <= hard <= I64Max
    ensures var limit := IntToString(soft) + ":" + IntToString(hard);
            && ':' in limit && Split(limit, ':') == [IntToString(soft), IntToString(hard)]
            && ParseI64(Split(limit, ':')[0]) == Some(soft) && ParseI64(Split(limit, ':')[1]) == Some(hard)
  {
    var a, b := IntToString(soft), IntToString(hard);
    var limit := a + ":" + b;
    NoColonInInt(soft);
    NoColonInInt(hard);
    assert limit == a + [':'] + b;
    assert limit[|a|] == ':';
    SplitAtSeparator(a, b, ':');
    SplitWhole(b, ':');
    IntToStringParses(soft);
    IntToStringParses(hard);
  }

  /** Merging `{soft, hard}` at an empty slot makes it that mapping. */
  lemma PairMerged(service: Mapping, path: seq<string>, soft: int, hard: int)
    requires path != [] && Writable(service, path)
    requires GetPath(service, path) == None || GetPath(service, path).value.Map?
    ensures var m := SetNestedMap(service, path, [Entry("soft", Int(soft)), Entry("hard", Int(hard))]);
            var prev := if GetPath(service, path) == None then [] else GetPath(service, path).value.entries;
            && GetPath(m, path).Some? && GetPath(m, path).value.Map?
            && Get(GetPath(m, path).value.entries, "soft") == Some(Int(soft))
            && Get(GetPath(m, path).value.entries, "hard") == Some(Int(hard))
            && forall k :: k != "soft" && k != "hard" ==> Get(GetPath(m, path).value.entries, k) == Get(prev, k)
  {
    var kv := [Entry("soft", Int(soft)), Entry("hard", Int(hard))];
    SetNestedMapMerges(service, path, kv, "soft");
    SetNestedMapMerges(service, path, kv, "hard");
    assert kv[..1] == [Entry("soft", Int(soft))];
    forall k | k != "soft" && k != "hard"
      ensures Get(GetPath(SetNestedMap(service, path, kv), path).value.entries, k)
           == Get(if GetPath(service, path) == None then [] else GetPath(service, path).value.entries, k)
    {
      PairOthers(soft, hard, k);
      SetNestedMapMerges(service, path, kv, k);
    }
  }

  /** A `soft`/`hard` pair sets no other key. */
  lemma PairOthers(soft: int, hard: int, k: string)
    requires k != "soft" && k != "hard"
    ensures LastValue([Entry("soft", Int(soft)), Entry("hard", Int(hard))], k) == None
  {
    var kv := [Entry("soft", Int(soft)), Entry("hard", Int(hard))];
    var first := kv[..1];
    assert first == [Entry("soft", Int(soft))] && first[..0] == [];
    assert LastValue(first, k) == LastValue(first[..0], k);
    assert LastValue(kv, k) == LastValue(first, k);
  }

  lemma UlimitPairStep(service: Mapping, parts: seq<string>, name: string, limit: string, soft: int, hard: int)
    requires SplitOnce(name + "=" + limit, '=') == Some((name, limit))
    requires ':' in limit && |Split(limit, ':')| == 2
    requires ParseI64(Split(limit, ':')[0]) == Some(soft) && ParseI64(Split(limit, ':')[1]) == Some(hard)
    ensures Ulimit(service, parts, name + "=" + limit)
         == Ok(SetNestedMap(service, UlimitPath(parts, name), [Entry("soft", Int(soft)), Entry("hard", Int(hard))]))
  {
  }

  /** The ways a `name=limit` value fails, or is ignored: a bad single
      limit, a bad soft or hard half of a pair, and (without an error) a
      limit with two or more colons, which leaves the service as it was. */
  lemma UlimitRejects(service: Mapping, parts: seq<string>, name: string, limit: string)
    requires '=' !in name
    ensures var r := Ulimit(service, parts, name + "=" + limit);
            var limits := Split(limit, ':');
            && (':' !in limit && ParseI64(limit).None? ==> r == Err("Invalid limit: " + limit))
            && (':' in limit && |limits| > 2 ==> r == Ok(service))
            && (|limits| == 2 && ParseI64(limits[0]).None? ==> r == Err("Invalid soft limit: " + limits[0]))
            && (|limits| == 2 && ParseI64(limits[0]).Some? && ParseI64(limits[1]).None? ==>
                  r == Err("Invalid hard limit: " + limits[1]))
  {
    assert name + "=" + limit == name + ['='] + limit;
    SplitOnceAt(name, limit, '=');
    if |Split(limit, ':')| == 2 {
      SplitSingleNoSep(limit, ':');
    }
  }

  /** A string split into two pieces holds the separator. */
  lemma SplitSingleNoSep(s: string, sep: char)
    requires |Split(s, sep)| >= 2
    ensures sep in s
  {
    if sep !in s {
      SplitWhole(s, sep);
    }
  }

  // ---------------------------------------------------------------------
  // GPUs

  /** `--gpus` fails exactly when its value is neither `all` nor an i64.
      Otherwise `deploy.resources` becomes the reservation of an nvidia
      device with that count, and every other key of `deploy` keeps its
      value. */
  lemma GpusReserve(service: Mapping, value: string, k: string)
    requires Get(service, "deploy") == None || Get(service, "deploy").value.Map?
    ensures Gpus(service, value).Err? <==> value != "all" && ParseI64(value).None?
    ensures Gpus(service, value).Err? ==> Gpus(service, value) == Err("Invalid GPU count: " + value)
    ensures Gpus(service, value).Ok? ==>
            var count := if value == "all" then Str("all") else Int(ParseI64(value).value);
            var deploy := Get(Gpus(service, value).value, "deploy");
            var prev := if Get(service, "deploy") == None then [] else Get(service, "deploy").value.entries;
            && deploy.Some? && deploy.value.Map?
            && Get(deploy.value.entries, "resources") == Some(GpuReservation(count)[0].val)
            && (k != "resources" ==> Get(deploy.value.entries, k) == Get(prev, k))
  {
    if Gpus(service, value).Ok? {
      var count := GpuCount(value).value;
      SetNestedMapMerges(service, ["deploy"], GpuReservation(count), "resources");
      SetNestedMapMerges(service, ["deploy"], GpuReservation(count), k);
    }
  }

  // ---------------------------------------------------------------------
  // Whole flags

  lemma HealthCmdMapping()
    ensures M.GetMapping("health-cmd") == Some(M.Mapping(M.Value, "healthcheck/test"))
  {
  }

  lemma HealthCmdSlot(network: string)
    ensures SlotPath("healthcheck/test", network) == "healthcheck/test"
  {
    assert M.NetworkPlaceholder[0] !in "healthcheck/test";
    ReplaceAllAbsent("healthcheck/test", M.NetworkPlaceholder, network);
  }

  lemma HealthCmdSplit(path: string)
    requires path == "healthcheck/test"
    ensures Split(path, '/') == ["healthcheck", "test"]
  {
    var a, b := "healthcheck", "test";
    assert path == a + ['/'] + b;
    assert '/' !in a && '/' !in b;
    SplitAtSeparator(a, b, '/');
    SplitWhole(b, '/');
  }

  /** A table path below the placeholder segment is written below the
      service's network: the segment is replaced, the rest is kept. */
  lemma SlotPathNetwork(rest: string, network: string)
    requires M.NetworkPlaceholder[0] !in rest
    ensures SlotPath("networks/" + M.NetworkPlaceholder + rest, network) == "networks/" + network + rest
  {
    assert M.NetworkPlaceholder[0] !in "networks/";
    ReplaceAllOnce("networks/", rest, M.NetworkPlaceholder, network);
  }

  lemma IpSlot(network: string)
    requires '/' !in network
    ensures SlotPath("networks/" + M.NetworkPlaceholder + "/ipv4_address", network) == "networks/" + network + "/ipv4_address"
    ensures Split("networks/" + network + "/ipv4_address", '/') == ["networks", network, "ipv4_address"]
    ensures !IsHealthTest(["networks", network, "ipv4_address"])
  {
    var rest := "/ipv4_address";
    assert M.NetworkPlaceholder[0] !in rest;
    SlotPathNetwork(rest, network);
    assert rest[0] == '/' && rest[1..] == "ipv4_address" && '/' !in rest[1..];
    NetworkSegments(network, rest);
  }

  /** `networks/<b>/<c>` splits into its three segments. */
  lemma NetworkSegments(b: string, t: string)
    requires '/' !in b && t != [] && t[0] == '/' && '/' !in t[1..]
    ensures Split("networks/" + b + t, '/') == ["networks", b, t[1..]]
  {
    var a := "networks";
    assert "networks/" == a + "/";
    assert "networks/" + b + t == a + "/" + b + "/" + t[1..];
    ThreeSegments(a, b, t[1..]);
  }

  /** A path of three separator-free segments splits into them. */
  lemma ThreeSegments(a: string, b: string, c: string)
    requires '/' !in a && '/' !in b && '/' !in c
    ensures Split(a + "/" + b + "/" + c, '/') == [a, b, c]
  {
    var tail := b + ['/'] + c;
    assert a + "/" + b + "/" + c == a + ['/'] + tail;
    SplitAtSeparator(a, tail, '/');
    SplitAtSeparator(b, c, '/');
    SplitWhole(c, '/');
  }

  /** `--ip A` writes `A` at `networks.<network>.ipv4_address`. */
  lemma IpUnderNetwork(service: Mapping, addr: string, network: string)
    requires '/' !in network
    requires Writable(service, ["networks", network, "ipv4_address"])
    ensures ApplyFlags(service, [Entry("ip", [addr])], network).Ok?
    ensures GetPath(ApplyFlags(service, [Entry("ip", [addr])], network).value, ["networks", network, "ipv4_address"])
         == Some(Str(addr))
  {
    var slot := "networks/" + network + "/ipv4_address";
    M.IpPath();
    IpSlot(network);
    ValueStores(service, slot, addr);
    SingleFlag(service, "ip", [addr], network);
    SingleValue(service, slot, addr, M.Value);
  }

  /** A flag on its own applies its values at its slot. */
  lemma SingleFlag(service: Mapping, key: string, values: seq<string>, network: string)
    requires M.GetMapping(key).Some? && M.GetMapping(key).value.path != ""
    ensures ApplyFlags(service, [Entry(key, values)], network)
         == ApplyValues(service, SlotPath(M.GetMapping(key).value.path, network), values, M.GetMapping(key).value.argType)
  {
    var args := [Entry(key, values)];
    assert args[0].key == key && args[1..] == [];
  }

  /** A single value is one application of its kind. */
  lemma SingleValue(service: Mapping, path: string, value: string, kind: M.ArgType)
    ensures ApplyValues(service, path, [value], kind) == ApplyMapping(service, path, value, kind)
  {
    assert [value][0] == value && [value][1..] == [];
  }

  /** `--health-cmd CMD` sets `healthcheck.test` to `["CMD-SHELL", CMD]`. */
  lemma HealthCmdWrapped(service: Mapping, cmd: string, network: string)
    requires Get(service, "healthcheck") == None || Get(service, "healthcheck").value.Map?
    ensures ApplyFlags(service, [Entry("health-cmd", [cmd])], network).Ok?
    ensures GetPath(ApplyFlags(service, [Entry("health-cmd", [cmd])], network).value, ["healthcheck", "test"])
         == Some(Seq([Str("CMD-SHELL"), Str(cmd)]))
  {
    HealthCmdMapping();
    HealthCmdSlot(network);
    HealthCmdSplit("healthcheck/test");
    var parts := ["healthcheck", "test"];
    assert IsHealthTest(parts);
    assert Writable(service, parts);
    ValueStores(service, "healthcheck/test", cmd);
    SingleFlag(service, "health-cmd", [cmd], network);
    SingleValue(service, "healthcheck/test", cmd, M.Value);
  }

  /** A bind or volume mount given with `source`, `target` and optionally
      `readonly` reaches the service's `volumes` in the short syntax. */
  lemma BindMountShortSyntax(service: Mapping, path: string, kind: string, src: string, dst: string, ro: bool)
    requires kind == "bind" || kind == "volume"
    requires ',' !in src && ',' !in dst && src != "" && dst != ""
    requires Writable(service, Split(path, '/')) && Get(service, "volumes") == None
    ensures var value := Join(["type=" + kind, "source=" + src, "target=" + dst] + (if ro then ["readonly"] else []), ",");
            && ApplyMapping(service, path, value, M.MapArray).Ok?
            && Get(ApplyMapping(service, path, value, M.MapArray).value, "volumes")
               == Some(Seq([Str(src + ":" + dst + (if ro then ":ro" else ""))]))
  {
    var items := ["type=" + kind, "source=" + src, "target=" + dst] + (if ro then ["readonly"] else []);
    var value := Join(items, ",");
    MountHead(items, kind);
    Mounts.VolumeShortSyntax(kind, src, dst, ro);
    MountApplies(service, path, value);
    VolumeReaches(service, path, value, src + ":" + dst + (if ro then ":ro" else ""));
  }

  lemma MountApplies(service: Mapping, path: string, value: string)
    ensures ApplyMapping(service, path, value, M.MapArray) == Ok(Mount(service, Split(path, '/'), value))
  {
  }

  /** A bind or volume mount lands as its short-syntax entry in a service
      that has no `volumes` yet. */
  lemma VolumeReaches(service: Mapping, path: string, value: string, entry: string)
    requires !StartsWith(value, "type=tmpfs") && (StartsWith(value, "type=bind") || StartsWith(value, "type=volume"))
    requires Mounts.VolumeEntry(value) == entry && Get(service, "volumes") == None
    ensures Get(Mount(service, Split(path, '/'), value), "volumes") == Some(Seq([Str(entry)]))
  {
    var m := SetNestedArray(service, ["volumes"], entry);
    assert Mount(service, Split(path, '/'), value) == m;
    assert ["volumes"][0] == "volumes";
    assert ApplyLeaf(Append(entry), Get(service, "volumes")) == Some(Seq([Str(entry)]));
    assert m == Insert(service, "volumes", Seq([Str(entry)]));
    InsertGet(service, "volumes", Seq([Str(entry)]), "volumes");
  }

  /** A mount list whose first item is `type=<kind>` starts with it. */
  lemma MountHead(items: seq<string>, kind: string)
    requires |items| >= 2 && items[0] == "type=" + kind
    requires kind == "bind" || kind == "volume"
    ensures !StartsWith(Join(items, ","), "type=tmpfs")
    ensures StartsWith(Join(items, ","), "type=bind") || StartsWith(Join(items, ","), "type=volume")
  {
    var j := Join(items, ",");
    assert j == items[0] + "," + Join(items[1..], ",");
    var head := "type=" + kind;
    assert j[..|head|] == head;
    MountTypeHead(kind);
    NotPrefixAt(j, "type=tmpfs", 5);
  }

  lemma MountTypeHead(kind: string)
    requires kind == "bind" || kind == "volume"
    ensures "type=" + kind == "type=bind" || "type=" + kind == "type=volume"
  {
  }
}
