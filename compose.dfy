/** `composerize` up to serialisation, with its helpers `get_service_name`
    and `collect_resources`: the parsed command is built into a service,
    the service gets its image and command, and the document puts the
    optional version, the one service, and the networks and named volumes
    the command uses at its top level. */
module Compose {
  import opened Wrappers
  import opened Strings
  import opened IndexMaps
  import opened Yaml
  import Tokenizer
  import Classifier
  import Builder
  import M = Mappings

  // ---------------------------------------------------------------------
  // get_service_name

  /** `get_service_name`: the image's last `/`-separated part, up to its
      first `:`. */
  function ServiceName(image: string): (r: string)
    ensures ':' !in r
    ensures '/' !in image && ':' !in image ==> r == image
  {
    var name := if '/' in image then Split(image, '/')[|Split(image, '/')| - 1] else image;
    if ':' in name then Split(name, ':')[0] else name
  }

  /** The last piece of a split is what follows the last separator. */
  lemma {:induction false} SplitLast(a: string, b: string, sep: char)
    requires sep !in b
    ensures |Split(a + [sep] + b, sep)| >= 2
    ensures Split(a + [sep] + b, sep)[|Split(a + [sep] + b, sep)| - 1] == b
    decreases |a|
  {
    var s := a + [sep] + b;
    if a == [] {
      assert s[0] == sep && s[1..] == b;
      SplitWhole(b, sep);
    } else {
      assert s[1..] == a[1..] + [sep] + b;
      SplitLast(a[1..], b, sep);
    }
  }

  /** Registry, repository path and tag are dropped: `reg/path/name:tag`,
      `reg/path/name`, `name:tag` and `name` all give `name`. */
  lemma ServiceNameParts(prefix: string, name: string, tag: string)
    requires '/' !in name && ':' !in name && '/' !in tag
    ensures ServiceName(prefix + "/" + name + ":" + tag) == name
    ensures ServiceName(prefix + "/" + name) == name
    ensures ServiceName(name + ":" + tag) == name
    ensures ServiceName(name) == name
  {
    var nt := name + ":" + tag;
    assert nt == name + [':'] + tag;
    SplitAtSeparator(name, tag, ':');
    assert prefix + "/" + name + ":" + tag == prefix + ['/'] + nt;
    SplitLast(prefix, nt, '/');
    assert prefix + "/" + name == prefix + ['/'] + name;
    SplitLast(prefix, name, '/');
  }

  /** The four image names of the source's unit tests. */
  lemma ServiceNameExamples()
    ensures ServiceName("nginx") == "nginx"
    ensures ServiceName("nginx:alpine") == "nginx"
    ensures ServiceName("docker.io/library/nginx") == "nginx"
    ensures ServiceName("docker.io/library/nginx:1.21") == "nginx"
  {
    ExampleImages();
    ServiceNameTagged("nginx", "alpine", "nginx:alpine");
    ServiceNameRegistry("docker.io/library", "nginx", "docker.io/library/nginx");
    ServiceNameRegistryTagged("docker.io/library", "nginx", "1.21", "docker.io/library/nginx:1.21");
  }

  lemma ExampleImages()
    ensures '/' !in "nginx" && ':' !in "nginx" && '/' !in "alpine" && '/' !in "1.21"
    ensures "nginx:alpine" == "nginx" + ":" + "alpine"
    ensures "docker.io/library/nginx" == "docker.io/library" + "/" + "nginx"
    ensures "docker.io/library/nginx:1.21" == "docker.io/library" + "/" + "nginx" + ":" + "1.21"
  {
  }

  lemma ServiceNameTagged(name: string, tag: string, image: string)
    requires '/' !in name && ':' !in name && '/' !in tag && image == name + ":" + tag
    ensures ServiceName(name) == name && ServiceName(image) == name
  {
    ServiceNameParts("", name, tag);
  }

  lemma ServiceNameRegistry(prefix: string, name: string, image: string)
    requires '/' !in name && ':' !in name && image == prefix + "/" + name
    ensures ServiceName(image) == name
  {
    ServiceNameParts(prefix, name, "");
  }

  lemma ServiceNameRegistryTagged(prefix: string, name: string, tag: string, image: string)
    requires '/' !in name && ':' !in name && '/' !in tag && image == prefix + "/" + name + ":" + tag
    ensures ServiceName(image) == name
  {
    ServiceNameParts(prefix, name, tag);
  }

  // ---------------------------------------------------------------------
  // collect_resources

  /** The values of flag `long`, or of `short` only when `long` is absent
      (`args.get(long).or_else(|| args.get(short))`). */
  function FlagValues(args: Classifier.FlagMap, long: string, short: string): (r: seq<string>)
    ensures Get(args, long).Some? ==> r == Get(args, long).value
    ensures Get(args, long).None? && Get(args, short).Some? ==> r == Get(args, short).value
    ensures Get(args, long).None? && Get(args, short).None? ==> r == []
  {
    match Get(args, long)
    case Some(vs) => vs
    case None => Get(args, short).GetOr([])
  }

  /** The network substituted into slot paths: the first value of
      `network` (else `net`), or `default`. */
  function NetworkOf(args: Classifier.FlagMap): (r: string)
    ensures FlagValues(args, "network", "net") != [] ==> r == FlagValues(args, "network", "net")[0]
    ensures FlagValues(args, "network", "net") == [] ==> r == "default"
  {
    var vs := FlagValues(args, "network", "net");
    if vs == [] then "default" else vs[0]
  }

  /** A volume value names a volume unless it starts with `/`, `.` or `~`. */
  predicate IsNamedVolume(v: string) {
    !StartsWith(v, "/") && !StartsWith(v, ".") && !StartsWith(v, "~")
  }

  /** The volume's name: the text before the first `:`. */
  function VolumeName(v: string): string {
    Split(v, ':')[0]
  }

  /** The names of the named volumes among `vols`, in order, repetitions
      kept. */
  function NamedVolumes(vols: seq<string>): seq<string> {
    if vols == [] then []
    else
      var init := NamedVolumes(vols[..|vols| - 1]);
      var v := vols[|vols| - 1];
      if IsNamedVolume(v) then init + [VolumeName(v)] else init
  }

  /** The networks `collect_resources` returns. */
  function Networks(args: Classifier.FlagMap): seq<string> {
    Dedup(FlagValues(args, "network", "net"))
  }

  /** The named volumes `collect_resources` returns. */
  function Volumes(args: Classifier.FlagMap): seq<string> {
    Dedup(NamedVolumes(FlagValues(args, "volume", "v")))
  }

  /** `collect_resources`: two loops that push a value unless the list
      already contains it. */
  method CollectResources(args: Classifier.FlagMap) returns (networks: seq<string>, volumes: seq<string>)
    ensures networks == Networks(args) && volumes == Volumes(args)
  {
    networks := CollectNetworks(FlagValues(args, "network", "net"));
    volumes := CollectVolumes(FlagValues(args, "volume", "v"));
  }

  /** The network loop: each value is pushed unless already present. */
  method CollectNetworks(nets: seq<string>) returns (networks: seq<string>)
    ensures networks == Dedup(nets)
  {
    networks := [];
    var i := 0;
    while i < |nets|
      invariant 0 <= i <= |nets|
      invariant networks == Dedup(nets[..i])
    {
      DedupSnoc(nets[..i], nets[i]);
      assert nets[..i + 1] == nets[..i] + [nets[i]];
      if nets[i] !in networks {
        networks := networks + [nets[i]];
      }
      i := i + 1;
    }
    assert nets[..i] == nets;
  }

  /** The volume loop: a named volume's name is pushed unless already
      present; paths are skipped. */
  method CollectVolumes(vols: seq<string>) returns (volumes: seq<string>)
    ensures volumes == Dedup(NamedVolumes(vols))
  {
    volumes := [];
    var j := 0;
    while j < |vols|
      invariant 0 <= j <= |vols|
      invariant volumes == Dedup(NamedVolumes(vols[..j]))
    {
      assert vols[..j + 1] == vols[..j] + [vols[j]];
      var vol := vols[j];
      NamedVolumesSnoc(vols[..j], vol);
      if !StartsWith(vol, "/") && !StartsWith(vol, ".") && !StartsWith(vol, "~") {
        var name := Split(vol, ':')[0];
        DedupSnoc(NamedVolumes(vols[..j]), name);
        if name !in volumes {
          volumes := volumes + [name];
        }
      }
      j := j + 1;
    }
    assert vols[..j] == vols;
  }

  lemma DedupSnoc(xs: seq<string>, x: string)
    ensures Dedup(xs + [x]) == if x in Dedup(xs) then Dedup(xs) else Dedup(xs) + [x]
  {
    assert (xs + [x])[..|xs|] == xs;
  }

  lemma NamedVolumesSnoc(vols: seq<string>, v: string)
    ensures NamedVolumes(vols + [v]) == if IsNamedVolume(v) then NamedVolumes(vols) + [VolumeName(v)] else NamedVolumes(vols)
  {
    assert (vols + [v])[..|vols|] == vols;
  }

  /** A name is among the named volumes exactly when some named value has
      it. */
  lemma {:induction false} NamedVolumesMember(vols: seq<string>, name: string)
    ensures name in NamedVolumes(vols) <==> exists v :: v in vols && IsNamedVolume(v) && VolumeName(v) == name
    decreases |vols|
  {
    if vols != [] {
      var init := vols[..|vols| - 1];
      NamedVolumesMember(init, name);
      assert vols == init + [vols[|vols| - 1]];
      if exists v :: v in vols && IsNamedVolume(v) && VolumeName(v) == name {
        var v :| v in vols && IsNamedVolume(v) && VolumeName(v) == name;
        if v != vols[|vols| - 1] {
          assert v in init;
        }
      }
    }
  }

  /** Both lists are free of repetition; the networks are exactly the
      distinct values of `network` (else `net`), and the volumes exactly
      the names of the named values of `volume` (else `v`). */
  lemma Resources(args: Classifier.FlagMap, x: string)
    ensures Distinct(Networks(args)) && Distinct(Volumes(args))
    ensures x in Networks(args) <==> x in FlagValues(args, "network", "net")
    ensures x in Volumes(args) <==>
            exists v :: v in FlagValues(args, "volume", "v") && IsNamedVolume(v) && VolumeName(v) == x
  {
    DedupDistinct(FlagValues(args, "network", "net"));
    DedupDistinct(NamedVolumes(FlagValues(args, "volume", "v")));
    NamedVolumesMember(FlagValues(args, "volume", "v"), x);
  }

  /** The first piece of a split is a prefix of the string. */
  lemma FirstPiecePrefix(s: string, sep: char)
    ensures |Split(s, sep)[0]| <= |s| && s[..|Split(s, sep)[0]|] == Split(s, sep)[0]
  {
    var parts := Split(s, sep);
    JoinSplit(s, sep);
    if |parts| > 1 {
      assert Join(parts, [sep]) == parts[0] + [sep] + Join(parts[1..], [sep]);
    }
  }

  /** A bind mount is never listed: no listed volume name starts with `/`,
      `.` or `~`. */
  lemma BindMountsNotListed(args: Classifier.FlagMap, x: string)
    requires x in Volumes(args)
    ensures IsNamedVolume(x)
  {
    Resources(args, x);
    var v :| v in FlagValues(args, "volume", "v") && IsNamedVolume(v) && VolumeName(v) == x;
    FirstPiecePrefix(v, ':');
    if x != [] {
      assert x[0] == v[0];
    }
  }

  // ---------------------------------------------------------------------
  // composerize

  /** The `version` value for an output format; any format but `v2x`,
      `v3x` and `latest` is an error. */
  function Version(format: string): (r: Result<Option<string>>)
    ensures r.Err? <==> format != "v2x" && format != "v3x" && format != "latest"
    ensures r.Err? ==> r.msg == "Unknown format: " + format
    ensures r.Ok? && r.value.Some? <==> format == "v2x" || format == "v3x"
  {
    match format
    case "v2x" => Ok(Some("2"))
    case "v3x" => Ok(Some("3"))
    case "latest" => Ok(None)
    case _ => Err("Unknown format: " + format)
  }

  /** The network names that are not declared as external networks. */
  predicate IsBuiltinNetwork(n: string) {
    n == "default" || n == "bridge" || n == "host" || n == "none"
  }

  /** An external network's entry. */
  const External: Value := Map([Entry("external", Bool(true))])

  /** The top-level `networks` mapping: each listed network but the
      built-in ones, as an external network. */
  function NetworksSection(nets: seq<string>): Mapping {
    if nets == [] then []
    else
      var m := NetworksSection(nets[..|nets| - 1]);
      var n := nets[|nets| - 1];
      if IsBuiltinNetwork(n) then m else Insert(m, n, External)
  }

  /** The top-level `volumes` mapping: each named volume mapped to null. */
  function VolumesSection(vols: seq<string>): Mapping {
    if vols == [] then [] else Insert(VolumesSection(vols[..|vols| - 1]), vols[|vols| - 1], Null)
  }

  /** The service: the built mapping with `image` set and, for a non-empty
      positional tail, `command` set to the tail joined by spaces. */
  function WithImage(service: Mapping, image: string, command: seq<string>): Mapping {
    var m := Insert(service, "image", Str(image));
    if command == [] then m else Insert(m, "command", Str(Join(command, " ")))
  }

  /** The document's top level, in the order the source inserts it:
      `version` (when the format has one), `services`, then `networks` and
      `volumes` when they are not empty. */
  function Document(version: Option<string>, name: string, service: Mapping, networks: Mapping, volumes: Mapping): Mapping {
    var top: Mapping := if version.Some? then [Entry("version", Str(version.value))] else [];
    var m := Insert(top, "services", Map([Entry(name, Map(service))]));
    var m' := if networks == [] then m else Insert(m, "networks", Map(networks));
    if volumes == [] then m' else Insert(m', "volumes", Map(volumes))
  }

  /** `composerize` on a parsed command, up to serialisation. */
  function Assemble(cmd: Classifier.Command, format: string): Result<Value> {
    var built :- Builder.ApplyFlags([], cmd.args, NetworkOf(cmd.args));
    AssembleBuilt(cmd, built, format)
  }

  /** The document around an already built service. */
  function AssembleBuilt(cmd: Classifier.Command, built: Mapping, format: string): Result<Value> {
    var version :- Version(format);
    var service := WithImage(built, cmd.image, cmd.command);
    Ok(Map(Document(version, ServiceName(cmd.image), service,
                    NetworksSection(Networks(cmd.args)), VolumesSection(Volumes(cmd.args)))))
  }

  /** `composerize` up to serialisation: the compose document's value. */
  function Composerize(input: string, format: string): Result<Value> {
    var cmd :- Classifier.ParseCommand(input);
    Assemble(cmd, format)
  }

  /** `composerize` step by step: parse, build, add image and
      command, pick the version, collect the resources and insert the
      sections one entry at a time. */
  method ComposerizeValue(input: string, format: string) returns (r: Result<Value>)
    ensures r == Composerize(input, format)
  {
    var parsed := Classifier.ParseDockerCommand(input);
    if parsed.Err? {
      return Err(parsed.msg);
    }
    var cmd := parsed.value;
    var network := NetworkOf(cmd.args);
    var built := Builder.BuildComposeValue(cmd.args, network);
    if built.Err? {
      return Err(built.msg);
    }
    assert built.value.Map? && Builder.ApplyFlags([], cmd.args, network) == Ok(built.value.entries);
    r := AddSections(cmd, built.value.entries, format);
  }

  /** The rest of `composerize` once the service is built: image and
      command, version, then the `networks` and `volumes` sections. */
  method AddSections(cmd: Classifier.Command, built: Mapping, format: string) returns (r: Result<Value>)
    ensures r == AssembleBuilt(cmd, built, format)
  {
    var service := Insert(built, "image", Str(cmd.image));
    if cmd.command != [] {
      service := Insert(service, "command", Str(Join(cmd.command, " ")));
    }
    var name := ServiceName(cmd.image);
    var version := Version(format);
    if version.Err? {
      return Err(version.msg);
    }
    var compose: Mapping := [];
    if version.value.Some? {
      compose := Insert(compose, "version", Str(version.value.value));
    }
    compose := Insert(compose, "services", Map([Entry(name, Map(service))]));
    var networks, volumes := CollectResources(cmd.args);
    var networksMap := BuildNetworks(networks);
    if networksMap != [] {
      compose := Insert(compose, "networks", Map(networksMap));
    }
    var volumesMap := BuildVolumes(volumes);
    if volumesMap != [] {
      compose := Insert(compose, "volumes", Map(volumesMap));
    }
    r := Ok(Map(compose));
  }

  /** The loop that fills `networks_map`. */
  method BuildNetworks(networks: seq<string>) returns (m: Mapping)
    ensures m == NetworksSection(networks)
  {
    m := [];
    var i := 0;
    while i < |networks|
      invariant 0 <= i <= |networks|
      invariant m == NetworksSection(networks[..i])
    {
      assert networks[..i + 1][..i] == networks[..i];
      var net := networks[i];
      if net != "default" && net != "bridge" && net != "host" && net != "none" {
        m := Insert(m, net, External);
      }
      i := i + 1;
    }
    assert networks[..i] == networks;
  }

  /** The loop that fills `volumes_map`. */
  method BuildVolumes(volumes: seq<string>) returns (m: Mapping)
    ensures m == VolumesSection(volumes)
  {
    m := [];
    var i := 0;
    while i < |volumes|
      invariant 0 <= i <= |volumes|
      invariant m == VolumesSection(volumes[..i])
    {
      assert volumes[..i + 1][..i] == volumes[..i];
      m := Insert(m, volumes[i], Null);
      i := i + 1;
    }
    assert volumes[..i] == volumes;
  }

  // ---------------------------------------------------------------------
  // Properties of the document

  /** A network is declared external exactly when it is listed and is not
      one of `default`, `bridge`, `host` and `none`. */
  lemma {:induction false} NetworksSectionGet(nets: seq<string>, n: string)
    ensures Get(NetworksSection(nets), n) == if n in nets && !IsBuiltinNetwork(n) then Some(External) else None
    decreases |nets|
  {
    if nets != [] {
      var init := nets[..|nets| - 1];
      var last := nets[|nets| - 1];
      NetworksSectionGet(init, n);
      assert nets == init + [last];
      if !IsBuiltinNetwork(last) {
        InsertGet(NetworksSection(init), last, External, n);
      }
    }
  }

  /** Every named volume, and nothing else, maps to null. */
  lemma {:induction false} VolumesSectionGet(vols: seq<string>, n: string)
    ensures Get(VolumesSection(vols), n) == if n in vols then Some(Null) else None
    decreases |vols|
  {
    if vols != [] {
      var init := vols[..|vols| - 1];
      VolumesSectionGet(init, n);
      assert vols == init + [vols[|vols| - 1]];
      InsertGet(VolumesSection(init), vols[|vols| - 1], Null, n);
    }
  }

  /** The volumes section lists the volumes in order. */
  lemma {:induction false} VolumesSectionKeys(vols: seq<string>)
    requires Distinct(vols)
    ensures Keys(VolumesSection(vols)) == vols
    decreases |vols|
  {
    if vols != [] {
      var init := vols[..|vols| - 1];
      var last := vols[|vols| - 1];
      VolumesSectionKeys(init);
      InsertKeys(VolumesSection(init), last, Null);
      assert last !in init by {
        forall i | 0 <= i < |init| ensures init[i] != last {
          assert init[i] == vols[i];
        }
      }
      assert init + [last] == vols;
    }
  }

  /** The service keeps what the flags built, gains `image`, and gains
      `command` exactly when the positional tail is not empty. */
  lemma WithImageGet(service: Mapping, image: string, command: seq<string>, k: string)
    ensures Get(WithImage(service, image, command), "image") == Some(Str(image))
    ensures command != [] ==> Get(WithImage(service, image, command), "command") == Some(Str(Join(command, " ")))
    ensures command == [] ==> Get(WithImage(service, image, command), "command") == Get(service, "command")
    ensures k != "image" && k != "command" ==> Get(WithImage(service, image, command), k) == Get(service, k)
  {
    var m := Insert(service, "image", Str(image));
    InsertGet(service, "image", Str(image), k);
    InsertGet(service, "image", Str(image), "image");
    InsertGet(service, "image", Str(image), "command");
    if command != [] {
      InsertGet(m, "command", Str(Join(command, " ")), k);
      InsertGet(m, "command", Str(Join(command, " ")), "image");
      InsertGet(m, "command", Str(Join(command, " ")), "command");
    }
  }

  /** The top level holds `version` (only for a format that has one),
      `services`, `networks` (only when some network is external) and
      `volumes` (only when some volume is named), in that order. */
  lemma DocumentKeys(version: Option<string>, name: string, service: Mapping, networks: Mapping, volumes: Mapping)
    ensures Keys(Document(version, name, service, networks, volumes)) ==
            (if version.Some? then ["version"] else []) + ["services"]
            + (if networks == [] then [] else ["networks"]) + (if volumes == [] then [] else ["volumes"])
  {
    var top: Mapping := if version.Some? then [Entry("version", Str(version.value))] else [];
    var k0: seq<string> := if version.Some? then ["version"] else [];
    assert Keys(top) == k0;
    var m := Insert(top, "services", Map([Entry(name, Map(service))]));
    InsertFresh(top, "services", Map([Entry(name, Map(service))]));
    var k1 := k0 + ["services"];
    var m' := if networks == [] then m else Insert(m, "networks", Map(networks));
    var k2 := k1 + (if networks == [] then [] else ["networks"]);
    if networks != [] {
      InsertFresh(m, "networks", Map(networks));
    }
    assert Keys(m') == k2;
    if volumes != [] {
      InsertFresh(m', "volumes", Map(volumes));
    }
  }

  /** What the document's top-level keys hold. */
  lemma DocumentGet(version: Option<string>, name: string, service: Mapping, networks: Mapping, volumes: Mapping)
    ensures var d := Document(version, name, service, networks, volumes);
            && Get(d, "version") == (if version.Some? then Some(Str(version.value)) else None)
            && Get(d, "services") == Some(Map([Entry(name, Map(service))]))
            && Get(d, "networks") == (if networks == [] then None else Some(Map(networks)))
            && Get(d, "volumes") == (if volumes == [] then None else Some(Map(volumes)))
  {
    var top: Mapping := if version.Some? then [Entry("version", Str(version.value))] else [];
    var sv := Map([Entry(name, Map(service))]);
    var m := Insert(top, "services", sv);
    InsertGet(top, "services", sv, "version");
    InsertGet(top, "services", sv, "services");
    InsertGet(top, "services", sv, "networks");
    InsertGet(top, "services", sv, "volumes");
    var m' := if networks == [] then m else Insert(m, "networks", Map(networks));
    if networks != [] {
      InsertGet(m, "networks", Map(networks), "version");
      InsertGet(m, "networks", Map(networks), "services");
      InsertGet(m, "networks", Map(networks), "networks");
      InsertGet(m, "networks", Map(networks), "volumes");
    }
    if volumes != [] {
      InsertGet(m', "volumes", Map(volumes), "version");
      InsertGet(m', "volumes", Map(volumes), "services");
      InsertGet(m', "volumes", Map(volumes), "networks");
      InsertGet(m', "volumes", Map(volumes), "volumes");
    }
  }

  /** Errors, in the order the source meets them: a command without an
      image, then a failing flag, then an unknown format. */
  lemma ComposerizeErrors(input: string, format: string)
    ensures Classifier.ParseCommand(input).Err? ==> Composerize(input, format) == Err("No image specified")
    ensures Classifier.ParseCommand(input).Ok? ==>
            var cmd := Classifier.ParseCommand(input).value;
            var built := Builder.ApplyFlags([], cmd.args, NetworkOf(cmd.args));
            && (built.Err? ==> Composerize(input, format) == Err(built.msg))
            && (built.Ok? ==>
                  (Composerize(input, format).Err? <==> format != "v2x" && format != "v3x" && format != "latest")
                  && (Composerize(input, format).Err? ==> Composerize(input, format).msg == "Unknown format: " + format))
  {
    var tokens := Tokenizer.Tokenize(Tokenizer.StripCommandPrefix(Tokenizer.Clean(input)));
    Classifier.ParseTokensResult(tokens);
  }

  /** A successful result is the document of the parsed command: its one
      service is named after the image and holds the built flags with the
      image and command; `version` follows the format, and the document
      has `networks` exactly when some network the command uses is not
      built in, and `volumes` exactly when it uses a named volume. */
  lemma AssembleDocument(cmd: Classifier.Command, format: string)
    requires Assemble(cmd, format).Ok?
    ensures var built := Builder.ApplyFlags([], cmd.args, NetworkOf(cmd.args)).value;
            var doc := Assemble(cmd, format).value;
            && doc.Map?
            && Get(doc.entries, "services") == Some(Map([Entry(ServiceName(cmd.image), Map(WithImage(built, cmd.image, cmd.command)))]))
            && Get(doc.entries, "version") == (if format == "v2x" then Some(Str("2")) else if format == "v3x" then Some(Str("3")) else None)
            && (Get(doc.entries, "networks").Some? <==> exists n :: n in Networks(cmd.args) && !IsBuiltinNetwork(n))
            && (Get(doc.entries, "volumes").Some? <==> Volumes(cmd.args) != [])
  {
    var built := Builder.ApplyFlags([], cmd.args, NetworkOf(cmd.args)).value;
    var version := Version(format).value;
    var nets := NetworksSection(Networks(cmd.args));
    var vols := VolumesSection(Volumes(cmd.args));
    DocumentGet(version, ServiceName(cmd.image), WithImage(built, cmd.image, cmd.command), nets, vols);
    NetworksSectionEmpty(Networks(cmd.args));
    VolumesSectionEmpty(Volumes(cmd.args));
  }

  /** The networks section is empty exactly when every network is built in. */
  lemma NetworksSectionEmpty(nets: seq<string>)
    ensures NetworksSection(nets) == [] <==> forall n :: n in nets ==> IsBuiltinNetwork(n)
  {
    if NetworksSection(nets) == [] {
      forall n | n in nets ensures IsBuiltinNetwork(n) {
        NetworksSectionGet(nets, n);
      }
    } else {
      var n := NetworksSection(nets)[0].key;
      assert n in Keys(NetworksSection(nets));
      NetworksSectionGet(nets, n);
    }
  }

  lemma VolumesSectionEmpty(vols: seq<string>)
    ensures VolumesSection(vols) == [] <==> vols == []
  {
    if vols != [] {
      VolumesSectionGet(vols, vols[0]);
    }
  }

  // ---------------------------------------------------------------------
  // `docker run -it IMAGE COMMAND...`

  lemma InteractiveTtyMappings()
    ensures M.GetMapping("i") == Some(M.Mapping(M.Switch, "stdin_open"))
    ensures M.GetMapping("t") == Some(M.Mapping(M.Switch, "tty"))
  {
  }

  /** A switch set on an empty service, at a top-level slot. */
  lemma TopLevelSwitch(service: Mapping, slot: string, network: string)
    requires '/' !in slot && M.NetworkPlaceholder[0] !in slot
    ensures Builder.SlotPath(slot, network) == slot
    ensures Builder.ApplyValues(service, slot, ["true"], M.Switch) == Ok(Insert(service, slot, Bool(true)))
  {
    ReplaceAllAbsent(slot, M.NetworkPlaceholder, network);
    SplitWhole(slot, '/');
    Builder.SingleValue(service, slot, "true", M.Switch);
  }

  /** Two switch flags set to `true`, at distinct top-level slots. */
  lemma SwitchPair(k1: string, slot1: string, k2: string, slot2: string, network: string)
    requires M.GetMapping(k1) == Some(M.Mapping(M.Switch, slot1)) && M.GetMapping(k2) == Some(M.Mapping(M.Switch, slot2))
    requires slot1 != "" && '/' !in slot1 && M.NetworkPlaceholder[0] !in slot1
    requires slot2 != "" && '/' !in slot2 && M.NetworkPlaceholder[0] !in slot2
    requires slot1 != slot2
    ensures Builder.ApplyFlags([], [Entry(k1, ["true"]), Entry(k2, ["true"])], network)
         == Ok([Entry(slot1, Bool(true)), Entry(slot2, Bool(true))])
  {
    TopLevelSwitch([], slot1, network);
    var s1 := [Entry(slot1, Bool(true))];
    TopLevelSwitch(s1, slot2, network);
    Builder.SingleFlag([], k1, ["true"], network);
    Builder.SingleFlag(s1, k2, ["true"], network);
    assert Insert([], slot1, Bool(true)) == s1;
    assert Insert(s1, slot2, Bool(true)) == [Entry(slot1, Bool(true)), Entry(slot2, Bool(true))];
    var e1, e2 := Entry(k1, ["true"]), Entry(k2, ["true"]);
    assert Builder.ApplyFlags([], [e1], network) == Ok(s1);
    Builder.ApplyFlagsAppend([], [e1], [e2], network);
    assert [e1] + [e2] == [e1, e2];
  }

  /** The flags `-it` records build `stdin_open: true` and `tty: true`. */
  lemma InteractiveTtyBuilt(network: string)
    ensures Builder.ApplyFlags([], [Entry("i", ["true"]), Entry("t", ["true"])], network)
         == Ok([Entry("stdin_open", Bool(true)), Entry("tty", Bool(true))])
  {
    InteractiveTtyMappings();
    SwitchPair("i", "stdin_open", "t", "tty", network);
  }

  /** The document for a parsed `-it` command, whatever its tail. */
  lemma InteractiveTtyAssembled(image: string, command: seq<string>)
    requires '/' !in image && ':' !in image
    ensures Assemble(Classifier.Command(image, command, [Entry("i", ["true"]), Entry("t", ["true"])]), "latest")
         == Ok(Map([Entry("services", Map([Entry(image, Map(WithImage([Entry("stdin_open", Bool(true)), Entry("tty", Bool(true))], image, command)))]))]))
  {
    var args := [Entry("i", ["true"]), Entry("t", ["true"])];
    assert Get(args, "network") == None && Get(args, "net") == None;
    assert Get(args, "volume") == None && Get(args, "v") == None;
    assert NetworkOf(args) == "default";
    InteractiveTtyBuilt("default");
  }

  /** `docker run -it IMAGE COMMAND...` with the `latest` format, from
      the tokens on: one service named after the image, with `stdin_open`
      and `tty` set, the image, and the command when there is one. */
  lemma InteractiveTty(image: string, command: seq<string>)
    requires '/' !in image && ':' !in image
    requires !StartsWith(image, "-") && M.StripQuotes(image) == image
    ensures Classifier.ParseTokens(["-it", image] + command).Ok?
    ensures Assemble(Classifier.ParseTokens(["-it", image] + command).value, "latest")
         == Ok(Map([Entry("services", Map([Entry(image, Map(WithImage([Entry("stdin_open", Bool(true)), Entry("tty", Bool(true))], image, Classifier.StripAll(command))))]))]))
  {
    Classifier.ClusterBeforeImage(image, command);
    InteractiveTtyAssembled(image, Classifier.StripAll(command));
  }

}
