# composerize-np in Dafny

A model of the conversion core of composerize-np, which turns a `docker run`
command line into a Docker Compose document. The model covers these steps:

- **Flag table** (`src/mappings.rs`). Each flag name maps to the kind of value it
  carries and the slash-separated slot path where it is written. The module also
  holds `strip_quotes`, `is_boolean_flag` and `parse_key_value_list`.
- **Parsing** (`src/parser.rs:5-144`):
  - clean the input and strip the `docker run`-style prefix;
  - tokenize with quotes and backslash escapes;
  - classify the tokens into a flag multimap, an image and a command.
- **Building** (`src/parser.rs:146-465`). Every flag value is written into the
  service mapping through `set_nested_value`, `set_nested_array` and
  `set_nested_map`. Mounts, ulimits and GPU requests get special conversions.
- **Assembly** (`src/lib.rs:9-160`):
  - the service name;
  - the networks and named volumes the command uses;
  - the document's top level (version, services, networks, volumes).

The model stops at the YAML value tree, before serialisation.

Modules:

| module | file | models |
|---|---|---|
| `Wrappers` | wrappers.dfy | `Option` and `Result` |
| `Strings` | strings.dfy | Rust string helpers: trim, split, join, `splitn(2)`, `replace`, `split_whitespace`, `parse::<i64>`, f64 literal syntax |
| `IndexMaps` | index_maps.dfy | `IndexMap`: an existing key keeps its position, a new key is appended |
| `Yaml` | yaml.dfy | `serde_yaml::Value` |
| `Mappings` | mappings.dfy | `src/mappings.rs` |
| `Tokenizer` | tokenizer.dfy | cleaning, prefix removal and the tokenizer loop |
| `Classifier` | classifier.dfy | the classification loop and `parse_docker_command` |
| `NestedWrite` | nested.dfy | `set_nested_value`, `set_nested_array`, `set_nested_map` |
| `Mounts` | mounts.dfy | `convert_mount_to_tmpfs` and `convert_mount_to_volume` |
| `Builder` | builder.dfy | `build_compose_value`, `apply_mapping`, `parse_ulimit`, `parse_gpus` |
| `Compose` | compose.dfy | `composerize` up to serialisation, `collect_resources`, `get_service_name` |

Where the source loops and updates local state, the model does the same: a
method with a `while` loop. Each such method is proved equal to a recursive
specification function, and the properties are proved about that function.
These methods are:

- `Tokenizer.ScanTokens`
- `Classifier.ClassifyTokens` and `Classifier.ParseDockerCommand`; the loop
  body's two flag branches are the methods `Classifier.RecordLongFlag` and
  `Classifier.RecordShortFlag`
- `Mappings.ParseKeyValueList`
- `Mounts.ConvertMountToTmpfs` and `Mounts.ConvertMountToVolume`
- `Builder.BuildComposeValue`
- `Compose.CollectResources`, whose two loops are `Compose.CollectNetworks`
  and `Compose.CollectVolumes`
- `Compose.ComposerizeValue`, which continues after the build in
  `Compose.AddSections`

The `set_nested_*` writers update an owned mapping through `&mut`. They are
modelled as functions that return the updated mapping.

These are source behaviours, and the model keeps them:

- **`-it` is not `-i -t`.** A cluster like `-it` records `true` for each letter.
  A lone `-t`, however, takes the next token as its value when that token does
  not start with `-`. So `-it ubuntu` runs `ubuntu`, while `-i -t ubuntu` has no
  image (`Classifier.ClusterBeforeImage`, `Classifier.SeparateBeforeImage`).
- **`-d nginx` has no image.** `-d` takes `nginx` as its value
  (`Classifier.DetachedTakesImage`).
- **Some networks are listed as external anyway.** A network value like
  `container:x` becomes `network_mode`, yet it is still listed as an external
  network. Only `default`, `bridge`, `host` and `none` are filtered out of the
  `networks` section.
- **`--gpus` replaces `deploy.resources` wholesale.** Limits written there by
  earlier flags are lost.

## Model

| member | source | states |
|---|---|---|
| Mappings.LongForm | src/mappings.rs:36-125 | Only `detached` and `rm` have an empty path, and every long form of kind Switch is one of the nine switch names |
| Mappings.AliasesCopyLongForms | src/mappings.rs:127-138 | Every one-letter alias has a long form, and looking it up gives exactly that long form's kind and path |
| Mappings.BooleanFlags | src/mappings.rs:174-181 | `is_boolean_flag` holds exactly for the nine switch long forms and the aliases `t`, `i`, `d`; the classification specification tests this set of names |
| Mappings.EmptyPaths | src/mappings.rs:53-138 | Among known flags, exactly `detached`, `rm` and `d` have an empty slot path |
| Mappings.PlaceholderPaths | src/mappings.rs:79-95 | `ip`, `ip6`, `link-local-ip` and `network-alias` write below the placeholder network segment |
| Mappings.PlaceholderOnly | src/mappings.rs:53-138 | A known flag's path holds the placeholder exactly when the flag is one of those four |
| Mappings.StripQuotesAsWritten | src/mappings.rs:143-152 | The source's `strip_quotes` fails (panics) exactly when the trimmed value is one quote character |
| Mappings.StripQuotes | src/mappings.rs:143-152 | The result is the trimmed value, or the trimmed value without one enclosing pair of matching quotes |
| Mappings.StripQuotesAgrees | src/mappings.rs:143-152 | Wherever the source does not panic, the corrected function gives the same result |
| Mappings.StripQuotesLoneQuote | src/mappings.rs:143-152 | A quote character alone, with any whitespace around it, makes the source panic; the corrected function returns the quote itself |
| Mappings.StripQuotesQuoted | src/mappings.rs:143-152 | Surrounding whitespace and exactly one pair of enclosing quotes are removed, whatever they enclose |
| Mappings.StripQuotesUnquoted | src/mappings.rs:143-152 | A value without a matching quote pair is only trimmed |
| Mappings.ParseScalar | src/mappings.rs:163-167 | A value becomes an i64 exactly when `parse::<i64>` accepts it; otherwise it stays the same string |
| Mappings.ParseScalarInt | src/mappings.rs:163-167 | Every i64 printed in decimal comes back as that integer |
| Mappings.KeyValueEntry | src/mappings.rs:157-162 | An item gives an entry exactly when it contains the entry separator |
| Mappings.ParseKeyValueList | src/mappings.rs:154-172 | The loop of inserts returns the insert-all of the items' entries |
| Mappings.KeyValueListLastWins | src/mappings.rs:154-172 | A key's value is the value of its last item; a key without an item is absent |
| Mappings.KeyValueListKeyOrder | src/mappings.rs:154-172 | Keys are distinct and in the order of each key's first item |
| Tokenizer.Clean | src/parser.rs:7-14 | The cleaned input is single-space separated, with no leading or trailing space, and has exactly the whitespace-separated words of the input after line joining |
| Tokenizer.SplitWhitespaceJoin | src/parser.rs:12-14 | Words joined with single spaces split back into the same words |
| Tokenizer.CleanContinuation | src/parser.rs:7-14 | A backslash-newline continuation reads as one space |
| Tokenizer.CleanContinuationCrlf | src/parser.rs:7-14 | A backslash-CRLF continuation reads as one space |
| Tokenizer.JoinLinesContinuation | src/parser.rs:7-11 | Before whitespace collapsing, backslash-newline becomes exactly one space |
| Tokenizer.JoinLinesContinuationCrlf | src/parser.rs:9-11 | Backslash-CRLF is untouched by the first replacement and becomes one space |
| Tokenizer.StripFirst | src/parser.rs:17-20 | The text after the first matching prefix is returned; with no match the text is unchanged |
| Tokenizer.StripCommandPrefixAfter | src/parser.rs:17-20 | Each `docker`/`podman` + `run`/`create`/`container run`/`service create` prefix with its trailing space is removed |
| Tokenizer.PrefixesDisjoint | src/parser.rs:17 | No two prefixes can both match |
| Tokenizer.StripCommandPrefixBare | src/parser.rs:17-20 | A bare `docker run` with nothing after it is kept |
| Tokenizer.ScanTokens | src/parser.rs:24-63 | The tokenizer loop returns the tokens of the scan specification |
| Tokenizer.TokensNonEmpty | src/parser.rs:49-63 | No token is empty |
| Tokenizer.TokenizePlain | src/parser.rs:32-63 | Text without quotes or backslashes gives exactly its whitespace-separated words |
| Tokenizer.TokenizeQuoted | src/parser.rs:40-48 | A quoted span, spaces included, is one token that keeps its quotes; an unclosed span runs to the end |
| Tokenizer.TokenizeEscape | src/parser.rs:34-39 | Between two bare words, a backslash and any character after it give one token holding that character and no backslash |
| Tokenizer.TokenizeEscapedSpace | src/parser.rs:34-39 | `a\ b` is the single token `a b` |
| Tokenizer.TokenizeEscapedQuote | src/parser.rs:34-39 | An escaped quote opens no quoted span: for any bare words and plain rest, the token ends at the next space and the rest splits as usual |
| Tokenizer.TokenizeTrailingBackslash | src/parser.rs:34-39 | A trailing lone backslash after any backslash-free text changes no token |
| Classifier.StripAll | src/parser.rs:126-135 | Each positional token is quote-stripped, position by position |
| Classifier.ParseDockerCommand | src/parser.rs:5-144 | `parse_docker_command` equals clean, then strip prefix, then tokenize, then classify |
| Classifier.ClassifyTokens | src/parser.rs:65-138 | The classification loop returns the classification specification's multimap and positionals |
| Classifier.RecordLongFlag | src/parser.rs:70-100 | One `--` token, with the value it takes if any, is recorded as the classification specification records it, and the loop moves past what it consumed |
| Classifier.RecordShortFlag | src/parser.rs:101-125 | One `-` token, with the value it takes if any, or a cluster, is recorded as the classification specification records it, and the loop moves past what it consumed |
| Classifier.RecordCluster | src/parser.rs:117-124 | A cluster pushes `true` for each of its characters in order |
| Classifier.CollectPositional | src/parser.rs:126-136 | From the first positional on, every token is a quote-stripped positional |
| Classifier.LongAssignRecords | src/parser.rs:70-81 | `--k=v` records v (quote-stripped) under k, split at the first `=`, and consumes one token |
| Classifier.LongSwitchRecords | src/parser.rs:82-87 | `--f` for a boolean flag records `true` and leaves the next token alone |
| Classifier.LongTakesNext | src/parser.rs:88-93 | Any other `--f` takes a following non-dash token as its value |
| Classifier.LongBeforeFlag | src/parser.rs:94-99 | Any other `--f` with no such token records `true` |
| Classifier.PushExtends | src/parser.rs:77-122 | A push appends to the key's list and only extends the multimap |
| Classifier.ClassifyExtends | src/parser.rs:65-138 | Classification only ever extends the multimap: keys keep order and value lists only grow |
| Classifier.ClassifyTail | src/parser.rs:126-137 | The positionals are empty or the quote-stripped suffix from some positional token |
| Classifier.ParseTokensResult | src/parser.rs:140-143 | The only error is "No image specified"; otherwise the image is a stripped positional token and the command is the stripped rest |
| Classifier.NoPositionalNoImage | src/parser.rs:140 | Tokens that are all flags give "No image specified" |
| Classifier.ImageFirst | src/parser.rs:126-143 | A leading positional is the image and the rest is the command, with no flags |
| Classifier.SeparatedFlags | src/parser.rs:111-116 | Value-less single flags record `true` each |
| Classifier.ClusterSameAsSeparate | src/parser.rs:101-125 | Where no value follows, `-abc` records the same as `-a -b -c` |
| Classifier.ClusterBeforeImage | src/parser.rs:117-136 | `-it IMAGE CMD...` gives image IMAGE, the quote-stripped CMD tokens as the command, and `i` and `t` set to `true` |
| Classifier.ClusterThenImage | src/parser.rs:117-143 | A multi-letter cluster followed by an image token and any further tokens gives that image, the quote-stripped tokens after it as the command, and `true` for each letter |
| Classifier.ShortValueNoImage | src/parser.rs:105-140 | A one-letter flag followed by a non-dash token takes it as its quote-stripped value, which leaves no image |
| Classifier.SeparateBeforeImage | src/parser.rs:105-110 | `-i -t IMAGE` gives no image: `-t` takes IMAGE as its value |
| Classifier.ShortTakesNext | src/parser.rs:105-110 | A one-letter flag takes a following non-dash token as its value |
| Classifier.ShortBeforeFlag | src/parser.rs:111-116 | A one-letter flag before a dash token records `true` |
| Classifier.DetachedTakesImage | src/parser.rs:105-140 | `-d IMAGE` records `d=IMAGE` and leaves no image, so parsing fails with "No image specified" |
| Classifier.DashPositional | src/parser.rs:101 | `-` and a dash followed by a digit are positionals |
| NestedWrite.UpdateAtReaches | src/parser.rs:268-337 | Where every step is a mapping or missing, the last key gets what the leaf makes of its old value |
| NestedWrite.UpdateAtBlocked | src/parser.rs:280-334 | A non-mapping on the way makes the write a no-op |
| NestedWrite.UpdateAtFrame | src/parser.rs:268-337 | Every path that parts ways with the written one reads as before |
| NestedWrite.UpdateAtOtherKey | src/parser.rs:268-337 | Top-level keys other than the path's first are untouched |
| NestedWrite.UpdateAtKeys | src/parser.rs:268-337 | Top-level key order is kept; only a missing first key is appended |
| NestedWrite.SetNestedValueSets | src/parser.rs:268-285 | The slot holds exactly the value when writable; otherwise nothing changes |
| NestedWrite.SetNestedArrayAppends | src/parser.rs:287-310 | A missing slot becomes `[s]`, a sequence grows by s at its end, any other shape is left alone |
| NestedWrite.SetNestedMapMerges | src/parser.rs:312-337 | Merged keys read their last value; other keys of an existing mapping keep theirs; other shapes are left alone |
| NestedWrite.UnchangedWhenLeafDeclines | src/parser.rs:295-325 | A slot of the wrong shape leaves the whole mapping unchanged |
| Mounts.ConvertMountToTmpfs | src/parser.rs:374-400 | The loop returns the tmpfs entry of the option scan |
| Mounts.TmpfsScanCollects | src/parser.rs:380-391 | The destination is the last `destination`/`target`/`dst` value, and the options are one `size=` per `tmpfs-size` in order |
| Mounts.TmpfsShortSyntax | src/parser.rs:374-400 | `type=tmpfs,destination=D,tmpfs-size=N` becomes `D:rw,noexec,nosuid,size=N` |
| Mounts.ConvertMountToVolume | src/parser.rs:402-431 | The loop returns the volume entry of the option scan |
| Mounts.VolumeScanReadonly | src/parser.rs:408-419 | Read-only is set exactly when some part is `readonly` or `ro` |
| Mounts.VolumeScanCollects | src/parser.rs:408-418 | The loop keeps the last `source=` value and the last `target=` or `destination=` value |
| Mounts.VolumeEntryCollects | src/parser.rs:402-431 | The result is `source:target[:ro]` from those values when both are non-empty, and the mount string unchanged otherwise |
| Mounts.VolumeFallback | src/parser.rs:427-430 | Without a non-empty source or target the mount string is returned as it is |
| Mounts.VolumeShortSyntax | src/parser.rs:402-431 | `type=K,source=S,target=T[,readonly]` becomes `S:T[:ro]` |
| Builder.BuildComposeValue | src/parser.rs:146-167 | The nested loop over flags and values equals applying the flags in order, stopping at the first error |
| Builder.SlotPathNetwork | src/parser.rs:160 | A table path below the placeholder segment is written below the service's network, the rest of the path kept |
| Builder.IpUnderNetwork | src/parser.rs:158-163 | `--ip A` with network N stores `A` at `networks.N.ipv4_address` |
| Builder.ApplyMapping | src/parser.rs:169-265 | Only integer, float, ulimit and GPU values can fail |
| Builder.SkipsUnmapped | src/parser.rs:153-157 | Building from all the recorded flags gives the same result as building from only the flags the table knows with a non-empty path |
| Builder.ApplyFlagsAppend | src/parser.rs:153-164 | Flags apply in multimap order: building `a + b` is building `a` and then continuing with `b` |
| Builder.FirstErrorAborts | src/parser.rs:161 | After the first error, later flags are not applied |
| Builder.ApplyValuesAppend | src/parser.rs:159-162 | A flag's values apply in order, and an error ends them |
| Builder.SwitchStoresTruth | src/parser.rs:181-184 | A switch stores whether its value is exactly `true` |
| Builder.ValueStores | src/parser.rs:185-197 | A value is stored as a string, or as `["CMD-SHELL", v]` at a health-check `test` slot |
| Builder.BlockIOStores | src/parser.rs:259-262 | The two block-IO kinds never fail and store the raw value as a string at the slot, or leave an unreachable slot's service unchanged |
| Builder.IntValueParses | src/parser.rs:198-202 | An integer flag fails exactly when the value is not an i64, with "Invalid integer: v"; otherwise it stores the integer |
| Builder.IntValueRoundTrip | src/parser.rs:198-202 | A printed i64 is stored as that integer |
| Builder.FloatValueParses | src/parser.rs:203-207 | A float flag fails exactly when f64 parsing rejects the value, with "Invalid float: v" |
| Builder.ArrayAppends | src/parser.rs:178-180 | An array flag appends its value at its slot |
| Builder.EnvAppends | src/parser.rs:208-216 | An env flag appends `KEY=value` with the value quote-stripped |
| Builder.EnvEntryQuoted | src/parser.rs:208-213 | `K="v"` and `K='v'` become `K=v`, split at the first `=` |
| Builder.MapMerges | src/parser.rs:217-220 | A map flag merges its `k=v` list: listed keys read their last item's value, others keep theirs |
| Builder.MountRoutes | src/parser.rs:221-236 | tmpfs mounts go to `tmpfs`, bind and volume mounts to `volumes` in short syntax, anything else to the slot verbatim |
| Builder.MountFrame | src/parser.rs:224-232 | A converted mount changes no other top-level key |
| Builder.BindMountShortSyntax | src/parser.rs:228-232 | `--mount type=bind,source=S,target=T[,readonly]` adds `S:T[:ro]` to `volumes` |
| Builder.NetworkRoutes | src/parser.rs:237-252 | A named network replaces `networks` with just itself; any other value sets `network_mode`; other keys are unchanged |
| Builder.LastNamedNetworkWins | src/parser.rs:237-252 | Of two named networks, only the last remains |
| Builder.Ulimit | src/parser.rs:339-345 | A value without `=` is "Invalid ulimit format: v" |
| Builder.UlimitSingle | src/parser.rs:366-370 | `name=n` stores the integer n at `ulimits/name` |
| Builder.UlimitPair | src/parser.rs:353-365 | `name=s:h` merges `soft: s` and `hard: h` into the mapping at `ulimits/name`, missing or holding an earlier limit, and its other keys keep their values |
| Builder.UlimitRejects | src/parser.rs:350-368 | Bad single, soft or hard limits give their messages; two or more colons leave the service unchanged with no error |
| Builder.GpusReserve | src/parser.rs:433-464 | Fails exactly for a value that is neither `all` nor an i64; otherwise replaces `deploy.resources` with the nvidia reservation and keeps other `deploy` keys |
| Builder.HealthCmdWrapped | src/parser.rs:185-193 | `--health-cmd C` sets `healthcheck.test` to `["CMD-SHELL", C]` |
| Compose.ServiceName | src/lib.rs:146-160 | The name holds no `:`; a name without `/` and `:` is kept |
| Compose.ServiceNameParts | src/lib.rs:146-160 | Registry path and tag are dropped: `p/name:tag`, `p/name`, `name:tag` and `name` all give `name` |
| Compose.ServiceNameExamples | src/lib.rs:488-505 | The four test images give `nginx` |
| Compose.NetworkOf | src/lib.rs:17-21 | The network is the first value of `network` (else `net`), and `default` exactly when there is none |
| Compose.FlagValues | src/lib.rs:121-130 | The values of the long flag whenever it is present, else those of the short flag, else none |
| Compose.CollectResources | src/lib.rs:116-144 | The two contains-guarded push loops return the deduplicated networks and named-volume names |
| Compose.CollectNetworks | src/lib.rs:120-127 | The contains-guarded push loop keeps each network once, in order of first use |
| Compose.CollectVolumes | src/lib.rs:129-141 | The loop keeps the name of each named volume once, in order of first use, and skips paths |
| Compose.Resources | src/lib.rs:116-144 | Both lists are distinct; the networks are exactly the values of `network` (else `net`), and the volumes exactly the names of the named values of `volume` (else `v`) |
| Compose.BindMountsNotListed | src/lib.rs:133-134 | No listed volume starts with `/`, `.` or `~` |
| Compose.Version | src/lib.rs:46-51 | Only `v2x`, `v3x` and `latest` are accepted, and the first two give a version; otherwise "Unknown format: f" |
| Compose.ComposerizeValue | src/lib.rs:9-109 | The step-by-step assembly equals the composed parse, build and document functions |
| Compose.AddSections | src/lib.rs:25-107 | After the build, inserting image, command, version, services, networks and volumes gives the specified document |
| Compose.NetworksSectionGet | src/lib.rs:68-92 | A network is declared `external: true` exactly when listed and not `default`/`bridge`/`host`/`none` |
| Compose.NetworksSectionEmpty | src/lib.rs:68-92 | The section is empty exactly when every network is built in |
| Compose.VolumesSectionGet | src/lib.rs:95-107 | Each named volume, and nothing else, maps to null |
| Compose.VolumesSectionKeys | src/lib.rs:95-107 | Volumes appear in collection order |
| Compose.WithImageGet | src/lib.rs:25-39 | `image` is always set; `command` is the space-joined tail exactly when the tail is non-empty; other keys are unchanged |
| Compose.DocumentKeys | src/lib.rs:53-107 | Top-level keys are version?, services, networks?, volumes?, in that order |
| Compose.DocumentGet | src/lib.rs:53-107 | What version, services, networks and volumes hold |
| Compose.ComposerizeErrors | src/lib.rs:15-51 | Errors come in order: no image, then a failing flag, then an unknown format |
| Compose.AssembleDocument | src/lib.rs:15-107 | A result has one service named after the image, holding the built flags plus image and command, and the version, networks and volumes sections as promised |
| Compose.InteractiveTty | src/lib.rs:403-410 | The tokens `-it IMAGE CMD...` parse, and assemble to one service with `stdin_open: true`, `tty: true`, the image and the command |
| IndexMaps.InsertGet | src/parser.rs:268-337 | After an insert, the key maps to the new value and every other key to its old value |
| IndexMaps.InsertKeys | src/parser.rs:268-337 | An insert keeps key order and appends a new key |
| IndexMaps.InsertAllGet | src/parser.rs:330-334 | Merging: a key of the merged entries takes its last value; other keys keep theirs |
| IndexMaps.DedupDistinct | src/lib.rs:123-138 | The deduplicated list has no repetition |
| Strings.JoinSplit | src/parser.rs:176 | Joining the pieces of a split gives back the string |
| Strings.SplitJoin | src/parser.rs:176 | Splitting a join of separator-free pieces gives back the pieces |
| Strings.SplitOnceAt | src/parser.rs:75 | `splitn(2, sep)` splits at the first separator |
| Strings.IntToStringParses | src/parser.rs:357-360 | Every i64 printed in decimal parses back to itself |

## Left out

- `src/main.rs`: command-line parsing, stdin and terminal detection, file reading and writing, printing and exit codes. All of it is I/O.
- YAML and JSON serialisation: `serde_yaml::to_string`, `yaml_to_json`, `json_to_yaml`, and the serialisation error in `composerize`. The model ends at the value tree.
- `composerize_to_json` (`src/lib.rs:163-260`): it repeats the tree construction of `composerize`, which is modelled once.
- `convert_file`: filesystem I/O.
- The unused `_existing_compose` and `_indent` parameters of `composerize`.
- The regex engine. The prefix regex is modelled as a list of literal prefixes, each with its single following space. The regex's `\s+` also accepts runs of whitespace, but cleaning has already collapsed those to single spaces. The regex's own error path is unreachable for a constant pattern.
- Floating point. `Builder.FloatValueParses` checks the syntax `parse::<f64>` accepts and stores the accepted literal, not the rounded number.
- Unicode: `is_numeric` is modelled over ASCII digits only.
- In-place mutation through `&mut` (`set_nested_*`, `apply_mapping`, `parse_ulimit`, `parse_gpus`) is modelled as functions that return the new mapping. Aliasing does not arise.
- Builder.Ulimit: its own contract states only the format error; the other outcomes are proved in Builder.UlimitSingle, Builder.UlimitPair and Builder.UlimitRejects.
- Mappings.StripQuotesAsWritten: the panic is modelled as `None` rather than as an abort.
- Classifier.ParseDockerCommand, Classifier.ParseCommand and Compose.ComposerizeValue use the corrected `Mappings.StripQuotes` (in `Classify`, `StripAll` and `Builder.EnvEntry`). On a lone-quote value, such as `docker run nginx '` or `docker run -e "X='" nginx`, the model returns `Ok` where the source panics.

## Findings

| source | as written | input that shows it | evidently intended | confidence | as-written member | corrected member |
|---|---|---|---|---|---|---|
| src/mappings.rs:143-152 | `strip_quotes` slices `trimmed[1..len-1]` whenever the trimmed value starts and ends with the same quote, including a value that is one quote character, where the slice is `[1..0]` and panics | a value of `'` (for example the token `'` after the image, or `-e X='`) | a lone quote is kept as it is | not executed | Mappings.StripQuotesLoneQuote | Mappings.StripQuotesQuoted |
