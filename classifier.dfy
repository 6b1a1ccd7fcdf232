/** The second half of `parse_docker_command`: the tokens are classified,
    left to right, into an insertion-ordered multimap from flag name to
    its values, and the positional tail (image, then command). The first
    positional token ends flag parsing. */
module Classifier {
  import opened Wrappers
  import opened Strings
  import opened IndexMaps
  import Mappings
  import Tokenizer

  /** Flag name (without its dashes) to the values given for it, in order. */
  type FlagMap = seq<Entry<seq<string>>>

  /** What `parse_docker_command` returns on success. */
  datatype Command = Command(image: string, command: seq<string>, args: FlagMap)

  predicate IsLongFlag(t: string) {
    StartsWith(t, "--")
  }

  /** One dash followed by a character that is not a digit (checked after
      `IsLongFlag`): `-` alone and `-1` are positional. */
  predicate IsShortFlag(t: string) {
    StartsWith(t, "-") && |t| > 1 && !IsAsciiDigit(t[1])
  }

  predicate IsPositional(t: string) {
    !IsLongFlag(t) && !IsShortFlag(t)
  }

  /** The next token exists and can be a flag's value. */
  predicate TakesValue(rest: seq<string>) {
    rest != [] && !StartsWith(rest[0], "-")
  }

  /** Each token with `strip_quotes` applied. */
  function StripAll(ts: seq<string>): (r: seq<string>)
    ensures |r| == |ts|
    ensures forall i :: 0 <= i < |ts| ==> r[i] == Mappings.StripQuotes(ts[i])
  {
    if ts == [] then [] else [Mappings.StripQuotes(ts[0])] + StripAll(ts[1..])
  }

  /** A cluster such as `-it`: every character is a flag set to `"true"`. */
  function PushEach(args: FlagMap, flags: string): FlagMap
    decreases |flags|
  {
    if flags == [] then args else PushEach(Push(args, [flags[0]], "true"), flags[1..])
  }

  /** The flags and the positional tokens of `tokens`, recorded after the
      flags already in `args`. */
  function Classify(tokens: seq<string>, args: FlagMap): (FlagMap, seq<string>)
    decreases |tokens|
  {
    if tokens == [] then (args, [])
    else
      var t, rest := tokens[0], tokens[1..];
      if IsLongFlag(t) then
        var f := TrimStartMatches(t, "--");
        match SplitOnce(f, '=')
        case Some((k, v)) => Classify(rest, Push(args, k, Mappings.StripQuotes(v)))
        case None =>
          if f in Mappings.BooleanFlagNames then Classify(rest, Push(args, f, "true"))
          else if TakesValue(rest) then Classify(rest[1..], Push(args, f, Mappings.StripQuotes(rest[0])))
          else Classify(rest, Push(args, f, "true"))
      else if IsShortFlag(t) then
        var f := TrimStartMatches(t, "-");
        if ByteLen(f) == 1 then
          if TakesValue(rest) then Classify(rest[1..], Push(args, f, Mappings.StripQuotes(rest[0])))
          else Classify(rest, Push(args, f, "true"))
        else Classify(rest, PushEach(args, f))
      else (args, StripAll(tokens))
  }

  /** The image is the first positional token and the command the rest;
      without a positional token there is no image. */
  function ParseTokens(tokens: seq<string>): Result<Command> {
    var (args, positional) := Classify(tokens, []);
    if positional == [] then Err("No image specified")
    else Ok(Command(positional[0], positional[1..], args))
  }

  /** `parse_docker_command`. */
  function ParseCommand(input: string): Result<Command> {
    ParseTokens(Tokenizer.Tokenize(Tokenizer.StripCommandPrefix(Tokenizer.Clean(input))))
  }

  /** `parse_docker_command` step by step: clean, scan, then
      classify. */
  method ParseDockerCommand(input: string) returns (r: Result<Command>)
    ensures r == ParseCommand(input)
  {
    var cleaned := Tokenizer.StripCommandPrefix(Tokenizer.Clean(input));
    var tokens := Tokenizer.ScanTokens(cleaned);
    var args, positional := ClassifyTokens(tokens);
    if positional == [] {
      r := Err("No image specified");
    } else {
      r := Ok(Command(positional[0], positional[1..], args));
    }
  }

  /** The classifying loop of `parse_docker_command`, over an index into
      the tokens: a flag consumes one token, or two when the next token is
      its value; the first positional token and everything after it go to
      `positional` and end the loop. */
  method ClassifyTokens(tokens: seq<string>) returns (args: FlagMap, positional: seq<string>)
    ensures (args, positional) == Classify(tokens, [])
  {
    args := [];
    positional := [];
    var i := 0;
    while i < |tokens|
      invariant 0 <= i <= |tokens|
      invariant Classify(tokens[i..], args) == Classify(tokens, [])
    {
      var token := tokens[i];
      if StartsWith(token, "--") {
        args, i := RecordLongFlag(tokens, i, args);
      } else if StartsWith(token, "-") && |token| > 1 && !IsAsciiDigit(token[1]) {
        args, i := RecordShortFlag(tokens, i, args);
      } else {
        assert tokens[i..] == [token] + tokens[i + 1..];
        ClassifyPositional(token, tokens[i + 1..], args);
        positional := CollectPositional(tokens, i);
        return;
      }
    }
    assert tokens[i..] == [];
  }

  /** One `--` token of the loop, with the value it takes if any. */
  method RecordLongFlag(tokens: seq<string>, i: nat, args: FlagMap) returns (args': FlagMap, next: nat)
    requires i < |tokens| && StartsWith(tokens[i], "--")
    ensures i < next <= |tokens|
    ensures Classify(tokens[next..], args') == Classify(tokens[i..], args)
  {
    var token := tokens[i];
    var rest := tokens[i + 1..];
    assert tokens[i..] == [token] + rest;
    var flagPart := TrimStartMatches(token, "--");
    Mappings.BooleanFlags(flagPart);
    if '=' in flagPart {
      var parts := SplitOnce(flagPart, '=');
      ClassifyLongAssign(token, rest, args);
      args' := Push(args, parts.value.0, Mappings.StripQuotes(parts.value.1));
      next := i + 1;
    } else if Mappings.IsBooleanFlag(flagPart) {
      ClassifyLongBare(token, rest, args);
      args' := Push(args, flagPart, "true");
      next := i + 1;
    } else if i + 1 < |tokens| && !StartsWith(tokens[i + 1], "-") {
      ClassifyLongBare(token, rest, args);
      assert rest[1..] == tokens[i + 2..];
      args' := Push(args, flagPart, Mappings.StripQuotes(tokens[i + 1]));
      next := i + 2;
    } else {
      ClassifyLongBare(token, rest, args);
      args' := Push(args, flagPart, "true");
      next := i + 1;
    }
  }

  /** One `-` token of the loop: a single flag, with the value it takes if
      any, or a cluster of switches. */
  method RecordShortFlag(tokens: seq<string>, i: nat, args: FlagMap) returns (args': FlagMap, next: nat)
    requires i < |tokens| && StartsWith(tokens[i], "-") && !StartsWith(tokens[i], "--")
    requires |tokens[i]| > 1 && !IsAsciiDigit(tokens[i][1])
    ensures i < next <= |tokens|
    ensures Classify(tokens[next..], args') == Classify(tokens[i..], args)
  {
    var token := tokens[i];
    var rest := tokens[i + 1..];
    assert tokens[i..] == [token] + rest;
    var flags := TrimStartMatches(token, "-");
    ClassifyShort(token, rest, args);
    if ByteLen(flags) == 1 {
      if i + 1 < |tokens| && !StartsWith(tokens[i + 1], "-") {
        assert rest[1..] == tokens[i + 2..];
        args' := Push(args, flags, Mappings.StripQuotes(tokens[i + 1]));
        next := i + 2;
      } else {
        args' := Push(args, flags, "true");
        next := i + 1;
      }
    } else {
      args' := RecordCluster(args, flags);
      next := i + 1;
    }
  }

  /** The loop over a cluster's characters. */
  method RecordCluster(args: FlagMap, flags: string) returns (r: FlagMap)
    ensures r == PushEach(args, flags)
  {
    r := args;
    var j := 0;
    while j < |flags|
      invariant 0 <= j <= |flags|
      invariant PushEach(r, flags[j..]) == PushEach(args, flags)
    {
      assert flags[j..][1..] == flags[j + 1..];
      r := Push(r, [flags[j]], "true");
      j := j + 1;
    }
  }

  /** The inner loop that takes every token from the first positional one
      on. */
  method CollectPositional(tokens: seq<string>, start: nat) returns (positional: seq<string>)
    requires start < |tokens|
    ensures positional == StripAll(tokens[start..])
  {
    positional := [];
    var i := start;
    while i < |tokens|
      invariant start <= i <= |tokens|
      invariant |positional| == i - start
      invariant forall k :: 0 <= k < i - start ==> positional[k] == Mappings.StripQuotes(tokens[start + k])
    {
      positional := positional + [Mappings.StripQuotes(tokens[i])];
      i := i + 1;
    }
    assert |StripAll(tokens[start..])| == |positional|;
  }

  // ---------------------------------------------------------------------
  // One step of the classification, per kind of token

  lemma ClassifyLongAssign(t: string, rest: seq<string>, args: FlagMap)
    requires IsLongFlag(t) && '=' in TrimStartMatches(t, "--")
    ensures var kv := SplitOnce(TrimStartMatches(t, "--"), '=').value;
            Classify([t] + rest, args) == Classify(rest, Push(args, kv.0, Mappings.StripQuotes(kv.1)))
  {
    assert ([t] + rest)[0] == t && ([t] + rest)[1..] == rest;
  }

  lemma ClassifyLongBare(t: string, rest: seq<string>, args: FlagMap)
    requires IsLongFlag(t) && '=' !in TrimStartMatches(t, "--")
    ensures var f := TrimStartMatches(t, "--");
            Classify([t] + rest, args) ==
              if f in Mappings.BooleanFlagNames then Classify(rest, Push(args, f, "true"))
              else if TakesValue(rest) then Classify(rest[1..], Push(args, f, Mappings.StripQuotes(rest[0])))
              else Classify(rest, Push(args, f, "true"))
  {
    assert ([t] + rest)[0] == t && ([t] + rest)[1..] == rest;
  }

  lemma ClassifyShort(t: string, rest: seq<string>, args: FlagMap)
    requires !IsLongFlag(t) && IsShortFlag(t)
    ensures var f := TrimStartMatches(t, "-");
            Classify([t] + rest, args) ==
              if ByteLen(f) == 1 then
                if TakesValue(rest) then Classify(rest[1..], Push(args, f, Mappings.StripQuotes(rest[0])))
                else Classify(rest, Push(args, f, "true"))
              else Classify(rest, PushEach(args, f))
  {
    assert ([t] + rest)[0] == t && ([t] + rest)[1..] == rest;
  }

  lemma ClassifyPositional(t: string, rest: seq<string>, args: FlagMap)
    requires IsPositional(t)
    ensures Classify([t] + rest, args) == (args, StripAll([t] + rest))
  {
    assert ([t] + rest)[0] == t && ([t] + rest)[1..] == rest;
  }

  // ---------------------------------------------------------------------
  // Properties of the classification

  /** `m'` continues `m`: the keys of `m` come first and in the same order,
      and each of their value lists has only grown at its end. */
  predicate Extends(m: FlagMap, m': FlagMap) {
    Keys(m) <= Keys(m') &&
    forall k :: k in Keys(m) ==> Get(m', k).Some? && Get(m, k).value <= Get(m', k).value
  }

  lemma ExtendsTrans(a: FlagMap, b: FlagMap, c: FlagMap)
    requires Extends(a, b) && Extends(b, c)
    ensures Extends(a, c)
  {
    forall k | k in Keys(a)
      ensures Get(c, k).Some? && Get(a, k).value <= Get(c, k).value
    {
      assert k in Keys(b);
    }
  }

  /** Recording a value keeps the earlier keys and values, appends the value
      to its key's list and appends a new key at the end. */
  lemma PushExtends(m: FlagMap, k: string, v: string)
    ensures Extends(m, Push(m, k, v))
    ensures Get(Push(m, k, v), k) == Some(Get(m, k).GetOr([]) + [v])
  {
    InsertKeys(m, k, Get(m, k).GetOr([]) + [v]);
    forall k' | k' in Keys(m)
      ensures Get(Push(m, k, v), k').Some? && Get(m, k').value <= Get(Push(m, k, v), k').value
    {
      PushGet(m, k, v, k');
    }
    PushGet(m, k, v, k);
  }

  lemma {:induction false} PushEachExtends(m: FlagMap, flags: string)
    ensures Extends(m, PushEach(m, flags))
    decreases |flags|
  {
    if flags != [] {
      var m1 := Push(m, [flags[0]], "true");
      PushExtends(m, [flags[0]], "true");
      PushEachExtends(m1, flags[1..]);
      ExtendsTrans(m, m1, PushEach(m1, flags[1..]));
    }
  }

  /** Classification only adds: the flags recorded before keep their order
      and their values, later values are appended after them. */
  lemma {:induction false} ClassifyExtends(tokens: seq<string>, args: FlagMap)
    ensures Extends(args, Classify(tokens, args).0)
    decreases |tokens|
  {
    if tokens == [] {
    } else {
      var t, rest := tokens[0], tokens[1..];
      assert tokens == [t] + rest;
      if IsLongFlag(t) {
        var f := TrimStartMatches(t, "--");
        if '=' in f {
          var kv := SplitOnce(f, '=').value;
          ClassifyLongAssign(t, rest, args);
          var m1 := Push(args, kv.0, Mappings.StripQuotes(kv.1));
          PushExtends(args, kv.0, Mappings.StripQuotes(kv.1));
          ClassifyExtends(rest, m1);
          ExtendsTrans(args, m1, Classify(rest, m1).0);
        } else {
          ClassifyLongBare(t, rest, args);
          if f !in Mappings.BooleanFlagNames && TakesValue(rest) {
            var m1 := Push(args, f, Mappings.StripQuotes(rest[0]));
            PushExtends(args, f, Mappings.StripQuotes(rest[0]));
            ClassifyExtends(rest[1..], m1);
            ExtendsTrans(args, m1, Classify(rest[1..], m1).0);
          } else {
            var m1 := Push(args, f, "true");
            PushExtends(args, f, "true");
            ClassifyExtends(rest, m1);
            ExtendsTrans(args, m1, Classify(rest, m1).0);
          }
        }
      } else if IsShortFlag(t) {
        var f := TrimStartMatches(t, "-");
        ClassifyShort(t, rest, args);
        if ByteLen(f) != 1 {
          var m1 := PushEach(args, f);
          PushEachExtends(args, f);
          ClassifyExtends(rest, m1);
          ExtendsTrans(args, m1, Classify(rest, m1).0);
        } else if TakesValue(rest) {
          var m1 := Push(args, f, Mappings.StripQuotes(rest[0]));
          PushExtends(args, f, Mappings.StripQuotes(rest[0]));
          ClassifyExtends(rest[1..], m1);
          ExtendsTrans(args, m1, Classify(rest[1..], m1).0);
        } else {
          var m1 := Push(args, f, "true");
          PushExtends(args, f, "true");
          ClassifyExtends(rest, m1);
          ExtendsTrans(args, m1, Classify(rest, m1).0);
        }
      } else {
        ClassifyPositional(t, rest, args);
      }
    }
  }

  /** The positional list is empty, or it is every token from some
      positional token on, quote-stripped: the first positional token ends
      flag parsing and later tokens are never flags, dashes or not. */
  lemma {:induction false} ClassifyTail(tokens: seq<string>, args: FlagMap)
    ensures var pos := Classify(tokens, args).1;
            pos == [] || exists j :: 0 <= j < |tokens| && IsPositional(tokens[j]) && pos == StripAll(tokens[j..])
    decreases |tokens|
  {
    if tokens != [] {
      var t, rest := tokens[0], tokens[1..];
      assert tokens == [t] + rest;
      if IsLongFlag(t) {
        var f := TrimStartMatches(t, "--");
        if '=' in f {
          var kv := SplitOnce(f, '=').value;
          ClassifyLongAssign(t, rest, args);
          ClassifyTailFrom(tokens, 1, Push(args, kv.0, Mappings.StripQuotes(kv.1)));
        } else {
          ClassifyLongBare(t, rest, args);
          if f !in Mappings.BooleanFlagNames && TakesValue(rest) {
            assert rest[1..] == tokens[2..];
            ClassifyTailFrom(tokens, 2, Push(args, f, Mappings.StripQuotes(rest[0])));
          } else {
            ClassifyTailFrom(tokens, 1, Push(args, f, "true"));
          }
        }
      } else if IsShortFlag(t) {
        var f := TrimStartMatches(t, "-");
        ClassifyShort(t, rest, args);
        if ByteLen(f) != 1 {
          ClassifyTailFrom(tokens, 1, PushEach(args, f));
        } else if TakesValue(rest) {
          assert rest[1..] == tokens[2..];
          ClassifyTailFrom(tokens, 2, Push(args, f, Mappings.StripQuotes(rest[0])));
        } else {
          ClassifyTailFrom(tokens, 1, Push(args, f, "true"));
        }
      } else {
        ClassifyPositional(t, rest, args);
        assert tokens[0..] == tokens;
      }
    }
  }

  /** The induction step of `ClassifyTail`: a witness in a suffix is a
      witness in the whole. */
  lemma {:induction false} ClassifyTailFrom(tokens: seq<string>, n: nat, args: FlagMap)
    requires 1 <= n <= |tokens|
    ensures var pos := Classify(tokens[n..], args).1;
            pos == [] || exists j :: 0 <= j < |tokens| && IsPositional(tokens[j]) && pos == StripAll(tokens[j..])
    decreases |tokens|, 0
  {
    var suffix := tokens[n..];
    ClassifyTail(suffix, args);
    var pos := Classify(suffix, args).1;
    if pos != [] {
      var j :| 0 <= j < |suffix| && IsPositional(suffix[j]) && pos == StripAll(suffix[j..]);
      assert suffix[j..] == tokens[n + j..];
      assert tokens[n + j] == suffix[j];
    }
  }

  /** The only error is a missing image; on success the image and the
      command are the quote-stripped positional tail. */
  lemma ParseTokensResult(tokens: seq<string>)
    ensures ParseTokens(tokens).Err? ==> ParseTokens(tokens).msg == "No image specified"
    ensures ParseTokens(tokens).Ok? ==>
              exists j :: 0 <= j < |tokens| && IsPositional(tokens[j])
                && ParseTokens(tokens).value.image == Mappings.StripQuotes(tokens[j])
                && ParseTokens(tokens).value.command == StripAll(tokens[j + 1..])
  {
    ClassifyTail(tokens, []);
    var pos := Classify(tokens, []).1;
    if pos != [] {
      var j :| 0 <= j < |tokens| && IsPositional(tokens[j]) && pos == StripAll(tokens[j..]);
      assert tokens[j..][1..] == tokens[j + 1..];
      assert StripAll(tokens[j..])[1..] == StripAll(tokens[j + 1..]);
    }
  }

  /** Without a positional token there is no image. */
  lemma NoPositionalNoImage(tokens: seq<string>)
    requires forall j :: 0 <= j < |tokens| ==> !IsPositional(tokens[j])
    ensures ParseTokens(tokens) == Err("No image specified")
  {
    ClassifyTail(tokens, []);
  }

  /** A command that starts with its image has no flags. */
  lemma ImageFirst(tokens: seq<string>)
    requires tokens != [] && IsPositional(tokens[0])
    ensures ParseTokens(tokens) == Ok(Command(Mappings.StripQuotes(tokens[0]), StripAll(tokens[1..]), []))
  {
    assert tokens == [tokens[0]] + tokens[1..];
    ClassifyPositional(tokens[0], tokens[1..], []);
  }

  // ---------------------------------------------------------------------
  // Short-flag clusters

  /** Characters that can each stand as a short flag on their own. */
  predicate ClusterChars(f: string) {
    forall i :: 0 <= i < |f| ==> f[i] != '-' && !IsAsciiDigit(f[i])
  }

  /** The cluster written as separate one-letter flags: `it` gives
      `-i -t`. */
  function Separated(f: string): (r: seq<string>)
    ensures |r| == |f|
    ensures forall i :: 0 <= i < |f| ==> r[i] == "-" + [f[i]]
  {
    if f == [] then [] else ["-" + [f[0]]] + Separated(f[1..])
  }

  lemma DashTrim(f: string)
    requires f != [] && f[0] != '-'
    ensures TrimStartMatches("-" + f, "-") == f
  {
    assert ("-" + f)[1..] == f;
  }

  /** A dash before a character that is neither a dash nor a digit makes
      a short flag, named by what follows the dash. */
  lemma ShortToken(f: string)
    requires f != [] && f[0] != '-' && !IsAsciiDigit(f[0])
    ensures !IsLongFlag("-" + f) && IsShortFlag("-" + f)
    ensures TrimStartMatches("-" + f, "-") == f
  {
    var t := "-" + f;
    assert t[0] == '-' && t[1] == f[0];
    assert t[..2][1] != "--"[1];
    DashTrim(f);
  }

  /** The first of the separate flags records `"true"`: the flag after it,
      or whatever follows the last one, cannot be its value. */
  lemma SeparatedStep(f: string, rest: seq<string>, args: FlagMap)
    requires |f| >= 1 && ClusterChars(f) && !TakesValue(rest)
    ensures Classify(Separated(f) + rest, args) ==
            Classify(Separated(f[1..]) + rest, Push(args, [f[0]], "true"))
  {
    var t := "-" + [f[0]];
    var rest' := Separated(f[1..]) + rest;
    assert Separated(f) + rest == [t] + rest';
    ShortToken([f[0]]);
    ClassifyShort(t, rest', args);
    assert !TakesValue(rest') by {
      if |f| >= 2 {
        assert rest'[0] == "-" + [f[1]];
      } else {
        assert Separated(f[1..]) == [];
      }
    }
    assert PushEach(args, [f[0]]) == Push(args, [f[0]], "true");
  }

  /** Separate one-letter flags followed by something that cannot be a
      value record `"true"` for each letter in turn. */
  lemma {:induction false} SeparatedFlags(f: string, rest: seq<string>, args: FlagMap)
    requires |f| >= 1 && ClusterChars(f) && !TakesValue(rest)
    ensures Classify(Separated(f) + rest, args) == Classify(rest, PushEach(args, f))
    decreases |f|
  {
    var args1 := Push(args, [f[0]], "true");
    SeparatedStep(f, rest, args);
    assert PushEach(args, f) == PushEach(args1, f[1..]);
    if |f| == 1 {
      assert Separated(f[1..]) + rest == rest;
    } else {
      SeparatedFlags(f[1..], rest, args1);
    }
  }

  /** `-it` means `-i -t` when what follows cannot be taken as a value:
      nothing, or another flag. */
  lemma ClusterSameAsSeparate(f: string, rest: seq<string>, args: FlagMap)
    requires |f| >= 2 && ClusterChars(f) && !TakesValue(rest)
    ensures Classify(["-" + f] + rest, args) == Classify(Separated(f) + rest, args)
  {
    ShortToken(f);
    assert ByteLen(f) != 1;
    ClassifyShort("-" + f, rest, args);
    assert Classify(["-" + f] + rest, args) == Classify(rest, PushEach(args, f));
    SeparatedFlags(f, rest, args);
  }

  /** A cluster of two or more flags followed by an image: every letter
      records `"true"` and the image is kept. */
  lemma ClusterThenImage(f: string, image: string, command: seq<string>)
    requires f != [] && f[0] != '-' && !IsAsciiDigit(f[0]) && ByteLen(f) != 1
    requires !StartsWith(image, "-") && Mappings.StripQuotes(image) == image
    ensures ParseTokens(["-" + f, image] + command) == Ok(Command(image, StripAll(command), PushEach([], f)))
  {
    ShortToken(f);
    assert ["-" + f, image] + command == ["-" + f] + ([image] + command);
    ClassifyShort("-" + f, [image] + command, []);
    NotDashPositional(image);
    ClassifyPositional(image, command, PushEach([], f));
    assert ([image] + command)[0] == image && ([image] + command)[1..] == command;
  }

  lemma PushEachIt()
    ensures PushEach([], "it") == [Entry("i", ["true"]), Entry("t", ["true"])]
  {
    assert PushEach([], "it") == PushEach(Push([], "i", "true"), "t");
    assert [] + ["true"] == ["true"];
    assert Push([], "i", "true") == [Entry("i", ["true"])];
    assert Push([Entry("i", ["true"])], "t", "true") == [Entry("i", ["true"]), Entry("t", ["true"])];
  }

  /** Before an image the two spellings differ. `-it ubuntu bash` runs
      `ubuntu` with `i` and `t` set and `bash` as its command ... */
  lemma ClusterBeforeImage(image: string, command: seq<string>)
    requires !StartsWith(image, "-") && Mappings.StripQuotes(image) == image
    ensures ParseTokens(["-it", image] + command)
         == Ok(Command(image, StripAll(command), [Entry("i", ["true"]), Entry("t", ["true"])]))
  {
    assert ByteLen("it") == 2;
    ClusterThenImage("it", image, command);
    assert "-" + "it" == "-it";
    PushEachIt();
  }

  /** ... while in `-i -t ubuntu` the `-t` takes `ubuntu` as its value
      and no image is left. */
  lemma SeparateBeforeImage(image: string)
    requires !StartsWith(image, "-")
    ensures ParseTokens(["-i", "-t", image]) == Err("No image specified")
  {
    assert "-" + "i" == "-i" && "-" + "t" == "-t";
    assert ["-i", "-t", image] == ["-" + "i", "-t"] + [image];
    ShortBeforeFlag("i", "-t", [image], []);
    assert ["-t"] + [image] == ["-" + "t", image] + [];
    var args := Push([], "i", "true");
    ShortTakesNext("t", image, [], args);
  }

  /** A one-letter flag takes the next token as its value when that token
      does not start with a dash, whether or not the flag is a switch. */
  lemma ShortTakesNext(f: string, v: string, rest: seq<string>, args: FlagMap)
    requires f != [] && f[0] != '-' && !IsAsciiDigit(f[0]) && ByteLen(f) == 1
    requires !StartsWith(v, "-")
    ensures Classify(["-" + f, v] + rest, args) == Classify(rest, Push(args, f, Mappings.StripQuotes(v)))
  {
    ShortToken(f);
    assert ["-" + f, v] + rest == ["-" + f] + ([v] + rest);
    ClassifyShort("-" + f, [v] + rest, args);
    assert ([v] + rest)[0] == v && ([v] + rest)[1..] == rest;
  }

  /** A one-letter flag followed by a dash-led token records `"true"` and
      leaves that token to be read next. */
  lemma ShortBeforeFlag(f: string, next: string, rest: seq<string>, args: FlagMap)
    requires f != [] && f[0] != '-' && !IsAsciiDigit(f[0]) && ByteLen(f) == 1
    requires StartsWith(next, "-")
    ensures Classify(["-" + f, next] + rest, args) == Classify([next] + rest, Push(args, f, "true"))
  {
    ShortToken(f);
    assert ["-" + f, next] + rest == ["-" + f] + ([next] + rest);
    ClassifyShort("-" + f, [next] + rest, args);
    assert ([next] + rest)[0] == next;
  }

  /** Two dashes before a name that does not start with a dash make a long
      flag, named by what follows the dashes. */
  lemma LongToken(f: string)
    requires !StartsWith(f, "-")
    ensures IsLongFlag("--" + f) && TrimStartMatches("--" + f, "--") == f
  {
    var t := "--" + f;
    assert t[..2] == "--" && t[2..] == f;
    if |f| >= 2 {
      assert f[..2][0] == f[0];
      assert f[..1] == [f[0]];
    }
  }

  /** `--k=v` records `v`, quote-stripped, under `k` and consumes one
      token. */
  lemma LongAssignRecords(k: string, v: string, rest: seq<string>, args: FlagMap)
    requires !StartsWith(k, "-") && '=' !in k
    ensures Classify(["--" + k + "=" + v] + rest, args) == Classify(rest, Push(args, k, Mappings.StripQuotes(v)))
  {
    var f := k + "=" + v;
    if k == [] {
      assert f[0] == '=';
    } else {
      assert f[0] == k[0] && k[..1] == [k[0]];
    }
    assert f[..1] == [f[0]];
    LongToken(f);
    assert f == k + ['='] + v;
    SplitOnceAt(k, v, '=');
    assert "--" + k + "=" + v == "--" + f;
    ClassifyLongAssign("--" + f, rest, args);
  }

  /** A long switch records `"true"` and leaves the next token alone. */
  lemma LongSwitchRecords(f: string, rest: seq<string>, args: FlagMap)
    requires !StartsWith(f, "-") && '=' !in f && f in Mappings.BooleanFlagNames
    ensures Classify(["--" + f] + rest, args) == Classify(rest, Push(args, f, "true"))
  {
    LongToken(f);
    ClassifyLongBare("--" + f, rest, args);
  }

  /** Any other long flag takes the next token as its value when that
      token does not start with a dash. */
  lemma LongTakesNext(f: string, v: string, rest: seq<string>, args: FlagMap)
    requires !StartsWith(f, "-") && '=' !in f && f !in Mappings.BooleanFlagNames
    requires !StartsWith(v, "-")
    ensures Classify(["--" + f, v] + rest, args) == Classify(rest, Push(args, f, Mappings.StripQuotes(v)))
  {
    LongToken(f);
    assert ["--" + f, v] + rest == ["--" + f] + ([v] + rest);
    ClassifyLongBare("--" + f, [v] + rest, args);
    assert ([v] + rest)[0] == v && ([v] + rest)[1..] == rest;
  }

  /** ... and records `"true"` when no such token follows. */
  lemma LongBeforeFlag(f: string, rest: seq<string>, args: FlagMap)
    requires !StartsWith(f, "-") && '=' !in f && f !in Mappings.BooleanFlagNames
    requires !TakesValue(rest)
    ensures Classify(["--" + f] + rest, args) == Classify(rest, Push(args, f, "true"))
  {
    LongToken(f);
    ClassifyLongBare("--" + f, rest, args);
  }

  lemma NotDashPositional(t: string)
    requires !StartsWith(t, "-")
    ensures IsPositional(t)
  {
    if |t| >= 1 {
      assert t[..1][0] == t[0];
    }
  }

  /** A one-letter flag and one more token: the token is the flag's value
      and no image is left. */
  lemma ShortValueNoImage(f: string, v: string)
    requires f != [] && f[0] != '-' && !IsAsciiDigit(f[0]) && ByteLen(f) == 1
    requires !StartsWith(v, "-")
    ensures Classify(["-" + f, v], []) == (Push([], f, Mappings.StripQuotes(v)), [])
    ensures ParseTokens(["-" + f, v]) == Err("No image specified")
  {
    assert ["-" + f, v] + [] == ["-" + f, v];
    ShortTakesNext(f, v, [], []);
  }

  /** A one-letter flag takes the next token even when the flag is a
      switch: in `-d nginx`, `nginx` is the value of `d` and there is no
      image. */
  lemma DetachedTakesImage(image: string)
    requires !StartsWith(image, "-") && Mappings.StripQuotes(image) == image
    ensures Classify(["-d", image], []) == ([Entry("d", [image])], [])
    ensures ParseTokens(["-d", image]) == Err("No image specified")
  {
    assert ByteLen("d") == 1;
    ShortValueNoImage("d", image);
    assert "-" + "d" == "-d";
    assert [] + [image] == [image];
    assert Push([], "d", image) == [Entry("d", [image])];
  }

  /** A lone dash and a dash followed by a digit are not flags: they are
      positional, so they can be the image. */
  lemma DashPositional(d: char, tail: string)
    requires IsAsciiDigit(d)
    ensures IsPositional("-") && IsPositional("-" + [d] + tail)
  {
    assert ("-" + [d] + tail)[1] == d;
  }
}
