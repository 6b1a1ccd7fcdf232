/** The two `--mount` rewrites of the document builder: a tmpfs mount
    becomes the `tmpfs` entry `dest:rw,noexec,nosuid[,size=N]`, and a bind
    or volume mount becomes the short volume syntax `source:target[:ro]`.
    Both read the comma-separated mount options left to right, later
    options overriding earlier ones. */
module Mounts {
  import opened Wrappers
  import opened Strings

  // ---------------------------------------------------------------------
  // convert_mount_to_tmpfs

  /** What the tmpfs loop has collected: the destination and the extra
      options, in order. */
  datatype TmpfsState = TmpfsState(destination: string, options: seq<string>)

  const TmpfsStart := TmpfsState("", [])

  /** The option keys that name the mount point. */
  predicate IsDestinationKey(k: string) {
    k == "destination" || k == "target" || k == "dst"
  }

  /** One `key=value` option: a destination key replaces the destination,
      `tmpfs-size` adds a `size=` option, anything else (including an
      option without `=`) is ignored. */
  function TmpfsOption(part: string, st: TmpfsState): TmpfsState {
    match SplitOnce(part, '=')
    case None => st
    case Some((k, v)) =>
      if IsDestinationKey(k) then st.(destination := v)
      else if k == "tmpfs-size" then st.(options := st.options + ["size=" + v])
      else st
  }

  function TmpfsScan(parts: seq<string>, st: TmpfsState): TmpfsState
    decreases |parts|
  {
    if parts == [] then st else TmpfsScan(parts[1..], TmpfsOption(parts[0], st))
  }

  /** The options every tmpfs entry starts with. */
  const SecurityOptions: seq<string> := ["rw", "noexec", "nosuid"]

  function TmpfsEntry(mount: string): string {
    var st := TmpfsScan(Split(mount, ','), TmpfsStart);
    st.destination + ":" + Join(SecurityOptions + st.options, ",")
  }

  /** `convert_mount_to_tmpfs`. */
  method ConvertMountToTmpfs(mount: string) returns (entry: string)
    ensures entry == TmpfsEntry(mount)
  {
    var destination := "";
    var options: seq<string> := [];
    var parts := Split(mount, ',');
    var i := 0;
    while i < |parts|
      invariant 0 <= i <= |parts|
      invariant TmpfsScan(parts[i..], TmpfsState(destination, options)) == TmpfsScan(parts, TmpfsStart)
    {
      assert parts[i..][1..] == parts[i + 1..];
      match SplitOnce(parts[i], '=') {
        case Some((k, v)) =>
          if k == "destination" || k == "target" || k == "dst" {
            destination := v;
          } else if k == "tmpfs-size" {
            options := options + ["size=" + v];
          }
        case None =>
      }
      i := i + 1;
    }
    assert parts[i..] == [];
    ghost var extra := options;
    options := ["rw"] + options;
    options := options[..1] + ["noexec"] + options[1..];
    options := options[..2] + ["nosuid"] + options[2..];
    assert options == SecurityOptions + extra;
    entry := destination + ":" + Join(options, ",");
  }

  /** The destination one option sets, if it is a destination option. */
  function DestinationOf(part: string): Option<string> {
    match SplitOnce(part, '=')
    case Some((k, v)) => if IsDestinationKey(k) then Some(v) else None
    case None => None
  }

  /** The `size=` option one option adds, if it is a `tmpfs-size`. */
  function SizeOf(part: string): seq<string> {
    match SplitOnce(part, '=')
    case Some((k, v)) => if k == "tmpfs-size" then ["size=" + v] else []
    case None => []
  }

  /** The value of the last destination option, if any: a reference
      definition of what the loop keeps. */
  function LastDestination(parts: seq<string>): Option<string>
    decreases |parts|
  {
    if parts == [] then None
    else match LastDestination(parts[1..])
      case Some(d) => Some(d)
      case None => DestinationOf(parts[0])
  }

  /** The `size=` options, one per `tmpfs-size` option, in order. */
  function SizeOptions(parts: seq<string>): seq<string>
    decreases |parts|
  {
    if parts == [] then [] else SizeOf(parts[0]) + SizeOptions(parts[1..])
  }

  /** The loop keeps the last destination and every size, in order. */
  lemma {:induction false} TmpfsScanCollects(parts: seq<string>, st: TmpfsState)
    ensures TmpfsScan(parts, st).destination == LastDestination(parts).GetOr(st.destination)
    ensures TmpfsScan(parts, st).options == st.options + SizeOptions(parts)
    decreases |parts|
  {
    if parts == [] {
      assert st.options + [] == st.options;
    } else {
      var st1 := TmpfsOption(parts[0], st);
      TmpfsScanCollects(parts[1..], st1);
      TmpfsSizeStep(parts, st);
      TmpfsDestinationStep(parts, st);
      assert TmpfsScan(parts, st) == TmpfsScan(parts[1..], st1);
    }
  }

  /** One option's effect on the options, in the terms of the reference
      definition. */
  lemma TmpfsSizeStep(parts: seq<string>, st: TmpfsState)
    requires parts != []
    ensures TmpfsOption(parts[0], st).options + SizeOptions(parts[1..]) == st.options + SizeOptions(parts)
  {
    var size, rest := SizeOf(parts[0]), SizeOptions(parts[1..]);
    assert TmpfsOption(parts[0], st).options == st.options + size by {
      TmpfsOptionParts(parts[0], st);
    }
    assert SizeOptions(parts) == size + rest;
    ConcatAssoc(st.options, size, rest);
  }

  lemma ConcatAssoc(a: seq<string>, b: seq<string>, c: seq<string>)
    ensures (a + b) + c == a + (b + c)
  {
  }

  /** One option's effect on the destination, in the terms of the
      reference definition. */
  lemma TmpfsDestinationStep(parts: seq<string>, st: TmpfsState)
    requires parts != []
    ensures LastDestination(parts[1..]).GetOr(TmpfsOption(parts[0], st).destination)
         == LastDestination(parts).GetOr(st.destination)
  {
    TmpfsOptionParts(parts[0], st);
  }

  lemma TmpfsOptionParts(part: string, st: TmpfsState)
    ensures TmpfsOption(part, st) == TmpfsState(DestinationOf(part).GetOr(st.destination), st.options + SizeOf(part))
  {
    match SplitOnce(part, '=')
    case None =>
      assert st.options + [] == st.options;
    case Some((k, v)) =>
      if IsDestinationKey(k) {
        assert k != "tmpfs-size";
        assert st.options + [] == st.options;
      } else if k != "tmpfs-size" {
        assert st.options + [] == st.options;
      }
  }

  /** `--mount type=tmpfs,destination=D,tmpfs-size=N` gives
      `D:rw,noexec,nosuid,size=N`. */
  lemma TmpfsShortSyntax(d: string, n: string)
    requires ',' !in d && ',' !in n
    ensures TmpfsEntry(Join(["type=tmpfs", "destination=" + d, "tmpfs-size=" + n], ","))
         == d + ":" + Join(["rw", "noexec", "nosuid", "size=" + n], ",")
  {
    TmpfsSplit(d, n);
    TmpfsThree(d, n);
    assert SecurityOptions + ["size=" + n] == ["rw", "noexec", "nosuid", "size=" + n];
  }

  lemma TmpfsSplit(d: string, n: string)
    requires ',' !in d && ',' !in n
    ensures var parts := ["type=tmpfs", "destination=" + d, "tmpfs-size=" + n];
            Split(Join(parts, ","), ',') == parts
  {
    var parts := ["type=tmpfs", "destination=" + d, "tmpfs-size=" + n];
    assert ',' !in parts[0] && ',' !in parts[1] && ',' !in parts[2];
    SplitJoin(parts, ',');
  }

  lemma TmpfsThree(d: string, n: string)
    ensures TmpfsScan(["type=tmpfs", "destination=" + d, "tmpfs-size=" + n], TmpfsStart) == TmpfsState(d, ["size=" + n])
  {
    var p1, p2, p3 := "type=tmpfs", "destination=" + d, "tmpfs-size=" + n;
    TmpfsScanThree(p1, p2, p3, TmpfsStart);
    TmpfsTypeOption(TmpfsStart);
    TmpfsDestinationOption(d, TmpfsStart);
    TmpfsSizeOption(n, TmpfsState(d, []));
    assert [] + ["size=" + n] == ["size=" + n];
  }

  lemma TmpfsScanThree(p1: string, p2: string, p3: string, st: TmpfsState)
    ensures TmpfsScan([p1, p2, p3], st) == TmpfsOption(p3, TmpfsOption(p2, TmpfsOption(p1, st)))
  {
    var parts := [p1, p2, p3];
    var s1 := TmpfsOption(p1, st);
    var s2 := TmpfsOption(p2, s1);
    assert parts[1..] == [p2, p3] && [p2, p3][1..] == [p3] && [p3][1..] == [];
    assert TmpfsScan([p3], s2) == TmpfsScan([], TmpfsOption(p3, s2));
    assert TmpfsScan([p2, p3], s1) == TmpfsScan([p3], s2);
    assert TmpfsScan(parts, st) == TmpfsScan([p2, p3], s1);
  }

  lemma TmpfsTypeOption(st: TmpfsState)
    ensures TmpfsOption("type=tmpfs", st) == st
  {
    TmpfsOtherOption("type", "tmpfs", st);
    assert "type" + "=" + "tmpfs" == "type=tmpfs";
  }

  /** An option whose key is neither a destination key nor `tmpfs-size`
      changes nothing. */
  lemma TmpfsOtherOption(k: string, v: string, st: TmpfsState)
    requires '=' !in k && !IsDestinationKey(k) && k != "tmpfs-size"
    ensures TmpfsOption(k + "=" + v, st) == st
  {
    SplitOnceAt(k, v, '=');
    assert k + ['='] + v == k + "=" + v;
  }

  lemma TmpfsDestinationOption(d: string, st: TmpfsState)
    ensures TmpfsOption("destination=" + d, st) == st.(destination := d)
  {
    SplitOnceAt("destination", d, '=');
    assert "destination" + ['='] + d == "destination=" + d;
  }

  lemma TmpfsSizeOption(n: string, st: TmpfsState)
    ensures TmpfsOption("tmpfs-size=" + n, st) == st.(options := st.options + ["size=" + n])
  {
    SplitOnceAt("tmpfs-size", n, '=');
    assert "tmpfs-size" + ['='] + n == "tmpfs-size=" + n;
  }

  // ---------------------------------------------------------------------
  // convert_mount_to_volume

  /** What the volume loop has collected. */
  datatype VolumeState = VolumeState(source: string, target: string, readonly: bool)

  const VolumeStart := VolumeState("", "", false)

  /** One option: `source=`, `target=` and `destination=` set their field,
      a bare `readonly` or `ro` sets the flag, anything else is ignored. */
  function VolumeOption(part: string, st: VolumeState): VolumeState {
    match StripPrefix(part, "source=")
    case Some(v) => st.(source := v)
    case None =>
      match StripPrefix(part, "target=")
      case Some(v) => st.(target := v)
      case None =>
        match StripPrefix(part, "destination=")
        case Some(v) => st.(target := v)
        case None => if part == "readonly" || part == "ro" then st.(readonly := true) else st
  }

  function VolumeScan(parts: seq<string>, st: VolumeState): VolumeState
    decreases |parts|
  {
    if parts == [] then st else VolumeScan(parts[1..], VolumeOption(parts[0], st))
  }

  /** The short syntax when both a source and a target were given, and the
      mount string unchanged otherwise. */
  function VolumeEntry(mount: string): string {
    var st := VolumeScan(Split(mount, ','), VolumeStart);
    if st.source != "" && st.target != "" then
      st.source + ":" + st.target + (if st.readonly then ":ro" else "")
    else mount
  }

  /** `convert_mount_to_volume`. */
  method ConvertMountToVolume(mount: string) returns (entry: string)
    ensures entry == VolumeEntry(mount)
  {
    var source := "";
    var target := "";
    var readonly := false;
    var parts := Split(mount, ',');
    var i := 0;
    while i < |parts|
      invariant 0 <= i <= |parts|
      invariant VolumeScan(parts[i..], VolumeState(source, target, readonly)) == VolumeScan(parts, VolumeStart)
    {
      assert parts[i..][1..] == parts[i + 1..];
      var part := parts[i];
      var s := StripPrefix(part, "source=");
      var t := StripPrefix(part, "target=");
      var d := StripPrefix(part, "destination=");
      if s.Some? {
        source := s.value;
      } else if t.Some? {
        target := t.value;
      } else if d.Some? {
        target := d.value;
      } else if part == "readonly" || part == "ro" {
        readonly := true;
      }
      i := i + 1;
    }
    assert parts[i..] == [];
    if source != "" && target != "" {
      if readonly {
        entry := source + ":" + target + ":ro";
      } else {
        entry := source + ":" + target;
      }
    } else {
      entry := mount;
    }
  }

  /** The read-only flag is set exactly when some option is a bare
      `readonly` or `ro` (or it was set before). */
  lemma {:induction false} VolumeScanReadonly(parts: seq<string>, st: VolumeState)
    ensures VolumeScan(parts, st).readonly <==>
            st.readonly || exists i :: 0 <= i < |parts| && (parts[i] == "readonly" || parts[i] == "ro")
    decreases |parts|
  {
    if parts != [] {
      var st1 := VolumeOption(parts[0], st);
      VolumeScanReadonly(parts[1..], st1);
      assert st1.readonly <==> st.readonly || parts[0] == "readonly" || parts[0] == "ro" by {
        if parts[0] == "readonly" {
          NotPrefixAt(parts[0], "source=", 0);
          NotPrefixAt(parts[0], "target=", 0);
          NotPrefixAt(parts[0], "destination=", 0);
        }
      }
      if exists i :: 0 <= i < |parts| && (parts[i] == "readonly" || parts[i] == "ro") {
        var i :| 0 <= i < |parts| && (parts[i] == "readonly" || parts[i] == "ro");
        if i > 0 {
          assert parts[1..][i - 1] == parts[i];
        }
      }
    }
  }

  /** The source one option sets, if it is a `source=` option. */
  function SourceOf(part: string): Option<string> {
    StripPrefix(part, "source=")
  }

  /** The target one option sets: `target=` and `destination=` both name
      it. */
  function TargetOf(part: string): Option<string> {
    match StripPrefix(part, "target=")
    case Some(v) => Some(v)
    case None => StripPrefix(part, "destination=")
  }

  predicate IsReadonlyOption(part: string) {
    part == "readonly" || part == "ro"
  }

  /** The value of the last `source=` option, if any: a reference
      definition of what the loop keeps. */
  function LastSource(parts: seq<string>): Option<string>
    decreases |parts|
  {
    if parts == [] then None
    else match LastSource(parts[1..])
      case Some(v) => Some(v)
      case None => SourceOf(parts[0])
  }

  /** The value of the last `target=` or `destination=` option, if any. */
  function LastTarget(parts: seq<string>): Option<string>
    decreases |parts|
  {
    if parts == [] then None
    else match LastTarget(parts[1..])
      case Some(v) => Some(v)
      case None => TargetOf(parts[0])
  }

  /** One option's effect, in the terms of the reference definitions: the
      three prefixes exclude each other and the read-only words. */
  lemma VolumeOptionParts(part: string, st: VolumeState)
    ensures VolumeOption(part, st) ==
            VolumeState(SourceOf(part).GetOr(st.source), TargetOf(part).GetOr(st.target), st.readonly || IsReadonlyOption(part))
  {
    if StartsWith(part, "source=") {
      assert part[..7][0] == part[0];
      NotPrefixAt(part, "target=", 0);
      NotPrefixAt(part, "destination=", 0);
      assert part[0] != "readonly"[0] && part[0] != "ro"[0];
    } else if StartsWith(part, "target=") {
      assert part[..7][0] == part[0];
      NotPrefixAt(part, "destination=", 0);
      assert part[0] != "readonly"[0] && part[0] != "ro"[0];
    } else if StartsWith(part, "destination=") {
      assert part[..12][0] == part[0];
      assert part[0] != "readonly"[0] && part[0] != "ro"[0];
    }
  }

  /** The loop keeps the last source and the last target, whichever of
      `target=` and `destination=` gave it. */
  lemma {:induction false} VolumeScanCollects(parts: seq<string>, st: VolumeState)
    ensures VolumeScan(parts, st).source == LastSource(parts).GetOr(st.source)
    ensures VolumeScan(parts, st).target == LastTarget(parts).GetOr(st.target)
    decreases |parts|
  {
    if parts != [] {
      var st1 := VolumeOption(parts[0], st);
      VolumeScanCollects(parts[1..], st1);
      VolumeOptionParts(parts[0], st);
      assert VolumeScan(parts, st) == VolumeScan(parts[1..], st1);
    }
  }

  /** What `convert_mount_to_volume` returns: `source:target[:ro]` from the
      last source, the last target and any read-only word, when both are
      non-empty, and the mount string unchanged otherwise. */
  lemma VolumeEntryCollects(mount: string)
    ensures var parts := Split(mount, ',');
            var src, dst := LastSource(parts).GetOr(""), LastTarget(parts).GetOr("");
            var ro := exists i :: 0 <= i < |parts| && IsReadonlyOption(parts[i]);
            VolumeEntry(mount) == if src != "" && dst != "" then src + ":" + dst + (if ro then ":ro" else "") else mount
  {
    var parts := Split(mount, ',');
    VolumeScanCollects(parts, VolumeStart);
    VolumeScanReadonly(parts, VolumeStart);
  }

  /** Without a non-empty source or target the mount string is kept as it
      is. */
  lemma VolumeFallback(mount: string)
    requires LastSource(Split(mount, ',')).GetOr("") == "" || LastTarget(Split(mount, ',')).GetOr("") == ""
    ensures VolumeEntry(mount) == mount
  {
    VolumeScanCollects(Split(mount, ','), VolumeStart);
  }

  /** `--mount type=K,source=S,target=T[,readonly]` gives `S:T[:ro]`. */
  lemma VolumeShortSyntax(kind: string, s: string, t: string, ro: bool)
    requires ',' !in kind && ',' !in s && ',' !in t && s != "" && t != ""
    ensures VolumeEntry(Join(["type=" + kind, "source=" + s, "target=" + t] + (if ro then ["readonly"] else []), ","))
         == s + ":" + t + (if ro then ":ro" else "")
  {
    var parts := ["type=" + kind, "source=" + s, "target=" + t] + (if ro then ["readonly"] else []);
    assert forall i :: 0 <= i < |parts| ==> ',' !in parts[i];
    SplitJoin(parts, ',');
    VolumeOptions(kind, s, t);
    var st3 := VolumeState(s, t, false);
    VolumeScanThree(parts, VolumeStart);
    if ro {
      assert parts[3..] == ["readonly"] && parts[3..][1..] == [];
      VolumeReadonlyOption(st3);
      assert VolumeScan(parts[3..], st3) == VolumeScan([], VolumeState(s, t, true));
    } else {
      assert parts[3..] == [];
    }
  }

  /** The first three options of such a mount set the source and the
      target and nothing else. */
  lemma VolumeOptions(kind: string, s: string, t: string)
    ensures var st1 := VolumeOption("type=" + kind, VolumeStart);
            var st2 := VolumeOption("source=" + s, st1);
            st1 == VolumeStart && st2 == VolumeState(s, "", false)
            && VolumeOption("target=" + t, st2) == VolumeState(s, t, false)
  {
    var p1, p2, p3 := "type=" + kind, "source=" + s, "target=" + t;
    assert p1[0] == 't' && p1[1] == 'y' && p2[0] == 's' && p3[0] == 't';
    NotPrefixAt(p1, "source=", 0);
    NotPrefixAt(p1, "target=", 1);
    NotPrefixAt(p1, "destination=", 0);
    assert StartsWith(p2, "source=") && p2[|"source="|..] == s;
    NotPrefixAt(p3, "source=", 0);
    assert StartsWith(p3, "target=") && p3[|"target="|..] == t;
  }

  lemma VolumeReadonlyOption(st: VolumeState)
    ensures VolumeOption("readonly", st) == st.(readonly := true)
  {
    NotPrefixAt("readonly", "source=", 0);
    NotPrefixAt("readonly", "target=", 0);
    NotPrefixAt("readonly", "destination=", 0);
  }

  /** The first three options are scanned one after the other. */
  lemma VolumeScanThree(parts: seq<string>, st: VolumeState)
    requires |parts| >= 3
    ensures VolumeScan(parts, st) ==
            VolumeScan(parts[3..], VolumeOption(parts[2], VolumeOption(parts[1], VolumeOption(parts[0], st))))
  {
    var s1 := VolumeOption(parts[0], st);
    var s2 := VolumeOption(parts[1], s1);
    assert parts[1..][0] == parts[1] && parts[1..][1..][0] == parts[2];
    assert parts[1..][1..][1..] == parts[3..];
    assert VolumeScan(parts[1..][1..], s2) == VolumeScan(parts[3..], VolumeOption(parts[2], s2));
    assert VolumeScan(parts[1..], s1) == VolumeScan(parts[1..][1..], s2);
  }
}
