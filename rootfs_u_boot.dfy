/** The `rootfs-u-boot` wic source plugin: before handing a partition to the
    plain `rootfs` plugin, it resolves the root filesystem directory, picks
    the root device, rewrites `etc/default/u-boot-script` inside that tree,
    runs `update-u-boot-script` there under chroot (with a qemu user-mode
    binary copied in for foreign architectures), and fixes timestamps for
    reproducible builds.

    The host is a `Host` object: regular files with their contents, the set
    of directories, and a log of what was run. `get_bitbake_var`, the
    `qemu-*-static` glob, the failing commands and `SOURCE_DATE_EPOCH` come
    in as parameters. */
module RootfsUBoot {
  import opened Text
  import ScriptPrepend

  datatype Error =
    | NoRootfsDir                      // `--rootfs-dir` missing and no ROOTFS_DIR
    | InvalidRootfsDir(key: string)    // empty `--rootfs-dir` that names nothing
    | NoImageRootfs(name: string)      // IMAGE_ROOTFS of the named image is no directory
    | UndefinedName(name: string)      // Python `NameError`
    | RootNotDefined                   // no root device anywhere
    | PackageNotInstalled              // no `etc/default/u-boot-script` in the tree
    | OpenFailed(path: string)         // `open(path, 'w')` on a directory
    | CommandFailed(cmd: string)       // `exec_cmd` saw a non-zero exit
    | BadEpoch(value: string)          // `int()` rejected SOURCE_DATE_EPOCH

  datatype Outcome = Done | Failed(error: Error)

  /** What the plugin reads of `part`. */
  datatype Partition = Partition(rootfsDir: Option<string>, realnum: int)

  /** What the plugin reads of `cr`: a root device it may already know
      (`cr.rootdev`) and the `bootloader --append` string. */
  datatype Creator = Creator(rootdev: Option<string>, append: Option<string>)

  const DefaultRootfsKey := "ROOTFS_DIR"
  const ConfigRelPath := "etc/default/u-boot-script"
  const Header := "# Generated by wic, rootfs-u-boot plugin"

  /** Python truthiness of an optional string. */
  predicate Truthy(o: Option<string>)
  {
    o.Some? && o.value != ""
  }

  /** `x or ""`. */
  function OrEmpty(o: Option<string>): string
  {
    if Truthy(o) then o.value else ""
  }

  /** `source_params.get(key) or ''`. */
  function Param(params: map<string, string>, key: string): string
  {
    if key in params then params[key] else ""
  }

  /** `os.path.join(a, b)`. */
  function PathJoin(a: string, b: string): (r: string)
    ensures b != [] && b[0] != '/' ==> |a| <= |r| && r[..|a|] == a
    ensures |b| <= |r| && r[|r| - |b|..] == b
  {
    if b != [] && b[0] == '/' then b
    else if a == [] || a[|a| - 1] == '/' then a + b
    else a + "/" + b
  }

  // ---- which tree, which root device -----------------------------------

  /** The rootfs directory named by `--rootfs-dir`: with no option the
      ROOTFS_DIR entry must exist; a key the map knows gives the map's value;
      any other non-empty key is taken as a path itself; an empty key that
      the map does not know is an error. */
  function ResolveRootfsKey(rootfsDir: Option<string>, krootfsDir: map<string, string>): (r: Result<string, Error>)
    ensures rootfsDir.None? ==>
      r == if DefaultRootfsKey in krootfsDir then Ok(krootfsDir[DefaultRootfsKey]) else Err(NoRootfsDir)
    ensures rootfsDir.Some? ==> (r.Err? <==> rootfsDir.value !in krootfsDir && rootfsDir.value == "")
    ensures rootfsDir.Some? && rootfsDir.value in krootfsDir ==> r == Ok(krootfsDir[rootfsDir.value])
    ensures rootfsDir.Some? && rootfsDir.value !in krootfsDir && rootfsDir.value != "" ==> r == Ok(rootfsDir.value)
    ensures r.Ok? ==> r.value in krootfsDir.Values || (rootfsDir.Some? && r.value == rootfsDir.value != "")
  {
    match rootfsDir
    case None =>
      if DefaultRootfsKey !in krootfsDir then Err(NoRootfsDir) else Ok(krootfsDir[DefaultRootfsKey])
    case Some(key) =>
      if key in krootfsDir then Ok(krootfsDir[key])
      else if key != "" then Ok(key)
      else Err(InvalidRootfsDir(key))
  }

  /** The tree to work on: the resolved value when it is a directory,
      otherwise the IMAGE_ROOTFS that `get_bitbake_var` reports for it taken
      as an image name (`imageRootfs`, absent when bitbake has none), which
      must be a directory. */
  function ResolveRealRootfs(rootfsDir: string, dirs: set<string>, imageRootfs: map<string, string>): (r: Result<string, Error>)
    ensures r.Ok? ==> r.value in dirs
    ensures rootfsDir in dirs ==> r == Ok(rootfsDir)
    ensures rootfsDir !in dirs ==>
      (r.Ok? <==> rootfsDir in imageRootfs && imageRootfs[rootfsDir] in dirs)
    ensures rootfsDir !in dirs && r.Ok? ==> r.value == imageRootfs[rootfsDir]
  {
    if rootfsDir in dirs then Ok(rootfsDir)
    else if rootfsDir in imageRootfs && imageRootfs[rootfsDir] in dirs then Ok(imageRootfs[rootfsDir])
    else Err(NoImageRootfs(rootfsDir))
  }

  /** The same step as the file stands: `get_bitbake_var` is neither
      defined nor imported there, so every rootfs value that is not a
      directory ends in `NameError`. */
  function ResolveRealRootfsAsWritten(rootfsDir: string, dirs: set<string>): (r: Result<string, Error>)
    ensures r.Ok? <==> rootfsDir in dirs
    ensures r.Err? ==> r.error == UndefinedName("get_bitbake_var")
  {
    if rootfsDir in dirs then Ok(rootfsDir) else Err(UndefinedName("get_bitbake_var"))
  }

  /** An image name whose IMAGE_ROOTFS is a directory: resolved by the
      corrected step, rejected by the step as written. */
  lemma ImageNameFallbackUnreachable()
    ensures ResolveRealRootfs("isar-image-base", {"/build/tmp/rootfs"},
                              map["isar-image-base" := "/build/tmp/rootfs"]) == Ok("/build/tmp/rootfs")
    ensures ResolveRealRootfsAsWritten("isar-image-base", {"/build/tmp/rootfs"}).Err?
  {
    assert "isar-image-base" != "/build/tmp/rootfs";
  }

  /** The root device: a known `cr.rootdev` is used verbatim; otherwise the
      `root` source parameter must be non-empty and every `:` in it becomes
      `=`. */
  function RootDevice(rootdev: Option<string>, params: map<string, string>): (r: Result<string, Error>)
    ensures Truthy(rootdev) ==> r == Ok(rootdev.value)
    ensures !Truthy(rootdev) ==> (r.Err? <==> Param(params, "root") == "")
    ensures r.Err? ==> r.error == RootNotDefined
    ensures !Truthy(rootdev) && r.Ok? ==>
      && ':' !in r.value
      && |r.value| == |params["root"]|
      && forall i :: 0 <= i < |r.value| ==>
           r.value[i] == if params["root"][i] == ':' then '=' else params["root"][i]
  {
    if Truthy(rootdev) then Ok(rootdev.value)
    else if Param(params, "root") == "" then Err(RootNotDefined)
    else Ok(ReplaceChar(params["root"], ':', '='))
  }

  lemma RootDeviceExample()
    ensures RootDevice(None, map["root" := "PARTLABEL:root"]) == Ok("PARTLABEL=root")
    ensures RootDevice(Some("/dev/mmcblk0p3:ro"), map[]) == Ok("/dev/mmcblk0p3:ro")
  {
    var r := RootDevice(None, map["root" := "PARTLABEL:root"]);
    assert r.value == "PARTLABEL=root";
  }

  // ---- the configuration file ------------------------------------------

  datatype Setting = Setting(key: string, value: string)

  const Keys: seq<string> :=
    ["ROOT_PARTITION", "KERNEL_ARGS", "NO_INITRD", "OVERLAYS", "BUILTIN_DT", "SCRIPT_PREPEND"]

  /** The six settings, in the order they are written. */
  function Settings(realnum: int, rootDev: string, append: Option<string>, params: map<string, string>): (r: seq<Setting>)
    ensures |r| == |Keys| && forall i :: 0 <= i < |Keys| ==> r[i].key == Keys[i]
  {
    [ Setting("ROOT_PARTITION", DecimalString(realnum)),
      Setting("KERNEL_ARGS", "root=" + rootDev + " " + OrEmpty(append)),
      Setting("NO_INITRD", Param(params, "no_initrd")),
      Setting("OVERLAYS", Param(params, "overlays")),
      Setting("BUILTIN_DT", Param(params, "builtin_dt")),
      Setting("SCRIPT_PREPEND", ScriptPrepend.EscapeScript(Param(params, "script_prepend"))) ]
  }

  /** `KEY="value"`. */
  function SettingLine(s: Setting): string
  {
    s.key + "=\"" + s.value + "\""
  }

  function ConfigLines(realnum: int, rootDev: string, append: Option<string>, params: map<string, string>): (r: seq<string>)
    ensures |r| == 7 && r[0] == Header
  {
    var s := Settings(realnum, rootDev, append, params);
    [Header, SettingLine(s[0]), SettingLine(s[1]), SettingLine(s[2]),
     SettingLine(s[3]), SettingLine(s[4]), SettingLine(s[5])]
  }

  /** The new contents of `etc/default/u-boot-script`. */
  function ConfigText(realnum: int, rootDev: string, append: Option<string>, params: map<string, string>): string
  {
    Unlines(ConfigLines(realnum, rootDev, append, params))
  }

  /** `line` has the shape `key="…"`. */
  predicate QuotedLine(line: string, key: string)
  {
    |key| + 3 <= |line| && line[..|key| + 2] == key + "=\"" && line[|line| - 1] == '"'
  }

  /** The text between the quotes of a `key="…"` line. */
  function LineValue(line: string, key: string): string
    requires QuotedLine(line, key)
  {
    line[|key| + 2..|line| - 1]
  }

  lemma SettingLineReads(st: Setting)
    ensures QuotedLine(SettingLine(st), st.key)
    ensures LineValue(SettingLine(st), st.key) == st.value
  {
    var line := SettingLine(st);
    assert line[..|st.key| + 2] == st.key + "=\"";
    assert line[|st.key| + 2..|line| - 1] == st.value;
  }

  /** The file is the header and then one `KEY="value"` line per key, in the
      fixed order, and nothing else; each value reads back from its line. */
  lemma ConfigShape(realnum: int, rootDev: string, append: Option<string>, params: map<string, string>)
    ensures var ls := ConfigLines(realnum, rootDev, append, params);
      var s := Settings(realnum, rootDev, append, params);
      && |ls| == 7
      && ls[0] == Header
      && forall i :: 1 <= i < 7 ==>
           QuotedLine(ls[i], Keys[i - 1]) && LineValue(ls[i], Keys[i - 1]) == s[i - 1].value
  {
    var ls := ConfigLines(realnum, rootDev, append, params);
    var s := Settings(realnum, rootDev, append, params);
    assert forall i :: 0 <= i < 6 ==> s[i].key == Keys[i];
    SettingLinesRead(s, ls);
  }

  lemma SettingLinesRead(s: seq<Setting>, ls: seq<string>)
    requires |s| == 6 && |ls| == 7
    requires forall i :: 1 <= i < 7 ==> ls[i] == SettingLine(s[i - 1])
    ensures forall i :: 1 <= i < 7 ==>
      QuotedLine(ls[i], s[i - 1].key) && LineValue(ls[i], s[i - 1].key) == s[i - 1].value
  {
    forall i | 1 <= i < 7
      ensures QuotedLine(ls[i], s[i - 1].key) && LineValue(ls[i], s[i - 1].key) == s[i - 1].value
    {
      SettingLineReads(s[i - 1]);
    }
  }

  /** The source parameters copied verbatim, in the order of their
      settings (the third to the fifth). */
  const CopiedParams: seq<string> := ["no_initrd", "overlays", "builtin_dt"]

  /** ROOT_PARTITION reads back as the partition number; KERNEL_ARGS is
      `root=`, the device, a space and the append string (so it ends in a
      space when there is none). */
  lemma ConfigValues(realnum: int, rootDev: string, append: Option<string>, params: map<string, string>)
    ensures var s := Settings(realnum, rootDev, append, params);
      && ParseInt(s[0].value) == Some(realnum)
      && (Truthy(append) ==> s[1].value == "root=" + rootDev + " " + append.value)
      && (!Truthy(append) ==> s[1].value == "root=" + rootDev + " ")
  {
    var s := Settings(realnum, rootDev, append, params);
    assert s[1].value == ("root=" + rootDev + " ") + OrEmpty(append);
  }

  /** The next three values are the source parameters verbatim, empty when
      absent; SCRIPT_PREPEND is the escaped parameter, empty when absent. */
  lemma ConfigParams(realnum: int, rootDev: string, append: Option<string>, params: map<string, string>)
    ensures var s := Settings(realnum, rootDev, append, params);
      && (forall i :: 2 <= i < 5 && CopiedParams[i - 2] in params ==> s[i].value == params[CopiedParams[i - 2]])
      && (forall i :: 2 <= i < 5 && CopiedParams[i - 2] !in params ==> s[i].value == "")
      && ("script_prepend" in params ==> s[5].value == ScriptPrepend.EscapeScript(params["script_prepend"]))
      && ("script_prepend" !in params ==> s[5].value == "")
  {
    assert ScriptPrepend.EscapeScript("") == "";
  }

  /** Partition 1, root device `LABEL=rootfs`, only `overlays` given. */
  lemma ConfigExample()
    ensures Settings(1, "LABEL=rootfs", None, map["overlays" := "a.dtbo b.dtbo"]) ==
      [ Setting("ROOT_PARTITION", "1"),
        Setting("KERNEL_ARGS", "root=LABEL=rootfs "),
        Setting("NO_INITRD", ""),
        Setting("OVERLAYS", "a.dtbo b.dtbo"),
        Setting("BUILTIN_DT", ""),
        Setting("SCRIPT_PREPEND", "") ]
  {
    var params := map["overlays" := "a.dtbo b.dtbo"];
    assert DigitChar(1) == '1';
    assert DecimalString(1) == "1";
    assert "no_initrd" !in params && "builtin_dt" !in params && "script_prepend" !in params;
    assert Param(params, "overlays") == "a.dtbo b.dtbo";
    assert "root=" + "LABEL=rootfs" + " " + "" == "root=LABEL=rootfs ";
    assert ScriptPrepend.EscapeScript("") == "";
  }

  // ---- commands, timestamps, delegation ------------------------------

  datatype Event =
    | Run(cmd: string)                   // `exec_cmd(cmd)`
    | SetTimes(path: string, time: int)  // `os.utime(path, (time, time))`
    | PopulateRootfs                     // `RootfsPlugin.do_prepare_partition(...)`

  /** `results[0] if len(results) > 0 else None`, with "" for None. */
  function QemuStatic(matches: seq<string>): string
  {
    if |matches| > 0 then matches[0] else ""
  }

  function CopyCommand(qemu: string, root: string): string
  {
    "cp -L " + qemu + " " + root + "/usr/bin"
  }

  function UpdateCommand(root: string): string
  {
    "chroot " + root + " sh -c update-u-boot-script"
  }

  function RemoveCommand(qemu: string, root: string): string
  {
    "rm -f " + RemoveTarget(qemu, root)
  }

  /** The path `rm` is given: the tree's `usr/bin/` followed by the whole
      glob result. */
  function RemoveTarget(qemu: string, root: string): string
  {
    root + "/usr/bin/" + qemu
  }

  /** The last component of a path. */
  function Basename(p: string): (r: string)
    ensures '/' !in r
    ensures |r| <= |p|
  {
    if p == [] then []
    else if p[|p| - 1] == '/' then []
    else Basename(p[..|p| - 1]) + [p[|p| - 1]]
  }

  /** Where `cp -L qemu root/usr/bin` puts the binary. */
  function CopyDestination(qemu: string, root: string): string
  {
    root + "/usr/bin/" + Basename(qemu)
  }

  /** The glob yields absolute paths, so the file `rm` removes is never the
      one `cp` created: the copied binary stays in the tree. */
  lemma RemovedPathIsNotCopiedPath(qemu: string, root: string)
    requires qemu != [] && qemu[0] == '/'
    ensures RemoveTarget(qemu, root) != CopyDestination(qemu, root)
  {
    var n := |root| + 9;
    var b := Basename(qemu);
    assert RemoveTarget(qemu, root)[n] == '/';
    if |b| > 0 {
      assert CopyDestination(qemu, root)[n] == b[0];
      assert b[0] in b;
    }
  }

  /** The commands, in order: copy qemu in, update, remove qemu. */
  function Commands(qemu: string, root: string): seq<string>
  {
    (if qemu != "" then [CopyCommand(qemu, root)] else [])
    + [UpdateCommand(root)]
    + (if qemu != "" then [RemoveCommand(qemu, root)] else [])
  }

  /** The update always runs; the copy before it and the removal after it
      exactly when a qemu binary was found. */
  lemma CommandsOrder(qemu: string, root: string)
    ensures var cmds := Commands(qemu, root);
      && UpdateCommand(root) in cmds
      && (qemu == "" <==> |cmds| == 1)
      && (qemu != "" ==> cmds[0] == CopyCommand(qemu, root) && cmds[|cmds| - 1] == RemoveCommand(qemu, root))
  {
    var cmds := Commands(qemu, root);
    if qemu == "" {
      assert cmds[0] == UpdateCommand(root);
    } else {
      assert cmds[1] == UpdateCommand(root);
    }
  }

  datatype Trace = Trace(events: seq<Event>, outcome: Outcome)

  /** Runs commands in order; the first one that fails raises, so none after
      it runs. */
  function RunAll(cmds: seq<string>, failing: set<string>): (t: Trace)
    ensures |t.events| <= |cmds|
    ensures forall i :: 0 <= i < |t.events| ==> t.events[i] == Run(cmds[i])
    ensures t.outcome.Done? <==> forall i :: 0 <= i < |cmds| ==> cmds[i] !in failing
    ensures t.outcome.Done? ==> |t.events| == |cmds|
    ensures t.outcome.Failed? ==>
      && |t.events| >= 1
      && t.outcome.error == CommandFailed(cmds[|t.events| - 1])
      && cmds[|t.events| - 1] in failing
      && forall i :: 0 <= i < |t.events| - 1 ==> cmds[i] !in failing
  {
    if cmds == [] then Trace([], Done)
    else if cmds[0] in failing then Trace([Run(cmds[0])], Failed(CommandFailed(cmds[0])))
    else
      var rest := RunAll(cmds[1..], failing);
      Trace([Run(cmds[0])] + rest.events, rest.outcome)
  }

  /** Each command as it is run. */
  function Runs(cmds: seq<string>): seq<Event>
  {
    if cmds == [] then [] else [Run(cmds[0])] + Runs(cmds[1..])
  }

  /** With none of them failing, every command runs and the step succeeds. */
  lemma {:induction false} RunAllPasses(cmds: seq<string>, failing: set<string>)
    requires forall i :: 0 <= i < |cmds| ==> cmds[i] !in failing
    ensures RunAll(cmds, failing) == Trace(Runs(cmds), Done)
  {
    if cmds != [] {
      RunAllPasses(cmds[1..], failing);
    }
  }

  /** The first failing command is the last one run, and its failure is the
      outcome. */
  lemma {:induction false} RunAllStops(cmds: seq<string>, failing: set<string>, k: nat)
    requires k < |cmds| && cmds[k] in failing
    requires forall i :: 0 <= i < k ==> cmds[i] !in failing
    ensures RunAll(cmds, failing) == Trace(Runs(cmds[..k + 1]), Failed(CommandFailed(cmds[k])))
  {
    if k > 0 {
      RunAllStops(cmds[1..], failing, k - 1);
      assert cmds[..k + 1][1..] == cmds[1..][..k];
    } else {
      assert Runs(cmds[..1]) == [Run(cmds[0])] + Runs([]);
    }
  }

  function TimeEvents(cfgPath: string, root: string, time: int): seq<Event>
  {
    [SetTimes(cfgPath, time), SetTimes(PathJoin(root, "boot/boot.scr"), time), SetTimes(PathJoin(root, "tmp"), time)]
  }

  /** What follows the commands: timestamps when SOURCE_DATE_EPOCH is set
      (and must then parse), then the plain rootfs plugin. */
  function Epilogue(root: string, cfgPath: string, epoch: string): (t: Trace)
    ensures t.outcome.Done? <==> epoch == "" || ParseInt(epoch).Some?
    ensures t.outcome.Done? ==> |t.events| > 0 && t.events[|t.events| - 1] == PopulateRootfs
    ensures t.outcome.Failed? ==> t.events == [] && t.outcome.error == BadEpoch(epoch)
  {
    if epoch == "" then Trace([PopulateRootfs], Done)
    else match ParseInt(epoch)
      case None => Trace([], Failed(BadEpoch(epoch)))
      case Some(t) => Trace(TimeEvents(cfgPath, root, t) + [PopulateRootfs], Done)
  }

  /** Everything after the file is written. */
  function Finish(root: string, cfgPath: string, qemuMatches: seq<string>, failing: set<string>, epoch: string): Trace
  {
    var ran := RunAll(Commands(QemuStatic(qemuMatches), root), failing);
    if ran.outcome.Failed? then ran
    else
      var tail := Epilogue(root, cfgPath, epoch);
      Trace(ran.events + tail.events, tail.outcome)
  }

  lemma CommandsDiffer(qemu: string, root: string)
    ensures CopyCommand(qemu, root) != UpdateCommand(root)
    ensures RemoveCommand(qemu, root) != UpdateCommand(root)
    ensures RemoveCommand(qemu, root) != CopyCommand(qemu, root)
  {
    assert CopyCommand(qemu, root)[1] == 'p';
    assert UpdateCommand(root)[1] == 'h';
    assert RemoveCommand(qemu, root)[0] == 'r';
    assert CopyCommand(qemu, root)[0] == 'c';
  }

  /** When nothing fails: with a qemu binary the copy, the update and the
      removal run in that order, without one only the update runs; then come
      the timestamps exactly when SOURCE_DATE_EPOCH is set, and the plain
      rootfs plugin last. */
  lemma {:induction false} FinishWhenNothingFails(root: string, cfgPath: string, qemuMatches: seq<string>,
                                                  failing: set<string>, epoch: string)
    requires forall c :: c in Commands(QemuStatic(qemuMatches), root) ==> c !in failing
    requires epoch == "" || ParseInt(epoch).Some?
    ensures var t := Finish(root, cfgPath, qemuMatches, failing, epoch);
      var q := QemuStatic(qemuMatches);
      var runs := if q != "" then [Run(CopyCommand(q, root)), Run(UpdateCommand(root)), Run(RemoveCommand(q, root))]
                  else [Run(UpdateCommand(root))];
      && t.outcome == Done
      && t.events == runs
           + (if epoch == "" then [] else TimeEvents(cfgPath, root, ParseInt(epoch).value))
           + [PopulateRootfs]
  {
    var q := QemuStatic(qemuMatches);
    var cmds := Commands(q, root);
    var ran := RunAll(cmds, failing);
    assert forall i :: 0 <= i < |cmds| ==> cmds[i] !in failing by {
      forall i | 0 <= i < |cmds| ensures cmds[i] !in failing {
        assert cmds[i] in cmds;
      }
    }
    assert |ran.events| == |cmds|;
    if q != "" {
      assert ran.events == [Run(CopyCommand(q, root)), Run(UpdateCommand(root)), Run(RemoveCommand(q, root))];
    } else {
      assert ran.events == [Run(UpdateCommand(root))];
    }
  }

  /** There is no try/finally: when the update fails after a successful
      copy, the qemu binary is not removed, nothing is timestamped and the
      rootfs plugin does not run. */
  lemma UpdateFailureSkipsRemoval(root: string, cfgPath: string, qemuMatches: seq<string>,
                                  failing: set<string>, epoch: string)
    requires UpdateCommand(root) in failing
    requires QemuStatic(qemuMatches) == "" || CopyCommand(QemuStatic(qemuMatches), root) !in failing
    ensures var t := Finish(root, cfgPath, qemuMatches, failing, epoch);
      && t.outcome == Failed(CommandFailed(UpdateCommand(root)))
      && Run(RemoveCommand(QemuStatic(qemuMatches), root)) !in t.events
      && PopulateRootfs !in t.events
      && forall e :: e in t.events ==> e.Run?
  {
    var q := QemuStatic(qemuMatches);
    var cmds := Commands(q, root);
    var t := RunAll(cmds, failing);
    CommandsDiffer(q, root);
    if q != "" {
      assert cmds[0] !in failing && cmds[1] in failing;
      assert |t.events| == 2;
      assert t.events == [Run(CopyCommand(q, root)), Run(UpdateCommand(root))];
    } else {
      assert cmds[0] in failing;
      assert t.events == [Run(UpdateCommand(root))];
    }
  }

  /** The plain rootfs plugin runs if and only if everything before it
      succeeded, and then as the very last step. */
  lemma PopulateRunsLast(root: string, cfgPath: string, qemuMatches: seq<string>,
                         failing: set<string>, epoch: string)
    ensures var t := Finish(root, cfgPath, qemuMatches, failing, epoch);
      && (t.outcome.Done? <==> PopulateRootfs in t.events)
      && (t.outcome.Done? ==> t.events[|t.events| - 1] == PopulateRootfs)
      && forall i :: 0 <= i < |t.events| - 1 ==> t.events[i] != PopulateRootfs
  {
    var cmds := Commands(QemuStatic(qemuMatches), root);
    var ran := RunAll(cmds, failing);
    assert forall e :: e in ran.events ==> e.Run?;
  }

  /** Timestamps are only ever set when SOURCE_DATE_EPOCH is set and parses
      as an integer, and then on the three fixed paths with that time. */
  lemma TimesNeedEpoch(root: string, cfgPath: string, qemuMatches: seq<string>,
                       failing: set<string>, epoch: string)
    ensures var t := Finish(root, cfgPath, qemuMatches, failing, epoch);
      forall i :: 0 <= i < |t.events| && t.events[i].SetTimes? ==>
        && epoch != ""
        && ParseInt(epoch).Some?
        && t.events[i] in TimeEvents(cfgPath, root, ParseInt(epoch).value)
  {
    var cmds := Commands(QemuStatic(qemuMatches), root);
    var ran := RunAll(cmds, failing);
    assert forall e :: e in ran.events ==> e.Run?;
  }

  // ---- the host and the procedure ------------------------------------

  class Host {
    var files: map<string, string>
    var dirs: set<string>
    var log: seq<Event>

    constructor (files: map<string, string>, dirs: set<string>)
      ensures this.files == files && this.dirs == dirs && log == []
    {
      this.files := files;
      this.dirs := dirs;
      log := [];
    }

    /** `open(path, 'w')`: truncates the file; refused for a directory. */
    method Open(path: string) returns (ok: bool)
      modifies this
      ensures ok == (path !in old(dirs))
      ensures files == if ok then old(files)[path := ""] else old(files)
      ensures dirs == old(dirs) && log == old(log)
    {
      ok := path !in dirs;
      if ok {
        files := files[path := ""];
      }
    }

    /** `cfg.write(text)`. */
    method Write(path: string, text: string)
      requires path in files
      modifies this
      ensures files == old(files)[path := old(files)[path] + text]
      ensures dirs == old(dirs) && log == old(log)
    {
      files := files[path := files[path] + text];
    }

    /** `exec_cmd(cmd)`: the command runs and succeeds unless it is one of
        `failing`. What the command does to the tree is not modelled. */
    method Exec(cmd: string, failing: set<string>) returns (ok: bool)
      modifies this
      ensures ok == (cmd !in failing)
      ensures log == old(log) + [Run(cmd)]
      ensures files == old(files) && dirs == old(dirs)
    {
      log := log + [Run(cmd)];
      ok := cmd !in failing;
    }

    method Utime(path: string, time: int)
      modifies this
      ensures log == old(log) + [SetTimes(path, time)]
      ensures files == old(files) && dirs == old(dirs)
    {
      log := log + [SetTimes(path, time)];
    }

    /** Hands over to `RootfsPlugin.do_prepare_partition`. */
    method Populate()
      modifies this
      ensures log == old(log) + [PopulateRootfs]
      ensures files == old(files) && dirs == old(dirs)
    {
      log := log + [PopulateRootfs];
    }
  }

  datatype Plan = Plan(root: string, rootDev: string, cfgPath: string)

  /** Every check that comes before the file is opened: rootfs, root device,
      presence of the configuration file, and that it can be opened. */
  function Preflight(part: Partition, params: map<string, string>, cr: Creator,
                     krootfsDir: map<string, string>, imageRootfs: map<string, string>,
                     files: map<string, string>, dirs: set<string>): (r: Result<Plan, Error>)
    ensures r.Ok? ==> r.value.root in dirs && r.value.cfgPath in files && r.value.cfgPath !in dirs
    ensures r.Ok? ==> r.value.cfgPath == PathJoin(r.value.root, ConfigRelPath)
    ensures r.Ok? ==> RootDevice(cr.rootdev, params) == Ok(r.value.rootDev)
    ensures RootDevice(cr.rootdev, params).Err? ==> r.Err?
    ensures r.Ok? ==> ResolveRootfsKey(part.rootfsDir, krootfsDir).Ok? &&
                      ResolveRealRootfs(ResolveRootfsKey(part.rootfsDir, krootfsDir).value, dirs, imageRootfs) == Ok(r.value.root)
    ensures ResolveRootfsKey(part.rootfsDir, krootfsDir).Err? ==> r == Err(ResolveRootfsKey(part.rootfsDir, krootfsDir).error)
    ensures var key := ResolveRootfsKey(part.rootfsDir, krootfsDir);
      key.Ok? && ResolveRealRootfs(key.value, dirs, imageRootfs).Err? ==>
        r == Err(ResolveRealRootfs(key.value, dirs, imageRootfs).error)
    ensures var key := ResolveRootfsKey(part.rootfsDir, krootfsDir);
      key.Ok? && ResolveRealRootfs(key.value, dirs, imageRootfs).Ok? && RootDevice(cr.rootdev, params).Err? ==>
        r == Err(RootNotDefined)
    ensures var key := ResolveRootfsKey(part.rootfsDir, krootfsDir);
      var tree := if key.Ok? then ResolveRealRootfs(key.value, dirs, imageRootfs) else Err(key.error);
      var cfgPath := if tree.Ok? then PathJoin(tree.value, ConfigRelPath) else "";
      tree.Ok? && RootDevice(cr.rootdev, params).Ok? ==>
        (r.Ok? <==> cfgPath in files && cfgPath !in dirs) &&
        (cfgPath !in files && cfgPath !in dirs ==> r == Err(PackageNotInstalled)) &&
        (cfgPath in dirs ==> r == Err(OpenFailed(cfgPath)))
  {
    var key := ResolveRootfsKey(part.rootfsDir, krootfsDir);
    if key.Err? then Err(key.error)
    else
      var tree := ResolveRealRootfs(key.value, dirs, imageRootfs);
      if tree.Err? then Err(tree.error)
      else
        var dev := RootDevice(cr.rootdev, params);
        if dev.Err? then Err(dev.error)
        else
          var cfgPath := PathJoin(tree.value, ConfigRelPath);
          if cfgPath !in files && cfgPath !in dirs then Err(PackageNotInstalled)
          else if cfgPath in dirs then Err(OpenFailed(cfgPath))
          else Ok(Plan(tree.value, dev.value, cfgPath))
  }

  /** One `cfg.write(line + "\n")` on a file that so far holds `done`. */
  method WriteLine(host: Host, path: string, ghost done: seq<string>, line: string)
    requires path in host.files && host.files[path] == Unlines(done)
    modifies host
    ensures host.files == old(host.files)[path := Unlines(done + [line])]
    ensures host.dirs == old(host.dirs) && host.log == old(host.log)
  {
    host.Write(path, line + "\n");
    UnlinesSnoc(done, line);
    assert old(host.files)[path] + (line + "\n") == Unlines(done + [line]);
  }

  /** Three writes, one line each, after the lines `done`. */
  method WriteThreeLines(host: Host, path: string, ghost done: seq<string>, a: string, b: string, c: string)
    requires path in host.files && host.files[path] == Unlines(done)
    modifies host
    ensures host.files == old(host.files)[path := Unlines(done + [a, b, c])]
    ensures host.dirs == old(host.dirs) && host.log == old(host.log)
  {
    WriteLine(host, path, done, a);
    WriteLine(host, path, done + [a], b);
    WriteLine(host, path, done + [a] + [b], c);
    assert done + [a] + [b] + [c] == done + [a, b, c];
  }

  /** Lines 77-95: the header and the six settings, one write each. */
  method WriteConfig(host: Host, path: string, realnum: int, rootDev: string,
                     append: Option<string>, params: map<string, string>)
    requires path in host.files && host.files[path] == ""
    modifies host
    ensures host.files == old(host.files)[path := ConfigText(realnum, rootDev, append, params)]
    ensures host.dirs == old(host.dirs) && host.log == old(host.log)
  {
    ghost var ls := ConfigLines(realnum, rootDev, append, params);
    var s := Settings(realnum, rootDev, append, params);
    assert Unlines([]) == "";
    WriteLine(host, path, [], Header);
    WriteThreeLines(host, path, [Header], SettingLine(s[0]), SettingLine(s[1]), SettingLine(s[2]));
    assert [Header] + [SettingLine(s[0]), SettingLine(s[1]), SettingLine(s[2])] == ls[..4];
    WriteThreeLines(host, path, ls[..4], SettingLine(s[3]), SettingLine(s[4]), SettingLine(s[5]));
    assert ls[..4] + [SettingLine(s[3]), SettingLine(s[4]), SettingLine(s[5])] == ls;
  }

  /** Lines 97-107: copy the qemu binary in, run the update under chroot,
      remove the binary; the first command that fails raises. */
  method RunCommands(host: Host, root: string, qemuMatches: seq<string>, failing: set<string>)
    returns (r: Outcome)
    modifies host
    ensures var t := RunAll(Commands(QemuStatic(qemuMatches), root), failing);
      host.log == old(host.log) + t.events && r == t.outcome
    ensures host.files == old(host.files) && host.dirs == old(host.dirs)
  {
    var qemu := QemuStatic(qemuMatches);
    var cp, update, rm := CopyCommand(qemu, root), UpdateCommand(root), RemoveCommand(qemu, root);
    ghost var cmds := Commands(qemu, root);
    var ok: bool;
    if qemu != "" {
      assert cmds == [cp, update, rm];
      ok := host.Exec(cp, failing);
      if !ok {
        RunAllStops(cmds, failing, 0);
        return Failed(CommandFailed(cp));
      }
    } else {
      assert cmds == [update];
    }
    ghost var k := if qemu != "" then 1 else 0;
    ghost var ran := cmds[..k];
    assert host.log == old(host.log) + Runs(ran);
    ok := host.Exec(update, failing);
    assert cmds[..k + 1] == ran + [update];
    if !ok {
      RunAllStops(cmds, failing, k);
      return Failed(CommandFailed(update));
    }
    assert host.log == old(host.log) + Runs(cmds[..k + 1]);
    if qemu != "" {
      ok := host.Exec(rm, failing);
      if !ok {
        RunAllStops(cmds, failing, 2);
        return Failed(CommandFailed(rm));
      }
    }
    RunAllPasses(cmds, failing);
    r := Done;
  }

  /** Lines 109-120: timestamps when SOURCE_DATE_EPOCH is set, then the
      plain rootfs plugin. */
  method FinishUp(host: Host, root: string, cfgPath: string, epoch: string) returns (r: Outcome)
    modifies host
    ensures var t := Epilogue(root, cfgPath, epoch);
      host.log == old(host.log) + t.events && r == t.outcome
    ensures host.files == old(host.files) && host.dirs == old(host.dirs)
  {
    if epoch != "" {
      var time := ParseInt(epoch);
      if time.None? {
        return Failed(BadEpoch(epoch));
      }
      host.Utime(cfgPath, time.value);
      host.Utime(PathJoin(root, "boot/boot.scr"), time.value);
      host.Utime(PathJoin(root, "tmp"), time.value);
    }
    host.Populate();
    r := Done;
  }

  /** Lines 97-120: the commands, the timestamps, then the rootfs plugin. */
  method ApplyConfig(host: Host, root: string, cfgPath: string, qemuMatches: seq<string>,
                     failing: set<string>, epoch: string) returns (r: Outcome)
    modifies host
    ensures var t := Finish(root, cfgPath, qemuMatches, failing, epoch);
      host.log == old(host.log) + t.events && r == t.outcome
    ensures host.files == old(host.files) && host.dirs == old(host.dirs)
  {
    r := RunCommands(host, root, qemuMatches, failing);
    if r.Failed? {
      return;
    }
    r := FinishUp(host, root, cfgPath, epoch);
  }

  /** `RootfsUBootPlugin.do_prepare_partition`. Any failed check leaves the
      host untouched: no file written, no command run. Otherwise the
      configuration file holds exactly the rendered text and the log has
      exactly the command, timestamp and delegation steps of `Finish`. */
  method PreparePartition(host: Host, part: Partition, params: map<string, string>, cr: Creator,
                          krootfsDir: map<string, string>, imageRootfs: map<string, string>,
                          qemuMatches: seq<string>, failing: set<string>, epoch: string)
    returns (r: Outcome)
    modifies host
    ensures host.dirs == old(host.dirs)
    ensures var pre := Preflight(part, params, cr, krootfsDir, imageRootfs, old(host.files), old(host.dirs));
      pre.Err? ==> r == Failed(pre.error) && host.files == old(host.files) && host.log == old(host.log)
    ensures var pre := Preflight(part, params, cr, krootfsDir, imageRootfs, old(host.files), old(host.dirs));
      pre.Ok? ==>
        var t := Finish(pre.value.root, pre.value.cfgPath, qemuMatches, failing, epoch);
        && host.files == old(host.files)[pre.value.cfgPath := ConfigText(part.realnum, pre.value.rootDev, cr.append, params)]
        && host.log == old(host.log) + t.events
        && r == t.outcome
  {
    ghost var pre := Preflight(part, params, cr, krootfsDir, imageRootfs, host.files, host.dirs);
    var key := ResolveRootfsKey(part.rootfsDir, krootfsDir);
    if key.Err? {
      assert pre == Err(key.error);
      return Failed(key.error);
    }
    var tree := ResolveRealRootfs(key.value, host.dirs, imageRootfs);
    if tree.Err? {
      assert pre == Err(tree.error);
      return Failed(tree.error);
    }
    var root := tree.value;
    var dev := RootDevice(cr.rootdev, params);
    if dev.Err? {
      assert pre == Err(dev.error);
      return Failed(dev.error);
    }
    var cfgPath := PathJoin(root, ConfigRelPath);
    if cfgPath !in host.files && cfgPath !in host.dirs {
      assert pre == Err(PackageNotInstalled);
      return Failed(PackageNotInstalled);
    }
    var writable := host.Open(cfgPath);
    if !writable {
      assert pre == Err(OpenFailed(cfgPath));
      return Failed(OpenFailed(cfgPath));
    }
    assert pre == Ok(Plan(root, dev.value, cfgPath));
    WriteConfig(host, cfgPath, part.realnum, dev.value, cr.append, params);
    r := ApplyConfig(host, root, cfgPath, qemuMatches, failing, epoch);
  }
}
