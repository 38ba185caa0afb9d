# rootfs-u-boot and CIBuilder, modelled in Dafny

This project models two parts of the Isar build system.

**The `rootfs-u-boot` wic source plugin**
(`RootfsUBootPlugin.do_prepare_partition`). Before a partition is populated
from a root filesystem tree, the plugin:

1. resolves which tree to use (`--rootfs-dir`, the `krootfs_dir` map, the
   image's `IMAGE_ROOTFS`);
2. picks the root device (`cr.rootdev`, or the `root` source parameter with
   `:` turned into `=`);
3. rewrites `etc/default/u-boot-script` in the tree as a header line and six
   `KEY="value"` lines; the `script_prepend` parameter passes through three
   regular-expression rewrites first;
4. runs `update-u-boot-script` under chroot, copying in a qemu user-mode
   binary when the host has one and removing it afterwards;
5. sets timestamps when `SOURCE_DATE_EPOCH` is set;
6. hands over to the plain `rootfs` plugin.

**The `CIBuilder` test base.** The model covers:
- how it builds the bitbake command line;
- what it writes into `conf/ci_build.conf`;
- how it adds `include ci_build.conf` to `conf/local.conf` exactly once;
- how it parses `KEY=VALUE` environment dumps and `LAYERDIR_*` values;
- how it backs files up to `<path>.ci-backup` and restores them.

Files:
- `text.dfy`, module `Text`: the Python string operations the code relies on, written out over `seq<char>` (`%d`, `int()`, `str.replace`, `str.strip`, `str.split(sep, 1)`, `" ".join`, splitting into non-empty pieces).
- `script_prepend.dfy`, module `ScriptPrepend`: the three `re.sub` rewrites. Each is a left-to-right, non-overlapping scan written as a recursive function over the remaining text.
- `rootfs_u_boot.dfy`, module `RootfsUBoot`:
  - the decisions as functions;
  - the rendered file as a sequence of lines;
  - the command, timestamp and hand-over steps as a trace of events;
  - the procedure itself as methods on a `Host` object. The `Host` holds the tree's files (path to contents), its directories and the log of what was run.
- `cibuilder.dfy`, module `CIBuilder`:
  - the command line builder as a method;
  - the configuration text as functions, and the `for`/`else` scan of `local.conf` as a loop;
  - the environment parse and the backups as functions;
  - the file operations as methods on a `Workspace` object holding path to contents.

Notes on the code as written:
- The configuration file has seven lines: the comment header comes before the six settings.
- The third rewrite escapes again the `$` that the first rewrite exposed. `x$\{a\}` becomes `x\${a}` (`ScriptPrepend.EscapedVariable`). A shell that reads the file then leaves `${a}` for U-Boot to expand.
- In rewrites (ii) and (iii), the match also consumes the character before the `"` or `$`:
  - a `"` or `$` at the very start is never escaped;
  - of two adjacent ones, only the first is escaped (`ScriptPrepend.MarksAt`, `ScriptPrepend.AdjacentQuotes`).
- `rm` is given the tree's `usr/bin/` followed by the whole glob result, for example `/root/usr/bin//usr/bin/qemu-arm-static`. It never names the file `cp` created (`RootfsUBoot.RemovedPathIsNotCopiedPath`). The model keeps the command as written.
- There is no `try`/`finally`. When the update command fails, the copied binary is not removed and nothing after it runs (`RootfsUBoot.UpdateFailureSkipsRemoval`).

## Model

| member | source | states |
|---|---|---|
| `Text.DecimalString` | meta/scripts/lib/wic/plugins/source/rootfs-u-boot.py:79 | `'%d' % n` reads back through `int()` as `n`; it starts with `-` exactly when `n` is negative, is all digits otherwise, and has no leading zero |
| `Text.ParseInt` | meta/scripts/lib/wic/plugins/source/rootfs-u-boot.py:111 | `int()` on an optionally signed run of decimal digits; `None` is the `ValueError` path (its partner is `Text.DecimalString`, which it reads back) |
| `Text.ReplaceChar` | meta/scripts/lib/wic/plugins/source/rootfs-u-boot.py:69 | `str.replace` of one character: same length, each occurrence replaced, every other character kept, and none of the old character left |
| `Text.SplitFirst` | testsuite/build_test/cibuilder.py:18 | `split("=", 1)` has one piece exactly when there is no separator; otherwise the line is key, separator, value, and the key holds no separator |
| `Text.SplitFirstOfPair` | testsuite/build_test/cibuilder.py:77 | splitting `key=value` with a separator-free key gives back that key and that value, even when the value contains the separator |
| `Text.Strip` | testsuite/build_test/cibuilder.py:79 | `strip('"')` leaves no `"` at either end and never lengthens the text |
| `Text.StripAround` | testsuite/build_test/cibuilder.py:79 | stripping removes exactly the runs around a core that neither starts nor ends with the character, and nothing inside it |
| `Text.FieldsAreFields` | testsuite/build_test/cibuilder.py:18 | every piece of a split is non-empty and holds no separator |
| `Text.FieldsOfPiece` | testsuite/build_test/cibuilder.py:18 | a piece with no separator splits to itself, or to nothing when it is empty |
| `Text.FieldsAfterPiece` | testsuite/build_test/cibuilder.py:18 | a separator after a separator-free piece ends that piece: what follows is split on its own, and an empty piece is dropped |
| `Text.FieldsOfJoinDropsEmpty` | testsuite/build_test/cibuilder.py:18 | joining separator-free pieces, empty ones included, and splitting again gives the non-empty pieces back in order |
| `Text.FieldsOfJoin` | testsuite/build_test/cibuilder.py:58 | joining non-empty, separator-free pieces with a separator and splitting the result gives the same pieces back, in order |
| `ScriptPrepend.TokenEnd` | meta/scripts/lib/wic/plugins/source/rootfs-u-boot.py:90 | `\$\\{([^\\]+)\\}` matches at a position exactly when a non-empty backslash-free name closed by `\}` follows, and then at one place only |
| `ScriptPrepend.UnescapeVars` | meta/scripts/lib/wic/plugins/source/rootfs-u-boot.py:90 | rewrite (i) never lengthens the text; a `$\{` that opens no match is kept and the scan goes on (`UnescapeVarsNoMatch`, `EmptyNameKept`, `UnterminatedKept`) |
| `ScriptPrepend.UnescapeVarsNoMatch` | meta/scripts/lib/wic/plugins/source/rootfs-u-boot.py:90 | a `$\{` that starts no match (no closing `\}`, an empty name, a backslash in the name) is kept as `$\{`, and the rest is rewritten after it |
| `ScriptPrepend.EmptyNameKept` | meta/scripts/lib/wic/plugins/source/rootfs-u-boot.py:90 | `$\{\}` is written unchanged, since the name must be non-empty |
| `ScriptPrepend.UnterminatedKept` | meta/scripts/lib/wic/plugins/source/rootfs-u-boot.py:90 | `$\{a` without a closing `\}` is written unchanged |
| `ScriptPrepend.UnescapeVarsSplit` | meta/scripts/lib/wic/plugins/source/rootfs-u-boot.py:90 | text before a `$\{` is rewritten on its own: no match crosses into the part that starts there |
| `ScriptPrepend.UnescapeVarsAfter` | meta/scripts/lib/wic/plugins/source/rootfs-u-boot.py:90 | wherever a token `$\{NAME\}` stands, with a non-empty backslash-free NAME, the text before it is rewritten on its own, the token becomes `${NAME}`, and the scan goes on after it |
| `ScriptPrepend.UnescapeVarsWithoutToken` | meta/scripts/lib/wic/plugins/source/rootfs-u-boot.py:90 | text containing no `$\{` comes through rewrite (i) unchanged |
| `ScriptPrepend.TokenEndBeforeToken` | meta/scripts/lib/wic/plugins/source/rootfs-u-boot.py:90 | the search for a token's closing `\}` in text followed by a `$\{` gives the same answer as in that text alone, so no match spans into the following token |
| `ScriptPrepend.UnescapeVarsToken` | meta/scripts/lib/wic/plugins/source/rootfs-u-boot.py:90 | `$\{NAME\}` with a non-empty, backslash-free NAME becomes `${NAME}`, and the scan resumes after the closing `\}` |
| `ScriptPrepend.EscapeUnescaped` | meta/scripts/lib/wic/plugins/source/rootfs-u-boot.py:92-94 | rewrites (ii) and (iii) never shorten the text |
| `ScriptPrepend.EscapeIsInsert` | meta/scripts/lib/wic/plugins/source/rootfs-u-boot.py:92-94 | the rewrite only inserts a backslash in front of the marked characters; nothing is deleted or reordered |
| `ScriptPrepend.MarksAt` | meta/scripts/lib/wic/plugins/source/rootfs-u-boot.py:92-94 | a `"` (or `$`) is escaped if and only if it is not at index 0, the character before it is not a backslash, and that character was not itself escaped by the previous match |
| `ScriptPrepend.EscapeRoundTrip` | meta/scripts/lib/wic/plugins/source/rootfs-u-boot.py:92-94 | removing the inserted backslashes gives back the input |
| `ScriptPrepend.EscapeWithoutChar` | meta/scripts/lib/wic/plugins/source/rootfs-u-boot.py:92-94 | text without the character comes through unchanged |
| `ScriptPrepend.AdjacentQuotes` | meta/scripts/lib/wic/plugins/source/rootfs-u-boot.py:92 | in `a""` only the first quote is escaped |
| `ScriptPrepend.EscapeScript` | meta/scripts/lib/wic/plugins/source/rootfs-u-boot.py:88-95 | the three rewrites of `script_prepend`, in source order (stated by `EscapedVariable`, `EscapeScriptPlain` and, for each rewrite, its own lemmas) |
| `ScriptPrepend.EscapeScriptPlain` | meta/scripts/lib/wic/plugins/source/rootfs-u-boot.py:88-95 | a script with no `"` and no `$` is written unchanged |
| `ScriptPrepend.EscapedVariable` | meta/scripts/lib/wic/plugins/source/rootfs-u-boot.py:89-94 | after all three rewrites, `x$\{NAME\}` is written as `x\${NAME}` |
| `RootfsUBoot.ResolveRootfsKey` | meta/scripts/lib/wic/plugins/source/rootfs-u-boot.py:41-53 | with no `--rootfs-dir`, `ROOTFS_DIR` must be in the map; a key the map knows gives its value; any other non-empty key is returned itself, as the path; an empty unknown key is an error |
| `RootfsUBoot.ResolveRealRootfs` | meta/scripts/lib/wic/plugins/source/rootfs-u-boot.py:54-62 | the tree is the resolved value when that is a directory; otherwise it is the image's IMAGE_ROOTFS, which must be a directory; any tree returned is a directory |
| `RootfsUBoot.ResolveRealRootfsAsWritten` | meta/scripts/lib/wic/plugins/source/rootfs-u-boot.py:54-57 | as the file stands, a resolved value that is not a directory always ends in `NameError` for `get_bitbake_var` |
| `RootfsUBoot.ImageNameFallbackUnreachable` | meta/scripts/lib/wic/plugins/source/rootfs-u-boot.py:54-62 | an image name whose IMAGE_ROOTFS is a directory is resolved by the corrected step and rejected by the step as written |
| `RootfsUBoot.RootDevice` | meta/scripts/lib/wic/plugins/source/rootfs-u-boot.py:64-69 | a non-empty `cr.rootdev` is used verbatim; otherwise an empty or missing `root` parameter is an error, and else every `:` in it becomes `=`, with nothing else changed |
| `RootfsUBoot.RootDeviceExample` | meta/scripts/lib/wic/plugins/source/rootfs-u-boot.py:64-69 | `PARTLABEL:root` becomes `PARTLABEL=root`; a given `cr.rootdev` keeps its `:` |
| `RootfsUBoot.PathJoin` | meta/scripts/lib/wic/plugins/source/rootfs-u-boot.py:71-72 | `os.path.join` ends with its second argument and, for a relative one, starts with its first |
| `RootfsUBoot.Param` | meta/scripts/lib/wic/plugins/source/rootfs-u-boot.py:82-88 | `source_params.get(key) or ''`: the parameter, or empty when absent (stated by `ConfigParams`) |
| `RootfsUBoot.SettingLine` | meta/scripts/lib/wic/plugins/source/rootfs-u-boot.py:79-95 | the `KEY="%s"` format of each setting line (stated by `SettingLineReads`) |
| `RootfsUBoot.SettingLineReads` | meta/scripts/lib/wic/plugins/source/rootfs-u-boot.py:79-95 | a `KEY="value"` line has that shape, and its value reads back from between the quotes |
| `RootfsUBoot.ConfigShape` | meta/scripts/lib/wic/plugins/source/rootfs-u-boot.py:77-95 | the file is exactly seven lines: the header, then one `KEY="value"` line per key in fixed order, each giving back its setting's value |
| `RootfsUBoot.Settings` | meta/scripts/lib/wic/plugins/source/rootfs-u-boot.py:79-95 | the six settings carry the keys ROOT_PARTITION, KERNEL_ARGS, NO_INITRD, OVERLAYS, BUILTIN_DT, SCRIPT_PREPEND in that order |
| `RootfsUBoot.ConfigLines` | meta/scripts/lib/wic/plugins/source/rootfs-u-boot.py:77-95 | seven lines, the generated-by header first |
| `RootfsUBoot.ConfigText` | meta/scripts/lib/wic/plugins/source/rootfs-u-boot.py:77-95 | the file text: each of `ConfigLines` followed by a newline (its shape is stated by `ConfigShape`) |
| `RootfsUBoot.ConfigValues` | meta/scripts/lib/wic/plugins/source/rootfs-u-boot.py:79-81 | ROOT_PARTITION reads back as the partition number; KERNEL_ARGS is `root=`, the device, a space and then the append string, or only the trailing space when there is none |
| `RootfsUBoot.ConfigParams` | meta/scripts/lib/wic/plugins/source/rootfs-u-boot.py:82-95 | NO_INITRD, OVERLAYS and BUILTIN_DT are those source parameters verbatim; SCRIPT_PREPEND is the parameter after the three rewrites; each is empty when its parameter is absent |
| `RootfsUBoot.ConfigExample` | meta/scripts/lib/wic/plugins/source/rootfs-u-boot.py:79-95 | partition 1, root `LABEL=rootfs` and only `overlays` give `OVERLAYS="a.dtbo b.dtbo"`, `KERNEL_ARGS="root=LABEL=rootfs "` and empty values elsewhere |
| `RootfsUBoot.RemovedPathIsNotCopiedPath` | meta/scripts/lib/wic/plugins/source/rootfs-u-boot.py:101-106 | for an absolute glob result, the path given to `rm` differs from where `cp` put the binary |
| `RootfsUBoot.CommandsDiffer` | meta/scripts/lib/wic/plugins/source/rootfs-u-boot.py:101-106 | the copy, update and removal commands are three different commands |
| `RootfsUBoot.QemuStatic` | meta/scripts/lib/wic/plugins/source/rootfs-u-boot.py:98-99 | the first glob match, or none (as the empty string) when there is no match; `CommandsOrder` states what an empty result leaves out |
| `RootfsUBoot.CopyCommand` | meta/scripts/lib/wic/plugins/source/rootfs-u-boot.py:101 | `cp -L <qemu> <root>/usr/bin` (stated by `CommandsDiffer` and `RemovedPathIsNotCopiedPath`) |
| `RootfsUBoot.UpdateCommand` | meta/scripts/lib/wic/plugins/source/rootfs-u-boot.py:103 | `chroot <root> sh -c update-u-boot-script` (stated by `CommandsDiffer` and `CommandsOrder`) |
| `RootfsUBoot.RemoveCommand` | meta/scripts/lib/wic/plugins/source/rootfs-u-boot.py:106 | `rm -f <root>/usr/bin/<qemu>`, with the whole glob result appended (stated by `CommandsDiffer` and `RemovedPathIsNotCopiedPath`) |
| `RootfsUBoot.Commands` | meta/scripts/lib/wic/plugins/source/rootfs-u-boot.py:98-107 | the copy, update and removal commands in that order, the copy and removal only with a qemu binary (stated by `CommandsOrder`) |
| `RootfsUBoot.CommandsOrder` | meta/scripts/lib/wic/plugins/source/rootfs-u-boot.py:98-107 | the update always runs; the copy comes first and the removal last exactly when a qemu binary was found |
| `RootfsUBoot.RunAll` | meta/scripts/lib/wic/plugins/source/rootfs-u-boot.py:100-107 | commands run in order; the outcome is success if and only if none fails; otherwise the first failing command is the last one run and its failure is the outcome |
| `RootfsUBoot.TimeEvents` | meta/scripts/lib/wic/plugins/source/rootfs-u-boot.py:111-116 | `os.utime` on the config file, `boot/boot.scr` and `tmp` under the tree, all with the epoch (stated by `TimesNeedEpoch`) |
| `RootfsUBoot.Epilogue` | meta/scripts/lib/wic/plugins/source/rootfs-u-boot.py:110-120 | succeeds exactly when SOURCE_DATE_EPOCH is unset or parses; then the rootfs plugin is the last event; a bad epoch fails with nothing done |
| `RootfsUBoot.Finish` | meta/scripts/lib/wic/plugins/source/rootfs-u-boot.py:98-120 | everything after the file is written: the commands, and when they all succeed the epilogue (stated by `FinishWhenNothingFails`, `UpdateFailureSkipsRemoval`, `PopulateRunsLast`, `TimesNeedEpoch`) |
| `RootfsUBoot.FinishWhenNothingFails` | meta/scripts/lib/wic/plugins/source/rootfs-u-boot.py:97-120 | when nothing fails, the events are `cp`, update, `rm` (only the update when there is no qemu binary), then the three timestamps exactly when SOURCE_DATE_EPOCH is set, and the rootfs plugin last |
| `RootfsUBoot.UpdateFailureSkipsRemoval` | meta/scripts/lib/wic/plugins/source/rootfs-u-boot.py:100-107 | a failing update is the outcome; the binary is not removed, nothing is timestamped and the rootfs plugin does not run |
| `RootfsUBoot.PopulateRunsLast` | meta/scripts/lib/wic/plugins/source/rootfs-u-boot.py:118-120 | the rootfs plugin runs if and only if everything before it succeeded, and then as the very last step |
| `RootfsUBoot.TimesNeedEpoch` | meta/scripts/lib/wic/plugins/source/rootfs-u-boot.py:109-116 | timestamps are set only when SOURCE_DATE_EPOCH is set and parses as an integer, and only on the three fixed paths with that time |
| `RootfsUBoot.Preflight` | meta/scripts/lib/wic/plugins/source/rootfs-u-boot.py:41-77 | the checks pass exactly when the rootfs key and the tree resolve, the root device is found, and `etc/default/u-boot-script` under that tree is an existing file, not a directory; the plan then uses that resolved tree and device; each failing step gives its own error, in source order: the key's or the tree's error, then `RootNotDefined` for a missing root device (before the file is looked at), then `PackageNotInstalled` for a missing file and `OpenFailed` for a directory |
| `RootfsUBoot.Host.Open` | meta/scripts/lib/wic/plugins/source/rootfs-u-boot.py:77 | opening for writing truncates the file and fails for a directory |
| `RootfsUBoot.Host.Write` | meta/scripts/lib/wic/plugins/source/rootfs-u-boot.py:78-95 | a write appends to the file |
| `RootfsUBoot.Host.Exec` | meta/scripts/lib/wic/plugins/source/rootfs-u-boot.py:102-107 | a command is logged and succeeds unless it is one of the failing ones |
| `RootfsUBoot.Host.Utime` | meta/scripts/lib/wic/plugins/source/rootfs-u-boot.py:112-116 | a timestamp change is logged |
| `RootfsUBoot.Host.Populate` | meta/scripts/lib/wic/plugins/source/rootfs-u-boot.py:118-120 | the hand-over to the rootfs plugin is logged |
| `RootfsUBoot.WriteConfig` | meta/scripts/lib/wic/plugins/source/rootfs-u-boot.py:77-95 | after the seven writes, the file holds exactly the rendered configuration; nothing else changes |
| `RootfsUBoot.RunCommands` | meta/scripts/lib/wic/plugins/source/rootfs-u-boot.py:97-107 | the log gains exactly the commands `RunAll` runs, and the outcome is the same |
| `RootfsUBoot.FinishUp` | meta/scripts/lib/wic/plugins/source/rootfs-u-boot.py:109-120 | timestamps only for a set SOURCE_DATE_EPOCH, a parse failure stops before the hand-over, and the hand-over comes last |
| `RootfsUBoot.ApplyConfig` | meta/scripts/lib/wic/plugins/source/rootfs-u-boot.py:97-120 | the log gains exactly the events of `Finish`, and the outcome is `Finish`'s |
| `RootfsUBoot.PreparePartition` | meta/scripts/lib/wic/plugins/source/rootfs-u-boot.py:36-120 | a failed check leaves files and log untouched and returns that error; otherwise the configuration file holds exactly the rendered text and the log has exactly the events of `Finish` |
| `CIBuilder.BitbakeCommandLine` | testsuite/build_test/cibuilder.py:45-58 | the list is `bitbake`, then `args` if non-empty, then `-c cmd` if `cmd` is non-empty, then the targets in order; the line is the list joined by single spaces, and for space-free words it splits back into the list |
| `CIBuilder.CiBuildLines` | testsuite/build_test/cibuilder.py:22-30 | the enabled lines, block by block (stated by `CiBuildLinesSelect` and `CiBuildLinesIff`) |
| `CIBuilder.CiBuildConf` | testsuite/build_test/cibuilder.py:22-30 | the text of `ci_build.conf`: each enabled line followed by a newline |
| `CIBuilder.CiBuildLinesSelect` | testsuite/build_test/cibuilder.py:21-30 | the written lines are the enabled ones of the five possible lines, in their fixed order |
| `CIBuilder.CiBuildLinesIff` | testsuite/build_test/cibuilder.py:21-30 | each possible line is written if and only if its switch is on, and no other line is ever written |
| `CIBuilder.Workspace.WriteSwitched` | testsuite/build_test/cibuilder.py:22-30 | the truncate-then-write sequence leaves the file holding the three-line block when its switch is on, then the fourth line, then the fifth, each only when its switch is on, and changes no other file |
| `CIBuilder.Workspace.WriteCiBuild` | testsuite/build_test/cibuilder.py:22-30 | `ci_build.conf` is overwritten with exactly the enabled lines |
| `CIBuilder.FileLines` | testsuite/build_test/cibuilder.py:33 | `for line in f`: pieces each ending with its newline, the last one possibly without (stated by `FileLinesJoin`, `FileLinesNonEmpty` and `FileLinesBreaks`) |
| `CIBuilder.FileLinesJoin` | testsuite/build_test/cibuilder.py:33 | the lines, written one after the other, give the file back |
| `CIBuilder.FileLinesBreaks` | testsuite/build_test/cibuilder.py:33 | every line but the last ends with a newline, no line holds one before its end, and the last line ends with one exactly when the file does |
| `CIBuilder.FileLinesNonEmpty` | testsuite/build_test/cibuilder.py:33 | no line of a file is empty |
| `CIBuilder.LineEndIsIndexOf` | testsuite/build_test/cibuilder.py:33 | the end of the first line is the first newline, or the end of the file when there is none |
| `CIBuilder.LineSearch` | testsuite/build_test/cibuilder.py:33-35 | for a newline-free pattern, some line of the file contains it if and only if the file contains it |
| `CIBuilder.FindIncludeLine` | testsuite/build_test/cibuilder.py:33-35 | the scan finds a line with `include ci_build.conf` if and only if one exists, and so if and only if the file contains that text |
| `CIBuilder.IncludeCiBuild` | testsuite/build_test/cibuilder.py:32-37 | existing content is kept as a prefix; an existing include leaves the file unchanged, and otherwise exactly `\n` plus the include is added |
| `CIBuilder.IncludeIdempotent` | testsuite/build_test/cibuilder.py:32-37 | afterwards the file always contains the include, so a second run adds nothing |
| `CIBuilder.IncludeOnOwnLine` | testsuite/build_test/cibuilder.py:37 | the appended include is a line of its own, even after a last line without a newline |
| `CIBuilder.Workspace.AddInclude` | testsuite/build_test/cibuilder.py:32-37 | `local.conf` becomes `IncludeCiBuild` of its contents; a missing `local.conf` fails and changes nothing |
| `CIBuilder.Workspace.ConfPrepare` | testsuite/build_test/cibuilder.py:21-37 | `ci_build.conf` is rewritten first; then `local.conf` gets the include, or the call fails with `ci_build.conf` already written |
| `CIBuilder.Workspace.ConfCleanup` | testsuite/build_test/cibuilder.py:39-40 | `ci_build.conf` is left empty and nothing else changes |
| `CIBuilder.NonEmptyLines` | testsuite/build_test/cibuilder.py:18 | `splitlines()` with empty pieces dropped (stated by `NonEmptyLinesAreLines`, `NonEmptyLinesOfJoin` and `NonEmptyLinesSkipsBlank`; at any boundary character, `\r` and the others included, by `Text.FieldsOfPiece` and `Text.FieldsAfterPiece`) |
| `CIBuilder.NonEmptyLinesAreLines` | testsuite/build_test/cibuilder.py:18 | every kept piece is non-empty and holds no line boundary |
| `CIBuilder.NonEmptyLinesSkipsBlank` | testsuite/build_test/cibuilder.py:18 | for lines without boundaries, some possibly blank, the kept lines are exactly the non-empty ones, in order: blank lines are skipped and nothing else is lost |
| `CIBuilder.BlankLineSkipped` | testsuite/build_test/cibuilder.py:18 | the dump `A=1`, a blank line, `B=2` keeps both entries |
| `CIBuilder.NonEmptyLinesOfJoin` | testsuite/build_test/cibuilder.py:18 | non-empty lines without line boundaries, one per line, are read back as the same lines |
| `CIBuilder.ParseEnvLines` | testsuite/build_test/cibuilder.py:18 | the parse succeeds if and only if every line has a `=`; otherwise it fails on the first line without one |
| `CIBuilder.ParseEnvKeys` | testsuite/build_test/cibuilder.py:18 | every line's key is in the parsed map |
| `CIBuilder.ParseEnv` | testsuite/build_test/cibuilder.py:18 | the dump parses exactly when every non-empty line has a `=`; otherwise it fails on the first line without one |
| `CIBuilder.ParseEnvEntries` | testsuite/build_test/cibuilder.py:18 | every key in the map comes from some line, and it maps to the value of the last line with that key |
| `CIBuilder.ValueKeepsEquals` | testsuite/build_test/cibuilder.py:77 | `KEY=a=b` parses to `KEY` mapped to `a=b` |
| `CIBuilder.LaterLineWins` | testsuite/build_test/cibuilder.py:77 | of two lines with the same key, the later one's value is kept |
| `CIBuilder.GetLayerDir` | testsuite/build_test/cibuilder.py:76-79 | a failed parse is passed on; the result exists if and only if `LAYERDIR_<layer>` was parsed, a missing key is `KeyError`; the result is the parsed value with its quotes stripped, so it has no `"` at either end |
| `CIBuilder.LayerDirOfLastLine` | testsuite/build_test/cibuilder.py:76-79 | the layer directory is the value of the last `LAYERDIR_<layer>` line of the dump, its quotes stripped |
| `CIBuilder.LayerDirOfQuoted` | testsuite/build_test/cibuilder.py:79 | the line `LAYERDIR_<layer>="<dir>"` gives back `<dir>` |
| `CIBuilder.BackupPath` | testsuite/build_test/cibuilder.py:60-67 | the backup path is the path followed by `.ci-backup`, so it always differs from the path |
| `CIBuilder.CopyFile` | testsuite/build_test/cibuilder.py:61 | a copy of a missing file fails; otherwise the destination holds the source's contents and nothing else changes |
| `CIBuilder.MoveFile` | testsuite/build_test/cibuilder.py:63-67 | a move of a missing file fails; otherwise the destination holds the source's contents, the source is gone, and nothing else changes |
| `CIBuilder.BackupThenRestore` | testsuite/build_test/cibuilder.py:60-67 | `backupfile` then `restorefile` leaves the file as it was and no backup behind |
| `CIBuilder.MoveThenRestore` | testsuite/build_test/cibuilder.py:63-67 | `backupmove` removes the file until `restorefile` brings it back unchanged, with no backup behind |
| `CIBuilder.Workspace.BackupFile` | testsuite/build_test/cibuilder.py:60-61 | the files become `CopyFile` of path to backup path, or stay unchanged on failure |
| `CIBuilder.Workspace.BackupMove` | testsuite/build_test/cibuilder.py:63-64 | the files become `MoveFile` of path to backup path, or stay unchanged on failure |
| `CIBuilder.Workspace.RestoreFile` | testsuite/build_test/cibuilder.py:66-67 | the files become `MoveFile` of backup path to path, or stay unchanged on failure |

## Left out

- Running processes is not modelled: `exec_cmd`, `process.run`, `process.getoutput` and the `bitbake -e | grep` pipeline. Commands appear only as logged strings. Their output comes in as a parameter. Which commands fail is a parameter too.
- The host glob of `/usr/bin/qemu-*-static` is a parameter. So is `os.getenv('SOURCE_DATE_EPOCH')`, where the empty string stands for unset.
- `get_bitbake_var("IMAGE_ROOTFS", name)` is an oracle map from image name to path, used only by the corrected resolution (see Findings).
- `os.path.isdir` and `os.path.exists` are read from the host's set of directories and map of files.
- `RootfsUBoot.Host.Exec`: what `cp`, `update-u-boot-script` and `rm` do to the tree is not modelled. The step only logs the command and reports failure.
- `RootfsUBoot.Host.Utime`: failures of `os.utime` are not modelled. Such a failure would happen, for example, when `boot/boot.scr` does not exist. The step only logs the change.
- `RootfsUBoot.Host.Populate`: `RootfsPlugin.do_prepare_partition` is not part of this model. Its call is logged as the last event.
- `RootfsUBoot.FinishUp`: `int()` also accepts surrounding whitespace and `_` between digits. Here only an optional sign followed by decimal digits parses. Anything else is the `ValueError` path.
- `None` and the empty string are one value wherever Python treats both as false and the code does not tell them apart. This covers `source_params` entries, the glob result, and `cmd`/`args` of `bitbake`. `part.rootfs_dir`, `cr.rootdev` and the append string stay optional; the append string is read through `OrEmpty`, Python's `or ""`.
- A `bitbake` target that is neither a string nor a list is not modelled.
- `CIBuilder.Workspace.WriteCiBuild`: opening `ci_build.conf` for writing always succeeds. A missing `conf` directory is not modelled.
- `CIBuilder.FileLines`: lines are split at `\n` only, and so `CIBuilder.FindIncludeLine` scans those lines. Text-mode reading also splits at `\r`. The outcome is the same, because the searched text contains no line boundary.
- `CIBuilder.MoveFile`: `shutil.move` into an existing directory is not modelled. File metadata copied by `shutil.copy2` is not modelled either.
- The `init` and `getlayerdir` methods are only partly modelled: the parse of the dump is covered. `os.chdir`, the `find_command` check, the fallback to `init`, and the `os.environ` update are not.
- `deletetmp` (`sudo rm -rf <build>/tmp`) is a single command and is not modelled.
- `cibase.py` and `build_test.py` are not part of this model.
- Error message texts are not modelled. Errors are values naming their cause.

## Findings

| source | as written | input that shows it | evidently intended | confidence | as-written member | corrected member |
|---|---|---|---|---|---|---|
| meta/scripts/lib/wic/plugins/source/rootfs-u-boot.py:57 | `get_bitbake_var` is called but neither defined nor imported in the file, so every rootfs value that is not a directory raises `NameError` | `--rootfs-dir isar-image-base` (an image name, not a directory) whose IMAGE_ROOTFS is an existing directory | look up the image's IMAGE_ROOTFS and use it when it is a directory, as the plain rootfs plugin does | not executed | `RootfsUBoot.ResolveRealRootfsAsWritten` | `RootfsUBoot.ResolveRealRootfs` |
