# systemd-clone-generator, modelled in Dafny

This project models the core of systemd's clone generator,
`src/clone/clone-generator.c`. The generator runs at boot. It reads the
clonetab line by line. For each entry `<name> <source> <dest> <metadata>
[<options>]` it writes a dm-clone service unit `systemd-clone@….service` into
the generator output directory. It then enables the unit through a `requires`
symlink from the clone device's `dev-mapper-<e>.device`, writes that device a
drop-in with an infinite job timeout, and adds a `requires` symlink from
`clone.target`.

The model has five modules:

- `Errors` (errors.dfy): errno-style statuses and the `Result` of a helper
  that can fail.
- `Text` (text.dfy): the whitespace tokenizer that
  `sscanf("%ms %ms %ms %ms %ms")` applies. `Tokens` splits on C `isspace`, and `Join` writes words separated
  by single spaces.
- `Effects` (effects.dfy): the output directory as a class `OutputDir`. It
  holds the ordered log of file-system primitives applied to it: open the
  unit file, flush its text, add a symlink, write a drop-in. An environment
  `Io` chooses each primitive's status from the log so far and the primitive
  itself, so every property holds for any sequence of successes and errors.
  `Execute` is the specification of applying a list of primitives. It stops
  at the first failure, except for a failed drop-in, which is only warned
  about.
- `CloneUnits` (clone_units.dfy): `generate_clone_units`.
  - `Derive` is the pure name derivation, in the order the source calls the
    helpers.
  - `UnitLines` is the unit file as structured lines. `Render` turns each
    line into its text.
  - `ArtifactOps` is the ordered list of primitives, and `Generate` is the
    outcome.
  - The method `GenerateCloneUnits` does the work step by step with early
    returns. It is proved equal to `Generate`.
  - The systemd library helpers (`path_join`, `unit_name_escape`,
    `unit_name_build`, `unit_name_from_path`, `cescape`) and the build
    constant `SYSTEMD_CLONE_PATH` are fields of a `Helpers` value. Every
    property holds whatever they compute.
- `CloneTab` (clonetab.dfy): `add_clone_devices`.
  - A `Table` is either a table that could not be opened, or the stripped
    lines `read_stripped_line` returns and how reading ends (end of file or
    a read error).
  - `Classify` decides what the loop does with a line.
  - `Drive` is the loop as a function over the lines read so far. The method
    `AddCloneDevices` keeps it as its loop invariant.
  - `Entries`, `RunEntries` and `FirstNegative` are independent reference
    definitions that fold from the front of the table. The lemmas relate the
    loop to them.

## Behaviour worth knowing

The model follows the code, which does the following:

- **Open failures.** Any failure to open the table returns 0, whatever the
  errno (lines 183-188). Errors other than a missing file are logged first.
- **Malformed lines.** A malformed line is logged and skipped. It never makes
  the returned status non-zero (lines 206-208): `RET_GATHER` applies only to
  the result of generating an entry. `MalformedLineKeepsStatus` shows that a
  table of a three-word line and a four-word line returns exactly the
  four-word entry's result, which is 0 when its units were written.
- **Long lines.** A line of six or more words is accepted, not rejected. `sscanf`
  stops after five conversions and returns 5, so the line is accepted with
  its first five words (`SixWordsAccepted`).
- **Options.** The options word is read but never written. The `add` command
  always gets an empty fifth argument (`ExecCommands`), and nothing written
  depends on the options (`StopIgnoresOptions`).

## Model

| member | source | states |
|---|---|---|
| Text.Tokens | src/clone/clone-generator.c:205 | the `%ms` conversions read words that are non-empty and contain no C whitespace |
| Text.TokensOfLayout | src/clone/clone-generator.c:205 | words laid out with any whitespace between them (non-empty between two words, optional before the first and after the last) read back as exactly those words in order |
| Text.LayoutOfTokens | src/clone/clone-generator.c:205 | every line is its tokens laid out with such whitespace: the tokens are the line's maximal runs of non-space characters, in order |
| Text.TokensJoin | src/clone/clone-generator.c:119-125 | three unit names written as `"%s %s %s"` read back as the same words in the same order |
| Effects.OutputDir.Apply | src/clone/clone-generator.c:104-106 | one primitive gets the status the environment gives it, and the log grows by exactly that step |
| Effects.ExecuteShape | src/clone/clone-generator.c:148-171 | primitives are applied in order as a prefix of the list; every step but the last succeeded or was the tolerated drop-in; a negative result is the last step's status; 0 means every primitive ran |
| CloneUnits.ParseQuotedArgs | src/clone/clone-generator.c:142-145 | arguments without single quotes, each written in single quotes and separated by spaces, read back as exactly those arguments |
| CloneUnits.ComposeUnitFile | src/clone/clone-generator.c:108-146 | the `fprintf` sequence builds exactly the unit file `UnitLines` specifies, with the dependency block and the setup script chosen by `setup_loop` |
| CloneUnits.LoopVariant | src/clone/clone-generator.c:109-139 | exactly when all three device paths start with `/dev/loop`, the unit has `ExecStartPre=/usr/share/script.sh` and no `BindsTo`, `Requires` or `After`; otherwise it has no `ExecStartPre` and one line of each of the three |
| CloneUnits.DependencyOrder | src/clone/clone-generator.c:118-126 | each of `BindsTo`, `Requires` and `After` appears once and lists the source, dest and metadata `.device` units in that order, each as `unit_name_from_path` derived it |
| CloneUnits.ExecCommands | src/clone/clone-generator.c:141-145 | `ExecStart` runs `add` with five single-quoted arguments that read back as the raw name, the three `cescape`d paths and an empty fifth one, when none of them holds a single quote |
| CloneUnits.StopIgnoresOptions | src/clone/clone-generator.c:141-146 | for every entry whose names were derived, `ExecStop` runs `remove` with the raw name, whatever it contains; the entry's options change nothing that is written, for every entry |
| CloneUnits.NamesFailFirst | src/clone/clone-generator.c:71-89 | a failure to build the service name or a device unit name is returned with that helper's error, before anything is written |
| CloneUnits.GenerateInOrder | src/clone/clone-generator.c:104-169 | an entry's steps follow the order unit file, device symlink, drop-in, clone.target symlink; each step gets the environment's status; there are between one and five steps |
| CloneUnits.UnitFileBeforeLinks | src/clone/clone-generator.c:104-156 | no symlink or drop-in is attempted unless opening and flushing the unit file both succeeded |
| CloneUnits.TargetLinkAfterDeviceLink | src/clone/clone-generator.c:153-169 | the clone.target symlink is attempted only after the `dev-mapper-<e>.device` requires symlink succeeded |
| CloneUnits.DropInOnlyWarns | src/clone/clone-generator.c:158-171 | once the drop-in is attempted, whatever its status, the clone.target symlink is attempted too, and its status is the entry's result |
| CloneUnits.GenerateSucceeds | src/clone/clone-generator.c:148-171 | an entry returns 0 exactly when its names were derived and all four primitives other than the drop-in succeeded; a failure is the status of the last step attempted |
| CloneUnits.GenerateCloneUnits | src/clone/clone-generator.c:43-172 | the step-by-step derivation with early returns, followed by the writes, gives the status and the log of `Generate` for the entry |
| CloneUnits.WriteArtifacts | src/clone/clone-generator.c:104-171 | the writes with their early returns, ignoring a failed drop-in, give the status and the log of `Execute` on the entry's primitives |
| CloneTab.ReadStrippedLine | src/clone/clone-generator.c:194-198 | a line is returned exactly while lines remain |
| CloneTab.ClassifyMeaning | src/clone/clone-generator.c:202-209 | a line is ignored exactly when it is empty or starts with `#`; it is malformed exactly when it is not ignored and has fewer than four words; otherwise it is an entry of its first four words and its fifth word if present, as the five `%ms` conversions (`ScanFields`) store them |
| CloneTab.AddCloneDevices | src/clone/clone-generator.c:174-215 | the loop gives the status, the log and the rejected line numbers of `RunTable` on the table |
| CloneTab.GatherFirstNegative | src/clone/clone-generator.c:211 | gathering the results one by one keeps the first negative result, or 0 if there is none |
| CloneTab.DriveRunsEveryEntry | src/clone/clone-generator.c:190-214 | the loop generates every accepted entry in table order, whatever earlier entries returned; its log and results are those of generating the entries one after another; its status is the first negative result |
| CloneTab.RejectedLines | src/clone/clone-generator.c:200-208 | the rejected line numbers count every line read, including ignored ones; they are exactly the 1-based numbers of the malformed lines, in increasing order |
| CloneTab.IgnoredLineNeutral | src/clone/clone-generator.c:200-209 | inserting an ignored or malformed line anywhere changes neither the status, nor what is written, nor the entries' results |
| CloneTab.TableOutcome | src/clone/clone-generator.c:183-196 | a table that cannot be opened gives 0 with nothing written; otherwise every entry read is generated; the status is the first negative entry result at end of file, or the read error itself, with any gathered status dropped |
| CloneTab.SixWordsAccepted | src/clone/clone-generator.c:205-206 | a six-word line is an entry of its first five words |
| CloneTab.ThreeWordsMalformed | src/clone/clone-generator.c:205-208 | a three-word line is malformed |
| CloneTab.FourWordsAccepted | src/clone/clone-generator.c:205-206 | a four-word line is an entry without options |
| CloneTab.MalformedThenEntry | src/clone/clone-generator.c:200-214 | for a malformed line followed by an entry, line 1 is rejected and the status and log are those of the entry alone |
| CloneTab.MalformedLineKeepsStatus | src/clone/clone-generator.c:205-214 | a table of a three-word line and a four-word line returns the four-word entry's result, so 0 when its units were written |

## Left out

- File I/O (`fopen_unlocked`, `read_stripped_line`, `generator_open_unit_file`, `fprintf`, `fflush_and_check`, `write_drop_in`, `generator_add_symlink`): their outcomes come from the environment `Io`, and their writes are the steps of the log.
- The unit file's text is written in one flush step, as rendered lines. A failure part-way through the `fprintf`s shows up only as a failed flush, which is also how the source sees it.
- The stripping in `read_stripped_line` and its `LONG_LINE_MAX` limit: the table holds the lines already stripped, and an overlong line is one of the read errors.
- The bodies of `path_join`, `unit_name_escape`, `unit_name_build`, `unit_name_from_path` and `cescape`: their files are not part of this model, so they are arbitrary functions in `Helpers`. The exact form of the service name is not modelled. `startswith` is a sequence-prefix test.
- `SYSTEMD_CLONE_PATH` is an arbitrary string in `Helpers`. `SPECIAL_CLONE_TARGET` is taken to be `clone.target`, because special.h is not part of this model.
- Allocation failures (`log_oom`): the helpers that can fail only on allocation are total.
- Logging: only the line numbers of malformed lines are kept, as `rejected`, because they are what `clone_line` is used for.
- `getenv("SYSTEMD_CLONETAB")` and the default path: the table's content is a parameter.
- `run`, `arg_disks`, `clone_device` and `clone_device_free`, `arg_runtime_directory`, and `DEFINE_MAIN_GENERATOR_FUNCTION`: these only set up state that the core never uses.
- CloneUnits.ExecCommands: the round trip of the `add` arguments requires that the clone name and the `cescape` results contain no single quote. The clone name goes into its quotes unescaped, and the source does not guard against a quote in it. The paths pass through `cescape`, whose body is not part of this model, so the model cannot say what it does with a quote. The reading of the quoted arguments (`ParseQuoted`) takes the text between quotes literally, because the program that reads the unit file is not part of this model.
- CloneUnits.DependencyOrder: reading the dependency line back as three units requires that each unit name is a single word. `unit_name_from_path` escapes whitespace, but its body is not part of this model.
