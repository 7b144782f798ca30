/**
 * `generate_clone_units` of src/clone/clone-generator.c: for one clonetab
 * entry, derive the names of the dm-clone service and of the units it
 * depends on, compose the service's unit file, and write it with its
 * enabling symlinks and the device-timeout drop-in.
 */
module CloneUnits {
  import opened Errors
  import opened Text
  import opened Effects

  /**
   * The systemd library functions the generator calls, whose bodies are not
   * part of this model, and the build constant SYSTEMD_CLONE_PATH. Every
   * property below holds whatever they compute. Allocation failures
   * (`log_oom`) are not modelled, so the helpers that can only fail on
   * allocation are total.
   */
  datatype Helpers = Helpers(
    pathJoin: (string, string) -> string,
    unitNameEscape: string -> string,
    unitNameBuild: (string, string, string) -> Result<string>,
    unitNameFromPath: (string, string) -> Result<string>,
    cescape: string -> string,
    clonePath: string)

  /** An accepted clonetab line: its first four words and the fifth if present. */
  datatype Entry = Entry(name: string, source: string, dest: string, metadata: string, options: Option<string>)

  /** Everything derived from an entry before the unit file is written. */
  datatype CloneSpec = CloneSpec(
    name: string,
    cloneDevPath: string,
    escapedName: string,
    unit: string,
    sourceUnit: string,
    destUnit: string,
    metadataUnit: string,
    escapedSource: string,
    escapedDest: string,
    escapedMetadata: string,
    setupLoop: bool)

  const MapperDir := "/dev/mapper"
  const LoopPrefix := "/dev/loop"
  const ServicePrefix := "systemd-clone"
  const LoopSetupScript := "/usr/share/script.sh"
  const CloneTarget := "clone.target"
  const DropInPriority := 40
  const DropInName := "device-timeout"
  const DropInText := "# Automatically generated by systemd-clone-generator\n\n[Unit]\nJobTimeoutSec=infinity\n"

  /** All three backing devices are loop devices. */
  predicate SetupLoop(source: string, dest: string, metadata: string) {
    LoopPrefix <= source && LoopPrefix <= dest && LoopPrefix <= metadata
  }

  /**
   * The names derived from an entry, failing with the first failing helper's
   * error in the order the source calls them: the service name, then the
   * source, dest and metadata device unit names.
   */
  function Derive(h: Helpers, e: Entry): Result<CloneSpec> {
    var cloneDevPath := h.pathJoin(MapperDir, e.name);
    var escaped := h.unitNameEscape(e.name);
    match h.unitNameBuild(ServicePrefix, escaped, ".service")
    case Err(c) => Err(c)
    case Ok(unit) =>
      match h.unitNameFromPath(e.source, ".device")
      case Err(c) => Err(c)
      case Ok(su) =>
        match h.unitNameFromPath(e.dest, ".device")
        case Err(c) => Err(c)
        case Ok(du) =>
          match h.unitNameFromPath(e.metadata, ".device")
          case Err(c) => Err(c)
          case Ok(mu) =>
            Ok(CloneSpec(e.name, cloneDevPath, escaped, unit, su, du, mu,
                         h.cescape(e.source), h.cescape(e.dest), h.cescape(e.metadata),
                         SetupLoop(e.source, e.dest, e.metadata)))
  }

  /** `'a'`: one argument inside single quotes. */
  function Quote(a: string): string {
    "'" + a + "'"
  }

  /** Arguments each in single quotes, separated by single spaces. */
  function QuotedArgs(args: seq<string>): string {
    if args == [] then ""
    else if |args| == 1 then Quote(args[0])
    else Quote(args[0]) + " " + QuotedArgs(args[1..])
  }

  predicate NoQuote(a: string) {
    forall i :: 0 <= i < |a| ==> a[i] != '\''
  }

  /** Index of the first single quote in `s`, or `|s|` if there is none. */
  function QuoteIndex(s: string): (n: nat)
    ensures n <= |s|
    ensures NoQuote(s[..n])
    ensures n < |s| ==> s[n] == '\''
  {
    if s == [] || s[0] == '\'' then 0 else 1 + QuoteIndex(s[1..])
  }

  /**
   * Reads a non-empty list of single-quoted arguments separated by single
   * spaces, taking each argument as the text between a quote and the next
   * one, literally: no backslash escape is interpreted. The program that
   * reads the unit file is not part of this model; this is the reading
   * under which the arguments written are the arguments meant.
   */
  function ParseQuoted(s: string): Option<seq<string>>
    decreases |s|
  {
    if s == [] || s[0] != '\'' then None
    else
      var n := QuoteIndex(s[1..]);
      if n == |s| - 1 then None
      else
        var arg, rest := s[1..n + 1], s[n + 2..];
        if rest == [] then Some([arg])
        else if rest[0] != ' ' then None
        else match ParseQuoted(rest[1..])
          case None => None
          case Some(more) => Some([arg] + more)
  }

  lemma {:induction false} QuoteIndexOf(a: string, rest: string)
    requires NoQuote(a)
    ensures QuoteIndex(a + "'" + rest) == |a|
    decreases |a|
  {
    if a != [] {
      assert (a + "'" + rest)[1..] == a[1..] + "'" + rest;
      QuoteIndexOf(a[1..], rest);
    } else {
      assert a + "'" + rest == "'" + rest;
    }
  }

  /** Reading one quoted argument off the front of a command line. */
  lemma ParseQuotedFirst(a: string, tail: string)
    requires NoQuote(a)
    ensures ParseQuoted("'" + a + "'" + tail) ==
      if tail == [] then Some([a])
      else if tail[0] != ' ' then None
      else match ParseQuoted(tail[1..])
        case None => None
        case Some(more) => Some([a] + more)
  {
    var s := "'" + a + "'" + tail;
    assert s[1..] == a + "'" + tail;
    QuoteIndexOf(a, tail);
    assert s[1..|a| + 1] == a;
    assert s[|a| + 2..] == tail;
  }

  /** Arguments without single quotes read back exactly from their quoted form. */
  lemma {:induction false} ParseQuotedArgs(args: seq<string>)
    requires args != []
    requires forall k :: 0 <= k < |args| ==> NoQuote(args[k])
    ensures ParseQuoted(QuotedArgs(args)) == Some(args)
    decreases |args|
  {
    var a, tail := args[0], QuotedTail(args);
    QuotedArgsFirst(args);
    ParseQuotedFirst(a, tail);
    if |args| > 1 {
      ParseQuotedArgs(args[1..]);
      assert args == [a] + args[1..];
    } else {
      assert args == [a];
    }
  }

  /** What follows the first quoted argument: nothing, or a space and the rest. */
  function QuotedTail(args: seq<string>): string
    requires args != []
  {
    if |args| == 1 then "" else " " + QuotedArgs(args[1..])
  }

  lemma QuotedArgsFirst(args: seq<string>)
    requires args != []
    ensures QuotedArgs(args) == "'" + args[0] + "'" + QuotedTail(args)
    ensures |args| > 1 ==>
      QuotedTail(args) != [] && QuotedTail(args)[0] == ' ' && QuotedTail(args)[1..] == QuotedArgs(args[1..])
    ensures |args| == 1 ==> QuotedTail(args) == []
  {
  }

  /** The directives the generated unit file sets. */
  datatype Key =
    | Description | Documentation | DefaultDependencies | BindsTo | Requires | After
    | Before | Wants | Conflicts | Type | RemainAfterExit
    | ExecStartPre | ExecStart | ExecStop | TimeoutSec

  function KeyName(k: Key): string {
    match k
    case Description => "Description"
    case Documentation => "Documentation"
    case DefaultDependencies => "DefaultDependencies"
    case BindsTo => "BindsTo"
    case Requires => "Requires"
    case After => "After"
    case Before => "Before"
    case Wants => "Wants"
    case Conflicts => "Conflicts"
    case Type => "Type"
    case RemainAfterExit => "RemainAfterExit"
    case ExecStartPre => "ExecStartPre"
    case ExecStart => "ExecStart"
    case ExecStop => "ExecStop"
    case TimeoutSec => "TimeoutSec"
  }

  /** A line of a unit file: a section header, an empty line, or `Key=value`. */
  datatype Line = Section(name: string) | Blank | Set(key: Key, value: string)

  function Render(l: Line): string {
    match l
    case Section(name) => "[" + name + "]"
    case Blank => ""
    case Set(k, v) => KeyName(k) + "=" + v
  }

  function RenderAll(ls: seq<Line>): (text: seq<string>)
    ensures |text| == |ls|
    ensures forall i :: 0 <= i < |ls| ==> text[i] == Render(ls[i])
  {
    if ls == [] then [] else [Render(ls[0])] + RenderAll(ls[1..])
  }

  function HeaderLines(cloneDevPath: string): seq<Line> {
    [ Section("Unit"),
      Set(Description, "Create dm-clone device " + cloneDevPath),
      Set(Documentation, "man:dmsetup(8) man:fstab(5) man:systemd-fstab-generator(8)"),
      Set(DefaultDependencies, "no") ]
  }

  function DependencyLines(sourceUnit: string, destUnit: string, metadataUnit: string): seq<Line> {
    var units := Join([sourceUnit, destUnit, metadataUnit]);
    [ Set(BindsTo, units),
      Set(Requires, units),
      Set(After, units) ]
  }

  function OrderingLines(escapedName: string): seq<Line> {
    [ Set(Before, "blockdev@dev-mapper-" + escapedName + ".target"),
      Set(Wants, "blockdev@dev-mapper-" + escapedName + ".target"),
      Set(Conflicts, "shutdown.target"),
      Blank,
      Section("Service"),
      Set(Type, "oneshot"),
      Set(RemainAfterExit, "yes") ]
  }

  const LoopSetupLine := Set(ExecStartPre, LoopSetupScript)

  /** The fifth argument of `add` is always empty, whatever the entry's options. */
  function ExecLines(clonePath: string, name: string, escapedSource: string,
                     escapedDest: string, escapedMetadata: string): seq<Line> {
    [ Set(ExecStart, clonePath + " add " + QuotedArgs([name, escapedSource, escapedDest, escapedMetadata, ""])),
      Set(ExecStop, clonePath + " remove " + name),
      Set(TimeoutSec, "0") ]
  }

  /** The service's unit file, line by line. */
  function UnitLines(s: CloneSpec, clonePath: string): seq<Line> {
    HeaderLines(s.cloneDevPath)
    + (if s.setupLoop then [] else DependencyLines(s.sourceUnit, s.destUnit, s.metadataUnit))
    + OrderingLines(s.escapedName)
    + (if s.setupLoop then [LoopSetupLine] else [])
    + ExecLines(clonePath, s.name, s.escapedSource, s.escapedDest, s.escapedMetadata)
  }

  /** The device unit of the clone device, named from the escaped clone name. */
  function CloneDeviceUnit(s: CloneSpec): string {
    "dev-mapper-" + s.escapedName + ".device"
  }

  /** The artifacts of one entry, in the order the source writes them. */
  function ArtifactOps(s: CloneSpec, clonePath: string): seq<Op> {
    [ OpenUnit(s.unit),
      FlushUnit(s.unit, RenderAll(UnitLines(s, clonePath))),
      AddSymlink(CloneDeviceUnit(s), "requires", s.unit),
      WriteDropIn(CloneDeviceUnit(s), DropInPriority, DropInName, DropInText),
      AddSymlink(CloneTarget, "requires", s.unit) ]
  }

  /** The entry's artifacts, or the error of the first name derivation that failed. */
  function Plan(h: Helpers, e: Entry): Result<seq<Op>> {
    match Derive(h, e)
    case Err(c) => Err(c)
    case Ok(s) => Ok(ArtifactOps(s, h.clonePath))
  }

  /** The status and log after generating the units of one entry. */
  function Generate(h: Helpers, io: Io, done: seq<Step>, e: Entry): Run {
    match Plan(h, e)
    case Err(c) => Run(c, done)
    case Ok(ops) => Execute(io, done, ops)
  }

  /** The values the lines of a unit file give directive `key`, in order. */
  function Values(ls: seq<Line>, key: Key): seq<string> {
    if ls == [] then []
    else (if ls[0].Set? && ls[0].key == key then [ls[0].value] else []) + Values(ls[1..], key)
  }

  lemma {:induction false} ValuesAppend(a: seq<Line>, b: seq<Line>, key: Key)
    ensures Values(a + b, key) == Values(a, key) + Values(b, key)
    decreases |a|
  {
    if a != [] {
      assert (a + b)[1..] == a[1..] + b;
      ValuesAppend(a[1..], b, key);
    } else {
      assert a + b == b;
    }
  }

  /** The source, dest and metadata device units, as a dependency line lists them. */
  function DeviceUnits(s: CloneSpec): seq<string> {
    [s.sourceUnit, s.destUnit, s.metadataUnit]
  }

  /** The directive values of the unit file, part by part. */
  lemma UnitLinesValues(s: CloneSpec, clonePath: string, key: Key)
    ensures Values(UnitLines(s, clonePath), key) ==
      Values(HeaderLines(s.cloneDevPath), key)
      + (if s.setupLoop then [] else Values(DependencyLines(s.sourceUnit, s.destUnit, s.metadataUnit), key))
      + Values(OrderingLines(s.escapedName), key)
      + (if s.setupLoop then Values([LoopSetupLine], key) else [])
      + Values(ExecLines(clonePath, s.name, s.escapedSource, s.escapedDest, s.escapedMetadata), key)
  {
    var a := HeaderLines(s.cloneDevPath);
    var b := if s.setupLoop then [] else DependencyLines(s.sourceUnit, s.destUnit, s.metadataUnit);
    var c := OrderingLines(s.escapedName);
    var d := if s.setupLoop then [LoopSetupLine] else [];
    var x := ExecLines(clonePath, s.name, s.escapedSource, s.escapedDest, s.escapedMetadata);
    assert UnitLines(s, clonePath) == a + b + c + d + x;
    ValuesAppend(a + b + c + d, x, key);
    ValuesAppend(a + b + c, d, key);
    ValuesAppend(a + b, c, key);
    ValuesAppend(a, b, key);
  }

  /** The directives that the loop-device variant adds or leaves out. */
  predicate VariantKey(key: Key) {
    key.ExecStartPre? || key.BindsTo? || key.Requires? || key.After?
  }

  /** The directives the lemmas below speak about. */
  predicate Listed(key: Key) {
    VariantKey(key) || key.ExecStart? || key.ExecStop?
  }

  /** A directive that no line sets has no values. */
  lemma {:induction false} ValuesAbsent(ls: seq<Line>, key: Key)
    requires forall i :: 0 <= i < |ls| ==> !(ls[i].Set? && ls[i].key == key)
    ensures Values(ls, key) == []
    decreases |ls|
  {
    if ls != [] {
      ValuesAbsent(ls[1..], key);
    }
  }

  lemma HeaderValues(cloneDevPath: string, key: Key)
    requires Listed(key)
    ensures Values(HeaderLines(cloneDevPath), key) == []
  {
    ValuesAbsent(HeaderLines(cloneDevPath), key);
  }

  lemma DependencyLineValues(s: CloneSpec, key: Key)
    requires Listed(key)
    ensures Values(DependencyLines(s.sourceUnit, s.destUnit, s.metadataUnit), key) ==
      if key.BindsTo? || key.Requires? || key.After? then [Join(DeviceUnits(s))] else []
  {
    var b := DependencyLines(s.sourceUnit, s.destUnit, s.metadataUnit);
    assert Values(b[2..], key) == if key.After? then [Join(DeviceUnits(s))] else [];
  }

  lemma OrderingValues(escapedName: string, key: Key)
    requires Listed(key)
    ensures Values(OrderingLines(escapedName), key) == []
  {
    ValuesAbsent(OrderingLines(escapedName), key);
  }

  lemma ExecValues(clonePath: string, name: string, es: string, ed: string, em: string, key: Key)
    requires Listed(key)
    ensures var x := ExecLines(clonePath, name, es, ed, em);
      Values(x, key) ==
        if key.ExecStart? then [x[0].value] else if key.ExecStop? then [x[1].value] else []
  {
    var x := ExecLines(clonePath, name, es, ed, em);
    assert Values(x[2..], key) == [];
  }

  lemma LoopLineValues(key: Key)
    ensures Values([LoopSetupLine], key) == if key.ExecStartPre? then [LoopSetupScript] else []
  {
    var l := [LoopSetupLine];
    assert l[0] == Set(ExecStartPre, LoopSetupScript);
    assert l[1..] == [];
  }

  /** A listed directive is set only by the variant part and the commands. */
  lemma VariantAndExecValues(s: CloneSpec, clonePath: string, key: Key)
    requires Listed(key)
    ensures var x := ExecLines(clonePath, s.name, s.escapedSource, s.escapedDest, s.escapedMetadata);
      var dep := DependencyLines(s.sourceUnit, s.destUnit, s.metadataUnit);
      Values(UnitLines(s, clonePath), key) ==
        (if s.setupLoop then Values([LoopSetupLine], key) else Values(dep, key)) + Values(x, key)
  {
    var x := ExecLines(clonePath, s.name, s.escapedSource, s.escapedDest, s.escapedMetadata);
    var dep := Values(DependencyLines(s.sourceUnit, s.destUnit, s.metadataUnit), key);
    var pre := Values([LoopSetupLine], key);
    UnitLinesValues(s, clonePath, key);
    HeaderValues(s.cloneDevPath, key);
    OrderingValues(s.escapedName, key);
    var u, xs := Values(UnitLines(s, clonePath), key), Values(x, key);
    if s.setupLoop {
      assert u == [] + [] + [] + pre + xs;
    } else {
      assert u == [] + dep + [] + [] + xs;
    }
  }

  /** Where each listed directive is set in the unit file. */
  lemma ListedValues(s: CloneSpec, clonePath: string, key: Key)
    requires Listed(key)
    ensures var x := ExecLines(clonePath, s.name, s.escapedSource, s.escapedDest, s.escapedMetadata);
      Values(UnitLines(s, clonePath), key) ==
        if key.ExecStartPre? then (if s.setupLoop then [LoopSetupScript] else [])
        else if key.ExecStart? then [x[0].value]
        else if key.ExecStop? then [x[1].value]
        else (if s.setupLoop then [] else [Join(DeviceUnits(s))])
  {
    VariantAndExecValues(s, clonePath, key);
    DependencyLineValues(s, key);
    ExecValues(clonePath, s.name, s.escapedSource, s.escapedDest, s.escapedMetadata, key);
    LoopLineValues(key);
  }

  /**
   * The loop-device variant: exactly when all three backing devices are loop
   * devices, the unit runs the setup script before starting and has no
   * BindsTo, Requires or After dependency on the device units; otherwise it
   * has one line of each, each listing the three device units.
   */
  lemma LoopVariant(h: Helpers, e: Entry)
    requires Derive(h, e).Ok?
    ensures var s := Derive(h, e).value;
      var ls := UnitLines(s, h.clonePath);
      var loop := SetupLoop(e.source, e.dest, e.metadata);
      && Values(ls, ExecStartPre) == (if loop then [LoopSetupScript] else [])
      && Values(ls, BindsTo) == (if loop then [] else [Join(DeviceUnits(s))])
      && Values(ls, Requires) == (if loop then [] else [Join(DeviceUnits(s))])
      && Values(ls, After) == (if loop then [] else [Join(DeviceUnits(s))])
  {
    var s := Derive(h, e).value;
    ListedValues(s, h.clonePath, ExecStartPre);
    ListedValues(s, h.clonePath, BindsTo);
    ListedValues(s, h.clonePath, Requires);
    ListedValues(s, h.clonePath, After);
  }

  /**
   * Read as a list of words, as the service manager reads it, each
   * dependency directive names the source, dest and metadata device units,
   * in that order, each as `unit_name_from_path` derived it from the entry.
   */
  lemma DependencyOrder(h: Helpers, e: Entry, key: Key)
    requires Derive(h, e).Ok?
    requires key.BindsTo? || key.Requires? || key.After?
    requires !SetupLoop(e.source, e.dest, e.metadata)
    requires forall u <- DeviceUnits(Derive(h, e).value) :: IsWord(u)
    ensures h.unitNameFromPath(e.source, ".device").Ok?
    ensures h.unitNameFromPath(e.dest, ".device").Ok?
    ensures h.unitNameFromPath(e.metadata, ".device").Ok?
    ensures var vs := Values(UnitLines(Derive(h, e).value, h.clonePath), key);
      |vs| == 1
      && Tokens(vs[0]) == [ h.unitNameFromPath(e.source, ".device").value,
                            h.unitNameFromPath(e.dest, ".device").value,
                            h.unitNameFromPath(e.metadata, ".device").value ]
  {
    var s := Derive(h, e).value;
    ListedValues(s, h.clonePath, key);
    TokensJoin(DeviceUnits(s));
  }

  /**
   * ExecStart runs `add` with five single-quoted arguments: the raw clone
   * name, the three C-escaped device paths and an empty options argument.
   * Reading the arguments back needs them free of single quotes.
   */
  lemma ExecCommands(h: Helpers, e: Entry)
    requires Derive(h, e).Ok?
    requires NoQuote(e.name)
    requires NoQuote(h.cescape(e.source)) && NoQuote(h.cescape(e.dest)) && NoQuote(h.cescape(e.metadata))
    ensures var ls := UnitLines(Derive(h, e).value, h.clonePath);
      && |Values(ls, ExecStart)| == 1
      && (exists args :: Values(ls, ExecStart)[0] == h.clonePath + " add " + args
            && ParseQuoted(args) == Some([e.name, h.cescape(e.source), h.cescape(e.dest), h.cescape(e.metadata), ""]))
  {
    var s := Derive(h, e).value;
    ListedValues(s, h.clonePath, ExecStart);
    var argv := [e.name, h.cescape(e.source), h.cescape(e.dest), h.cescape(e.metadata), ""];
    ParseQuotedArgs(argv);
    assert Values(UnitLines(s, h.clonePath), ExecStart)[0] == h.clonePath + " add " + QuotedArgs(argv);
  }

  /**
   * ExecStop runs `remove` with the raw clone name, whatever characters it
   * holds, and nothing written for an entry depends on the options it gave.
   */
  lemma StopIgnoresOptions(h: Helpers, e: Entry, otherOptions: Option<string>)
    ensures Derive(h, e).Ok? ==>
      Values(UnitLines(Derive(h, e).value, h.clonePath), ExecStop) == [h.clonePath + " remove " + e.name]
    ensures Plan(h, e.(options := otherOptions)) == Plan(h, e)
  {
    if Derive(h, e).Ok? {
      ListedValues(Derive(h, e).value, h.clonePath, ExecStop);
    }
  }

  /** A failure to derive a name is returned before anything is written. */
  lemma NamesFailFirst(h: Helpers, io: Io, done: seq<Step>, e: Entry)
    requires Derive(h, e).Err?
    ensures Generate(h, io, done, e) == Run(Derive(h, e).code, done)
  {
  }

  /** The number of primitives `Generate` attempted. */
  function Attempted(h: Helpers, io: Io, done: seq<Step>, e: Entry): int {
    |Generate(h, io, done, e).steps| - |done|
  }

  /** The steps of one entry follow its plan in order, each with the status the environment gave it. */
  lemma GenerateInOrder(h: Helpers, io: Io, done: seq<Step>, e: Entry)
    requires Plan(h, e).Ok?
    ensures var o, ops := Generate(h, io, done, e), Plan(h, e).value;
      && done <= o.steps
      && 0 < |o.steps| - |done| <= 5
      && forall k :: |done| <= k < |o.steps| ==>
           o.steps[k] == Step(ops[k - |done|], io(o.steps[..k], ops[k - |done|]))
  {
    ExecuteShape(io, done, Plan(h, e).value);
  }

  /**
   * No symlink and no drop-in is written unless the unit file was opened
   * and flushed without error.
   */
  lemma UnitFileBeforeLinks(h: Helpers, io: Io, done: seq<Step>, e: Entry)
    requires Plan(h, e).Ok?
    ensures var o := Generate(h, io, done, e);
      Attempted(h, io, done, e) > 2 ==>
        o.steps[|done|].op.OpenUnit? && o.steps[|done|].status == 0
        && o.steps[|done| + 1].op.FlushUnit? && o.steps[|done| + 1].status == 0
  {
    ExecuteShape(io, done, Plan(h, e).value);
  }

  /** The clone.target symlink is created only after the device symlink was. */
  lemma TargetLinkAfterDeviceLink(h: Helpers, io: Io, done: seq<Step>, e: Entry)
    requires Plan(h, e).Ok?
    ensures var o, s := Generate(h, io, done, e), Derive(h, e).value;
      Attempted(h, io, done, e) == 5 ==>
        o.steps[|done| + 2] == Step(AddSymlink(CloneDeviceUnit(s), "requires", s.unit), 0)
        && o.steps[|done| + 4].op == AddSymlink(CloneTarget, "requires", s.unit)
  {
    ExecuteShape(io, done, Plan(h, e).value);
  }

  /**
   * Whatever the drop-in write returns, once it is attempted the clone.target
   * symlink is attempted next, and its status is the entry's result.
   */
  lemma DropInOnlyWarns(h: Helpers, io: Io, done: seq<Step>, e: Entry)
    requires Plan(h, e).Ok?
    ensures var o := Generate(h, io, done, e);
      Attempted(h, io, done, e) > 3 ==>
        o.steps[|done| + 3].op.WriteDropIn?
        && Attempted(h, io, done, e) == 5
        && o.status == o.steps[|done| + 4].status
  {
    ExecuteShape(io, done, Plan(h, e).value);
  }

  /**
   * An entry succeeds exactly when its names were derived and every
   * primitive except possibly the drop-in succeeded; a failure is the
   * status of the last step attempted.
   */
  lemma GenerateSucceeds(h: Helpers, io: Io, done: seq<Step>, e: Entry)
    ensures var o := Generate(h, io, done, e);
      && (o.status == 0 <==>
            Plan(h, e).Ok? && Attempted(h, io, done, e) == 5
            && o.steps[|done|].status == 0 && o.steps[|done| + 1].status == 0
            && o.steps[|done| + 2].status == 0 && o.steps[|done| + 4].status == 0)
      && (o.status < 0 && Plan(h, e).Ok? ==> |o.steps| > |done| && o.status == o.steps[|o.steps| - 1].status)
  {
    if Plan(h, e).Ok? {
      ExecuteShape(io, done, Plan(h, e).value);
    }
  }

  /** The `fprintf`s into the unit file: the text in the order the source writes it. */
  method ComposeUnitFile(s: CloneSpec, clonePath: string) returns (f: seq<Line>)
    ensures f == UnitLines(s, clonePath)
  {
    f := HeaderLines(s.cloneDevPath);
    if !s.setupLoop {
      f := f + DependencyLines(s.sourceUnit, s.destUnit, s.metadataUnit);
    }
    f := f + OrderingLines(s.escapedName);
    if s.setupLoop {
      f := f + [LoopSetupLine];
    }
    f := f + ExecLines(clonePath, s.name, s.escapedSource, s.escapedDest, s.escapedMetadata);
  }

  /**
   * `generate_clone_units`: derives the names step by step, returning at
   * the first failure, then opens the unit file, writes its text, flushes
   * it, and creates the symlinks and the drop-in.
   */
  method GenerateCloneUnits(dir: OutputDir, h: Helpers, name: string, source: string, dest: string,
                            metadata: string, options: Option<string>) returns (r: Status)
    modifies dir
    ensures var o := Generate(h, dir.io, old(dir.steps), Entry(name, source, dest, metadata, options));
      r == o.status && dir.steps == o.steps
  {
    ghost var e := Entry(name, source, dest, metadata, options);
    var cloneDevPath := h.pathJoin(MapperDir, name);
    var escaped := h.unitNameEscape(name);
    var built := h.unitNameBuild(ServicePrefix, escaped, ".service");
    if built.Err? {
      return built.code;
    }
    var unit := built.value;
    var sourceUnit := h.unitNameFromPath(source, ".device");
    if sourceUnit.Err? {
      return sourceUnit.code;
    }
    var destUnit := h.unitNameFromPath(dest, ".device");
    if destUnit.Err? {
      return destUnit.code;
    }
    var metadataUnit := h.unitNameFromPath(metadata, ".device");
    if metadataUnit.Err? {
      return metadataUnit.code;
    }
    var escapedSource := h.cescape(source);
    var escapedDest := h.cescape(dest);
    var escapedMetadata := h.cescape(metadata);
    var setupLoop := SetupLoop(source, dest, metadata);
    var s := CloneSpec(name, cloneDevPath, escaped, unit, sourceUnit.value, destUnit.value, metadataUnit.value,
                       escapedSource, escapedDest, escapedMetadata, setupLoop);
    assert Derive(h, e) == Ok(s);
    var dmName := "dev-mapper-" + escaped + ".device";
    assert dmName == CloneDeviceUnit(s);
    r := WriteArtifacts(dir, s, h.clonePath, dmName);
  }

  /** The artifacts of `generate_clone_units`, from opening the unit file on. */
  method WriteArtifacts(dir: OutputDir, s: CloneSpec, clonePath: string, dmName: string) returns (r: Status)
    requires dmName == CloneDeviceUnit(s)
    modifies dir
    ensures var o := Execute(dir.io, old(dir.steps), ArtifactOps(s, clonePath));
      r == o.status && dir.steps == o.steps
  {
    ghost var rest := ArtifactOps(s, clonePath);
    ghost var goal := Execute(dir.io, dir.steps, rest);
    r := dir.Apply(OpenUnit(s.unit));
    if r < 0 {
      return;
    }
    ExecuteNext(dir.io, old(dir.steps), rest);
    rest := rest[1..];
    var f := ComposeUnitFile(s, clonePath);
    ghost var before := dir.steps;
    r := dir.Apply(FlushUnit(s.unit, RenderAll(f)));
    if r < 0 {
      return;
    }
    ExecuteNext(dir.io, before, rest);
    rest := rest[1..];
    before := dir.steps;
    r := dir.Apply(AddSymlink(dmName, "requires", s.unit));
    if r < 0 {
      return;
    }
    ExecuteNext(dir.io, before, rest);
    rest := rest[1..];
    before := dir.steps;
    // a failed drop-in is only warned about
    r := dir.Apply(WriteDropIn(dmName, DropInPriority, DropInName, DropInText));
    ExecuteNext(dir.io, before, rest);
    rest := rest[1..];
    before := dir.steps;
    r := dir.Apply(AddSymlink(CloneTarget, "requires", s.unit));
    if r < 0 {
      return;
    }
    ExecuteNext(dir.io, before, rest);
    return 0;
  }
}
