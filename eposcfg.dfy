/**
 * The eposcfg tool (tools/eposcfg/eposcfg.cc): it answers one query about
 * the EPOS build configuration. The configuration names live in fixed
 * tables of ARRAY_MAX rows, the unused rows holding the empty string;
 * the build's traits, fixed at compile time in the source, are a parameter
 * here, and the lines the tool writes to standard output are its result.
 */
module EposCfg {

  const ARRAY_MAX: nat := 128
  const STR_SIZE_MAX: nat := 128

  /** A name table: the given names in its first rows, the empty string in the rest. */
  function Table(names: seq<string>): (t: seq<string>)
    requires |names| <= ARRAY_MAX
    ensures |t| == ARRAY_MAX
    ensures forall i :: 0 <= i < |names| ==> t[i] == names[i]
    ensures forall i :: |names| <= i < ARRAY_MAX ==> t[i] == ""
  {
    names + seq(ARRAY_MAX - |names|, _ => "")
  }

  /** int_cfg_names and str_cfg_names. */
  const INT_CFG_NAMES: seq<string> := Table(["-CPUS", "-NODES"])
  const STR_NAMES: seq<string> := ["-ARCHITECTURE", "-MACHINE", "-MODEL", "-COMPONENTS", "-MEDIATORS"]
  const STR_CFG_NAMES: seq<string> := Table(STR_NAMES)

  /** The EPOS components, and the components table. */
  const COMPONENT_NAMES: seq<string> := [
    "System", "Application", "Thread", "Active", "Periodic_Thread", "RT_Thread", "Task",
    "Scheduler", "Address_Space", "Segment", "Synchronizer", "Mutex", "Semaphore",
    "Condition", "Clock", "Chronometer", "Alarm", "Delay", "Network", "ELP", "TSTP",
    "ARP", "IP", "ICMP", "UDP", "TCP", "DHCP", "IPC", "Link", "Port", "Smart_Data"]
  const COMPONENTS: seq<string> := Table(COMPONENT_NAMES)

  /** The EPOS mediators, and the mediators table. */
  const MEDIATOR_NAMES: seq<string> := [
    "CPU", "TSC", "MMU", "FPU", "PMU", "Machine", "PCI", "IC", "Timer", "RTC", "UART",
    "USB", "EEPROM", "Display", "Serial_Display", "Keyboard", "Serial_Keyboard",
    "Scratchpad", "GPIO", "I2C", "ADC", "FPGA", "NIC", "Ethernet", "IEEE802_15_4",
    "PCNet32", "C905", "E100", "CC2538", "AT86RF", "GEM"]
  const MEDIATORS: seq<string> := Table(MEDIATOR_NAMES)

  // ---------------------------------------------------------------- the build's traits

  datatype Architecture = IA32 | ARMv7 | OtherArchitecture
  datatype Machine = PC | Cortex | OtherMachine
  datatype Model = Legacy_PC | EMote3 | LM3S811 | Zynq | OtherModel

  /**
   * The Traits<...> values the tool reports: the CPU and node counts, the
   * architecture, machine and model, and whether the component or
   * mediator of each name is enabled.
   */
  datatype Traits = Traits(cpus: int, nodes: int, architecture: Architecture, machine: Machine, model: Model,
                           componentEnabled: string -> bool, mediatorEnabled: string -> bool)

  const UNSUPPORTED: string := "ERROR! Value not supported!"

  function ArchitectureName(a: Architecture): string {
    match a
    case IA32 => "IA32"
    case ARMv7 => "ARMv7"
    case OtherArchitecture => UNSUPPORTED
  }

  function MachineName(m: Machine): string {
    match m
    case PC => "PC"
    case Cortex => "Cortex"
    case OtherMachine => UNSUPPORTED
  }

  function ModelName(m: Model): string {
    match m
    case Legacy_PC => "Legacy_PC"
    case EMote3 => "eMote3"
    case LM3S811 => "LM3S811"
    case Zynq => "Zynq"
    case OtherModel => UNSUPPORTED
  }

  /** int_cfg_values: the CPU and node counts, then zeros. */
  function IntValue(traits: Traits, idx: nat): int {
    if idx == 0 then traits.cpus else if idx == 1 then traits.nodes else 0
  }

  // ---------------------------------------------------------------- find_cfg

  /** The first row from `from` on that holds name, or -1 when none does. */
  function Find(names: seq<string>, name: string, from: nat): int
    decreases |names| - from
  {
    if from >= |names| then -1
    else if names[from] == name then from
    else Find(names, name, from + 1)
  }

  /** Find answers the smallest matching row, and -1 exactly when no row matches. */
  lemma {:induction false} FindSpec(names: seq<string>, name: string, from: nat)
    decreases |names| - from
    ensures var r := Find(names, name, from);
      && (r == -1 <==> forall j :: from <= j < |names| ==> names[j] != name)
      && (r != -1 ==> from <= r < |names| && names[r] == name && forall j :: from <= j < r ==> names[j] != name)
  {
    if from < |names| && names[from] != name {
      FindSpec(names, name, from + 1);
    }
  }

  /** find_cfg: scan the table's rows in order and answer the first that equals the name, or -1. */
  method FindCfg(names: seq<string>, cfgName: string) returns (idx: int)
    requires |names| == ARRAY_MAX
    ensures idx == Find(names, cfgName, 0)
  {
    var i := 0;
    while i < ARRAY_MAX
      invariant 0 <= i <= ARRAY_MAX
      invariant Find(names, cfgName, 0) == Find(names, cfgName, i)
    {
      if names[i] == cfgName {
        return i;
      }
      i := i + 1;
    }
    return -1;
  }

  // ---------------------------------------------------------------- the output lines

  /** A line written to standard output: by puts or "%s\n", or by "%d\n". */
  datatype Line = Text(s: string) | Number(n: int)

  /** The rows of the table before its first empty one, one line each: the usage listing. */
  function Leading(names: seq<string>, from: nat): seq<Line>
    decreases |names| - from
  {
    if from >= |names| || names[from] == "" then []
    else [Text(names[from])] + Leading(names, from + 1)
  }

  /** The rows of the table whose flag is set, in table order. */
  function Selected(names: seq<string>, flags: seq<bool>): seq<Line>
    requires |flags| == |names|
  {
    if names == [] then []
    else
      var n := |names| - 1;
      Selected(names[..n], flags[..n]) + (if flags[n] then [Text(names[n])] else [])
  }

  /** The given names that are enabled, in their order. */
  function EnabledLines(names: seq<string>, enabled: string -> bool): seq<Line>
  {
    if names == [] then []
    else
      var n := |names| - 1;
      EnabledLines(names[..n], enabled) + (if enabled(names[n]) then [Text(names[n])] else [])
  }

  /** A name is listed exactly when it is one of the names and is enabled; nothing else is listed. */
  lemma {:induction false} EnabledLinesMembers(names: seq<string>, enabled: string -> bool)
    ensures forall l :: l in EnabledLines(names, enabled) <==> l.Text? && l.s in names && enabled(l.s)
  {
    if names != [] {
      var n := |names| - 1;
      EnabledLinesMembers(names[..n], enabled);
      assert names == names[..n] + [names[n]];
    }
  }

  /**
   * The flag populate_strings gives a table row: the row's own trait when it
   * names a known component or mediator, and false otherwise, which covers
   * the empty rows.
   */
  function Flag(known: seq<string>, enabled: string -> bool, name: string): bool {
    name in known && enabled(name)
  }

  /** Rows matching no known name are disabled; a row naming a known entry has its trait's value. */
  lemma FlagUnknown(known: seq<string>, enabled: string -> bool, name: string)
    ensures name !in known ==> !Flag(known, enabled, name)
    ensures name in known ==> Flag(known, enabled, name) == enabled(name)
  {
  }

  /** The empty rows of the component and mediator tables are disabled whatever the traits. */
  lemma EmptyRowsDisabled(traits: Traits, i: nat)
    requires |COMPONENT_NAMES| <= i < ARRAY_MAX
    ensures !Flag(COMPONENT_NAMES, traits.componentEnabled, COMPONENTS[i])
    ensures !Flag(MEDIATOR_NAMES, traits.mediatorEnabled, MEDIATORS[i])
  {
    assert COMPONENTS[i] == "" && MEDIATORS[i] == "";
    NoEmptyNames();
  }

  /** No component or mediator has the empty name. */
  lemma NoEmptyNames()
    ensures "" !in COMPONENT_NAMES && "" !in MEDIATOR_NAMES
  {
  }

  /** The usage listing of a table is its names. */
  lemma {:induction false} LeadingTable(names: seq<string>, from: nat)
    requires |names| <= ARRAY_MAX && from <= |names|
    requires forall i :: 0 <= i < |names| ==> names[i] != ""
    decreases |names| - from
    ensures Leading(Table(names), from) == seq(|names| - from, i requires 0 <= i < |names| - from => Text(names[from + i]))
  {
    if from < |names| {
      LeadingTable(names, from + 1);
    } else {
      if from < ARRAY_MAX {
        assert Table(names)[from] == "";
      }
    }
  }

  /** Selecting by flags over a concatenation concatenates the selections. */
  lemma {:induction false} SelectedAppend(a: seq<string>, fa: seq<bool>, b: seq<string>, fb: seq<bool>)
    requires |fa| == |a| && |fb| == |b|
    ensures Selected(a + b, fa + fb) == Selected(a, fa) + Selected(b, fb)
  {
    if b != [] {
      var n := |b| - 1;
      assert (a + b)[..|a + b| - 1] == a + b[..n];
      assert (fa + fb)[..|fa + fb| - 1] == fa + fb[..n];
      SelectedAppend(a, fa, b[..n], fb[..n]);
      var tail := if fb[n] then [Text(b[n])] else [];
      assert Selected(a, fa) + Selected(b[..n], fb[..n]) + tail == Selected(a, fa) + (Selected(b[..n], fb[..n]) + tail);
    } else {
      assert a + b == a && fa + fb == fa;
    }
  }

  /** No line is selected where no flag is set. */
  lemma {:induction false} SelectedNone(names: seq<string>, flags: seq<bool>)
    requires |flags| == |names| && forall i :: 0 <= i < |flags| ==> !flags[i]
    ensures Selected(names, flags) == []
  {
    if names != [] {
      SelectedNone(names[..|names| - 1], flags[..|names| - 1]);
    }
  }

  /** Selecting known names by their own flags lists the enabled ones. */
  lemma {:induction false} SelectedKnown(names: seq<string>, known: seq<string>, enabled: string -> bool, flags: seq<bool>)
    requires |flags| == |names|
    requires forall i :: 0 <= i < |names| ==> names[i] in known && flags[i] == enabled(names[i])
    ensures Selected(names, flags) == EnabledLines(names, enabled)
  {
    if names != [] {
      SelectedKnown(names[..|names| - 1], known, enabled, flags[..|names| - 1]);
    }
  }

  /**
   * Listing a table whose flags populate_strings set prints exactly the
   * enabled names of the known list, in its order.
   */
  lemma ListingIsEnabled(known: seq<string>, enabled: string -> bool, flags: seq<bool>)
    requires |known| <= ARRAY_MAX && "" !in known
    requires |flags| == ARRAY_MAX
    requires forall i :: 0 <= i < ARRAY_MAX ==> flags[i] == Flag(known, enabled, Table(known)[i])
    ensures Selected(Table(known), flags) == EnabledLines(known, enabled)
  {
    var t := Table(known);
    var k := |known|;
    assert t == t[..k] + t[k..];
    assert flags == flags[..k] + flags[k..];
    SelectedAppend(t[..k], flags[..k], t[k..], flags[k..]);
    assert t[..k] == known;
    SelectedKnown(known, known, enabled, flags[..k]);
    SelectedNone(t[k..], flags[k..]);
  }

  // ---------------------------------------------------------------- the query

  /** The answer in the str_cfg_values row that populate_strings fills for the row's name. */
  function StrValue(traits: Traits, idx: nat): string {
    if idx == 0 then ArchitectureName(traits.architecture)
    else if idx == 1 then MachineName(traits.machine)
    else if idx == 2 then ModelName(traits.model)
    else ""
  }

  /**
   * What main answers for the argument vector args (args[0] is the program
   * name): the exit status and the lines on standard output.
   */
  function Query(args: seq<string>, traits: Traits): (int, seq<Line>)
  {
    if |args| != 2 then (1, Leading(INT_CFG_NAMES, 0) + Leading(STR_CFG_NAMES, 0))
    else if |args[1]| > STR_SIZE_MAX then (1, [])
    else Answer(args[1], traits)
  }

  /** What main answers for an acceptable name, once populate_strings has run. */
  function Answer(name: string, traits: Traits): (int, seq<Line>)
  {
    if name == "-COMPONENTS" then (0, EnabledLines(COMPONENT_NAMES, traits.componentEnabled))
    else if name == "-MEDIATORS" then (0, EnabledLines(MEDIATOR_NAMES, traits.mediatorEnabled))
    else Lookup(name, traits)
  }

  /** The table lookup of main: the int table first, then the string table, else a failure. */
  function Lookup(name: string, traits: Traits): (int, seq<Line>)
  {
    var i := Find(INT_CFG_NAMES, name, 0);
    var j := Find(STR_CFG_NAMES, name, 0);
    if i >= 0 then (0, [Number(IntValue(traits, i))])
    else if j >= 0 then (0, [Text(StrValue(traits, j))])
    else (1, [])
  }

  /** A wrong argument count lists the configuration names and fails. */
  lemma QueryUsage(args: seq<string>, traits: Traits)
    requires |args| != 2
    ensures Query(args, traits).0 == 1
    ensures Query(args, traits).1 == [Text("-CPUS"), Text("-NODES"), Text("-ARCHITECTURE"), Text("-MACHINE"),
                                      Text("-MODEL"), Text("-COMPONENTS"), Text("-MEDIATORS")]
  {
    LeadingTable(["-CPUS", "-NODES"], 0);
    LeadingTable(STR_NAMES, 0);
  }

  /** A name longer than STR_SIZE_MAX fails with no output. */
  lemma QueryTooLong(args: seq<string>, traits: Traits)
    requires |args| == 2 && |args[1]| > STR_SIZE_MAX
    ensures Query(args, traits) == (1, [])
  {
  }

  /** The int table is searched first, and a name in neither table fails with no output. */
  lemma QueryLookup(args: seq<string>, traits: Traits)
    requires |args| == 2 && |args[1]| <= STR_SIZE_MAX && args[1] != "-COMPONENTS" && args[1] != "-MEDIATORS"
    ensures args[1] in INT_CFG_NAMES ==> Query(args, traits).0 == 0 && |Query(args, traits).1| == 1 && Query(args, traits).1[0].Number?
    ensures args[1] !in INT_CFG_NAMES && args[1] in STR_CFG_NAMES ==> Query(args, traits).0 == 0 && |Query(args, traits).1| == 1 && Query(args, traits).1[0].Text?
    ensures args[1] !in INT_CFG_NAMES && args[1] !in STR_CFG_NAMES ==> Query(args, traits) == (1, [])
  {
    FindSpec(INT_CFG_NAMES, args[1], 0);
    FindSpec(STR_CFG_NAMES, args[1], 0);
  }

  /** The configuration queries answer the traits. */
  lemma QueryValues(p: string, traits: Traits)
    ensures Query([p, "-CPUS"], traits) == (0, [Number(traits.cpus)])
    ensures Query([p, "-NODES"], traits) == (0, [Number(traits.nodes)])
    ensures Query([p, "-ARCHITECTURE"], traits) == (0, [Text(ArchitectureName(traits.architecture))])
    ensures Query([p, "-MACHINE"], traits) == (0, [Text(MachineName(traits.machine))])
    ensures Query([p, "-MODEL"], traits) == (0, [Text(ModelName(traits.model))])
  {
    IntRows();
    StrRows();
    NotIntName("-ARCHITECTURE");
    NotIntName("-MACHINE");
    NotIntName("-MODEL");
  }

  /** The rows of the int table that hold its names. */
  lemma IntRows()
    ensures Find(INT_CFG_NAMES, "-CPUS", 0) == 0
    ensures Find(INT_CFG_NAMES, "-NODES", 0) == 1
  {
    assert INT_CFG_NAMES[0] == "-CPUS" && INT_CFG_NAMES[1] == "-NODES";
    FindAt(INT_CFG_NAMES, "-NODES", 1);
  }

  /** A nonempty name other than the two int configurations is in no row of the int table. */
  lemma NotIntName(name: string)
    requires name != "" && name != "-CPUS" && name != "-NODES"
    ensures Find(INT_CFG_NAMES, name, 0) == -1
  {
    assert INT_CFG_NAMES[0] == "-CPUS" && INT_CFG_NAMES[1] == "-NODES";
    FindSpec(INT_CFG_NAMES, name, 0);
  }

  /**
   * The empty name matches the first unused row of the int table, so it
   * answers that row's value, 0, and succeeds.
   */
  lemma QueryEmptyName(p: string, traits: Traits)
    ensures Query([p, ""], traits) == (0, [Number(0)])
  {
    assert INT_CFG_NAMES[0] == "-CPUS" && INT_CFG_NAMES[1] == "-NODES" && INT_CFG_NAMES[2] == "";
  }

  /** The rows of the string table main can reach hold a name populate_strings fills. */
  lemma StrRowReached(name: string)
    requires Find(INT_CFG_NAMES, name, 0) < 0 && name != "-COMPONENTS" && name != "-MEDIATORS"
    ensures Find(STR_CFG_NAMES, name, 0) < 3
  {
    FindSpec(INT_CFG_NAMES, name, 0);
    assert INT_CFG_NAMES[2] == "";
    assert name != "";
    FindSpec(STR_CFG_NAMES, name, 0);
    assert STR_CFG_NAMES[3] == "-COMPONENTS" && STR_CFG_NAMES[4] == "-MEDIATORS";
    assert forall i :: 5 <= i < ARRAY_MAX ==> STR_CFG_NAMES[i] == "";
  }

  /** The rows populate_strings looks up in the string table. */
  lemma StrRows()
    ensures Find(STR_CFG_NAMES, "-ARCHITECTURE", 0) == 0
    ensures Find(STR_CFG_NAMES, "-MACHINE", 0) == 1
    ensures Find(STR_CFG_NAMES, "-MODEL", 0) == 2
    ensures Find(STR_CFG_NAMES, "-COMPONENTS", 0) == 3
    ensures Find(STR_CFG_NAMES, "-MEDIATORS", 0) == 4
  {
    forall k | 0 <= k < 5
      ensures Find(STR_CFG_NAMES, STR_NAMES[k], 0) == k
    {
      assert STR_CFG_NAMES[k] == STR_NAMES[k];
      assert forall j :: 0 <= j < k ==> STR_CFG_NAMES[j] == STR_NAMES[j] != STR_NAMES[k];
      FindAt(STR_CFG_NAMES, STR_NAMES[k], k);
    }
    assert STR_NAMES[2] == "-MODEL" && STR_NAMES[3] == "-COMPONENTS" && STR_NAMES[4] == "-MEDIATORS";
  }

  /** A row that holds the name, with no earlier row holding it, is the one Find answers. */
  lemma FindAt(names: seq<string>, name: string, k: nat)
    requires k < |names| && names[k] == name
    requires forall j :: 0 <= j < k ==> names[j] != name
    ensures Find(names, name, 0) == k
  {
    FindSpec(names, name, 0);
  }

  // ---------------------------------------------------------------- the tool's state

  /**
   * The tables populate_strings fills: str_cfg_values and the component and
   * mediator flags, zeroed at start as static storage is.
   */
  class Tool {
    const strCfgValues: array<string>
    const enabledComponents: array<bool>
    const enabledMediators: array<bool>

    predicate Valid()
      reads this
    {
      strCfgValues.Length == ARRAY_MAX && enabledComponents.Length == ARRAY_MAX && enabledMediators.Length == ARRAY_MAX &&
      enabledComponents != enabledMediators
    }

    constructor ()
      ensures Valid() && fresh(strCfgValues) && fresh(enabledComponents) && fresh(enabledMediators)
      ensures forall i :: 0 <= i < ARRAY_MAX ==> strCfgValues[i] == "" && !enabledComponents[i] && !enabledMediators[i]
    {
      strCfgValues := new string[ARRAY_MAX](_ => "");
      enabledComponents := new bool[ARRAY_MAX](_ => false);
      enabledMediators := new bool[ARRAY_MAX](_ => false);
    }

    /** populate_strings: the three single-string answers, then the component and mediator flags. */
    method PopulateStrings(traits: Traits)
      requires Valid()
      modifies strCfgValues, enabledComponents, enabledMediators
      ensures Valid()
      ensures strCfgValues[0] == ArchitectureName(traits.architecture)
      ensures strCfgValues[1] == MachineName(traits.machine)
      ensures strCfgValues[2] == ModelName(traits.model)
      ensures forall i :: 3 <= i < ARRAY_MAX ==> strCfgValues[i] == old(strCfgValues[i])
      ensures forall i :: 0 <= i < ARRAY_MAX ==> enabledComponents[i] == Flag(COMPONENT_NAMES, traits.componentEnabled, COMPONENTS[i])
      ensures forall i :: 0 <= i < ARRAY_MAX ==> enabledMediators[i] == Flag(MEDIATOR_NAMES, traits.mediatorEnabled, MEDIATORS[i])
    {
      StrRows();
      var idx := FindCfg(STR_CFG_NAMES, "-ARCHITECTURE");
      if idx >= 0 {
        strCfgValues[idx] := ArchitectureName(traits.architecture);
      }
      idx := FindCfg(STR_CFG_NAMES, "-MACHINE");
      if idx >= 0 {
        strCfgValues[idx] := MachineName(traits.machine);
      }
      idx := FindCfg(STR_CFG_NAMES, "-MODEL");
      if idx >= 0 {
        strCfgValues[idx] := ModelName(traits.model);
      }
      idx := FindCfg(STR_CFG_NAMES, "-COMPONENTS");
      if idx >= 0 {
        PopulateFlags(COMPONENTS, COMPONENT_NAMES, traits.componentEnabled, enabledComponents);
      }
      idx := FindCfg(STR_CFG_NAMES, "-MEDIATORS");
      if idx >= 0 {
        PopulateFlags(MEDIATORS, MEDIATOR_NAMES, traits.mediatorEnabled, enabledMediators);
      }
    }

    /**
     * The loops of populate_strings over the component and the mediator
     * table: each row's flag is its trait when the row names a known entry,
     * and false otherwise.
     */
    method PopulateFlags(table: seq<string>, known: seq<string>, enabled: string -> bool, flags: array<bool>)
      requires |table| == ARRAY_MAX && flags.Length == ARRAY_MAX
      modifies flags
      ensures forall i :: 0 <= i < ARRAY_MAX ==> flags[i] == Flag(known, enabled, table[i])
    {
      var i := 0;
      while i < ARRAY_MAX
        invariant 0 <= i <= ARRAY_MAX
        invariant forall j :: 0 <= j < i ==> flags[j] == Flag(known, enabled, table[j])
      {
        flags[i] := table[i] in known && enabled(table[i]);
        i := i + 1;
      }
    }

    /** The loop of main that puts every row whose flag is set. */
    method PutEnabled(names: seq<string>, flags: array<bool>) returns (out: seq<Line>)
      requires |names| == ARRAY_MAX && flags.Length == ARRAY_MAX
      ensures out == Selected(names, flags[..])
    {
      out := [];
      var i := 0;
      while i < ARRAY_MAX
        invariant 0 <= i <= ARRAY_MAX
        invariant out == Selected(names[..i], flags[..i])
      {
        assert names[..i + 1][..i] == names[..i];
        assert flags[..i + 1][..i] == flags[..i];
        if flags[i] {
          out := out + [Text(names[i])];
        }
        i := i + 1;
      }
      assert names[..i] == names && flags[..i] == flags[..];
    }

    /** The usage loop of main: put the rows up to the first empty one. */
    method PutNames(names: seq<string>) returns (out: seq<Line>)
      requires |names| == ARRAY_MAX
      ensures out == Leading(names, 0)
    {
      out := [];
      var i := 0;
      while i < ARRAY_MAX && |names[i]| > 0
        invariant 0 <= i <= ARRAY_MAX
        invariant out + Leading(names, i) == Leading(names, 0)
      {
        assert out + Leading(names, i) == out + [Text(names[i])] + Leading(names, i + 1);
        out := out + [Text(names[i])];
        i := i + 1;
      }
    }

    /**
     * main(argc, argv) with argv given as args: the exit status and the
     * lines written to standard output are those of Query.
     */
    method Run(args: seq<string>, traits: Traits) returns (status: int, out: seq<Line>)
      requires Valid()
      modifies strCfgValues, enabledComponents, enabledMediators
      ensures Valid()
      ensures (status, out) == Query(args, traits)
    {
      if |args| != 2 {
        var intNames := PutNames(INT_CFG_NAMES);
        var strNames := PutNames(STR_CFG_NAMES);
        return 1, intNames + strNames;
      }
      if |args[1]| > STR_SIZE_MAX {
        return 1, [];
      }
      PopulateStrings(traits);
      status, out := Dispatch(args[1], traits);
    }

    /** The rest of main once populate_strings has run: the listings, then the table lookup. */
    method Dispatch(name: string, traits: Traits) returns (status: int, out: seq<Line>)
      requires Valid()
      requires strCfgValues[0] == ArchitectureName(traits.architecture)
      requires strCfgValues[1] == MachineName(traits.machine)
      requires strCfgValues[2] == ModelName(traits.model)
      requires forall i :: 0 <= i < ARRAY_MAX ==> enabledComponents[i] == Flag(COMPONENT_NAMES, traits.componentEnabled, COMPONENTS[i])
      requires forall i :: 0 <= i < ARRAY_MAX ==> enabledMediators[i] == Flag(MEDIATOR_NAMES, traits.mediatorEnabled, MEDIATORS[i])
      ensures (status, out) == Answer(name, traits)
    {
      if name == "-COMPONENTS" {
        out := PutEnabled(COMPONENTS, enabledComponents);
        NoEmptyNames();
        ListingIsEnabled(COMPONENT_NAMES, traits.componentEnabled, enabledComponents[..]);
        return 0, out;
      }
      if name == "-MEDIATORS" {
        out := PutEnabled(MEDIATORS, enabledMediators);
        NoEmptyNames();
        ListingIsEnabled(MEDIATOR_NAMES, traits.mediatorEnabled, enabledMediators[..]);
        return 0, out;
      }
      var idx := FindCfg(INT_CFG_NAMES, name);
      if idx >= 0 {
        return 0, [Number(IntValue(traits, idx))];
      }
      idx := FindCfg(STR_CFG_NAMES, name);
      if idx >= 0 {
        StrRowReached(name);
        FindSpec(STR_CFG_NAMES, name, 0);
        return 0, [Text(strCfgValues[idx])];
      }
      return 1, [];
    }
  }
}
