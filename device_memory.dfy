// The memory-module record of the device manager: how the lshw, dmidecode and
// override-file attribute maps are folded into one record, and what the
// overview, the detail lines and the table show of it.

module Memory {
  import opened QtString
  import opened DeviceBase

  /** dmidecode's placeholder for a memory type it cannot name. */
  const OutOfSpec: string := "<OUT OF SPEC>"

  /** initFilterKey: the dmidecode keys that may appear as other information. */
  const MemoryFilterKeys: set<string> := {
    "Array Handle", "Error Information Handle", "Form Factor", "Set", "Bank Locator",
    "Type Detail", "Asset Tag", "Part Number", "Rank", "Memory Technology",
    "Memory Operating Mode Capability", "Firmware Version", "Module Manufacturer ID",
    "Module Product ID", "Memory Subsystem Controller Manufacturer ID",
    "Memory Subsystem Controller Product ID", "Non-Volatile Size", "Volatile Size",
    "Cache Size", "Logical Size"
  }

  /**
   * The named attributes of one memory module. The filter keys and the
   * other-information map are kept beside it, in the object.
   */
  datatype MemoryRecord = MemoryRecord(
    name: string,
    vendor: string,
    size: string,
    memoryType: string,
    speed: string,
    totalBandwidth: string,
    dataBandwidth: string,
    locator: string,
    serialNumber: string,
    configuredSpeed: string,
    minimumVoltage: string,
    maximumVoltage: string,
    configuredVoltage: string,
    matchedFromDmi: bool)

  /** A record as the constructor leaves it: every attribute empty, no dmidecode block taken. */
  function NewRecord(): (r: MemoryRecord)
    ensures !r.matchedFromDmi
    ensures r.name == r.vendor == r.size == r.memoryType == r.speed == r.locator == ""
    ensures forall f :: FieldValue(r, f) == ""
  {
    MemoryRecord("", "", "", "", "", "", "", "", "", "", "", "", "", false)
  }

  // ------------------------------------------------------------ size units

  /** A non-empty string keeps its first character through the "GiB" -> "GB" replacement. */
  lemma GiBReplaceKeepsHead(t: string)
    requires t != []
    ensures var r := ReplaceAll(t, "GiB", "GB"); r != [] && r[0] == t[0]
  {
  }

  /** A string that does not start with 'G' also keeps its second character. */
  lemma GiBReplaceKeepsSecond(t: string)
    requires |t| >= 2 && t[0] != 'G'
    ensures var r := ReplaceAll(t, "GiB", "GB"); |r| >= 2 && r[1] == t[1]
  {
    if |t| >= 3 {
      assert t[..3] != "GiB";
      GiBReplaceKeepsHead(t[1..]);
    }
  }

  /** "GB" in front of a string without "GiB" makes none. */
  lemma NoGiBBehindGB(rest: string)
    requires !Contains(rest, "GiB")
    ensures !Contains("GB" + rest, "GiB")
  {
    var r := "GB" + rest;
    assert r[1..] == ['B'] + rest && r[1..][1..] == rest;
    assert |r| >= 3 ==> r[..3][1] == 'B';
    assert |r[1..]| >= 3 ==> r[1..][..3][0] == 'B';
  }

  /** One character that does not start a "GiB" of `t`, in front of the replaced rest of `t`, makes none. */
  lemma NoGiBBehindChar(t: string)
    requires |t| >= 1 && (|t| < 3 || t[..3] != "GiB")
    requires !Contains(ReplaceAll(t[1..], "GiB", "GB"), "GiB")
    ensures !Contains([t[0]] + ReplaceAll(t[1..], "GiB", "GB"), "GiB")
  {
    var rest := ReplaceAll(t[1..], "GiB", "GB");
    var r := [t[0]] + rest;
    assert r[1..] == rest;
    if |r| >= 3 && r[0] == 'G' && r[1] == 'i' {
      GiBReplaceKeepsHead(t[1..]);
      assert t[1] == 'i';
      GiBReplaceKeepsSecond(t[1..]);
      assert r[2] == t[2];
      assert t[..3] != "GiB";
    }
    assert |r| >= 3 ==> r[..3] != "GiB";
  }

  /** After replacing every "GiB" by "GB" no "GiB" is left, not even one formed across a seam. */
  lemma {:induction false} NoGiBAfterReplace(t: string)
    ensures !Contains(ReplaceAll(t, "GiB", "GB"), "GiB")
    decreases |t|
  {
    if |t| < 3 {
      assert ReplaceAll(t, "GiB", "GB") == t;
    } else if t[..3] == "GiB" {
      NoGiBAfterReplace(t[3..]);
      NoGiBBehindGB(ReplaceAll(t[3..], "GiB", "GB"));
    } else {
      NoGiBAfterReplace(t[1..]);
      NoGiBBehindChar(t);
    }
  }

  /**
   * The integer stand-in for QString::toDouble on the size text once "MiB"
   * is removed: the value of its digits after trimming, and 0 for any other
   * text. toDouble also reads a fraction, a sign and an exponent ("1536.5",
   * "+512", "1e3"); those read as 0 here, as does text toDouble rejects.
   */
  function SizeNumber(s: string): nat {
    var t := Trim(s);
    if AllDigits(t) then DigitsValue(t) else 0
  }

  /**
   * MiB to whole GB. With `roundOddUp` (the build for the sw_64 processor) an
   * odd result is raised to the next even number.
   */
  function MiBToGB(mib: nat, roundOddUp: bool): (gb: nat)
    ensures !roundOddUp ==> gb == mib / 1024
    ensures roundOddUp ==> gb % 2 == 0 && (gb == mib / 1024 || gb == mib / 1024 + 1)
  {
    var gb := mib / 1024;
    if roundOddUp && gb % 2 != 0 then gb + 1 else gb
  }

  /** A number followed by "GB" holds no 'i', so neither "GiB" nor "MiB". */
  lemma GBTextHasNoBinaryUnit(n: nat)
    ensures !Contains(NumberText(n) + "GB", "GiB") && !Contains(NumberText(n) + "GB", "MiB")
    ensures IsSuffix("GB", NumberText(n) + "GB")
  {
    var t := NumberText(n) + "GB";
    assert forall k | 0 <= k < |t| :: t[k] != 'i';
    AbsentCharBlocksPattern(t, "GiB", 'i');
    AbsentCharBlocksPattern(t, "MiB", 'i');
  }

  /** The unit normalisation setInfoFromLshw applies to the size it has just read. */
  function NormalizeSize(s: string, roundOddUp: bool): (r: string)
    ensures !Contains(r, "GiB")
    ensures Contains(ReplaceAll(s, "GiB", "GB"), "MiB") ==> !Contains(r, "MiB") && IsSuffix("GB", r)
    ensures !Contains(s, "GiB") && !Contains(s, "MiB") ==> r == s
    ensures !Contains(r, "MiB")
  {
    NoGiBAfterReplace(s);
    var s1 := if Contains(s, "GiB") then ReplaceAll(s, "GiB", "GB") else s;
    if Contains(s1, "MiB") then
      var gb := MiBToGB(SizeNumber(ReplaceAll(s1, "MiB", "")), roundOddUp);
      GBTextHasNoBinaryUnit(gb);
      NumberText(gb) + "GB"
    else s1
  }

  /** Normalising an already normalised size changes nothing: it holds neither unit any more. */
  lemma NormalizeSizeIdempotent(s: string, roundOddUp: bool)
    ensures NormalizeSize(NormalizeSize(s, roundOddUp), roundOddUp) == NormalizeSize(s, roundOddUp)
  {
  }

  // ------------------------------------------------------------ ingestion

  /** setInfoFromLshw on a record value. */
  function FromLshw(r: MemoryRecord, m: AttributeMap, roundOddUp: bool): MemoryRecord {
    var name := SetAttribute(m, "description", SetAttribute(m, "product", r.name, false), false);
    r.(
      name := name,
      vendor := SetAttribute(m, "vendor", r.vendor, true),
      locator := SetAttribute(m, "slot", r.locator, true),
      size := NormalizeSize(SetAttribute(m, "size", r.size, true), roundOddUp),
      speed := SetAttribute(m, "clock", r.speed, true),
      totalBandwidth := SetAttribute(m, "width", r.totalBandwidth, true),
      dataBandwidth := SetAttribute(m, "width", r.dataBandwidth, true),
      serialNumber := SetAttribute(m, "serial", r.serialNumber, true))
  }

  /**
   * What lshw can change: a name only when none is known yet, the locator
   * only through "slot", the size always in decimal units; the dmidecode-only
   * attributes and the match flag never.
   */
  lemma LshwFields(r: MemoryRecord, m: AttributeMap, roundOddUp: bool)
    ensures var n := FromLshw(r, m, roundOddUp);
      && n.size == NormalizeSize(SetAttribute(m, "size", r.size, true), roundOddUp)
      && !Contains(n.size, "GiB")
      && (r.name != "" ==> n.name == r.name)
      && ("product" !in m && "description" !in m ==> n.name == r.name)
      && ("slot" !in m ==> n.locator == r.locator)
      && ("slot" in m && m["slot"] != "" ==> n.locator == m["slot"])
      && ("vendor" !in m ==> n.vendor == r.vendor)
      && ("clock" !in m ==> n.speed == r.speed)
      && ("serial" !in m ==> n.serialNumber == r.serialNumber)
      && ("width" !in m ==> n.totalBandwidth == r.totalBandwidth && n.dataBandwidth == r.dataBandwidth)
      && ("width" in m && m["width"] != "" ==> n.totalBandwidth == n.dataBandwidth == m["width"])
      && n.memoryType == r.memoryType && n.configuredSpeed == r.configuredSpeed
      && n.minimumVoltage == r.minimumVoltage && n.maximumVoltage == r.maximumVoltage
      && n.configuredVoltage == r.configuredVoltage && n.matchedFromDmi == r.matchedFromDmi
  {
  }

  /** The identity check of setInfoFromDmidecode: same locator, and no dmidecode block taken yet. */
  predicate DmiMatches(r: MemoryRecord, m: AttributeMap) {
    Value(m, "Locator") == r.locator && !r.matchedFromDmi
  }

  /** setInfoFromDmidecode on a record value: whether the block was taken, and the new record. */
  function FromDmidecode(r: MemoryRecord, m: AttributeMap): (bool, MemoryRecord) {
    if !DmiMatches(r, m) then (false, r)
    else
      var t := SetAttribute(m, "Type", r.memoryType, true);
      (true, r.(
        name := SetAttribute(m, "Part Number", r.name, true),
        serialNumber := SetAttribute(m, "Serial Number", r.serialNumber, true),
        speed := SetAttribute(m, "Speed", r.speed, true),
        configuredSpeed := SetAttribute(m, "Configured Memory Speed", r.configuredSpeed, true),
        minimumVoltage := SetAttribute(m, "Minimum Voltage", r.minimumVoltage, true),
        maximumVoltage := SetAttribute(m, "Maximum Voltage", r.maximumVoltage, true),
        configuredVoltage := SetAttribute(m, "Configured Voltage", r.configuredVoltage, true),
        totalBandwidth := SetAttribute(m, "Total Width", r.totalBandwidth, true),
        dataBandwidth := SetAttribute(m, "Data Width", r.dataBandwidth, true),
        memoryType := if t == OutOfSpec then "" else t,
        matchedFromDmi := true))
  }

  /**
   * A block is taken exactly when its locator is the module's and no block
   * was taken before; a refused block changes nothing, a taken one sets the
   * match flag, never leaves dmidecode's out-of-spec placeholder as the type,
   * and never moves locator, vendor or size.
   */
  lemma DmidecodeFields(r: MemoryRecord, m: AttributeMap)
    ensures var (ok, n) := FromDmidecode(r, m);
      && (ok <==> Value(m, "Locator") == r.locator && !r.matchedFromDmi)
      && (!ok ==> n == r)
      && (ok ==> n.matchedFromDmi && n.memoryType != OutOfSpec)
      && n.locator == r.locator && n.vendor == r.vendor && n.size == r.size
      && ("Part Number" !in m ==> n.name == r.name)
      && ("Serial Number" !in m ==> n.serialNumber == r.serialNumber)
      && ("Speed" !in m ==> n.speed == r.speed)
      && ("Configured Memory Speed" !in m ==> n.configuredSpeed == r.configuredSpeed)
      && ("Minimum Voltage" !in m ==> n.minimumVoltage == r.minimumVoltage)
      && ("Maximum Voltage" !in m ==> n.maximumVoltage == r.maximumVoltage)
      && ("Configured Voltage" !in m ==> n.configuredVoltage == r.configuredVoltage)
      && ("Total Width" !in m ==> n.totalBandwidth == r.totalBandwidth)
      && ("Data Width" !in m ==> n.dataBandwidth == r.dataBandwidth)
      && ("Type" !in m ==> n.memoryType == (if ok && r.memoryType == OutOfSpec then "" else r.memoryType))
  {
  }

  /** After one dmidecode block has been taken, every later block is refused and changes nothing. */
  lemma DmidecodeTakenOnce(r: MemoryRecord, m: AttributeMap, later: AttributeMap)
    requires FromDmidecode(r, m).0
    ensures FromDmidecode(FromDmidecode(r, m).1, later) == (false, FromDmidecode(r, m).1)
  {
  }

  /** Applying the same dmidecode block twice changes the record no more than applying it once. */
  lemma DmidecodeIdempotent(r: MemoryRecord, m: AttributeMap)
    ensures FromDmidecode(FromDmidecode(r, m).1, m).1 == FromDmidecode(r, m).1
  {
  }

  /** setInfoFromTomlOneByOne on a record value: the returned status and the new record. */
  function FromToml(r: MemoryRecord, m: AttributeMap): (TomlFixMethod, MemoryRecord) {
    var size := SetTomlAttribute(m, "Size", r.size);
    var memoryType := SetTomlAttribute(m, "Type", r.memoryType);
    var speed := SetTomlAttribute(m, "Speed", r.speed);
    var totalWidth := SetTomlAttribute(m, "Total Width", r.totalBandwidth);
    var locator := SetTomlAttribute(m, "Locator", r.locator);
    var serial := SetTomlAttribute(m, "Serial Number", r.serialNumber);
    var configuredVoltage := SetTomlAttribute(m, "Configured Voltage", r.configuredVoltage);
    var maximumVoltage := SetTomlAttribute(m, "Maximum Voltage", r.maximumVoltage);
    var minimumVoltage := SetTomlAttribute(m, "Minimum Voltage", r.minimumVoltage);
    var configuredSpeed := SetTomlAttribute(m, "Configured Speed", r.configuredSpeed);
    var dataWidth := SetTomlAttribute(m, "Data Width", r.dataBandwidth);
    (dataWidth.status, r.(
      size := size.field,
      memoryType := memoryType.field,
      speed := speed.field,
      totalBandwidth := totalWidth.field,
      locator := locator.field,
      serialNumber := serial.field,
      configuredVoltage := configuredVoltage.field,
      maximumVoltage := maximumVoltage.field,
      minimumVoltage := minimumVoltage.field,
      configuredSpeed := configuredSpeed.field,
      dataBandwidth := dataWidth.field))
  }

  /**
   * The override file reports the status of its last key, "Data Width", alone;
   * it never touches name, vendor or the match flag, and a "Locator" key
   * replaces the locator outright.
   */
  lemma TomlFields(r: MemoryRecord, m: AttributeMap)
    ensures var (status, n) := FromToml(r, m);
      && status == SetTomlAttribute(m, "Data Width", r.dataBandwidth).status
      && (status == TomlNone <==> "Data Width" !in m)
      && n.name == r.name && n.vendor == r.vendor && n.matchedFromDmi == r.matchedFromDmi
      && ("Locator" !in m ==> n.locator == r.locator)
      && ("Locator" in m ==> n.locator == m["Locator"])
      && ("Size" !in m ==> n.size == r.size)
      && ("Type" !in m ==> n.memoryType == r.memoryType)
      && ("Speed" !in m ==> n.speed == r.speed)
      && ("Total Width" !in m ==> n.totalBandwidth == r.totalBandwidth)
      && ("Serial Number" !in m ==> n.serialNumber == r.serialNumber)
      && ("Configured Voltage" !in m ==> n.configuredVoltage == r.configuredVoltage)
      && ("Maximum Voltage" !in m ==> n.maximumVoltage == r.maximumVoltage)
      && ("Minimum Voltage" !in m ==> n.minimumVoltage == r.minimumVoltage)
      && ("Configured Speed" !in m ==> n.configuredSpeed == r.configuredSpeed)
      && ("Data Width" !in m ==> n.dataBandwidth == r.dataBandwidth)
  {
  }

  /** The statuses of the keys before "Data Width" are discarded: two override maps that agree on it report the same status. */
  lemma TomlStatusIsLastKeys(r: MemoryRecord, m1: AttributeMap, m2: AttributeMap)
    requires ("Data Width" in m1 <==> "Data Width" in m2)
    requires "Data Width" in m1 ==> m1["Data Width"] == m2["Data Width"]
    ensures FromToml(r, m1).0 == FromToml(r, m2).0
  {
  }

  /**
   * A module seen by lshw, then matched by its dmidecode block, then given
   * overrides: only lshw's "slot" and the override file's "Locator" move the
   * locator; the dmidecode step never does.
   */
  lemma LocatorMovesOnlyBySlotOrOverride(r: MemoryRecord, lshw: AttributeMap, dmi: AttributeMap, toml: AttributeMap, roundOddUp: bool)
    requires "slot" !in lshw && "Locator" !in toml
    ensures FromToml(FromDmidecode(FromLshw(r, lshw, roundOddUp), dmi).1, toml).1.locator == r.locator
  {
    var n1 := FromLshw(r, lshw, roundOddUp);
    LshwFields(r, lshw, roundOddUp);
    DmidecodeFields(n1, dmi);
    TomlFields(FromDmidecode(n1, dmi).1, toml);
  }

  // ------------------------------------------------------------ projections

  /** The named fields of a memory record. */
  datatype Field =
    | Name | Vendor | Size | Type | Speed | TotalWidth | Locator | SerialNumber
    | ConfiguredVoltage | MaximumVoltage | MinimumVoltage | ConfiguredSpeed | DataWidth

  /** The untranslated label the detail view and the table give a field. */
  function Label(f: Field): string {
    match f
    case Name => "Name"
    case Vendor => "Vendor"
    case Size => "Size"
    case Type => "Type"
    case Speed => "Speed"
    case TotalWidth => "Total Width"
    case Locator => "Locator"
    case SerialNumber => "Serial Number"
    case ConfiguredVoltage => "Configured Voltage"
    case MaximumVoltage => "Maximum Voltage"
    case MinimumVoltage => "Minimum Voltage"
    case ConfiguredSpeed => "Configured Speed"
    case DataWidth => "Data Width"
  }

  function FieldValue(r: MemoryRecord, f: Field): string {
    match f
    case Name => r.name
    case Vendor => r.vendor
    case Size => r.size
    case Type => r.memoryType
    case Speed => r.speed
    case TotalWidth => r.totalBandwidth
    case Locator => r.locator
    case SerialNumber => r.serialNumber
    case ConfiguredVoltage => r.configuredVoltage
    case MaximumVoltage => r.maximumVoltage
    case MinimumVoltage => r.minimumVoltage
    case ConfiguredSpeed => r.configuredSpeed
    case DataWidth => r.dataBandwidth
  }

  /** The (translated label, value) line of field `f`. */
  function Line(r: MemoryRecord, tr: Catalogue, f: Field): InfoLine {
    (Tr(tr, Label(f)), FieldValue(r, f))
  }

  /** The lines loadBaseDeviceInfo offers, in call order. */
  function BaseRows(r: MemoryRecord, tr: Catalogue): seq<InfoLine> {
    [Line(r, tr, Name), Line(r, tr, Vendor), Line(r, tr, Size), Line(r, tr, Type),
     Line(r, tr, Speed), Line(r, tr, TotalWidth), Line(r, tr, Locator), Line(r, tr, SerialNumber)]
  }

  /** The lines loadOtherDeviceInfo offers, in call order: the voltages only when the board vendor type is empty. */
  function OtherRows(r: MemoryRecord, tr: Catalogue, boardVendorType: string): seq<InfoLine> {
    if boardVendorType == "" then
      [Line(r, tr, ConfiguredVoltage), Line(r, tr, MaximumVoltage), Line(r, tr, MinimumVoltage),
       Line(r, tr, ConfiguredSpeed), Line(r, tr, DataWidth)]
    else [Line(r, tr, ConfiguredSpeed), Line(r, tr, DataWidth)]
  }

  /** The table's columns, in order. */
  const TableFields: seq<Field> := [Name, Vendor, Type, Speed, Size]

  /** loadTableHeader's labels. */
  function TableHeaderRow(tr: Catalogue): seq<string> {
    [Tr(tr, "Name"), Tr(tr, "Vendor"), Tr(tr, "Type"), Tr(tr, "Speed"), Tr(tr, "Size")]
  }

  /** loadTableData's values. */
  function TableRow(r: MemoryRecord): seq<string> {
    [r.name, r.vendor, r.memoryType, r.speed, r.size]
  }

  /** Column k of the header names the field whose value is column k of the data row. */
  lemma TableColumnsAgree(r: MemoryRecord, tr: Catalogue)
    ensures |TableHeaderRow(tr)| == |TableRow(r)| == |TableFields|
    ensures forall k | 0 <= k < |TableFields| ::
      TableHeaderRow(tr)[k] == Tr(tr, Label(TableFields[k])) && TableRow(r)[k] == FieldValue(r, TableFields[k])
  {
  }

  /** The detail view shows a base attribute exactly when its value is not empty. */
  lemma BaseInfoShowsFilledFields(r: MemoryRecord, tr: Catalogue, f: Field)
    requires !(f.ConfiguredVoltage? || f.MaximumVoltage? || f.MinimumVoltage? || f.ConfiguredSpeed? || f.DataWidth?)
    ensures Line(r, tr, f) in NonEmpty(BaseRows(r, tr)) <==> FieldValue(r, f) != ""
  {
    var rows := BaseRows(r, tr);
    var k := if f == Name then 0 else if f == Vendor then 1 else if f == Size then 2 else if f == Type then 3
      else if f == Speed then 4 else if f == TotalWidth then 5 else if f == Locator then 6 else 7;
    assert rows[k] == Line(r, tr, f);
    NonEmptyAt(rows, k);
  }

  /**
   * The other-information lines come out in the reverse of the call order:
   * the data width first, and no voltage when a board vendor type is set.
   */
  lemma OtherInfoNewestFirst(r: MemoryRecord, tr: Catalogue, boardVendorType: string)
    requires r.dataBandwidth != ""
    ensures var shown := Reversed(NonEmpty(OtherRows(r, tr, boardVendorType)));
      shown != [] && shown[0] == Line(r, tr, DataWidth)
    ensures boardVendorType != "" ==> forall line | line in NonEmpty(OtherRows(r, tr, boardVendorType)) ::
      line == Line(r, tr, ConfiguredSpeed) || line == Line(r, tr, DataWidth)
  {
    var rows := OtherRows(r, tr, boardVendorType);
    NonEmptySnoc(rows[..|rows| - 1], rows[|rows| - 1]);
    assert rows[..|rows| - 1] + [rows[|rows| - 1]] == rows;
    var kept := NonEmpty(rows);
    ReversedAt(kept, 0);
    NonEmptyKeepsFilled(rows);
  }

  /** The name getOverviewInfo shows: Name, or Vendor when Name is empty; the placeholder "--" shows as nothing. */
  function OverviewName(r: MemoryRecord): (n: string)
    ensures r.name != "" && r.name != "--" ==> n == r.name
    ensures r.name == "" && r.vendor != "--" ==> n == r.vendor
    ensures n == "" || n == r.name || n == r.vendor
    ensures n != "--"
  {
    var n := if r.name != "" then r.name else r.vendor;
    if n == "--" then "" else n
  }

  // The template getOverviewInfo fills in, "%1(%2 %3 %4)", built from its tails.
  const Tail4: string := ")"
  const Tail3: string := " " + (['%', '4'] + Tail4)
  const Tail2: string := " " + (['%', '3'] + Tail3)
  const Tail1: string := "(" + (['%', '2'] + Tail2)
  const OverviewTemplate: string := ['%', '1'] + Tail1

  /** getOverviewInfo: the template with its four markers filled by size, name, type and speed, in that order. */
  function OverviewInfo(r: MemoryRecord): string {
    Arg(Arg(Arg(Arg(OverviewTemplate, r.size), OverviewName(r)), r.memoryType), r.speed)
  }

  // The lowest marker left in each tail of the template.
  lemma TemplateTail4() ensures LowestMarker(Tail4) == 10 {
    PercentFreePrefix(Tail4, "", 1, "");
  }

  lemma TemplateTail3() ensures LowestMarker(Tail3) == 4 {
    TemplateTail4();
    MarkerThenRest('4', 4, Tail4);
    PercentFreePrefix(" ", ['%', '4'] + Tail4, 1, "");
  }

  lemma TemplateTail2() ensures LowestMarker(Tail2) == 3 {
    TemplateTail3();
    MarkerThenRest('3', 3, Tail3);
    PercentFreePrefix(" ", ['%', '3'] + Tail3, 1, "");
  }

  lemma TemplateTail1() ensures LowestMarker(Tail1) == 2 {
    TemplateTail2();
    MarkerThenRest('2', 2, Tail2);
    PercentFreePrefix("(", ['%', '2'] + Tail2, 1, "");
  }

  // One lemma per .arg call of getOverviewInfo.
  lemma FillSize(a: string)
    ensures Arg(OverviewTemplate, a) == a + Tail1
  {
    TemplateTail1();
    ArgOnLeadingMarker('1', 1, Tail1, a);
  }

  lemma FillName(a: string, b: string)
    requires '%' !in a
    ensures Arg(a + Tail1, b) == (a + "(") + (b + Tail2)
  {
    TemplateTail2();
    assert a + Tail1 == (a + "(") + (['%', '2'] + Tail2);
    ArgStep(a + "(", '2', 2, Tail2, b);
  }

  lemma FillType(x: string, c: string)
    requires '%' !in x
    ensures Arg(x + Tail2, c) == (x + " ") + (c + Tail3)
  {
    TemplateTail3();
    assert x + Tail2 == (x + " ") + (['%', '3'] + Tail3);
    ArgStep(x + " ", '3', 3, Tail3, c);
  }

  lemma FillSpeed(x: string, d: string)
    requires '%' !in x
    ensures Arg(x + Tail3, d) == (x + " ") + (d + Tail4)
  {
    TemplateTail4();
    assert x + Tail3 == (x + " ") + (['%', '4'] + Tail4);
    ArgStep(x + " ", '4', 4, Tail4, d);
  }

  /**
   * When size, shown name and type hold no '%' (a '%' followed by a digit in an
   * earlier value would be taken for a marker by a later .arg), the overview
   * is the size followed by name, type and speed in parentheses, separated by
   * single spaces.
   */
  lemma OverviewIsConcatenation(r: MemoryRecord)
    requires '%' !in r.size && '%' !in OverviewName(r) && '%' !in r.memoryType
    ensures OverviewInfo(r) == r.size + "(" + OverviewName(r) + " " + r.memoryType + " " + r.speed + ")"
  {
    var a, b, c, d := r.size, OverviewName(r), r.memoryType, r.speed;
    FillSize(a);
    FillName(a, b);
    var x := (a + "(") + b;
    assert (a + "(") + (b + Tail2) == x + Tail2;
    FillType(x, c);
    var y := (x + " ") + c;
    assert (x + " ") + (c + Tail3) == y + Tail3;
    FillSpeed(y, d);
  }

  /** A name that is only the placeholder "--" leaves the name slot of the overview empty, even when a vendor is known. */
  lemma OverviewHidesPlaceholder(r: MemoryRecord)
    requires r.name == "--"
    requires '%' !in r.size && '%' !in r.memoryType
    ensures OverviewInfo(r) == r.size + "( " + r.memoryType + " " + r.speed + ")"
  {
    assert OverviewName(r) == "";
    OverviewIsConcatenation(r);
    assert "(" + "" + " " == "( ";
  }

  /** Without a name the vendor stands in, so the parentheses open with the vendor. */
  lemma OverviewFallsBackToVendor(r: MemoryRecord)
    requires r.name == "" && r.vendor != "--"
    requires '%' !in r.size && '%' !in r.vendor && '%' !in r.memoryType
    ensures OverviewInfo(r) == r.size + "(" + r.vendor + " " + r.memoryType + " " + r.speed + ")"
  {
    OverviewIsConcatenation(r);
  }

  /** subTitle: the vendor, one space, the name. */
  function SubTitle(r: MemoryRecord): (t: string)
    ensures |t| == |r.vendor| + 1 + |r.name|
    ensures IsPrefix(r.vendor, t) && t[|r.vendor|] == ' ' && IsSuffix(r.name, t)
  {
    r.vendor + " " + r.name
  }

  // ------------------------------------------------------------ the record object

  /** initFilterKey passes each key through tr(). */
  function TranslatedFilterKeys(tr: Catalogue): set<string> {
    set k | k in MemoryFilterKeys :: Tr(tr, k)
  }

  /**
   * Whatever the catalogue, an entry whose key is one of initFilterKey's keys
   * reaches the other information of a module built with that catalogue.
   */
  lemma FilterKeyReachesOtherInfo(other: map<string, string>, tr: Catalogue, m: AttributeMap, k: string)
    requires k in MemoryFilterKeys && k in m
    ensures var r := OtherMapInfo(other, TranslatedFilterKeys(tr), tr, m); k in r && r[k] == m[k]
  {
    assert Tr(tr, k) in TranslatedFilterKeys(tr);
    OtherMapInfoContents(other, TranslatedFilterKeys(tr), tr, m);
  }

  /**
   * A DeviceMemory object. Its attribute members (m_Name ... m_ConfiguredVoltage
   * and m_MatchedFromDmi) are held together in `attributes`, which each setter
   * reads, updates member by member and stores back.
   */
  class DeviceMemory {
    var attributes: MemoryRecord
    // Inherited from the device base: the keys allowed into the other information, and that information.
    var filterKeys: set<string>
    var otherInfo: map<string, string>
    // The lists the detail view and the table are built from.
    var baseInfo: seq<InfoLine>
    var otherInfoLines: seq<InfoLine>
    var tableHeader: seq<string>
    var tableData: seq<string>

    constructor (tr: Catalogue)
      ensures attributes == NewRecord()
      ensures filterKeys == TranslatedFilterKeys(tr) && otherInfo == map[]
      ensures baseInfo == otherInfoLines == [] && tableHeader == tableData == []
    {
      attributes := NewRecord();
      otherInfo := map[];
      baseInfo, otherInfoLines, tableHeader, tableData := [], [], [], [];
      filterKeys := TranslatedFilterKeys(tr);
    }

    /** getOtherMapInfo: the filter-key entries of `m` join the other information. */
    method GetOtherMapInfo(m: AttributeMap, tr: Catalogue)
      modifies this`otherInfo
      ensures otherInfo == OtherMapInfo(old(otherInfo), filterKeys, tr, m)
    {
      otherInfo := OtherMapInfo(otherInfo, filterKeys, tr, m);
    }

    /** The unit conversion inside setInfoFromLshw: GiB becomes GB, a MiB size is converted to whole GB. */
    static method ConvertSizeUnits(read: string, roundOddUp: bool) returns (size: string)
      ensures size == NormalizeSize(read, roundOddUp)
    {
      size := read;
      if Contains(size, "GiB") {
        size := ReplaceAll(size, "GiB", "GB");
      }
      if Contains(size, "MiB") {
        size := ReplaceAll(size, "MiB", "");
        var gb := SizeNumber(size) / 1024;
        if roundOddUp && gb % 2 != 0 {
          gb := gb + 1;
        }
        size := NumberText(gb) + "GB";
      }
    }

    method SetInfoFromLshw(m: AttributeMap, roundOddUp: bool, tr: Catalogue)
      modifies this`attributes, this`otherInfo
      ensures attributes == FromLshw(old(attributes), m, roundOddUp)
      ensures otherInfo == OtherMapInfo(old(otherInfo), filterKeys, tr, m)
    {
      var r := attributes;
      r := r.(name := SetAttribute(m, "product", r.name, false));
      r := r.(name := SetAttribute(m, "description", r.name, false));
      r := r.(vendor := SetAttribute(m, "vendor", r.vendor, true));
      r := r.(locator := SetAttribute(m, "slot", r.locator, true));
      r := r.(size := SetAttribute(m, "size", r.size, true));

      var size := ConvertSizeUnits(r.size, roundOddUp);
      r := r.(size := size);

      r := r.(speed := SetAttribute(m, "clock", r.speed, true));
      r := r.(totalBandwidth := SetAttribute(m, "width", r.totalBandwidth, true));
      r := r.(dataBandwidth := SetAttribute(m, "width", r.dataBandwidth, true));
      r := r.(serialNumber := SetAttribute(m, "serial", r.serialNumber, true));
      attributes := r;
      GetOtherMapInfo(m, tr);
    }

    method SetInfoFromTomlOneByOne(m: AttributeMap, tr: Catalogue) returns (ret: TomlFixMethod)
      modifies this`attributes, this`otherInfo
      ensures ret == FromToml(old(attributes), m).0 && attributes == FromToml(old(attributes), m).1
      ensures otherInfo == OtherMapInfo(old(otherInfo), filterKeys, tr, m)
    {
      // Each call's status overwrites the previous one.
      var r := attributes;
      ret := TomlNone;
      var o := SetTomlAttribute(m, "Size", r.size);
      r, ret := r.(size := o.field), o.status;
      o := SetTomlAttribute(m, "Type", r.memoryType);
      r, ret := r.(memoryType := o.field), o.status;
      o := SetTomlAttribute(m, "Speed", r.speed);
      r, ret := r.(speed := o.field), o.status;
      o := SetTomlAttribute(m, "Total Width", r.totalBandwidth);
      r, ret := r.(totalBandwidth := o.field), o.status;
      o := SetTomlAttribute(m, "Locator", r.locator);
      r, ret := r.(locator := o.field), o.status;
      o := SetTomlAttribute(m, "Serial Number", r.serialNumber);
      r, ret := r.(serialNumber := o.field), o.status;
      o := SetTomlAttribute(m, "Configured Voltage", r.configuredVoltage);
      r, ret := r.(configuredVoltage := o.field), o.status;
      o := SetTomlAttribute(m, "Maximum Voltage", r.maximumVoltage);
      r, ret := r.(maximumVoltage := o.field), o.status;
      o := SetTomlAttribute(m, "Minimum Voltage", r.minimumVoltage);
      r, ret := r.(minimumVoltage := o.field), o.status;
      o := SetTomlAttribute(m, "Configured Speed", r.configuredSpeed);
      r, ret := r.(configuredSpeed := o.field), o.status;
      o := SetTomlAttribute(m, "Data Width", r.dataBandwidth);
      r, ret := r.(dataBandwidth := o.field), o.status;
      attributes := r;
      GetOtherMapInfo(m, tr);
    }

    method SetInfoFromDmidecode(m: AttributeMap, tr: Catalogue) returns (ok: bool)
      modifies this`attributes, this`otherInfo
      ensures ok == FromDmidecode(old(attributes), m).0 && attributes == FromDmidecode(old(attributes), m).1
      ensures ok ==> otherInfo == OtherMapInfo(old(otherInfo), filterKeys, tr, m)
      ensures !ok ==> otherInfo == old(otherInfo)
    {
      var r := attributes;
      if Value(m, "Locator") != r.locator || r.matchedFromDmi == true {
        return false;
      }

      r := r.(name := SetAttribute(m, "Part Number", r.name, true));
      r := r.(serialNumber := SetAttribute(m, "Serial Number", r.serialNumber, true));
      r := r.(speed := SetAttribute(m, "Speed", r.speed, true));
      r := r.(configuredSpeed := SetAttribute(m, "Configured Memory Speed", r.configuredSpeed, true));
      r := r.(minimumVoltage := SetAttribute(m, "Minimum Voltage", r.minimumVoltage, true));
      r := r.(maximumVoltage := SetAttribute(m, "Maximum Voltage", r.maximumVoltage, true));
      r := r.(configuredVoltage := SetAttribute(m, "Configured Voltage", r.configuredVoltage, true));
      r := r.(totalBandwidth := SetAttribute(m, "Total Width", r.totalBandwidth, true));
      r := r.(dataBandwidth := SetAttribute(m, "Data Width", r.dataBandwidth, true));

      r := r.(memoryType := SetAttribute(m, "Type", r.memoryType, true));
      if r.memoryType == OutOfSpec {
        r := r.(memoryType := "");
      }

      attributes := r;
      GetOtherMapInfo(m, tr);
      attributes := attributes.(matchedFromDmi := true);
      return true;
    }

    method LoadBaseDeviceInfo(tr: Catalogue)
      modifies this`baseInfo
      ensures baseInfo == AppendFilled(old(baseInfo), BaseRows(attributes, tr))
      ensures baseInfo == old(baseInfo) + NonEmpty(BaseRows(attributes, tr))
    {
      // `rest` holds the lines still to be offered; each call offers a field's translated label and value.
      var r := attributes;
      ghost var rest := BaseRows(r, tr);
      var lines := baseInfo;
      AppendStep(lines, rest);
      lines := AddBaseInfo(lines, Line(r, tr, Name));
      rest := rest[1..];
      AppendStep(lines, rest);
      lines := AddBaseInfo(lines, Line(r, tr, Vendor));
      rest := rest[1..];
      AppendStep(lines, rest);
      lines := AddBaseInfo(lines, Line(r, tr, Size));
      rest := rest[1..];
      AppendStep(lines, rest);
      lines := AddBaseInfo(lines, Line(r, tr, Type));
      rest := rest[1..];
      AppendStep(lines, rest);
      lines := AddBaseInfo(lines, Line(r, tr, Speed));
      rest := rest[1..];
      AppendStep(lines, rest);
      lines := AddBaseInfo(lines, Line(r, tr, TotalWidth));
      rest := rest[1..];
      AppendStep(lines, rest);
      lines := AddBaseInfo(lines, Line(r, tr, Locator));
      rest := rest[1..];
      AppendStep(lines, rest);
      lines := AddBaseInfo(lines, Line(r, tr, SerialNumber));
      rest := rest[1..];
      assert rest == [];
      baseInfo := lines;
      AppendFilledIsNonEmpty(old(baseInfo), BaseRows(r, tr));
    }

    method LoadOtherDeviceInfo(boardVendorType: string, tr: Catalogue)
      modifies this`otherInfoLines
      ensures otherInfoLines == PrependFilled(old(otherInfoLines), OtherRows(attributes, tr, boardVendorType))
      ensures otherInfoLines == Reversed(NonEmpty(OtherRows(attributes, tr, boardVendorType))) + old(otherInfoLines)
    {
      // `rest` holds the lines still to be offered.
      var r := attributes;
      ghost var rest := OtherRows(r, tr, boardVendorType);
      var lines := otherInfoLines;
      if boardVendorType == "" {
        PrependStep(lines, rest);
        lines := AddOtherInfo(lines, Line(r, tr, ConfiguredVoltage));
        rest := rest[1..];
        PrependStep(lines, rest);
        lines := AddOtherInfo(lines, Line(r, tr, MaximumVoltage));
        rest := rest[1..];
        PrependStep(lines, rest);
        lines := AddOtherInfo(lines, Line(r, tr, MinimumVoltage));
        rest := rest[1..];
      }
      PrependStep(lines, rest);
      lines := AddOtherInfo(lines, Line(r, tr, ConfiguredSpeed));
      rest := rest[1..];
      PrependStep(lines, rest);
      lines := AddOtherInfo(lines, Line(r, tr, DataWidth));
      rest := rest[1..];
      assert rest == [];
      otherInfoLines := lines;
      PrependFilledIsReversed(old(otherInfoLines), OtherRows(r, tr, boardVendorType));
    }

    method LoadTableHeader(tr: Catalogue)
      modifies this`tableHeader
      ensures tableHeader == old(tableHeader) + TableHeaderRow(tr)
    {
      tableHeader := tableHeader + [Tr(tr, "Name")];
      tableHeader := tableHeader + [Tr(tr, "Vendor")];
      tableHeader := tableHeader + [Tr(tr, "Type")];
      tableHeader := tableHeader + [Tr(tr, "Speed")];
      tableHeader := tableHeader + [Tr(tr, "Size")];
    }

    method LoadTableData()
      modifies this`tableData
      ensures tableData == old(tableData) + TableRow(attributes)
    {
      var r := attributes;
      tableData := tableData + [r.name];
      tableData := tableData + [r.vendor];
      tableData := tableData + [r.memoryType];
      tableData := tableData + [r.speed];
      tableData := tableData + [r.size];
    }
  }
}
