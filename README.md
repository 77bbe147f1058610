# Memory record reconciliation and monitor attribute rules

This project models two pieces of logic from the deepin device manager in Dafny.

**DeviceMemory** is the record of one memory module.
- Three ingestion methods fold a key/value map into the module's attributes:
  - `setInfoFromLshw` fills fields and normalises the size unit ("GiB" becomes "GB", a "MiB" size is converted to GB).
  - `setInfoFromDmidecode` first checks identity: the block's "Locator" must equal the module's locator, and no dmidecode block may have been taken yet. Only then does it fill fields. It turns dmidecode's `<OUT OF SPEC>` type into the empty string and sets the one-shot matched flag.
  - `setInfoFromTomlOneByOne` applies override-file values and returns a status.
- Pure projections give the overview line, the subtitle, the detail lines and the table header and row.

The class `Memory.DeviceMemory` keeps the C++ members as fields:
- the attribute members, held in one `MemoryRecord` value;
- the filter keys and the other-information map inherited from the device base;
- the four lists the views are built from.

Each method updates these step by step, as the C++ does. It is proved equal to a function on record values: `FromLshw`, `FromDmidecode`, `FromToml`, `AppendFilled`, `PrependFilled`. The lemmas state what the source promises about those functions.

**MonitorWidget::initWidget** loops over the monitors hwinfo reports. For each monitor it builds a detail page of articles. The rules inside the loop are lifted into functions:
- the recursive `gcd`;
- reduction of a `W x H` resolution to a coprime ratio;
- the frequency suffix;
- primary-monitor detection;
- the connector type cut from the xrandr line;
- the manufacture date;
- the vendor/abbreviation split;
- the size article.

The loop body and the loop are methods proved against those functions. The loop in `DescribeMonitors` reasons only from the contracts of `DescribeMonitor`: the function definitions are hidden inside that one method body.

The helpers of `DeviceBaseInfo` are not part of this model. These are `setAttribute`, `setTomlAttribute`, `getOtherMapInfo`, `addBaseDeviceInfo` and `addOtherDeviceInfo`. Each is written in `device_base.dfy` as the simplest function that meets the contract the memory code relies on. The QString operations the code uses are functions in `qt_string.dfy`: `indexOf`, `lastIndexOf`, `mid`, `contains` (case-sensitive and ASCII case-insensitive), `replace`, `remove`, `trimmed`, `split(',').last()`, `toInt`, `number` and `arg`. Translated texts (`tr`, `DApplication::translate`) are parameters: a catalogue, or the `Texts` record.

## Model

| member | source | states |
|---|---|---|
| DeviceBase.SetAttribute | deepin-devicemanager/src/DeviceManager/DeviceMemory.cpp:21-25 | an absent key or empty value leaves the field alone; otherwise the value is written, except that with no-overwrite a field that already holds text is kept |
| DeviceBase.Value | deepin-devicemanager/src/DeviceManager/DeviceMemory.cpp:77 | the const `QMap::operator[]`: an absent key reads as the empty string |
| DeviceBase.SetTomlAttribute | deepin-devicemanager/src/DeviceManager/DeviceMemory.cpp:57-68 | status None exactly when the key is absent (field kept); otherwise the field becomes the value, and the status is Del exactly when that value is empty |
| DeviceBase.OtherMapInfoContents | deepin-devicemanager/src/DeviceManager/DeviceMemory.cpp:50 | a block key enters the other information exactly when its translation is a filter key; a new value replaces an older one; every other entry stays |
| DeviceBase.OtherMapInfo | deepin-devicemanager/src/DeviceManager/DeviceMemory.cpp:50 | getOtherMapInfo: the block's entries whose key translates to a filter key join the other information |
| DeviceBase.Tr | deepin-devicemanager/src/DeviceManager/DeviceMemory.cpp:134-141 | a text the catalogue knows is shown as its translation; any other text is shown untranslated |
| DeviceBase.AddBaseInfo | deepin-devicemanager/src/DeviceManager/DeviceMemory.cpp:134-141 | addBaseDeviceInfo: one line appended unless its value is empty |
| DeviceBase.AddOtherInfo | deepin-devicemanager/src/DeviceManager/DeviceMemory.cpp:149-156 | addOtherDeviceInfo: one line put in front unless its value is empty |
| DeviceBase.NonEmptyKeepsFilled | deepin-devicemanager/src/DeviceManager/DeviceMemory.cpp:134-141 | the lines kept are exactly the offered lines whose value is not empty |
| DeviceBase.AppendFilledIsNonEmpty | deepin-devicemanager/src/DeviceManager/DeviceMemory.cpp:134-141 | offering lines one by one to addBaseDeviceInfo appends the non-empty ones, in call order |
| DeviceBase.PrependFilledIsReversed | deepin-devicemanager/src/DeviceManager/DeviceMemory.cpp:146-156 | offering lines one by one to addOtherDeviceInfo puts the non-empty ones in front, last call first |
| Memory.NewRecord | deepin-devicemanager/src/DeviceManager/DeviceMemory.cpp:10-16 | a new module has every one of its thirteen text attributes empty, and has taken no dmidecode block |
| Memory.DeviceMemory.constructor | deepin-devicemanager/src/DeviceManager/DeviceMemory.cpp:10-16 | empty record, flag false, the twenty initFilterKey keys passed through tr() as filter keys, empty lists |
| Memory.FilterKeyReachesOtherInfo | deepin-devicemanager/src/DeviceManager/DeviceMemory.cpp:106-129 | whatever the catalogue, a block entry keyed by one of initFilterKey's twenty keys reaches the other information with its value |
| Memory.NoGiBAfterReplace | deepin-devicemanager/src/DeviceManager/DeviceMemory.cpp:28-29 | after replacing every "GiB" by "GB" no "GiB" is left, not even one formed across a replacement |
| Memory.MiBToGB | deepin-devicemanager/src/DeviceManager/DeviceMemory.cpp:34-38 | MiB divided by 1024; with the sw_64 flag an odd result is raised to the next even number |
| Memory.GBTextHasNoBinaryUnit | deepin-devicemanager/src/DeviceManager/DeviceMemory.cpp:39 | a number followed by "GB" holds neither "GiB" nor "MiB" and ends with "GB" |
| Memory.NormalizeSize | deepin-devicemanager/src/DeviceManager/DeviceMemory.cpp:27-40 | the normalised size holds neither "GiB" nor "MiB"; if "MiB" was present after the GiB step, it ends with "GB"; a size with neither unit is unchanged |
| Memory.NormalizeSizeIdempotent | deepin-devicemanager/src/DeviceManager/DeviceMemory.cpp:27-40 | normalising an already normalised size changes nothing |
| Memory.DeviceMemory.ConvertSizeUnits | deepin-devicemanager/src/DeviceManager/DeviceMemory.cpp:27-40 | the in-place rewriting of m_Size computes NormalizeSize |
| Memory.FromLshw | deepin-devicemanager/src/DeviceManager/DeviceMemory.cpp:18-48 | setInfoFromLshw on the attributes: name filled only when empty (product, then description), vendor, slot, size, clock, width twice and serial overwritten when given, then the size normalised |
| Memory.DeviceMemory.SetInfoFromLshw | deepin-devicemanager/src/DeviceManager/DeviceMemory.cpp:18-51 | the new attributes are FromLshw of the old ones; the other information gains the map's filter-key entries |
| Memory.LshwFields | deepin-devicemanager/src/DeviceManager/DeviceMemory.cpp:18-51 | a name is only filled when none is known; each of "slot", "vendor", "clock", "serial" and "width" leaves its field(s) unchanged when absent; a given "slot" becomes the locator and a given "width" both widths; the size is the normalised one and holds no "GiB"; type, voltages, configured speed and the flag never change |
| Memory.DeviceMemory.SetInfoFromDmidecode | deepin-devicemanager/src/DeviceManager/DeviceMemory.cpp:74-104 | returns and stores exactly FromDmidecode of the old attributes; a refused block leaves the attributes and the other information untouched |
| Memory.DmiMatches | deepin-devicemanager/src/DeviceManager/DeviceMemory.cpp:77-78 | the identity check: the block's Locator equals the module's and no block has been taken |
| Memory.FromDmidecode | deepin-devicemanager/src/DeviceManager/DeviceMemory.cpp:74-104 | setInfoFromDmidecode on the attributes: refused blocks change nothing; taken ones overwrite the nine dmidecode fields and the type, blank `<OUT OF SPEC>`, and set the flag |
| Memory.DmidecodeFields | deepin-devicemanager/src/DeviceManager/DeviceMemory.cpp:76-103 | the block is taken if and only if its Locator (an absent key reads as "") equals the module's and no block was taken; refused means nothing changes; taken means the flag is set and the type is not `<OUT OF SPEC>`; locator, vendor and size are never written; each of the nine other dmidecode keys leaves its field unchanged when absent; without a "Type" key the type is kept, except that a taken block still blanks an existing `<OUT OF SPEC>` type |
| Memory.DmidecodeTakenOnce | deepin-devicemanager/src/DeviceManager/DeviceMemory.cpp:77-102 | after a block has been taken, every later block is refused and changes nothing |
| Memory.DmidecodeIdempotent | deepin-devicemanager/src/DeviceManager/DeviceMemory.cpp:77-102 | applying the same block twice gives the record of applying it once |
| Memory.DeviceMemory.SetInfoFromTomlOneByOne | deepin-devicemanager/src/DeviceManager/DeviceMemory.cpp:53-72 | status and new attributes are FromToml of the old attributes; the other information gains the map's filter-key entries |
| Memory.FromToml | deepin-devicemanager/src/DeviceManager/DeviceMemory.cpp:53-72 | setInfoFromTomlOneByOne on the attributes: the eleven override keys in source order, each status replacing the previous one |
| Memory.TomlFields | deepin-devicemanager/src/DeviceManager/DeviceMemory.cpp:55-71 | the status is that of the "Data Width" key alone (None exactly when it is absent); name, vendor and flag are untouched; a "Locator" key replaces the locator; each of the eleven keys leaves its field unchanged when absent |
| Memory.TomlStatusIsLastKeys | deepin-devicemanager/src/DeviceManager/DeviceMemory.cpp:55-71 | two override maps that agree on "Data Width" report the same status, whatever their other keys |
| Memory.LocatorMovesOnlyBySlotOrOverride | deepin-devicemanager/src/DeviceManager/DeviceMemory.cpp:18-104 | across lshw, dmidecode and the override file, the locator stays put unless lshw has "slot" or the override file has "Locator" |
| Memory.DeviceMemory.LoadBaseDeviceInfo | deepin-devicemanager/src/DeviceManager/DeviceMemory.cpp:131-142 | the base lines grow by the eight (label, value) lines whose value is not empty, in call order |
| Memory.BaseInfoShowsFilledFields | deepin-devicemanager/src/DeviceManager/DeviceMemory.cpp:131-142 | a base attribute's line is shown if and only if its value is not empty |
| Memory.DeviceMemory.LoadOtherDeviceInfo | deepin-devicemanager/src/DeviceManager/DeviceMemory.cpp:144-157 | the other lines gain the non-empty lines in front, in the reverse of call order; the voltages are offered only when the board vendor type is empty |
| Memory.OtherInfoNewestFirst | deepin-devicemanager/src/DeviceManager/DeviceMemory.cpp:144-156 | a filled data width comes out first; with a board vendor type only configured speed and data width can appear |
| Memory.DeviceMemory.LoadTableHeader | deepin-devicemanager/src/DeviceManager/DeviceMemory.cpp:162-170 | the header grows by exactly the five translated labels Name, Vendor, Type, Speed, Size |
| Memory.DeviceMemory.LoadTableData | deepin-devicemanager/src/DeviceManager/DeviceMemory.cpp:172-180 | the data grows by exactly the five values name, vendor, type, speed, size |
| Memory.TableColumnsAgree | deepin-devicemanager/src/DeviceManager/DeviceMemory.cpp:162-180 | header and row have five entries each, and column k of both belongs to the same field |
| Memory.OverviewName | deepin-devicemanager/src/DeviceManager/DeviceMemory.cpp:212-214 | the shown name is Name when that is filled, Vendor otherwise, and never the placeholder "--" |
| Memory.OverviewInfo | deepin-devicemanager/src/DeviceManager/DeviceMemory.cpp:208-222 | getOverviewInfo: `"%1(%2 %3 %4)"` filled by four `.arg` calls with size, shown name, type and speed |
| QtString.ArgStep | deepin-devicemanager/src/DeviceManager/DeviceMemory.cpp:215-219 | one `.arg(v)` replaces the lowest place marker by v, after a prefix without '%' |
| Memory.OverviewIsConcatenation | deepin-devicemanager/src/DeviceManager/DeviceMemory.cpp:208-221 | when size, shown name and type hold no '%', the overview is size + "(" + name + " " + type + " " + speed + ")" |
| Memory.OverviewHidesPlaceholder | deepin-devicemanager/src/DeviceManager/DeviceMemory.cpp:212-219 | a name that is "--" leaves the name slot empty, with the parentheses kept, even when a vendor is known |
| Memory.OverviewFallsBackToVendor | deepin-devicemanager/src/DeviceManager/DeviceMemory.cpp:212-219 | without a name, the vendor opens the parentheses |
| Memory.SubTitle | deepin-devicemanager/src/DeviceManager/DeviceMemory.cpp:202-206 | the subtitle is the vendor, one space, then the name |
| Memory.DeviceMemory.GetOtherMapInfo | deepin-devicemanager/src/DeviceManager/DeviceMemory.cpp:50 | the other information becomes OtherMapInfo of the old one |
| QtString.ContainsIffOccurs | deepin-devicemanager/src/DeviceManager/DeviceMemory.cpp:28-31 | contains(pat) holds exactly when pat occurs at some index |
| QtString.ReplaceAll | deepin-devicemanager/src/DeviceManager/DeviceMemory.cpp:28-32 | a string without the pattern is unchanged; a replacement no longer than the pattern does not lengthen it |
| MonitorWidget.Gcd | src/monitorwidget.cpp:30-37 | on positive arguments the result is positive and at most each argument |
| MonitorWidget.GcdDividesBoth | src/monitorwidget.cpp:30-37 | gcd(a, b) divides a and b |
| MonitorWidget.GcdIsGreatest | src/monitorwidget.cpp:30-37 | every common divisor of a and b divides gcd(a, b) |
| MonitorWidget.GcdSymmetric | src/monitorwidget.cpp:31-32 | thanks to the initial swap, gcd(a, b) == gcd(b, a) |
| MonitorWidget.GcdAsWritten | src/monitorwidget.cpp:30-37 | gcd on any pair, a remainder by zero being None; any result is positive |
| MonitorWidget.GcdAsWrittenOnPositive | src/monitorwidget.cpp:30-37 | on positive arguments gcd never takes a remainder by zero and agrees with Gcd |
| MonitorWidget.GcdAsWrittenFailsOnZero | src/monitorwidget.cpp:31-34 | gcd reaches `% 0` exactly when an argument is 0 |
| MonitorWidget.Reduce | src/monitorwidget.cpp:160-162 | both dimensions divided by their gcd stay positive |
| MonitorWidget.ReduceKeepsRatio | src/monitorwidget.cpp:160-162 | w * height == h * width for the reduced pair (w, h) |
| MonitorWidget.ReduceIsCoprime | src/monitorwidget.cpp:160-162 | the reduced pair has gcd 1 |
| MonitorWidget.MatchResolution | src/monitorwidget.cpp:155-156 | a match is two digit runs (possibly empty) joined by 'x' that make up the whole text |
| MonitorWidget.MatchResolutionComplete | src/monitorwidget.cpp:155-159 | every "digits x digits" text matches, with exactly those captures |
| MonitorWidget.RateText | src/monitorwidget.cpp:161-169 | the reduced pair, passed to findAspectRatio when the width exceeds 21, printed as "w : h" |
| MonitorWidget.DisplayRateAsWritten | src/monitorwidget.cpp:155-170 | the display rate as written: empty without a match, a failure where gcd reaches `% 0`, the rate text otherwise |
| MonitorWidget.DisplayRate | src/monitorwidget.cpp:155-170 | the corrected display rate: empty without a match or with a zero dimension, the rate text otherwise |
| QtString.ToIntOfNumberText | src/monitorwidget.cpp:158-159 | toInt reads back the decimal text of any number that fits an int |
| QtString.ToInt | src/monitorwidget.cpp:158-159 | a digit text whose value fits an int is read as that value (so an empty run reads 0); a larger one reads as the failure value 0 |
| MonitorWidget.ZeroDimensionDividesByZero | src/monitorwidget.cpp:155-160 | "x" and "1920x0" match, and the code as written reaches gcd's `% 0` on them |
| MonitorWidget.DisplayRateGuardsOnlyZero | src/monitorwidget.cpp:155-170 | the code as written fails exactly on a matched text with a zero dimension; everywhere else it agrees with the guarded DisplayRate |
| MonitorWidget.DisplayRateOfDimensions | src/monitorwidget.cpp:155-169 | for "W x H" with positive dimensions and a reduced width of at most 21, the rate reads "w : h" with w * H == h * W and gcd(w, h) == 1 |
| MonitorWidget.ComputeDisplayRate | src/monitorwidget.cpp:151-170 | the corrected step-by-step computation (the one in "## Findings", which adds a positive-dimension guard the source lacks) yields DisplayRate |
| QtString.Trim | src/monitorwidget.cpp:176 | trimmed: the result is a piece of the text with only whitespace before and after it, and neither starts nor ends with whitespace |
| QtString.TrimKeepsOut | src/monitorwidget.cpp:176 | trimming adds no character |
| QtString.AfterLastOfJoin | src/monitorwidget.cpp:176 | split(c).last() of init + c + last, where last holds no c, is last |
| MonitorWidget.LastFrequencyIsOneEntry | src/monitorwidget.cpp:176 | the appended frequency holds no comma and neither starts nor ends with whitespace |
| MonitorWidget.WithFrequency | src/monitorwidget.cpp:172-182 | " @" and the last trimmed comma-separated frequency appended when the raw text and that entry are valid |
| MonitorWidget.WithFrequencyOfList | src/monitorwidget.cpp:172-182 | for a valid list "…, last" the resolution gains " @" + last |
| MonitorWidget.AppendFrequency | src/monitorwidget.cpp:172-182 | the step-by-step suffixing yields WithFrequency |
| QtString.LowerOfUpper | src/monitorwidget.cpp:195 | case folding forgets the case a text is written in |
| QtString.ContainsThenContainsIgnoringCase | src/monitorwidget.cpp:195 | a lower-case pattern found as written is found case-insensitively |
| MonitorWidget.PrimaryFlag | src/monitorwidget.cpp:192-203 | "No", replaced by "Yes" when monitor i has an xrandr line containing "primary" case-insensitively |
| MonitorWidget.PrimaryFlagIgnoresCase | src/monitorwidget.cpp:192-199 | upper-casing the xrandr line does not change the primary flag |
| MonitorWidget.PrimaryFlagOfLine | src/monitorwidget.cpp:192-202 | the flag is "Yes" exactly when monitor i has an xrandr line in which "primary" occurs in some letter case, and "No" otherwise |
| QtString.IndexOf | src/monitorwidget.cpp:208-218 | the first index of c, or -1 exactly when c is absent; nothing before it is c |
| QtString.CutAtFirst | src/monitorwidget.cpp:208-218 | a prefix of the text: the text before the first c when that index is > 0, otherwise the whole text |
| MonitorWidget.ConnectType | src/monitorwidget.cpp:205-220 | the translated "Unknown" when i >= the xrandr count, otherwise a prefix of xrandr line i |
| MonitorWidget.ConnectTypeIsConnectorName | src/monitorwidget.cpp:205-220 | a line "NAME-n rest" gives NAME |
| MonitorWidget.ConnectTypeIdempotent | src/monitorwidget.cpp:205-220 | cutting a connect type again changes nothing |
| MonitorWidget.ComputeConnectType | src/monitorwidget.cpp:205-221 | the in-place cuts of connectType.value yield ConnectType |
| MonitorWidget.ManufactureDateParts | src/monitorwidget.cpp:110-123 | the year part is present only when the year is known; " week" + Week is present only when the week is known and not "0"; neither known gives "" |
| MonitorWidget.ManufactureDate | src/monitorwidget.cpp:110-123 | the year with the Year word when known, then a space, the week and the Week word when known and not "0" |
| MonitorWidget.ComposeManufactureDate | src/monitorwidget.cpp:110-124 | the step-by-step date yields ManufactureDate |
| QtString.RemoveChar | src/monitorwidget.cpp:85 | remove(c) leaves no c, and leaves a text without c unchanged |
| QtString.LastIndexOf | src/monitorwidget.cpp:92-93 | the last index of c, or -1 exactly when c is absent; nothing after it is c |
| MonitorWidget.QuotedVendor | src/monitorwidget.cpp:92-93 | a match splits the vendor into head + '"' + quoted + '"', with the quoted part non-empty and quote-free but for its last character (greedy first group) |
| MonitorWidget.QuotedVendorComplete | src/monitorwidget.cpp:92-93 | every text of that shape matches, with exactly those groups |
| MonitorWidget.QuotedVendorNone | src/monitorwidget.cpp:92-93 | the match fails exactly when the text does not end with '"' or holds no other '"' before its last two characters |
| MonitorWidget.MonitorVendor | src/monitorwidget.cpp:89-97 | hwinfo's Vendor, or its quoted part trimmed when the pattern matches |
| MonitorWidget.MonitorName | src/monitorwidget.cpp:83-100 | hwinfo's Model without quotes, with the trimmed vendor abbreviation removed wherever it occurs |
| QtString.RemoveTextKeepsOut | src/monitorwidget.cpp:100 | remove(abb) adds no character |
| MonitorWidget.MonitorNameOfModel | src/monitorwidget.cpp:83-100 | the name never holds a quote; without a quoted vendor it is the model with its quotes removed |
| MonitorWidget.ComputeNameAndVendor | src/monitorwidget.cpp:83-100 | the step-by-step name and vendor are MonitorName and MonitorVendor |
| MonitorWidget.MatchSize | src/monitorwidget.cpp:132-133 | a match is "digits x digits mm", the digit runs being the captures |
| MonitorWidget.MatchSizeComplete | src/monitorwidget.cpp:132-133 | every "digits x digits mm" matches, with exactly those captures |
| MonitorWidget.SizeValue | src/monitorwidget.cpp:129-146 | the inch text, the inch word and the raw size in parentheses when the size matches; the raw size otherwise |
| MonitorWidget.InchNote | src/monitorwidget.cpp:240-248 | the overview's "(inches inch)" after the name, present only when the diagonal is not zero |
| MonitorWidget.SizeValueShowsRaw | src/monitorwidget.cpp:129-146 | the size article always shows the raw size, in parentheses after the inch text when it matches; the overview's inch note is empty exactly when the diagonal is zero |
| MonitorWidget.ComputeSize | src/monitorwidget.cpp:129-146 | the step-by-step size value and inch note are SizeValue and InchNote |
| MonitorWidget.MonitorArticles | src/monitorwidget.cpp:83-225 | the ten articles of one monitor in push order: name, vendor, serial without quotes, date, size, resolution, display rate, primary, connect type, support resolution |
| MonitorWidget.DescribeMonitor | src/monitorwidget.cpp:78-235 | the articles of one monitor, in push order, under its name; also the vendor shown and the inch note |
| MonitorWidget.DescribeMonitors | src/monitorwidget.cpp:76-250 | one page per hwinfo monitor, page k built from monitor k and xrandr line k; (name, vendor) tabs only when there is more than one monitor; the overview is the first monitor's name and inch note |

## Left out

- DeviceBase.OtherMapInfo: initFilterKey stores its keys translated, so each block key is matched in translated form. The stored entry keeps the block's own key. Whether the helper stores the translated key instead is not visible here.
- The bodies of `setAttribute`, `setTomlAttribute`, `getOtherMapInfo`, `addFilterKey`, `addBaseDeviceInfo`, `addOtherDeviceInfo` and `mapInfoToList` belong to DeviceBaseInfo, which is not part of this model. `device_base.dfy` states the contracts the memory code relies on, as the simplest functions that meet them. Any trimming or "Unknown" filtering inside the real helpers is not captured.
- `mapInfoToList` is left out. It runs at the end of `loadOtherDeviceInfo` and turns the other-information map into the displayed list.
- The accessors `name()`, `vendor()`, `driver()` and `available()` (deepin-devicemanager/src/DeviceManager/DeviceMemory.cpp:182-200) are field reads or a constant `true`. The record's fields stand in for them.
- Memory.NormalizeSize: the numeric text of the MiB conversion is an integer stand-in. The model trims, reads the digits, divides by 1024 rounding down and writes the decimal digits. The source divides as a `double` and formats with `QString::number(size, 'g', 0)`, which keeps one significant digit. A 1.5 GB result or one of 10 GB or more may therefore print differently in the source. Below 1 GB the source prints a fraction ("512 MiB" gives "0.5GB") where the model prints "0GB". `toDouble` also reads a fraction, a sign or an exponent ("1536.5", "+512", "1e3"), which the model reads as 0.
- Memory.MiBToGB: `roundOddUp` is a parameter standing for the `__sw_64__` compile-time macro.
- Memory.DeviceMemory: the C++ attribute members are held as one record-valued field. Each setter reads the record, updates it member by member and stores it back. Member-level aliasing does not arise in this code.
- Memory.DeviceMemory.LoadOtherDeviceInfo: `Common::boardVendorType()` is a parameter.
- The identity key of a memory module is described as stable across sources. The code rewrites `m_Locator` from lshw's "slot" and from the override file's "Locator"; only dmidecode leaves it alone. The model follows the code. `LocatorMovesOnlyBySlotOrOverride` states the exact condition.
- MonitorWidget.RateText: `findAspectRatio` (src/monitorwidget.cpp:39-58) is a float search with a relative tolerance. It is a parameter, `AspectFinder`, applied when the reduced width exceeds 21.
- MonitorWidget.SizeValue: the diagonal in inches is float arithmetic formatted by `QString::number(inch, 10, 1)`. It is a parameter, `InchFormatter`, over the two captured digit runs. Whether it is zero is decided exactly, as both dimensions reading 0.
- MonitorWidget.WithFrequency: `ArticleStruct::isValid` is not part of this model and is a parameter, `Validity`. `ArticleStruct::queryData` and `DeviceInfoParser::queryData` are read as a map lookup with "" for an absent key.
- The hwinfo and xrandr monitor lists come from `DeviceInfoParserInstance`, which runs external tools. They are parameters of `DescribeMonitors`.
- `existArticles` is filled but never read in this function, so it is left out.
- `addDevice`, `addTable` and widget construction are GUI. `DescribeMonitors` returns the pages, the tab rows and the overview text that would be handed to them.
- QtString.ContainsIgnoringCase folds ASCII letters only. Qt folds full Unicode case.
- QtString.IsDigit is '0' to '9' only. QRegExp's `\d` in the resolution and size patterns also accepts other Unicode decimal digits.
- QtString.IsSpace is the ASCII whitespace set. Qt's `trimmed` also strips other Unicode spaces.
- QtString.Arg: markers are single digits 1 to 9. Values holding '%' are excluded by the overview lemmas' preconditions, because a later `.arg` would read a '%' followed by a digit inside an earlier value as a marker.
- QtString.ToInt: the model reads only digit runs, as the resolution pattern guarantees. Overflow beyond a 32-bit int gives 0, as `toInt` reports failure.

## Findings

| source | as written | input that shows it | evidently intended | confidence | as-written member | corrected member |
|---|---|---|---|---|---|---|
| src/monitorwidget.cpp:155-160 | the pattern `^([\d]*)x([\d]*)$` accepts empty digit runs and zeros; `toInt` then yields 0, and `gcd(width, height)` swaps the zero into `b` and takes `a % 0` | a current resolution of "x" or "1920x0" (or one with a dimension beyond a 32-bit int) | no display rate for a resolution with a zero dimension; the gcd is only taken for positive dimensions | not executed; high that the remainder by zero is reached for these texts | MonitorWidget.ZeroDimensionDividesByZero | MonitorWidget.DisplayRateGuardsOnlyZero |
