// The DeviceBaseInfo helpers that DeviceMemory calls. Their definitions are
// not part of this model: each is written here as the simplest function
// meeting the contract the memory code relies on, and that contract is what
// the rest of the model uses.

module DeviceBase {

  /** One parse of one tool's output for one device: key -> raw value. */
  type AttributeMap = map<string, string>

  /** QMap::operator[] on a const map: an absent key reads as the empty string. */
  function Value(m: AttributeMap, key: string): string {
    if key in m then m[key] else ""
  }

  /**
   * setAttribute(mapInfo, key, variable, overwrite): an absent key or an empty
   * value leaves the field alone; otherwise the value is written, except that
   * with `overwrite == false` a field that already holds text is kept.
   */
  function SetAttribute(m: AttributeMap, key: string, field: string, overwrite: bool): (r: string)
    ensures key !in m || m[key] == "" ==> r == field
    ensures key in m && m[key] != "" && (overwrite || field == "") ==> r == m[key]
    ensures !overwrite && field != "" ==> r == field
  {
    if key !in m || m[key] == "" then field
    else if overwrite || field == "" then m[key]
    else field
  }

  /** The status setTomlAttribute reports for one override key. */
  datatype TomlFixMethod =
    | TomlNone   // the override file does not name the key
    | TomlCover  // the override value replaced the field
    | TomlDel    // the override file names the key with an empty value: the field is cleared

  datatype TomlOutcome = TomlOutcome(status: TomlFixMethod, field: string)

  /** setTomlAttribute(mapInfo, key, variable): the new field value and the status of this one key. */
  function SetTomlAttribute(m: AttributeMap, key: string, field: string): (o: TomlOutcome)
    ensures key !in m <==> o.status == TomlNone
    ensures key !in m ==> o.field == field
    ensures key in m ==> o.field == m[key] && (o.status == TomlDel <==> m[key] == "")
  {
    if key !in m then TomlOutcome(TomlNone, field)
    else if m[key] == "" then TomlOutcome(TomlDel, "")
    else TomlOutcome(TomlCover, m[key])
  }

  /**
   * getOtherMapInfo(mapInfo): every key of `m` whose translation is one of the
   * device's filter keys (which initFilterKey stores translated) lands in the
   * other-information map, the new value replacing an older one.
   */
  function OtherMapInfo(other: map<string, string>, filterKeys: set<string>, c: Catalogue, m: AttributeMap): map<string, string> {
    other + map k | k in m.Keys && Tr(c, k) in filterKeys :: m[k]
  }

  /** Only keys whose translation is a filter key get in; a new value replaces an older one; every other entry stays. */
  lemma OtherMapInfoContents(other: map<string, string>, filterKeys: set<string>, c: Catalogue, m: AttributeMap)
    ensures var r := OtherMapInfo(other, filterKeys, c, m);
      && (forall k :: k in r <==> k in other || (k in m && Tr(c, k) in filterKeys))
      && (forall k | k in m && Tr(c, k) in filterKeys :: r[k] == m[k])
      && (forall k | k in other && !(k in m && Tr(c, k) in filterKeys) :: r[k] == other[k])
  {
  }

  /** A translation catalogue: source text -> translated text. */
  type Catalogue = map<string, string>

  /** QObject::tr: the catalogue's translation of `text`, or `text` itself when the catalogue has none. */
  function Tr(c: Catalogue, text: string): (t: string)
    ensures text in c ==> t == c[text]
    ensures text !in c ==> t == text
  {
    if text in c then c[text] else text
  }

  /** A (label, value) line of the detail view. */
  type InfoLine = (string, string)

  /** addBaseDeviceInfo(key, value): append the line unless the value is empty. */
  function AddBaseInfo(lines: seq<InfoLine>, line: InfoLine): seq<InfoLine> {
    if line.1 == "" then lines else lines + [line]
  }

  /** addOtherDeviceInfo(key, value): insert the line at the head unless the value is empty. */
  function AddOtherInfo(lines: seq<InfoLine>, line: InfoLine): seq<InfoLine> {
    if line.1 == "" then lines else [line] + lines
  }

  /** The lines of `rows` whose value is not empty, in order. */
  function NonEmpty(rows: seq<InfoLine>): (r: seq<InfoLine>)
    ensures |r| <= |rows|
  {
    if rows == [] then []
    else
      var last := rows[|rows| - 1];
      NonEmpty(rows[..|rows| - 1]) + (if last.1 == "" then [] else [last])
  }

  /** NonEmpty keeps exactly the lines of `rows` whose value is not empty. */
  lemma {:induction false} NonEmptyKeepsFilled(rows: seq<InfoLine>)
    ensures forall line :: line in NonEmpty(rows) <==> line in rows && line.1 != ""
  {
    if rows != [] {
      var init, last := rows[..|rows| - 1], rows[|rows| - 1];
      NonEmptyKeepsFilled(init);
      assert rows == init + [last];
    }
  }

  /** A line offered at position k is kept exactly when its value is not empty. */
  lemma NonEmptyAt(rows: seq<InfoLine>, k: int)
    requires 0 <= k < |rows|
    ensures rows[k] in NonEmpty(rows) <==> rows[k].1 != ""
  {
    NonEmptyKeepsFilled(rows);
  }

  /** Filtering a list grown by one line grows the filtered list by that line when its value is not empty. */
  lemma NonEmptySnoc(rows: seq<InfoLine>, line: InfoLine)
    ensures NonEmpty(rows + [line]) == NonEmpty(rows) + (if line.1 == "" then [] else [line])
  {
    assert (rows + [line])[..|rows|] == rows;
  }

  /** `s` back to front. */
  function Reversed<T>(s: seq<T>): (r: seq<T>)
    ensures |r| == |s|
  {
    if s == [] then [] else [s[|s| - 1]] + Reversed(s[..|s| - 1])
  }

  /** Position k of the reversed list holds position |s| - 1 - k of `s`. */
  lemma {:induction false} ReversedAt<T>(s: seq<T>, k: int)
    requires 0 <= k < |s|
    ensures Reversed(s)[k] == s[|s| - 1 - k]
  {
    var init := s[..|s| - 1];
    assert Reversed(s) == [s[|s| - 1]] + Reversed(init);
    if k > 0 {
      ReversedAt(init, k - 1);
      assert init[|init| - 1 - (k - 1)] == s[|s| - 1 - k];
    }
  }

  /** Filtering a list with one more line in front puts that line in front when its value is not empty. */
  lemma {:induction false} NonEmptyCons(line: InfoLine, rows: seq<InfoLine>)
    ensures NonEmpty([line] + rows) == (if line.1 == "" then [] else [line]) + NonEmpty(rows)
    decreases |rows|
  {
    var grown := [line] + rows;
    if rows == [] {
      assert grown[..0] == [];
    } else {
      var init, last := rows[..|rows| - 1], rows[|rows| - 1];
      assert grown[..|grown| - 1] == [line] + init;
      NonEmptyCons(line, init);
    }
  }

  /** Reversing a list with one more element in front puts that element last. */
  lemma {:induction false} ReversedCons<T>(x: T, s: seq<T>)
    ensures Reversed([x] + s) == Reversed(s) + [x]
    decreases |s|
  {
    var grown := [x] + s;
    if s == [] {
      assert grown[..0] == [];
    } else {
      assert grown[..|grown| - 1] == [x] + s[..|s| - 1];
      ReversedCons(x, s[..|s| - 1]);
    }
  }

  /** `lines` after each of `rows` has been offered to addBaseDeviceInfo, in order. */
  function AppendFilled(lines: seq<InfoLine>, rows: seq<InfoLine>): seq<InfoLine>
    decreases |rows|
  {
    if rows == [] then lines else AppendFilled(AddBaseInfo(lines, rows[0]), rows[1..])
  }

  /** One call: the first line offered, then the rest. */
  lemma AppendStep(lines: seq<InfoLine>, rows: seq<InfoLine>)
    requires rows != []
    ensures AppendFilled(lines, rows) == AppendFilled(AddBaseInfo(lines, rows[0]), rows[1..])
  {
  }

  /** Offering lines one by one to addBaseDeviceInfo appends the non-empty ones, in the order offered. */
  lemma {:induction false} AppendFilledIsNonEmpty(lines: seq<InfoLine>, rows: seq<InfoLine>)
    ensures AppendFilled(lines, rows) == lines + NonEmpty(rows)
    decreases |rows|
  {
    if rows != [] {
      var first, rest := rows[0], rows[1..];
      AppendFilledIsNonEmpty(AddBaseInfo(lines, first), rest);
      assert rows == [first] + rest;
      NonEmptyCons(first, rest);
      AppendedOneMore(lines, first, NonEmpty(rest));
    }
  }

  /** The step of the proof above: offering `first` before the lines `kept` stand for. */
  lemma AppendedOneMore(lines: seq<InfoLine>, first: InfoLine, kept: seq<InfoLine>)
    ensures AddBaseInfo(lines, first) + kept == lines + ((if first.1 == "" then [] else [first]) + kept)
  {
    if first.1 != "" {
      assert (lines + [first]) + kept == lines + ([first] + kept);
    } else {
      assert [] + kept == kept;
    }
  }

  /** `lines` after each of `rows` has been offered to addOtherDeviceInfo, in order. */
  function PrependFilled(lines: seq<InfoLine>, rows: seq<InfoLine>): seq<InfoLine>
    decreases |rows|
  {
    if rows == [] then lines else PrependFilled(AddOtherInfo(lines, rows[0]), rows[1..])
  }

  /** One call: the first line offered, then the rest. */
  lemma PrependStep(lines: seq<InfoLine>, rows: seq<InfoLine>)
    requires rows != []
    ensures PrependFilled(lines, rows) == PrependFilled(AddOtherInfo(lines, rows[0]), rows[1..])
  {
  }

  /** Offering lines one by one to addOtherDeviceInfo puts the non-empty ones in front, last offered first. */
  lemma {:induction false} PrependFilledIsReversed(lines: seq<InfoLine>, rows: seq<InfoLine>)
    ensures PrependFilled(lines, rows) == Reversed(NonEmpty(rows)) + lines
    decreases |rows|
  {
    if rows != [] {
      var first, rest := rows[0], rows[1..];
      PrependFilledIsReversed(AddOtherInfo(lines, first), rest);
      assert rows == [first] + rest;
      NonEmptyCons(first, rest);
      ReversedOneMore(lines, first, NonEmpty(rest));
    }
  }

  /** The step of the proof above: offering `first` before the lines `kept` stand for. */
  lemma ReversedOneMore(lines: seq<InfoLine>, first: InfoLine, kept: seq<InfoLine>)
    ensures Reversed((if first.1 == "" then [] else [first]) + kept) + lines == Reversed(kept) + AddOtherInfo(lines, first)
  {
    if first.1 != "" {
      ReversedCons(first, kept);
      assert (Reversed(kept) + [first]) + lines == Reversed(kept) + ([first] + lines);
    } else {
      assert [] + kept == kept;
    }
  }
}
