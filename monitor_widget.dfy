// The integer and string rules MonitorWidget::initWidget applies to each
// monitor hwinfo reports, lifted into functions, and the loop over the
// monitors as a method built from them.

module MonitorWidget {
  import opened QtString
  import opened DeviceBase

  datatype Option<T> = None | Some(value: T)

  // ------------------------------------------------------------ gcd

  /** `d` is a positive divisor of `n`. */
  predicate Divides(d: nat, n: nat) {
    d > 0 && n % d == 0
  }

  /**
   * gcd(a, b): order the pair so that the first is the larger, then Euclid's
   * step. Both arguments must be positive: with a zero the step takes `% 0`.
   */
  function Gcd(a: nat, b: nat): (g: nat)
    requires a > 0 && b > 0
    ensures 0 < g <= a && g <= b
    decreases a + b
  {
    var hi, lo := if a < b then b else a, if a < b then a else b;
    if hi % lo == 0 then lo else Gcd(lo, hi % lo)
  }

  /** gcd as written, on any pair: None where the computation reaches a remainder by zero. */
  function GcdAsWritten(a: nat, b: nat): (g: Option<nat>)
    ensures g.Some? ==> g.value > 0
    decreases a + b
  {
    var hi, lo := if a < b then b else a, if a < b then a else b;
    if lo == 0 then None
    else if hi % lo == 0 then Some(lo)
    else GcdAsWritten(lo, hi % lo)
  }

  /** A multiple of d leaves no remainder. */
  lemma MultipleMod(d: nat, k: int)
    requires d > 0
    ensures (d * k) % d == 0
  {
    // d * e is the remainder, so it lies in [0, d); splitting on the sign of e shows e == 0.
    var e := k - (d * k) / d;
    assert d * e == (d * k) % d;
    if e >= 1 {
    } else if e <= -1 {
    }
  }

  /** A divisor of y and of x % y divides x. */
  lemma DividesFromRemainder(d: nat, x: nat, y: nat)
    requires y > 0 && Divides(d, y) && Divides(d, x % y)
    ensures Divides(d, x)
  {
    var q, i, j := x / y, y / d, (x % y) / d;
    assert x == y * q + x % y;
    assert y == d * i && x % y == d * j;
    assert x == d * (i * q + j) by {
      assert y * q == d * i * q;
    }
    MultipleMod(d, i * q + j);
  }

  /** A common divisor of x and y divides x % y. */
  lemma DividesRemainder(d: nat, x: nat, y: nat)
    requires Divides(d, x) && Divides(d, y) && y > 0
    ensures Divides(d, x % y)
  {
    var i, j, q := x / d, y / d, x / y;
    assert x == d * i && y == d * j;
    assert x % y == x - q * y;
    assert x % y == d * (i - q * j);
    MultipleMod(d, i - q * j);
  }

  /** A positive divisor of a positive number is at most that number. */
  lemma DividesBound(d: nat, n: nat)
    requires Divides(d, n) && n > 0
    ensures d <= n
  {
    var k := n / d;
    assert n == d * k;
    assert k >= 1;
  }

  /** gcd(a, b) divides both a and b. */
  lemma {:induction false} GcdDividesBoth(a: nat, b: nat)
    requires a > 0 && b > 0
    ensures Divides(Gcd(a, b), a) && Divides(Gcd(a, b), b)
    decreases a + b
  {
    var hi, lo := if a < b then b else a, if a < b then a else b;
    if hi % lo != 0 {
      GcdDividesBoth(lo, hi % lo);
      DividesFromRemainder(Gcd(lo, hi % lo), hi, lo);
    }
  }

  /** Every common divisor of a and b divides gcd(a, b). */
  lemma {:induction false} GcdIsGreatest(a: nat, b: nat, d: nat)
    requires a > 0 && b > 0 && Divides(d, a) && Divides(d, b)
    ensures Divides(d, Gcd(a, b))
    decreases a + b
  {
    var hi, lo := if a < b then b else a, if a < b then a else b;
    if hi % lo != 0 {
      DividesRemainder(d, hi, lo);
      GcdIsGreatest(lo, hi % lo, d);
    }
  }

  /** The initial swap makes the argument order irrelevant. */
  lemma GcdSymmetric(a: nat, b: nat)
    requires a > 0 && b > 0
    ensures Gcd(a, b) == Gcd(b, a)
  {
  }

  /** On positive arguments gcd as written never divides by zero and computes Gcd. */
  lemma {:induction false} GcdAsWrittenOnPositive(a: nat, b: nat)
    requires a > 0 && b > 0
    ensures GcdAsWritten(a, b) == Some(Gcd(a, b))
    decreases a + b
  {
    var hi, lo := if a < b then b else a, if a < b then a else b;
    if hi % lo != 0 {
      GcdAsWrittenOnPositive(lo, hi % lo);
    }
  }

  /** gcd as written reaches a remainder by zero exactly when an argument is zero. */
  lemma GcdAsWrittenFailsOnZero(a: nat, b: nat)
    ensures GcdAsWritten(a, b) == None <==> a == 0 || b == 0
  {
    if a > 0 && b > 0 {
      GcdAsWrittenOnPositive(a, b);
    }
  }

  // ------------------------------------------------------------ display rate

  /** Both dimensions divided by g. */
  function DivideBoth(width: nat, height: nat, g: nat): (nat, nat)
    requires g > 0
  {
    (width / g, height / g)
  }

  /** The pair of dimensions divided by their gcd. */
  function Reduce(width: nat, height: nat): (r: (nat, nat))
    requires width > 0 && height > 0
    ensures r.0 > 0 && r.1 > 0
  {
    var g := Gcd(width, height);
    QuotientPositive(width, g);
    QuotientPositive(height, g);
    DivideBoth(width, height, g)
  }

  /** A positive number divided by a divisor no larger than itself is positive. */
  lemma QuotientPositive(n: nat, g: nat)
    requires 0 < g <= n
    ensures n / g > 0
  {
  }

  /** Scaling a number and one of its divisors by the same factor keeps the divisibility. */
  lemma DividesScaled(g: nat, c: nat, w: nat)
    requires g > 0 && Divides(c, w)
    ensures Divides(g * c, g * w)
  {
    var i := w / c;
    assert w == c * i;
    assert g * w == (g * c) * i;
    MultipleMod(g * c, i);
  }

  /** Dividing out an exact divisor: n is d times n / d. */
  lemma ExactQuotient(d: nat, n: nat)
    requires Divides(d, n)
    ensures n == d * (n / d)
  {
  }

  lemma CrossProduct(g: nat, w: nat, h: nat)
    ensures w * (g * h) == h * (g * w)
  {
  }

  /** The reduced pair is positive and keeps the ratio of the dimensions. */
  lemma ReduceKeepsRatio(width: nat, height: nat)
    requires width > 0 && height > 0
    ensures var (w, h) := Reduce(width, height);
      w * height == h * width
  {
    var g := Gcd(width, height);
    var w, h := width / g, height / g;
    GcdDividesBoth(width, height);
    ExactQuotient(g, width);
    ExactQuotient(g, height);
    CrossProduct(g, w, h);
  }

  /** The two parts of the reduced pair have no common divisor but 1. */
  lemma ReduceIsCoprime(width: nat, height: nat)
    requires width > 0 && height > 0
    ensures Gcd(Reduce(width, height).0, Reduce(width, height).1) == 1
  {
    var g := Gcd(width, height);
    var w, h := width / g, height / g;
    ReduceKeepsRatio(width, height);
    GcdDividesBoth(width, height);
    ExactQuotient(g, width);
    ExactQuotient(g, height);
    var c := Gcd(w, h);
    GcdDividesBoth(w, h);
    DividesScaled(g, c, w);
    DividesScaled(g, c, h);
    GcdIsGreatest(width, height, g * c);
    DividesBound(g * c, g);
    ScaledBound(g, c);
  }

  /** g * c <= g forces c <= 1 for positive g. */
  lemma ScaledBound(g: nat, c: nat)
    requires g > 0 && g * c <= g
    ensures c <= 1
  {
    if c >= 2 {
    }
  }

  /**
   * The current-resolution text against ^(\d*)x(\d*)$: the two digit runs
   * around the 'x', or None when it does not match.
   */
  function MatchResolution(s: string): (m: Option<(string, string)>)
    ensures m.Some? ==> AllDigits(m.value.0) && AllDigits(m.value.1) && s == m.value.0 + "x" + m.value.1
  {
    var i := IndexOf(s, 'x');
    if i >= 0 && AllDigits(s[..i]) && AllDigits(s[i + 1..]) then Some((s[..i], s[i + 1..])) else None
  }

  /** Every text of the form digits, 'x', digits matches, and yields exactly those digit runs. */
  lemma MatchResolutionComplete(d1: string, d2: string)
    requires AllDigits(d1) && AllDigits(d2)
    ensures MatchResolution(d1 + "x" + d2) == Some((d1, d2))
  {
    var s := d1 + "x" + d2;
    var i := IndexOf(s, 'x');
    assert s[|d1|] == 'x';
    assert s[..|d1|] == d1 && s[|d1| + 1..] == d2;
  }

  /** findAspectRatio, whose float search is not part of this model: (w, h) to the approximate ratio it settles on. */
  type AspectFinder = (nat, nat) -> (nat, nat)

  /** The display-rate text of a reduced pair; a reduced width above 21 goes through findAspectRatio first. */
  function RateText(wh: (nat, nat), findAspect: AspectFinder): string {
    var (w, h) := if wh.0 > 21 then findAspect(wh.0, wh.1) else wh;
    NumberText(w) + " : " + NumberText(h)
  }

  /** The display rate as written: None where the computation reaches gcd's remainder by zero. */
  function DisplayRateAsWritten(resolution: string, findAspect: AspectFinder): Option<string> {
    match MatchResolution(resolution)
    case None => Some("")
    case Some(parts) =>
      var width, height := ToInt(parts.0), ToInt(parts.1);
      match GcdAsWritten(width, height)
      case None => None
      case Some(g) => Some(RateText(DivideBoth(width, height, g), findAspect))
  }

  /** "x" and "1920x0" match the pattern, and both reach the remainder by zero. */
  lemma ZeroDimensionDividesByZero(findAspect: AspectFinder)
    ensures DisplayRateAsWritten("x", findAspect) == None
    ensures DisplayRateAsWritten("1920x0", findAspect) == None
  {
    assert AllDigits("") && AllDigits("0") && AllDigits("1920");
    MatchResolutionComplete("", "");
    assert "x" == "" + "x" + "";
    MatchResolutionComplete("1920", "0");
    assert "1920x0" == "1920" + "x" + "0";
    GcdAsWrittenFailsOnZero(ToInt(""), ToInt(""));
    GcdAsWrittenFailsOnZero(ToInt("1920"), ToInt("0"));
  }

  /**
   * The display rate shown for a current-resolution text: empty unless it
   * matches; a zero dimension (an empty digit run, a 0, or a number too big for
   * an int) shows no rate; otherwise the reduced ratio "w : h".
   */
  function DisplayRate(resolution: string, findAspect: AspectFinder): string {
    match MatchResolution(resolution)
    case None => ""
    case Some(parts) =>
      var width, height := ToInt(parts.0), ToInt(parts.1);
      if width == 0 || height == 0 then "" else RateText(Reduce(width, height), findAspect)
  }

  /**
   * The guarded display rate differs from the code as written only where that
   * code divides by zero, which happens exactly for a matched text with a zero dimension.
   */
  lemma DisplayRateGuardsOnlyZero(resolution: string, findAspect: AspectFinder)
    ensures DisplayRateAsWritten(resolution, findAspect) == None <==>
      MatchResolution(resolution).Some? &&
      (ToInt(MatchResolution(resolution).value.0) == 0 || ToInt(MatchResolution(resolution).value.1) == 0)
    ensures DisplayRateAsWritten(resolution, findAspect).Some? ==>
      DisplayRateAsWritten(resolution, findAspect).value == DisplayRate(resolution, findAspect)
  {
    match MatchResolution(resolution)
    case None =>
    case Some(parts) =>
      var width, height := ToInt(parts.0), ToInt(parts.1);
      GcdAsWrittenFailsOnZero(width, height);
      if width > 0 && height > 0 {
        GcdAsWrittenOnPositive(width, height);
      }
  }

  /** For the text of positive dimensions with a small reduced width, the display rate is their coprime ratio. */
  lemma DisplayRateOfDimensions(width: nat, height: nat, findAspect: AspectFinder)
    requires 0 < width <= IntMax && 0 < height <= IntMax
    requires Reduce(width, height).0 <= 21
    ensures var (w, h) := Reduce(width, height);
      && DisplayRate(NumberText(width) + "x" + NumberText(height), findAspect) == NumberText(w) + " : " + NumberText(h)
      && w * height == h * width && Gcd(w, h) == 1
  {
    MatchResolutionComplete(NumberText(width), NumberText(height));
    ToIntOfNumberText(width);
    ToIntOfNumberText(height);
    ReduceKeepsRatio(width, height);
    ReduceIsCoprime(width, height);
  }

  // ------------------------------------------------------------ frequency

  /** ArticleStruct::isValid, whose definition is not part of this model. */
  type Validity = string -> bool

  /** The last entry of a comma-separated frequency list, trimmed. */
  function LastFrequency(raw: string): string {
    Trim(AfterLast(Trim(raw), ','))
  }

  /** The resolution text with " @" and the last listed frequency appended, when both the list and that entry are valid. */
  function WithFrequency(resolution: string, raw: string, isValid: Validity): string {
    var f := LastFrequency(raw);
    if isValid(raw) && isValid(f) then resolution + " @" + f else resolution
  }

  /** The appended entry holds no comma and neither starts nor ends with whitespace. */
  lemma LastFrequencyIsOneEntry(raw: string)
    ensures var f := LastFrequency(raw);
      ',' !in f && (f != [] ==> !IsSpace(f[0]) && !IsSpace(f[|f| - 1]))
  {
    var last := AfterLast(Trim(raw), ',');
    TrimKeepsOut(last, ',');
    var f := Trim(last);
    assert f == LastFrequency(raw);
  }

  /** For a list "..., last" with a trimmed final entry, the entry after the last comma is the one appended. */
  lemma WithFrequencyOfList(resolution: string, init: string, last: string, isValid: Validity)
    requires ',' !in last && last != [] && !IsSpace(last[0]) && !IsSpace(last[|last| - 1])
    requires init != [] ==> !IsSpace(init[0])
    requires isValid(init + "," + last) && isValid(last)
    ensures WithFrequency(resolution, init + "," + last, isValid) == resolution + " @" + last
  {
    var raw := init + "," + last;
    assert raw[|raw| - 1] == last[|last| - 1];
    if init == [] {
      assert raw[0] == ',';
    } else {
      assert raw[0] == init[0];
    }
    TrimOfTrimmed(raw);
    assert raw == init + [','] + last;
    AfterLastOfJoin(init, ',', last);
    TrimOfTrimmed(last);
  }

  // ------------------------------------------------------------ xrandr

  /** "Yes" when monitor i has an xrandr line that mentions "primary" in any case, "No" otherwise. */
  function PrimaryFlag(i: nat, xrandr: seq<string>): string {
    if i < |xrandr| && ContainsIgnoringCase(xrandr[i], "primary") then "Yes" else "No"
  }

  /** The flag does not depend on the case the xrandr line is written in. */
  lemma PrimaryFlagIgnoresCase(i: nat, xrandr: seq<string>)
    requires i < |xrandr|
    ensures PrimaryFlag(i, xrandr[i := Upper(xrandr[i])]) == PrimaryFlag(i, xrandr)
  {
    LowerOfUpper(xrandr[i]);
  }

  /**
   * The flag is "Yes" exactly when monitor i has an xrandr line in which
   * "primary" occurs in some spelling, and "No" otherwise; a line that says
   * "primary" as written qualifies, and without a line a monitor never does.
   */
  lemma PrimaryFlagOfLine(i: nat, xrandr: seq<string>)
    ensures PrimaryFlag(i, xrandr) == "Yes" <==> i < |xrandr| && exists k :: OccursAt(Lower(xrandr[i]), "primary", k)
    ensures PrimaryFlag(i, xrandr) != "Yes" ==> PrimaryFlag(i, xrandr) == "No"
    ensures i < |xrandr| && Contains(xrandr[i], "primary") ==> PrimaryFlag(i, xrandr) == "Yes"
    ensures i >= |xrandr| ==> PrimaryFlag(i, xrandr) == "No"
  {
    assert Lower("primary") == "primary";
    if i < |xrandr| {
      ContainsIffOccurs(Lower(xrandr[i]), "primary");
      if Contains(xrandr[i], "primary") {
        ContainsThenContainsIgnoringCase(xrandr[i], "primary");
      }
    }
  }

  /**
   * The connector name of monitor i: the translated "Unknown" without an xrandr
   * line; otherwise the line cut before its first space, then before its first
   * '-', each cut taken only when that character is not at the start.
   */
  function ConnectType(i: nat, xrandr: seq<string>, unknown: string): (c: string)
    ensures i >= |xrandr| ==> c == unknown
    ensures i < |xrandr| ==> IsPrefix(c, xrandr[i])
  {
    if i < |xrandr| then CutAtFirst(CutAtFirst(xrandr[i], ' '), '-') else unknown
  }

  /** An xrandr line "NAME-n rest..." yields NAME. */
  lemma ConnectTypeIsConnectorName(i: nat, xrandr: seq<string>, unknown: string, name: string, n: string, rest: string)
    requires i < |xrandr| && xrandr[i] == name + "-" + n + " " + rest
    requires name != [] && ' ' !in name && '-' !in name && ' ' !in n
    ensures ConnectType(i, xrandr, unknown) == name
  {
    var line := xrandr[i];
    var head := name + "-" + n;
    assert line[|head|] == ' ' && line[..|head|] == head;
    assert ' ' !in head;
    assert line[0] == name[0] && name[0] != ' ';
    assert IndexOf(line, ' ') == |head|;
    var cut := CutAtFirst(line, ' ');
    assert cut == head;
    assert head[|name|] == '-' && head[..|name|] == name;
    assert head[0] == name[0] && name[0] != '-';
    assert IndexOf(head, '-') == |name|;
  }

  /** Cutting a connector name again changes nothing. */
  lemma {:induction false} ConnectTypeIdempotent(i: nat, xrandr: seq<string>, unknown: string)
    requires i < |xrandr|
    ensures var c := ConnectType(i, xrandr, unknown);
      ConnectType(0, [c], unknown) == c
  {
    var s := xrandr[i];
    var t := CutAtFirst(s, ' ');
    var c := CutAtFirst(t, '-');
    if ' ' in c {
      assert ' ' in t;
      assert IndexOf(s, ' ') == 0 && t == s && t[0] == ' ';
      assert c[0] == ' ';
    }
    assert CutAtFirst(c, ' ') == c;
    if '-' in c {
      assert c == t && IndexOf(t, '-') == 0;
    }
  }

  // ------------------------------------------------------------ manufacture date

  /** The translated texts the monitor code shows: "Unknown", "Year", "Week", the "Size" title and "inch". */
  datatype Texts = Texts(unknown: string, year: string, week: string, size: string, inch: string)

  /**
   * The manufacture date: the year with the "Year" word when the year is known
   * (not empty, not "Unknown"), then a space, the week and the "Week" word
   * when the week is known (not empty, not "Unknown", not "0").
   */
  function ManufactureDate(my: string, mw: string, t: Texts): string {
    var yearPart := if my != "" && my != t.unknown then my + t.year else "";
    if mw != "" && mw != t.unknown && mw != "0" then yearPart + " " + mw + t.week else yearPart
  }

  /** Where each part of the date comes from, and that an unknown year and week leave it empty. */
  lemma ManufactureDateParts(my: string, mw: string, t: Texts)
    ensures var d := ManufactureDate(my, mw, t);
      var knownYear := my != "" && my != t.unknown;
      var knownWeek := mw != "" && mw != t.unknown && mw != "0";
      && (knownYear ==> IsPrefix(my + t.year, d))
      && (knownWeek ==> IsSuffix(" " + mw + t.week, d))
      && (!knownYear && !knownWeek <==> d == "")
      && (!knownWeek ==> d == (if knownYear then my + t.year else ""))
      && (!knownYear && knownWeek ==> d == " " + mw + t.week)
  {
    var yearPart := if my != "" && my != t.unknown then my + t.year else "";
    var d := ManufactureDate(my, mw, t);
    if mw != "" && mw != t.unknown && mw != "0" {
      assert d == yearPart + (" " + mw + t.week);
      assert d[..|yearPart|] == yearPart;
    }
  }

  // ------------------------------------------------------------ the monitor loop

  /** A (name, value) article of a monitor's detail page. */
  datatype Article = Article(name: string, value: string)

  /** One device page: its title and its articles. */
  datatype Device = Device(title: string, articles: seq<Article>)

  /**
   * The vendor text against ^([\s\S]*)"([\s\S]+)"$: the text before the quoted
   * part and the quoted part, or None when it does not match. The first group
   * is greedy, so the opening quote is the last '"' that leaves the quoted part
   * non-empty.
   */
  function QuotedVendor(v: string): (r: Option<(string, string)>)
    ensures r.Some? ==> var (a, b) := r.value;
      v == a + "\"" + b + "\"" && b != [] && '"' !in b[..|b| - 1]
  {
    if |v| >= 3 && v[|v| - 1] == '"' then
      var p := LastIndexOf(v[..|v| - 2], '"');
      if p >= 0 then
        var a, b := v[..p], v[p + 1..|v| - 1];
        assert v == a + "\"" + b + "\"";
        assert b[..|b| - 1] == v[..|v| - 2][p + 1..];
        Some((a, b))
      else None
    else None
  }

  /** Every text of that shape matches, and the groups are read back. */
  lemma QuotedVendorComplete(a: string, b: string)
    requires b != [] && '"' !in b[..|b| - 1]
    ensures QuotedVendor(a + "\"" + b + "\"") == Some((a, b))
  {
    var v := a + "\"" + b + "\"";
    var head := v[..|v| - 2];
    assert head == a + "\"" + b[..|b| - 1];
    assert head[|a|] == '"';
    assert head[|a| + 1..] == b[..|b| - 1];
    var p := LastIndexOf(head, '"');
    assert p == |a|;
    assert v[..p] == a && v[p + 1..|v| - 1] == b;
  }

  /** The text fails to match exactly when it does not end with '"' or has no other '"' before its last two characters. */
  lemma QuotedVendorNone(v: string)
    ensures QuotedVendor(v).None? <==> !(|v| >= 3 && v[|v| - 1] == '"' && '"' in v[..|v| - 2])
  {
  }

  /** The vendor abbreviation (the text before the quoted part, trimmed) and the vendor shown (the quoted part, trimmed). */
  function VendorSplit(raw: string): (string, string) {
    match QuotedVendor(raw)
    case Some((a, b)) => (Trim(a), Trim(b))
    case None => ("", raw)
  }

  /** The vendor shown: hwinfo's Vendor, or its quoted part when it has one. */
  function MonitorVendor(m: AttributeMap): string {
    VendorSplit(Value(m, "Vendor")).1
  }

  /** The monitor name: hwinfo's Model without its quotes, and without the vendor abbreviation wherever it occurs. */
  function MonitorName(m: AttributeMap): string {
    RemoveText(RemoveChar(Value(m, "Model"), '"'), VendorSplit(Value(m, "Vendor")).0)
  }

  /** The name never holds a quote; without a quoted vendor it is the model with its quotes removed. */
  lemma MonitorNameOfModel(m: AttributeMap)
    ensures '"' !in MonitorName(m)
    ensures QuotedVendor(Value(m, "Vendor")).None? ==> MonitorName(m) == RemoveChar(Value(m, "Model"), '"')
  {
    RemoveTextKeepsOut(RemoveChar(Value(m, "Model"), '"'), VendorSplit(Value(m, "Vendor")).0, '"');
  }

  /** QString::number(inch, 10, 1) of the diagonal computed from the two digit runs of the size; the float arithmetic is not part of this model. */
  type InchFormatter = (string, string) -> string

  /** The size text against ^(\d*)x(\d*) mm$: the two digit runs, or None. */
  function MatchSize(size: string): (r: Option<(string, string)>)
    ensures r.Some? ==> AllDigits(r.value.0) && AllDigits(r.value.1) && size == r.value.0 + "x" + r.value.1 + " mm"
  {
    if |size| >= 3 && size[|size| - 3..] == " mm" then
      var r := MatchResolution(size[..|size| - 3]);
      assert r.Some? ==> size == size[..|size| - 3] + " mm";
      r
    else None
  }

  /** Every "<digits>x<digits> mm" matches, with those digit runs. */
  lemma MatchSizeComplete(d1: string, d2: string)
    requires AllDigits(d1) && AllDigits(d2)
    ensures MatchSize(d1 + "x" + d2 + " mm") == Some((d1, d2))
  {
    var size := d1 + "x" + d2 + " mm";
    assert size[|size| - 3..] == " mm";
    assert size[..|size| - 3] == d1 + "x" + d2;
    MatchResolutionComplete(d1, d2);
  }

  /** The size article: the diagonal in inches followed by the raw size in parentheses when it matches, the raw size otherwise. */
  function SizeValue(size: string, t: Texts, inchText: InchFormatter): string {
    match MatchSize(size)
    case Some((w, h)) => inchText(w, h) + " " + t.inch + " (" + size + ")"
    case None => size
  }

  /** The diagonal is zero exactly when the size does not match or both its dimensions read as zero. */
  predicate ZeroDiagonal(size: string) {
    match MatchSize(size)
    case Some((w, h)) => DigitsValue(w) == 0 && DigitsValue(h) == 0
    case None => true
  }

  /** What the overview adds after the first monitor's name: the diagonal in inches, in parentheses, when it is not zero. */
  function InchNote(size: string, t: Texts, inchText: InchFormatter): string {
    match MatchSize(size)
    case Some((w, h)) => if DigitsValue(w) == 0 && DigitsValue(h) == 0 then "" else "(" + inchText(w, h) + " " + t.inch + ")"
    case None => ""
  }

  /** The raw size always shows; with a non-zero diagonal the overview note repeats the inch text of the size article. */
  lemma SizeValueShowsRaw(size: string, t: Texts, inchText: InchFormatter)
    ensures MatchSize(size).None? ==> SizeValue(size, t, inchText) == size
    ensures MatchSize(size).Some? ==> IsSuffix(" (" + size + ")", SizeValue(size, t, inchText))
    ensures ZeroDiagonal(size) <==> InchNote(size, t, inchText) == ""
    ensures !ZeroDiagonal(size) ==> var (w, h) := MatchSize(size).value;
      IsPrefix(inchText(w, h) + " " + t.inch, SizeValue(size, t, inchText))
      && InchNote(size, t, inchText) == "(" + inchText(w, h) + " " + t.inch + ")"
  {
    match MatchSize(size)
    case None =>
    case Some((w, h)) =>
      var v := SizeValue(size, t, inchText);
      var head := inchText(w, h) + " " + t.inch;
      assert v == head + (" (" + size + ")");
      assert v[..|head|] == head;
      assert v[|v| - |" (" + size + ")"|..] == " (" + size + ")";
  }

  /** The overview line: the first monitor's name, then its inch note. */
  function MonitorOverview(m: AttributeMap, t: Texts, inchText: InchFormatter): string {
    MonitorName(m) + InchNote(Value(m, "Size"), t, inchText)
  }

  /** The articles of monitor i, in the order initWidget pushes them. */
  function MonitorArticles(m: AttributeMap, i: nat, xrandr: seq<string>, t: Texts,
                           isValid: Validity, findAspect: AspectFinder, inchText: InchFormatter): seq<Article>
  {
    var resolution := Value(m, "Current Resolution");
    [Article("Name", MonitorName(m)),
     Article("Vendor", MonitorVendor(m)),
     Article("Serial Number", RemoveChar(Value(m, "Serial ID"), '"')),
     Article("Manufacture Date", ManufactureDate(Value(m, "Year of Manufacture"), Value(m, "Week of Manufacture"), t)),
     Article(t.size, SizeValue(Value(m, "Size"), t, inchText)),
     Article("Resolution", WithFrequency(resolution, Value(m, "Frequencies"), isValid)),
     Article("Display Rate", DisplayRate(resolution, findAspect)),
     Article("Primary Monitor", PrimaryFlag(i, xrandr)),
     Article("Connect Type", ConnectType(i, xrandr, t.unknown)),
     Article("Support Resolution", Value(m, "Support Resolution"))]
  }

  /** The manufacture-date value, built as initWidget builds it. */
  method ComposeManufactureDate(my: string, mw: string, t: Texts) returns (date: string)
    ensures date == ManufactureDate(my, mw, t)
  {
    date := "";
    if my != "" && my != t.unknown {
      date := my + t.year;
    }
    if mw != "" && mw != t.unknown && mw != "0" {
      date := date + " ";
      date := date + mw;
      date := date + t.week;
    }
  }

  /** The display-rate value, with the zero-dimension guard. */
  method ComputeDisplayRate(resolution: string, findAspect: AspectFinder) returns (rate: string)
    ensures rate == DisplayRate(resolution, findAspect)
  {
    rate := "";
    var parts := MatchResolution(resolution);
    if parts.Some? {
      var width, height := ToInt(parts.value.0), ToInt(parts.value.1);
      if width > 0 && height > 0 {
        var gys := Gcd(width, height);
        var w, h := width / gys, height / gys;
        if w > 21 {
          w, h := findAspect(w, h).0, findAspect(w, h).1;
        }
        rate := NumberText(w) + " : " + NumberText(h);
      }
    }
  }

  /** The resolution value with the last listed frequency appended. */
  method AppendFrequency(resolution: string, raw: string, isValid: Validity) returns (value: string)
    ensures value == WithFrequency(resolution, raw, isValid)
  {
    value := resolution;
    var frequencies := raw;
    if isValid(frequencies) {
      frequencies := Trim(AfterLast(Trim(frequencies), ','));
      if isValid(frequencies) {
        value := value + " @";
        value := value + frequencies;
      }
    }
  }

  /** The connect-type value, cut step by step. */
  method ComputeConnectType(i: nat, xrandr: seq<string>, unknown: string) returns (connect: string)
    ensures connect == ConnectType(i, xrandr, unknown)
  {
    connect := unknown;
    if i < |xrandr| {
      connect := xrandr[i];
      var index := IndexOf(connect, ' ');
      if index > 0 {
        connect := connect[..index];
      }
      index := IndexOf(connect, '-');
      if index > 0 {
        connect := connect[..index];
      }
    }
  }

  /** The name and the vendor shown, built as initWidget builds them. */
  method ComputeNameAndVendor(m: AttributeMap) returns (name: string, vendor: string)
    ensures name == MonitorName(m) && vendor == MonitorVendor(m)
  {
    name := RemoveChar(Value(m, "Model"), '"');
    vendor := Value(m, "Vendor");
    var abb := "";
    var quoted := QuotedVendor(vendor);
    if quoted.Some? {
      abb := Trim(quoted.value.0);
      vendor := Trim(quoted.value.1);
    }
    name := RemoveText(name, abb);
  }

  /** The size value and the overview's inch note, built as initWidget builds them. */
  method ComputeSize(size: string, t: Texts, inchText: InchFormatter) returns (value: string, note: string)
    ensures value == SizeValue(size, t, inchText)
    ensures note == InchNote(size, t, inchText)
  {
    value, note := "", "";
    var dims := MatchSize(size);
    if dims.Some? {
      var (w, h) := dims.value;
      var inch := inchText(w, h);
      value := inch + " " + t.inch + " (";
      value := value + size;
      value := value + ")";
      if DigitsValue(w) != 0 || DigitsValue(h) != 0 {
        note := "(";
        note := note + inch + " " + t.inch;
        note := note + ")";
      }
    } else {
      value := value + size;
    }
  }

  /** The device page of monitor i: titled with its name. */
  function MonitorPage(m: AttributeMap, i: nat, xrandr: seq<string>, t: Texts,
                       isValid: Validity, findAspect: AspectFinder, inchText: InchFormatter): Device
  {
    Device(MonitorName(m), MonitorArticles(m, i, xrandr, t, isValid, findAspect, inchText))
  }

  /**
   * The body of initWidget's loop for monitor i: the articles pushed in order,
   * under the monitor's name; also the vendor shown and the inch note, which
   * the tab list and the overview use.
   */
  method DescribeMonitor(m: AttributeMap, i: nat, xrandr: seq<string>, t: Texts,
                         isValid: Validity, findAspect: AspectFinder, inchText: InchFormatter)
    returns (page: Device, vendor: string, note: string)
    ensures page == MonitorPage(m, i, xrandr, t, isValid, findAspect, inchText)
    ensures page.title == MonitorName(m)
    ensures vendor == MonitorVendor(m)
    ensures note == InchNote(Value(m, "Size"), t, inchText)
    ensures page.title + note == MonitorOverview(m, t, inchText)
  {
    var name;
    name, vendor := ComputeNameAndVendor(m);
    var serial := RemoveChar(Value(m, "Serial ID"), '"');
    var date := ComposeManufactureDate(Value(m, "Year of Manufacture"), Value(m, "Week of Manufacture"), t);
    var size;
    size, note := ComputeSize(Value(m, "Size"), t, inchText);
    var resolution := Value(m, "Current Resolution");
    var rate := ComputeDisplayRate(resolution, findAspect);
    resolution := AppendFrequency(resolution, Value(m, "Frequencies"), isValid);
    var primary := "No";
    if i < |xrandr| && ContainsIgnoringCase(xrandr[i], "primary") {
      primary := "Yes";
    }
    var connect := ComputeConnectType(i, xrandr, t.unknown);
    var articles := [Article("Name", name), Article("Vendor", vendor), Article("Serial Number", serial),
                 Article("Manufacture Date", date), Article(t.size, size),
                 Article("Resolution", resolution), Article("Display Rate", rate),
                 Article("Primary Monitor", primary), Article("Connect Type", connect),
                 Article("Support Resolution", Value(m, "Support Resolution"))];
    page := Device(name, articles);
  }

  /**
   * initWidget: one device page per hwinfo monitor, in order; the name/vendor
   * table only when there is more than one monitor; the overview describes the first monitor.
   */
  method DescribeMonitors(monitors: seq<AttributeMap>, xrandr: seq<string>, t: Texts,
                          isValid: Validity, findAspect: AspectFinder, inchText: InchFormatter)
    returns (devices: seq<Device>, tabs: seq<(string, string)>, overview: string)
    ensures |devices| == |monitors|
    ensures forall k :: 0 <= k < |monitors| ==> devices[k] == MonitorPage(monitors[k], k, xrandr, t, isValid, findAspect, inchText)
    ensures |monitors| <= 1 ==> tabs == []
    ensures |monitors| > 1 ==> |tabs| == |monitors| && forall k :: 0 <= k < |monitors| ==> tabs[k] == (MonitorName(monitors[k]), MonitorVendor(monitors[k]))
    ensures overview == if monitors == [] then "" else MonitorOverview(monitors[0], t, inchText)
  {
    // The loop needs only the contracts of DescribeMonitor, not the definitions behind them.
    hide *;
    devices, tabs, overview := [], [], "";
    var i := 0;
    while i < |monitors|
      invariant 0 <= i <= |monitors|
      invariant |devices| == i
      invariant forall k :: 0 <= k < i ==> devices[k] == MonitorPage(monitors[k], k, xrandr, t, isValid, findAspect, inchText)
      invariant |monitors| <= 1 ==> tabs == []
      invariant |monitors| > 1 ==> |tabs| == i && forall k :: 0 <= k < i ==> tabs[k] == (MonitorName(monitors[k]), MonitorVendor(monitors[k]))
      invariant overview == if i == 0 then "" else MonitorOverview(monitors[0], t, inchText)
    {
      var m := monitors[i];
      var page, vendor, note := DescribeMonitor(m, i, xrandr, t, isValid, findAspect, inchText);
      devices := devices + [page];
      if |monitors| > 1 {
        tabs := tabs + [(page.title, vendor)];
      }
      if i == 0 {
        overview := page.title;
        overview := overview + note;
      }
      i := i + 1;
    }
  }
}
