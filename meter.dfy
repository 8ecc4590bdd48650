/** The row-parsing half of `save_meter_reading_to_csv`: the unit rewrite
    `re.sub(r"(kWh|kW|kVARh)Saluran", r"\1", text)` and the rows of
    `re.finditer(r"(M\s+\S+)\s+(\d{1,3}(?:,\d{3})*)\s+(\d{1,3}(?:,\d{3})*)\s+(\d+)\s+(\w+)", text)`,
    each converted as the loop converts it. */
module Meter {
  import opened Lex
  import opened Scan
  import opened Blocks

  // ---------------------------------------------------------------------------
  // The unit rewrite.

  const Saluran := "Saluran"

  /** `re.sub(r"(kWh|kW|kVARh)Saluran", r"\1", s)`: the alternatives are tried in
      the written order at each position, and scanning resumes behind a
      replacement. */
  function Collapse(s: string): (r: string)
    ensures |r| <= |s|
    decreases |s|
  {
    if HasPrefix(s, "kWhSaluran") then "kWh" + Collapse(s[10..])
    else if HasPrefix(s, "kWSaluran") then "kW" + Collapse(s[9..])
    else if HasPrefix(s, "kVARhSaluran") then "kVARh" + Collapse(s[12..])
    else if s == [] then []
    else [s[0]] + Collapse(s[1..])
  }

  /** A prefix of length `n` that ends in `p` puts `p` inside the text. */
  lemma PrefixEndsIn(s: string, q: string, p: string)
    requires HasPrefix(s, q) && |p| <= |q| && q[|q| - |p|..] == p
    ensures Contains(s, p)
  {
    assert s[|q| - |p|..][..|p|] == q[|q| - |p|..];
    ContainsAt(s, |q| - |p|, p);
  }

  /** Text without "Saluran" passes the rewrite unchanged. */
  lemma {:induction false} NoSaluranUnchanged(s: string)
    requires !Contains(s, Saluran)
    ensures Collapse(s) == s
    decreases |s|
  {
    if HasPrefix(s, "kWhSaluran") {
      PrefixEndsIn(s, "kWhSaluran", Saluran);
    } else if HasPrefix(s, "kWSaluran") {
      PrefixEndsIn(s, "kWSaluran", Saluran);
    } else if HasPrefix(s, "kVARhSaluran") {
      PrefixEndsIn(s, "kVARhSaluran", Saluran);
    } else if s != [] {
      NoSaluranUnchanged(s[1..]);
      assert [s[0]] + s[1..] == s;
    }
  }

  /** A unit directly followed by "Saluran" loses the "Saluran". */
  lemma CollapseUnit(u: string, rest: string)
    requires u == "kWh" || u == "kW" || u == "kVARh"
    ensures Collapse(u + Saluran + rest) == u + Collapse(rest)
  {
    var s := u + Saluran + rest;
    assert s[|u| + 7..] == rest;
    if u == "kWh" {
      CollapseKWh(s);
    } else if u == "kW" {
      CollapseKW(s);
    } else {
      CollapseKVARh(s);
    }
  }

  lemma CollapseKWh(s: string)
    requires HasPrefix(s, "kWhSaluran")
    ensures Collapse(s) == "kWh" + Collapse(s[10..])
  {
  }

  lemma CollapseKW(s: string)
    requires HasPrefix(s, "kWSaluran")
    ensures Collapse(s) == "kW" + Collapse(s[9..])
  {
    assert s[2] == 'S';
  }

  lemma CollapseKVARh(s: string)
    requires HasPrefix(s, "kVARhSaluran")
    ensures Collapse(s) == "kVARh" + Collapse(s[12..])
  {
    assert s[1] == 'V';
  }

  // ---------------------------------------------------------------------------
  // Readings: `\d{1,3}(?:,\d{3})*`.

  /** A comma-grouped numeral: one to three leading digits, then groups of three. */
  datatype Numeral = Numeral(head: string, groups: seq<string>)

  predicate ValidNumeral(x: Numeral) {
    && 1 <= |x.head| <= 3 && All(x.head, IsDigit)
    && forall i :: 0 <= i < |x.groups| ==> |x.groups[i]| == 3 && All(x.groups[i], IsDigit)
  }

  function Commas(gs: seq<string>): string
    decreases |gs|
  {
    if gs == [] then "" else "," + gs[0] + Commas(gs[1..])
  }

  /** The text of a numeral. */
  function Render(x: Numeral): string {
    x.head + Commas(x.groups)
  }

  /** `(?:,\d{3})*` taken greedily. */
  function CommaGroups(t: string): (r: seq<string>)
    ensures forall i :: 0 <= i < |r| ==> |r[i]| == 3 && All(r[i], IsDigit)
    ensures 4 * |r| <= |t| && t[..4 * |r|] == Commas(r)
    decreases |t|
  {
    if |t| >= 4 && t[0] == ',' && All(t[1..4], IsDigit) then
      var rest := CommaGroups(t[4..]);
      var r := [t[1..4]] + rest;
      assert r[1..] == rest;
      assert t[..4 * |r|] == t[..4] + t[4..][..4 * |rest|];
      assert t[..4] == "," + t[1..4];
      r
    else []
  }

  /** A reading of the row pattern: `\d{1,3}(?:,\d{3})*` where the row pattern
      puts `\s+` behind it. Only the greedy choice can be followed by whitespace:
      fewer leading digits leave a digit next, fewer groups leave a comma next. So
      the reading exists exactly when the digit run is at most three long and the
      greedy groups are followed by whitespace. */
  function ReadingAt(s: string): (r: Option<Hit<Numeral>>)
    ensures r.Some? ==> ValidNumeral(r.value.value)
    ensures r.Some? ==> r.value.len == |Render(r.value.value)| < |s| && s[..r.value.len] == Render(r.value.value)
    ensures r.Some? ==> IsSpace(s[r.value.len])
  {
    var d := RunLen(s, IsDigit);
    if d == 0 || d > 3 then None
    else
      var gs := CommaGroups(s[d..]);
      var x := Numeral(s[..d], gs);
      var n := d + 4 * |gs|;
      assert s[..n] == s[..d] + s[d..][..4 * |gs|];
      if n < |s| && IsSpace(s[n]) then Some(Hit(n, x)) else None
  }

  /** The positional value of a numeral: each group of three is worth a thousandth
      of what stands left of it. */
  function Value(x: Numeral): nat
    requires ValidNumeral(x)
  {
    ValueFrom(DecimalValue(x.head), x.groups)
  }

  function ValueFrom(acc: nat, gs: seq<string>): nat
    requires forall i :: 0 <= i < |gs| ==> All(gs[i], IsDigit)
    decreases |gs|
  {
    if gs == [] then acc else ValueFrom(acc * 1000 + DecimalValue(gs[0]), gs[1..])
  }

  /** What is left of digits and commas once the commas are removed is digits. */
  lemma DigitsLeft(p: string)
    requires All(p, IsDigitOrComma)
    ensures All(Remove(p, ','), IsDigit)
  {
    var r := Remove(p, ',');
    forall i | 0 <= i < |r| ensures IsDigit(r[i]) {
      assert r[i] in r;
      var j :| 0 <= j < |p| && p[j] == r[i];
      assert IsDigitOrComma(p[j]);
    }
  }

  lemma NoCommaIn(g: string)
    requires All(g, IsDigit)
    ensures Remove(g, ',') == g
  {
    assert ',' !in g by {
      forall i | 0 <= i < |g| ensures g[i] != ',' {
        assert IsDigit(g[i]);
      }
    }
  }

  /** A group of three digits, read behind digits `a`, multiplies `a`'s value by a
      thousand. */
  lemma AppendGroup(a: string, g: string)
    requires All(a, IsDigit) && |g| == 3 && All(g, IsDigit)
    ensures All(a + g, IsDigit)
    ensures DecimalValue(a + g) == DecimalValue(a) * 1000 + DecimalValue(g)
  {
    DecimalValueConcat(a, g);
    assert Pow10(3) == 1000;
  }

  /** The groups written one after another. */
  function Concat(gs: seq<string>): string
    decreases |gs|
  {
    if gs == [] then "" else gs[0] + Concat(gs[1..])
  }

  /** Removing the commas of digits-and-commas followed by groups reads the groups
      onto the value of what stands in front of them. */
  lemma RemoveCommasValue(p: string, gs: seq<string>)
    requires All(p, IsDigitOrComma)
    requires forall i :: 0 <= i < |gs| ==> |gs[i]| == 3 && All(gs[i], IsDigit)
    ensures All(Remove(p, ','), IsDigit) && All(Remove(p + Commas(gs), ','), IsDigit)
    ensures DecimalValue(Remove(p + Commas(gs), ',')) == ValueFrom(DecimalValue(Remove(p, ',')), gs)
  {
    DigitsLeft(p);
    RemoveCommas(p, gs);
    ReadGroups(Remove(p, ','), gs);
  }

  /** The commas go and the groups stay. */
  lemma RemoveCommas(p: string, gs: seq<string>)
    requires forall i :: 0 <= i < |gs| ==> All(gs[i], IsDigit)
    ensures Remove(p + Commas(gs), ',') == Remove(p, ',') + Concat(gs)
  {
    RemoveConcat(p, Commas(gs), ',');
    CommasRemoved(gs);
  }

  lemma {:induction false} CommasRemoved(gs: seq<string>)
    requires forall i :: 0 <= i < |gs| ==> All(gs[i], IsDigit)
    ensures Remove(Commas(gs), ',') == Concat(gs)
    decreases |gs|
  {
    if gs != [] {
      var g := gs[0];
      var rest := gs[1..];
      assert Commas(gs) == ("," + g) + Commas(rest);
      assert Remove("," + g, ',') == g by {
        RemoveConcat(",", g, ',');
        NoCommaIn(g);
        assert Remove(",", ',') == [];
      }
      RemoveConcat("," + g, Commas(rest), ',');
      CommasRemoved(rest);
    }
  }

  /** Digits followed by groups of three have the positional value of the groups read
      onto the digits' value. */
  lemma {:induction false} ReadGroups(d: string, gs: seq<string>)
    requires All(d, IsDigit)
    requires forall i :: 0 <= i < |gs| ==> |gs[i]| == 3 && All(gs[i], IsDigit)
    ensures All(d + Concat(gs), IsDigit)
    ensures DecimalValue(d + Concat(gs)) == ValueFrom(DecimalValue(d), gs)
    decreases |gs|
  {
    if gs == [] {
      assert d + Concat(gs) == d;
    } else {
      var g := gs[0];
      var rest := gs[1..];
      assert d + Concat(gs) == (d + g) + Concat(rest);
      AppendGroup(d, g);
      ValueFromStep(DecimalValue(d), gs);
      ReadGroups(d + g, rest);
    }
  }

  /** One group read onto the value in front of it. */
  lemma ValueFromStep(acc: nat, gs: seq<string>)
    requires |gs| > 0 && forall i :: 0 <= i < |gs| ==> All(gs[i], IsDigit)
    ensures ValueFrom(acc, gs) == ValueFrom(acc * 1000 + DecimalValue(gs[0]), gs[1..])
  {
  }

  /** `int(reading.replace(",", ""))` is the positional value of the numeral. */
  lemma NumeralValue(x: Numeral)
    requires ValidNumeral(x)
    ensures All(Remove(Render(x), ','), IsDigit)
    ensures DecimalValue(Remove(Render(x), ',')) == Value(x)
  {
    assert ',' !in x.head by {
      forall i | 0 <= i < |x.head| ensures x.head[i] != ',' {
        assert IsDigit(x.head[i]);
      }
    }
    assert All(x.head, IsDigitOrComma) by {
      forall i | 0 <= i < |x.head| ensures IsDigitOrComma(x.head[i]) {
        assert IsDigit(x.head[i]);
      }
    }
    RemoveCommasValue(x.head, x.groups);
  }

  /** "12,345" is read as 12345 and "1,234,567" as 1234567. */
  lemma GroupedExamples()
    ensures Value(Numeral("12", ["345"])) == 12345
    ensures Value(Numeral("1", ["234", "567"])) == 1234567
    ensures Render(Numeral("1", ["234", "567"])) == "1,234,567"
  {
    assert "12"[..1] == "1" && "1"[..0] == [];
    assert DecimalValue("12") == 12;
    assert "345"[..2] == "34" && "34"[..1] == "3" && "3"[..0] == [];
    assert DecimalValue("345") == 345;
    assert ["345"][1..] == [];
    assert DecimalValue("1") == 1;
    assert "234"[..2] == "23" && "23"[..1] == "2" && "2"[..0] == [];
    assert DecimalValue("234") == 234;
    assert "567"[..2] == "56" && "56"[..1] == "5" && "5"[..0] == [];
    assert DecimalValue("567") == 567;
    assert ["234", "567"][1..] == ["567"] && ["567"][1..] == [];
  }

  // ---------------------------------------------------------------------------
  // Rows.

  /** The five groups of one match. */
  datatype RawRow = RawRow(id: string, previous: Numeral, current: Numeral, usage: string, unit: string)

  /** One parsed row: `[meter_number, prev_reading, curr_reading, usage, unit]`. */
  datatype MeterRow = MeterRow(meterNumber: string, previousReading: nat, currentReading: nat, usage: nat, unit: string)

  /** `M\s+\S+`: "M", whitespace, then a run of non-whitespace. */
  predicate IsMeterId(id: string) {
    |id| >= 3 && id[0] == 'M' && exists w :: 2 <= w < |id| && All(id[1..w], IsSpace) && All(id[w..], IsNonSpace)
  }

  predicate ValidRaw(r: RawRow) {
    && IsMeterId(r.id)
    && ValidNumeral(r.previous) && ValidNumeral(r.current)
    && |r.usage| > 0 && All(r.usage, IsDigit)
    && |r.unit| > 0 && All(r.unit, IsWordChar)
  }

  /** `M\s+\S+` where the row pattern puts `\s+` behind it: the length of the id. */
  function MeterIdAt(t: string): (r: Option<nat>)
    ensures r.Some? ==> r.value < |t| && IsMeterId(t[..r.value]) && IsSpace(t[r.value])
  {
    if |t| == 0 || t[0] != 'M' then None
    else
      var w := RunLen(t[1..], IsSpace);
      var i := 1 + w;
      var n := RunLen(t[i..], IsNonSpace);
      var j := i + n;
      if w == 0 || n == 0 || j == |t| then None
      else
        assert t[..j][1..i] == t[1..][..w];
        assert t[..j][i..] == t[i..][..n];
        Some(j)
  }

  /** `(\d+)\s+(\w+)`, the end of the row pattern. */
  function UsageUnitAt(t: string): (r: Option<Hit<(string, string)>>)
    ensures r.Some? ==> 0 < r.value.len <= |t|
    ensures r.Some? ==> var (usage, unit) := r.value.value; |usage| > 0 && All(usage, IsDigit) && |unit| > 0 && All(unit, IsWordChar)
  {
    var u := RunLen(t, IsDigit);
    var w := RunLen(t[u..], IsSpace);
    var k := u + w;
    var v := RunLen(t[k..], IsWordChar);
    if u == 0 || w == 0 || v == 0 then None
    else
      assert t[k..k + v] == t[k..][..v];
      Some(Hit(k + v, (t[..u], t[k..k + v])))
  }

  /** The position behind a whitespace run. */
  function SkipSpace(t: string, k: nat): (r: nat)
    requires k <= |t|
    ensures k <= r <= |t|
  {
    k + RunLen(t[k..], IsSpace)
  }

  /** The row pattern at the start of `t`. Every greedy run is followed by a
      character its own class excludes and the pattern demands there (whitespace
      after `\S+` and the digit runs, a non-space after each `\s+`), so no shorter
      run can let the match succeed: each run is taken whole, and `\w+`, which ends
      the pattern, is taken whole as the first success. */
  function RowMatch(t: string): (r: Option<Hit<RawRow>>)
    ensures r.Some? ==> 0 < r.value.len <= |t| && ValidRaw(r.value.value)
    ensures r.Some? ==> t[0] == 'M'
  {
    match MeterIdAt(t)
    case None => None
    case Some(j) =>
      var k := SkipSpace(t, j);
      match ReadingsAt(t[k..])
      case None => None
      case Some(rs) =>
        var k2 := SkipSpace(t, k + rs.len);
        match UsageUnitAt(t[k2..])
        case None => None
        case Some(tail) =>
          Some(Hit(k2 + tail.len, RawRow(t[..j], rs.value.0, rs.value.1, tail.value.0, tail.value.1)))
  }

  /** `(\d{1,3}(?:,\d{3})*)\s+(\d{1,3}(?:,\d{3})*)`, the two readings of a row. */
  function ReadingsAt(u: string): (r: Option<Hit<(Numeral, Numeral)>>)
    ensures r.Some? ==> r.value.len <= |u| && ValidNumeral(r.value.value.0) && ValidNumeral(r.value.value.1)
  {
    match ReadingAt(u)
    case None => None
    case Some(prev) =>
      var k := SkipSpace(u, prev.len);
      match ReadingAt(u[k..])
      case None => None
      case Some(curr) => Some(Hit(k + curr.len, (prev.value, curr.value)))
  }

  lemma RowMatchConsumes()
    ensures Consumes(RowMatch)
  {
  }

  /** The matches of the row pattern in the rewritten text, in text order. */
  function RowMatches(meterReadingText: string): (r: seq<RawRow>)
    ensures AllValid(r)
  {
    RowMatchConsumes();
    FindAllEvery(Collapse(meterReadingText), RowMatch, ValidRaw);
    FindAll(Collapse(meterReadingText), RowMatch)
  }

  /** `strip()` leaves a text alone that neither starts nor ends with whitespace. */
  lemma StripUntouched(s: string)
    requires |s| > 0 && !IsSpace(s[0]) && !IsSpace(s[|s| - 1])
    ensures Strip(s) == s
  {
    assert s[0..] == s;
    assert s[..|s|] == s;
  }

  /** A meter id neither starts nor ends with whitespace. */
  lemma IdStripped(id: string)
    requires IsMeterId(id)
    ensures Strip(id) == id
  {
    var w :| 2 <= w < |id| && All(id[1..w], IsSpace) && All(id[w..], IsNonSpace);
    assert id[|id| - 1] == id[w..][|id| - 1 - w];
    StripUntouched(id);
  }

  /** The loop body's conversion of one match: the meter number and the unit
      stripped, the readings with commas removed and read as integers, the usage
      read as an integer. Stripping changes neither, and each reading is the
      positional value of its groups. */
  function ToRow(r: RawRow): (row: MeterRow)
    requires ValidRaw(r)
    ensures row.meterNumber == r.id && row.unit == r.unit
    ensures row.previousReading == Value(r.previous) && row.currentReading == Value(r.current)
    ensures row.usage == DecimalValue(r.usage)
  {
    IdStripped(r.id);
    StripUntouched(r.unit);
    NumeralValue(r.previous);
    NumeralValue(r.current);
    MeterRow(Strip(r.id), DecimalValue(Remove(Render(r.previous), ',')), DecimalValue(Remove(Render(r.current), ',')),
             DecimalValue(r.usage), Strip(r.unit))
  }

  /** Every match has the shape the row pattern guarantees. */
  predicate AllValid(ms: seq<RawRow>) {
    forall k :: 0 <= k < |ms| ==> ValidRaw(ms[k])
  }

  lemma ValidPrefix(ms: seq<RawRow>, i: nat)
    requires AllValid(ms) && i <= |ms|
    ensures AllValid(ms[..i])
  {
    assert forall k :: 0 <= k < i ==> ms[..i][k] == ms[k];
  }

  /** The matches converted one by one, in order. */
  function ToRows(ms: seq<RawRow>): (rows: seq<MeterRow>)
    requires AllValid(ms)
    ensures |rows| == |ms|
    decreases |ms|
  {
    if ms == [] then []
    else
      ValidPrefix(ms, |ms| - 1);
      ToRows(ms[..|ms| - 1]) + [ToRow(ms[|ms| - 1])]
  }

  /** Row k is the conversion of match k. */
  lemma {:induction false} ToRowsAt(ms: seq<RawRow>, k: nat)
    requires AllValid(ms) && k < |ms|
    ensures ToRows(ms)[k] == ToRow(ms[k])
    decreases |ms|
  {
    var front := ms[..|ms| - 1];
    ValidPrefix(ms, |ms| - 1);
    if k < |ms| - 1 {
      ToRowsAt(front, k);
      assert ToRows(ms)[k] == ToRows(front)[k];
    }
  }

  /** Converting one more match appends its row. */
  lemma ToRowsSnoc(ms: seq<RawRow>, i: nat)
    requires AllValid(ms) && i < |ms|
    ensures AllValid(ms[..i]) && AllValid(ms[..i + 1]) && ValidRaw(ms[i])
    ensures ToRows(ms[..i + 1]) == ToRows(ms[..i]) + [ToRow(ms[i])]
  {
    ValidPrefix(ms, i);
    ValidPrefix(ms, i + 1);
    assert ms[..i + 1][..i] == ms[..i];
  }

  /** The row parsing of `save_meter_reading_to_csv`: one row per match, in text
      order (the CSV write is left out). */
  method SaveMeterReadingRows(meterReadingText: string) returns (rows: seq<MeterRow>)
    ensures rows == ToRows(RowMatches(meterReadingText))
  {
    var matches := RowMatches(meterReadingText);
    ValidPrefix(matches, 0);
    rows := [];
    for i := 0 to |matches|
      invariant AllValid(matches[..i])
      invariant rows == ToRows(matches[..i])
    {
      ToRowsSnoc(matches, i);
      rows := rows + [ToRow(matches[i])];
    }
    assert matches[..|matches|] == matches;
  }

  /** The rows are the matches, converted, in text order. */
  lemma RowsInOrder(meterReadingText: string, k: nat)
    requires k < |RowMatches(meterReadingText)|
    ensures |ToRows(RowMatches(meterReadingText))| == |RowMatches(meterReadingText)|
    ensures ToRows(RowMatches(meterReadingText))[k] == ToRow(RowMatches(meterReadingText)[k])
  {
    ToRowsAt(RowMatches(meterReadingText), k);
  }

  /** The meter block's sentinel holds no capital letter. */
  lemma SentinelLower(c: char)
    requires IsUpper(c)
    ensures c !in NoMeterSection
  {
    var a, b, e := "no matching ", "charges ", "section found.";
    assert NoMeterSection == a + b + e;
    assert c !in a;
    assert c !in b;
    assert c !in e;
  }

  /** A text without "M" and "S" yields no rows: nothing is rewritten and no match
      can start. */
  lemma {:induction false} NoRowsWithoutM(s: string)
    requires 'M' !in s && 'S' !in s
    ensures RowMatches(s) == []
  {
    FirstCharMissing(s, Saluran);
    NoSaluranUnchanged(s);
    forall i | 0 <= i <= |s| ensures RowMatch(s[i..]).None? {
      if i < |s| {
        assert s[i..][0] == s[i];
      }
    }
    RowMatchConsumes();
    FindAllNone(s, RowMatch);
  }

  /** The meter block's sentinel yields no rows. */
  lemma SentinelNoRows()
    ensures RowMatches(NoMeterSection) == []
  {
    SentinelLower('S');
    SentinelLower('M');
    NoRowsWithoutM(NoMeterSection);
  }

  /** A bill without a meter block yields no meter rows. */
  lemma NoBlockNoRows(text: string)
    ensures !HasBlock(text, MeterStart, MeterEnd) ==> RowMatches(MeterReadingBlock(text)) == []
  {
    SentinelNoRows();
  }
}
