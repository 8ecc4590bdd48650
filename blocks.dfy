/** Block isolation: `re.search(start + ".*?" + end, text, re.DOTALL)` for a literal
    start marker and one of the end markers the bill variants use. */
module Blocks {
  import opened Lex
  import opened Scan

  const CurrentChargeLead := "Caj Semasa RM "

  /** `\d+\s?<phrase>` with `d` digits or fewer: Python tries the longest digit run
      first, with one whitespace character before the phrase and then without one.
      The descent to shorter runs mirrors that backtracking order; with the phrases
      used here, all of which begin with a non-digit, a shorter run leaves a digit
      where the whitespace or the phrase must be, so only the full run can match. */
  function DigitsThenLen(s: string, d: nat, phrase: string): (r: Option<nat>)
    requires d <= RunLen(s, IsDigit)
    ensures r.Some? ==> |phrase| <= r.value <= |s| && HasPrefix(s[r.value - |phrase|..], phrase)
    decreases d
  {
    if d == 0 then None
    else if d < |s| && IsSpace(s[d]) && HasPrefix(s[d + 1..], phrase) then Some(d + 1 + |phrase|)
    else if HasPrefix(s[d..], phrase) then Some(d + |phrase|)
    else DigitsThenLen(s, d - 1, phrase)
  }

  /** `Caj Semasa RM \d+\.\d{2}` at the start of `s`. A shorter digit run would leave
      a digit where the `.` must be, so only the longest run can succeed. */
  function AmountEnd(s: string): (r: Option<nat>)
    ensures r.Some? ==> r.value <= |s|
  {
    if !HasPrefix(s, CurrentChargeLead) then None
    else
      var t := s[|CurrentChargeLead|..];
      var d := RunLen(t, IsDigit);
      if 0 < d && d + 3 <= |t| && t[d] == '.' && IsDigit(t[d + 1]) && IsDigit(t[d + 2])
      then Some(|CurrentChargeLead| + d + 3)
      else None
  }

  /** `\s*<phrase>` at the start of `s`. For a phrase that does not begin with
      whitespace a shorter whitespace run would leave whitespace where the phrase
      must begin, so only the longest run can succeed. */
  function SpacesThenLen(s: string, phrase: string): (r: Option<nat>)
    ensures r.Some? ==> r.value <= |s|
  {
    var w := RunLen(s, IsSpace);
    if HasPrefix(s[w..], phrase) then Some(w + |phrase|) else None
  }

  /** `\d+\s?<phrase>` at the start of `s`. */
  function DigitsThen(phrase: string, s: string): (r: Option<nat>)
    ensures r.Some? ==> |phrase| <= r.value <= |s| && HasPrefix(s[r.value - |phrase|..], phrase)
  {
    DigitsThenLen(s, RunLen(s, IsDigit), phrase)
  }

  /** `kVARh` at the start of `s`: found exactly where the phrase begins, and then the
      phrase's five characters are the marker. */
  function KVARhEnd(s: string): (r: Option<nat>)
    ensures r.Some? <==> HasPrefix(s, "kVARh")
    ensures r.Some? ==> r.value == |"kVARh"| <= |s|
  {
    if HasPrefix(s, "kVARh") then Some(5) else None
  }

  /** `\d+\s?Purata Caj Bulanan` (app-version-dropdown-menu/app.py, pro16.py) */
  function AverageEnd(s: string): (r: Option<nat>)
    ensures r.Some? ==> r.value <= |s|
  {
    DigitsThen("Purata Caj Bulanan", s)
  }

  /** `\d+\s?Purata Caj Bulanan &` (app.py, pro5.py) */
  function AverageAmpEnd(s: string): (r: Option<nat>)
    ensures r.Some? ==> r.value <= |s|
  {
    DigitsThen("Purata Caj Bulanan &", s)
  }

  /** `\d+\s?kWh` (pro7.py) */
  function KWhEnd(s: string): (r: Option<nat>)
    ensures r.Some? ==> r.value <= |s|
  {
    DigitsThen("kWh", s)
  }

  /** `\s*PERBANKAN INTERNET`; it matches wherever the phrase itself begins. */
  function MeterEnd(s: string): (r: Option<nat>)
    ensures r.Some? ==> r.value <= |s|
    ensures HasPrefix(s, "PERBANKAN INTERNET") ==> r == Some(18)
  {
    SpacesThenLen(s, "PERBANKAN INTERNET")
  }

  /** An end recogniser gives the length of the end marker matched at the start of
      the string it is given, and never reaches past it. */
  ghost predicate Bounded(m: string -> Option<nat>) {
    forall t :: m(t).Some? ==> m(t).value <= |t|
  }

  lemma EndsBounded()
    ensures Bounded(AverageEnd) && Bounded(AverageAmpEnd) && Bounded(KWhEnd)
    ensures Bounded(KVARhEnd) && Bounded(AmountEnd) && Bounded(MeterEnd)
  {
  }

  /** A string that begins with `p` differs from any string beginning otherwise. */
  lemma StartsOtherwise(b: string, p: string, q: string)
    requires HasPrefix(b, p) && |p| > 0 && |q| > 0 && p[0] != q[0]
    ensures b != q
  {
    assert b[0] == b[..|p|][0];
  }

  /** Where an isolated block sits in the text: `text[start .. endAt + endLen]`, the end
      marker being `text[endAt .. endAt + endLen]`. */
  datatype Span = Span(start: nat, endAt: nat, endLen: nat)

  /** The lazy `.*?`: the first position from `from` on where the end marker matches. */
  function FirstEnd(text: string, m: string -> Option<nat>, from: nat): (r: Option<nat>)
    requires from <= |text|
    ensures r.Some? ==> from <= r.value <= |text| && m(text[r.value..]).Some?
    ensures r.Some? ==> forall k :: from <= k < r.value ==> m(text[k..]).None?
    ensures r.None? ==> forall k :: from <= k <= |text| ==> m(text[k..]).None?
    decreases |text| - from
  {
    if m(text[from..]).Some? then Some(from)
    else if from == |text| then None
    else FirstEnd(text, m, from + 1)
  }

  /** Some occurrence of `start` is followed, at or after its end, by a match of `e`. */
  ghost predicate HasBlock(text: string, start: string, m: string -> Option<nat>) {
    exists i: nat, k: nat :: HasAt(text, i, start) && i + |start| <= k <= |text| && m(text[k..]).Some?
  }

  /** `sp` starts at the first occurrence of `start` and its end marker is the first
      match of `e` behind that occurrence. */
  ghost predicate IsFirstSpan(text: string, start: string, m: string -> Option<nat>, sp: Span) {
    && HasAt(text, sp.start, start)
    && (forall j :: 0 <= j < sp.start ==> !HasAt(text, j, start))
    && sp.start + |start| <= sp.endAt <= sp.endAt + sp.endLen <= |text|
    && m(text[sp.endAt..]) == Some(sp.endLen)
    && (forall k :: sp.start + |start| <= k < sp.endAt ==> m(text[k..]).None?)
  }

  /** The search proper, trying start positions from `i` on. */
  function SearchSpan(text: string, start: string, m: string -> Option<nat>, i: nat): (r: Option<Span>)
    requires i <= |text|
    ensures r.Some? ==> i <= r.value.start && HasAt(text, r.value.start, start)
    ensures r.Some? ==> forall j :: i <= j < r.value.start ==> !HasAt(text, j, start)
    ensures r.Some? ==> r.value.start + |start| <= r.value.endAt <= |text|
    ensures r.Some? ==> m(text[r.value.endAt..]) == Some(r.value.endLen)
    ensures r.Some? ==> forall k :: r.value.start + |start| <= k < r.value.endAt ==> m(text[k..]).None?
    ensures r.None? ==> forall j, k :: i <= j && HasAt(text, j, start) && j + |start| <= k <= |text| ==> m(text[k..]).None?
    decreases |text| - i
  {
    if HasAt(text, i, start) && FirstEnd(text, m, i + |start|).Some? then
      var k := FirstEnd(text, m, i + |start|).value;
      Some(Span(i, k, m(text[k..]).value))
    else if i == |text| then None
    else SearchSpan(text, start, m, i + 1)
  }

  /** `re.search(start.*?end, text, re.DOTALL)`, as a position: found exactly when some
      region is bounded by the markers, and then the first start occurrence with the
      first end marker behind it. */
  function Locate(text: string, start: string, m: string -> Option<nat>): (r: Option<Span>)
    requires Bounded(m)
    ensures r.None? <==> !HasBlock(text, start, m)
    ensures r.Some? ==> IsFirstSpan(text, start, m, r.value)
  {
    SearchSpan(text, start, m, 0)
  }

  /** `b` is the block the search returns: from the first occurrence of the start
      marker through the first end marker behind it. */
  ghost predicate IsFirstBlock(text: string, start: string, m: string -> Option<nat>, b: string) {
    exists sp :: IsFirstSpan(text, start, m, sp) && b == text[sp.start..sp.endAt + sp.endLen]
  }

  /** The matched block, or None: `match.group()` or the `None` of pro7.py. */
  function FindBlock(text: string, start: string, m: string -> Option<nat>): (r: Option<string>)
    requires Bounded(m)
    ensures r.None? <==> !HasBlock(text, start, m)
    ensures r.Some? ==> IsFirstBlock(text, start, m, r.value)
    ensures r.Some? ==> HasPrefix(r.value, start) && Contains(text, r.value)
  {
    match Locate(text, start, m)
    case None => None
    case Some(sp) =>
      var b := text[sp.start..sp.endAt + sp.endLen];
      assert b[..|start|] == text[sp.start..][..|start|];
      assert HasAt(text, sp.start, b) by {
        assert text[sp.start..][..|b|] == b;
      }
      ContainsAt(text, sp.start, b);
      Some(b)
  }

  /** The text strictly between the markers of the first block. */
  ghost predicate IsFirstInner(text: string, start: string, m: string -> Option<nat>, r: string) {
    exists sp :: IsFirstSpan(text, start, m, sp) && r == text[sp.start + |start|..sp.endAt]
  }

  /** `match.group(1)` of `start(.*?)end`: the text between the markers. */
  function FindInner(text: string, start: string, m: string -> Option<nat>): (r: Option<string>)
    requires Bounded(m)
    ensures r.None? <==> !HasBlock(text, start, m)
    ensures r.Some? ==> IsFirstInner(text, start, m, r.value)
  {
    match Locate(text, start, m)
    case None => None
    case Some(sp) => Some(text[sp.start + |start|..sp.endAt])
  }

  /** Two spans that are both first spans are the same span: IsFirstSpan pins down
      the search result. */
  lemma FirstSpanUnique(text: string, start: string, m: string -> Option<nat>, a: Span, b: Span)
    requires IsFirstSpan(text, start, m, a) && IsFirstSpan(text, start, m, b)
    ensures a == b
  {
  }

  /** A block ends with the end marker's match: its last characters are those the
      end pattern took from some string. */
  lemma BlockTail(text: string, start: string, m: string -> Option<nat>, b: string)
    requires IsFirstBlock(text, start, m, b)
    ensures exists y: string, n: nat :: m(y) == Some(n) && n <= |b| && n <= |y| && b[|b| - n..] == y[..n]
  {
    var sp :| IsFirstSpan(text, start, m, sp) && b == text[sp.start..sp.endAt + sp.endLen];
    var y := text[sp.endAt..];
    assert b[|b| - sp.endLen..] == y[..sp.endLen];
  }

  /** A phrase absent from a text is absent from each of its suffixes. */
  lemma {:induction false} AbsentFromSuffix(s: string, k: nat, p: string)
    requires k <= |s| && !Contains(s, p)
    ensures !Contains(s[k..], p)
    decreases k
  {
    if k == 0 {
      assert s[0..] == s;
    } else {
      assert s[1..][k - 1..] == s[k..];
      AbsentFromSuffix(s[1..], k - 1, p);
    }
  }

  /** No block is found unless the text contains a phrase that every match of the
      end marker contains. */
  lemma {:induction false} EndNeedsPhrase(text: string, start: string, m: string -> Option<nat>, phrase: string)
    requires forall t :: m(t).Some? ==> Contains(t, phrase)
    requires !Contains(text, phrase)
    ensures !HasBlock(text, start, m)
  {
    forall k: nat | k <= |text| ensures m(text[k..]).None? {
      AbsentFromSuffix(text, k, phrase);
    }
  }

  /** A match of `\d+\s?<phrase>` contains the phrase. */
  lemma {:induction false} DigitsThenContains(phrase: string, t: string)
    ensures DigitsThen(phrase, t).Some? ==> Contains(t, phrase)
  {
    var r := DigitsThen(phrase, t);
    if r.Some? {
      assert t[r.value - |phrase|..][..|phrase|] == t[r.value - |phrase|..r.value];
      ContainsAt(t, r.value - |phrase|, phrase);
    }
  }

  // ---------------------------------------------------------------------------
  // The variants' markers and "not found" sentinels.

  const MonthlyStart := "Caj Elektrik Anda Bagi Tempoh 6 Bulan"
  const DetailedStart := "Keterangan Tanpa ST Dengan ST Jumlah"
  const MeterStart := "Maklumat Meter"

  const NoChargesSection := "No matching charges section found."
  const NoDetailedSection := "No matching detailed charges section found."
  const NoMeterSection := "no matching " + "charges " + "section found."

  /** `extract_monthly_charges_block` of app-version-dropdown-menu/app.py and pro16.py:
      the sentinel exactly when no region is bounded by the markers, otherwise the
      first such region. A found block never reads as the sentinel, since it starts
      with the start marker. */
  function MonthlyChargesBlock(text: string): (r: string)
    ensures r == NoChargesSection <==> !HasBlock(text, MonthlyStart, AverageEnd)
    ensures r != NoChargesSection ==> IsFirstBlock(text, MonthlyStart, AverageEnd, r) && HasPrefix(r, MonthlyStart)
  {
    EndsBounded();
    match FindBlock(text, MonthlyStart, AverageEnd)
    case None => NoChargesSection
    case Some(b) => StartsOtherwise(b, MonthlyStart, NoChargesSection); b
  }

  /** `extract_monthly_charges_block` of app.py and pro5.py, whose end marker requires
      the ` &` after "Purata Caj Bulanan". */
  function MonthlyChargesBlockAmp(text: string): (r: string)
    ensures r == NoChargesSection <==> !HasBlock(text, MonthlyStart, AverageAmpEnd)
    ensures r != NoChargesSection ==> IsFirstBlock(text, MonthlyStart, AverageAmpEnd, r) && HasPrefix(r, MonthlyStart)
  {
    EndsBounded();
    match FindBlock(text, MonthlyStart, AverageAmpEnd)
    case None => NoChargesSection
    case Some(b) => StartsOtherwise(b, MonthlyStart, NoChargesSection); b
  }

  /** A bill without "Purata Caj Bulanan &" anywhere gets the sentinel from the
      app.py / pro5.py extractor, even if "Purata Caj Bulanan" alone is present. */
  lemma AmpEndRequired(text: string)
    requires !Contains(text, "Purata Caj Bulanan &")
    ensures MonthlyChargesBlockAmp(text) == NoChargesSection
  {
    forall t ensures AverageAmpEnd(t).Some? ==> Contains(t, "Purata Caj Bulanan &") {
      DigitsThenContains("Purata Caj Bulanan &", t);
    }
    EndNeedsPhrase(text, MonthlyStart, AverageAmpEnd, "Purata Caj Bulanan &");
  }

  /** `extract_detailed_charges_block` (the search; writing the block to a file is
      left out). */
  function DetailedChargesBlock(text: string): (r: string)
    ensures r == NoDetailedSection <==> !HasBlock(text, DetailedStart, AmountEnd)
    ensures r != NoDetailedSection ==> IsFirstBlock(text, DetailedStart, AmountEnd, r) && HasPrefix(r, DetailedStart)
  {
    EndsBounded();
    match FindBlock(text, DetailedStart, AmountEnd)
    case None => NoDetailedSection
    case Some(b) => StartsOtherwise(b, DetailedStart, NoDetailedSection); b
  }

  /** pro7.py `extract_monthly_charges_block`: None when absent. */
  function MonthlyChargesBlockKWh(text: string): (r: Option<string>)
    ensures r.None? <==> !HasBlock(text, MonthlyStart, KWhEnd)
    ensures r.Some? ==> IsFirstBlock(text, MonthlyStart, KWhEnd, r.value)
    ensures r.Some? ==> HasPrefix(r.value, MonthlyStart) && Contains(text, r.value)
  {
    EndsBounded();
    FindBlock(text, MonthlyStart, KWhEnd)
  }

  /** pro7.py `extract_bill_details_block`: None when absent. */
  function BillDetailsBlock(text: string): (r: Option<string>)
    ensures r.None? <==> !HasBlock(text, DetailedStart, KVARhEnd)
    ensures r.Some? ==> IsFirstBlock(text, DetailedStart, KVARhEnd, r.value)
    ensures r.Some? ==> HasPrefix(r.value, DetailedStart) && Contains(text, r.value)
  {
    EndsBounded();
    FindBlock(text, DetailedStart, KVARhEnd)
  }

  /** Behind the start marker, "kVARh" occurs in the bill-details block only as its
      last five characters. */
  lemma BillDetailsEndsAtFirstKVARh(text: string, b: string)
    requires IsFirstBlock(text, DetailedStart, KVARhEnd, b)
    ensures |b| >= |DetailedStart| + 5 && HasAt(b, |b| - 5, "kVARh")
    ensures forall j :: |DetailedStart| <= j <= |b| - 5 && HasAt(b, j, "kVARh") ==> j == |b| - 5
  {
    KVARhAtPhrase();
    PhraseEndedBlock(text, DetailedStart, KVARhEnd, b, "kVARh");
  }

  /** The end marker matches exactly where "kVARh" begins, taking five characters. */
  lemma KVARhAtPhrase()
    ensures forall t :: KVARhEnd(t).Some? <==> HasPrefix(t, "kVARh")
    ensures forall t :: KVARhEnd(t).Some? ==> KVARhEnd(t).value == 5
  {
  }

  /** A block whose end marker is exactly a phrase ends in it, and behind the start
      marker holds it nowhere else. */
  lemma PhraseEndedBlock(text: string, start: string, m: string -> Option<nat>, b: string, phrase: string)
    requires IsFirstBlock(text, start, m, b)
    requires forall t :: m(t).Some? <==> HasPrefix(t, phrase)
    requires forall t :: m(t).Some? ==> m(t).value == |phrase|
    ensures |b| >= |start| + |phrase| && HasAt(b, |b| - |phrase|, phrase)
    ensures forall j :: |start| <= j <= |b| - |phrase| && HasAt(b, j, phrase) ==> j == |b| - |phrase|
  {
    var sp :| IsFirstSpan(text, start, m, sp) && b == text[sp.start..sp.endAt + sp.endLen];
    assert m(text[sp.endAt..]) == Some(sp.endLen);
    EndsWithPhrase(text, start, m, sp, b, phrase);
    OccursOnlyFromEnd(text, start, m, sp, b, phrase);
  }

  /** A block whose end marker took exactly a phrase ends in that phrase. */
  lemma EndsWithPhrase(text: string, start: string, m: string -> Option<nat>, sp: Span, b: string, phrase: string)
    requires IsFirstSpan(text, start, m, sp) && b == text[sp.start..sp.endAt + sp.endLen]
    requires sp.endLen == |phrase| && HasPrefix(text[sp.endAt..], phrase)
    ensures |b| == sp.endAt - sp.start + |phrase| && HasAt(b, |b| - |phrase|, phrase)
  {
    assert b[|b| - |phrase|..][..|phrase|] == text[sp.endAt..][..|phrase|];
  }

  /** A phrase at which the end marker always matches occurs in a block, behind the
      start marker, only from the end marker's position on. */
  lemma OccursOnlyFromEnd(text: string, start: string, m: string -> Option<nat>, sp: Span, b: string, phrase: string)
    requires IsFirstSpan(text, start, m, sp) && b == text[sp.start..sp.endAt + sp.endLen]
    requires forall t :: HasPrefix(t, phrase) ==> m(t).Some?
    ensures forall j :: |start| <= j && HasAt(b, j, phrase) ==> sp.endAt - sp.start <= j
  {
    forall j | |start| <= j && HasAt(b, j, phrase) ensures sp.endAt - sp.start <= j {
      assert b[j..][..|phrase|] == text[sp.start + j..][..|phrase|];
      assert m(text[sp.start + j..]).Some?;
    }
  }

  /** pro7.py's route: a missing (or empty) block is shown as a fixed message. */
  function OrFallback(block: Option<string>, fallback: string): (r: string)
    ensures block.Some? && block.value != "" ==> r == block.value
    ensures block.None? || block.value == "" ==> r == fallback
  {
    if block.None? || block.value == "" then fallback else block.value
  }

  const NoMonthlyText := "No matching monthly charges text found."
  const NoBillDetailsText := "No matching bill details text found."

  /** The two texts pro7.py saves and shows: the block when found, else the fallback. */
  function Pro7Texts(text: string): (r: (string, string))
    ensures r.0 == NoMonthlyText <==> !HasBlock(text, MonthlyStart, KWhEnd)
    ensures r.1 == NoBillDetailsText <==> !HasBlock(text, DetailedStart, KVARhEnd)
    ensures HasBlock(text, MonthlyStart, KWhEnd) ==> r.0 == MonthlyChargesBlockKWh(text).value
    ensures HasBlock(text, DetailedStart, KVARhEnd) ==> r.1 == BillDetailsBlock(text).value
  {
    var m := MonthlyChargesBlockKWh(text);
    var d := BillDetailsBlock(text);
    FallbackTells(m, MonthlyStart, NoMonthlyText);
    FallbackTells(d, DetailedStart, NoBillDetailsText);
    (OrFallback(m, NoMonthlyText), OrFallback(d, NoBillDetailsText))
  }

  /** A block beginning with a start marker can never be taken for a fallback message
      that begins otherwise, so the text shown tells whether the block was found. */
  lemma FallbackTells(block: Option<string>, start: string, fallback: string)
    requires block.Some? ==> HasPrefix(block.value, start)
    requires |start| > 0 && |fallback| > 0 && start[0] != fallback[0]
    ensures OrFallback(block, fallback) == fallback <==> block.None?
    ensures block.Some? ==> OrFallback(block, fallback) == block.value
  {
    if block.Some? {
      StartsOtherwise(block.value, start, fallback);
    }
  }

  // ---------------------------------------------------------------------------
  // The meter-reading block: `Maklumat Meter(.*?)\s*PERBANKAN INTERNET`, group 1
  // stripped.

  /** The sentinel neither starts nor ends with whitespace. Evaluating the literal in
      a lemma of its own keeps that work out of MeterReadingBlock's proof. */
  lemma SentinelStripped()
    ensures !IsSpace(NoMeterSection[0]) && !IsSpace(NoMeterSection[|NoMeterSection| - 1])
  {
  }

  /** `extract_meter_reading_block`: the stripped text between "Maklumat Meter" and
      the first "PERBANKAN INTERNET" behind it (less the whitespace before that),
      or the source's lower-case sentinel. */
  function MeterReadingBlock(text: string): (r: string)
    ensures !HasBlock(text, MeterStart, MeterEnd) ==> r == NoMeterSection
    ensures HasBlock(text, MeterStart, MeterEnd) ==>
      exists inner :: IsFirstInner(text, MeterStart, MeterEnd, inner) && r == Strip(inner)
    ensures r == [] || (!IsSpace(r[0]) && !IsSpace(r[|r| - 1]))
  {
    EndsBounded();
    match FindInner(text, MeterStart, MeterEnd)
    case None => SentinelStripped(); NoMeterSection
    case Some(inner) => Strip(inner)
  }

  /** If the end marker matches wherever `phrase` begins, `phrase` begins nowhere
      between the markers of a first span. */
  lemma SpanInnerExcludes(text: string, start: string, m: string -> Option<nat>, phrase: string, sp: Span, inner: string)
    requires |phrase| > 0 && forall t :: HasPrefix(t, phrase) ==> m(t).Some?
    requires IsFirstSpan(text, start, m, sp) && inner == text[sp.start + |start|..sp.endAt]
    ensures forall i: nat :: i <= |inner| ==> !HasAt(inner, i, phrase)
  {
    forall i: nat | i <= |inner| ensures !HasAt(inner, i, phrase) {
      if i + |phrase| <= |inner| {
        var j := sp.start + |start| + i;
        assert j < sp.endAt;
        assert m(text[j..]).None?;
        assert !HasPrefix(text[j..], phrase);
        assert inner[i..][..|phrase|] == text[j..][..|phrase|];
      }
    }
  }

  /** ... and so the text between the markers of the first block never contains it. */
  lemma InnerExcludes(text: string, start: string, m: string -> Option<nat>, phrase: string, inner: string)
    requires |phrase| > 0 && forall t :: HasPrefix(t, phrase) ==> m(t).Some?
    requires IsFirstInner(text, start, m, inner)
    ensures !Contains(inner, phrase)
  {
    var sp :| IsFirstSpan(text, start, m, sp) && inner == text[sp.start + |start|..sp.endAt];
    SpanInnerExcludes(text, start, m, phrase, sp, inner);
    AbsentEverywhere(inner, phrase);
  }

  /** The meter block never contains the end phrase: the search stops at its first
      occurrence behind the start marker. */
  lemma MeterBlockExcludesEndMarker(text: string, inner: string)
    requires IsFirstInner(text, MeterStart, MeterEnd, inner)
    ensures !Contains(inner, "PERBANKAN INTERNET")
  {
    InnerExcludes(text, MeterStart, MeterEnd, "PERBANKAN INTERNET", inner);
  }
}
