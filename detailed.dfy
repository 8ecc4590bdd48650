/** The six fields of the detailed-charges block: `extract_detailed_charges_data`
    of app-version-dropdown-menu/app.py and pro16.py, which runs one labelled
    `re.search` per field group over the whole block. */
module Detailed {
  import opened Lex
  import opened Scan
  import opened Blocks

  /** The dictionary the extractor returns, one field per key. */
  datatype DetailedCharges = DetailedCharges(
    totalUsageNoSt: string, totalUsageSt: string,
    icptNoSt: string, icptSt: string,
    kwtbb: string, currentCharge: string)

  const Empty := DetailedCharges("", "", "", "", "", "")

  /** A capture of `(-?\s*[\d.,]+)`: an optional minus sign, the whitespace after it,
      and the digits. */
  datatype Number = Number(minus: bool, ws: string, digits: string)

  predicate ValidNumber(x: Number) {
    All(x.ws, IsSpace) && |x.digits| > 0 && All(x.digits, IsAmountChar) && (!x.minus ==> x.ws == [])
  }

  /** The captured text. */
  function NumText(x: Number): string {
    (if x.minus then "-" else "") + x.ws + x.digits
  }

  /** `.replace(" ", "")` on a capture. */
  function Clean(x: Number): string {
    Remove(NumText(x), ' ')
  }

  /** `n` times `\s*(-?\s*[\d.,]+)` at the start of `t`, in Python's backtracking
      order. Only the longest whitespace runs and a present minus sign can lead to a
      match, but a digit run may have to give up its tail to the next group, so the
      run lengths are tried from longest to shortest. */
  function Nums(t: string, n: nat): (r: Option<Hit<seq<Number>>>)
    ensures r.Some? ==> r.value.len <= |t| && |r.value.value| == n
    ensures r.Some? ==> forall i :: 0 <= i < n ==> ValidNumber(r.value.value[i])
    decreases n, 1, 0
  {
    if n == 0 then Some(Hit(0, []))
    else
      var g := RunLen(t, IsSpace);
      var minus := g < |t| && t[g] == '-';
      var d := if minus then g + 1 + RunLen(t[g + 1..], IsSpace) else g;
      var ws := if minus then t[g + 1..d] else [];
      assert minus ==> ws == t[g + 1..][..d - g - 1];
      var rest := t[d..];
      match TryLengths(rest, n, minus, ws, RunLen(rest, IsAmountChar))
      case Some(h) => Some(Hit(d + h.len, h.value))
      case None => None
  }

  /** The first group with the digits `rest[..l]`, then the remaining groups behind
      them; failing that, a shorter run. */
  function TryLengths(rest: string, n: nat, minus: bool, ws: string, l: nat): (r: Option<Hit<seq<Number>>>)
    requires 0 < n && l <= |rest| && All(rest[..l], IsAmountChar)
    requires All(ws, IsSpace) && (!minus ==> ws == [])
    ensures r.Some? ==> r.value.len <= |rest| && |r.value.value| == n
    ensures r.Some? ==> forall i :: 0 <= i < n ==> ValidNumber(r.value.value[i])
    decreases n, 0, l
  {
    if l == 0 then None
    else
      assert rest[..l - 1] == rest[..l][..l - 1];
      match Nums(rest[l..], n - 1)
      case Some(h) => Some(Hit(l + h.len, [Number(minus, ws, rest[..l])] + h.value))
      case None => TryLengths(rest, n, minus, ws, l - 1)
  }

  /** `\s*RM` then the numbers: what follows `)` or "Caj Semasa". */
  function AfterParen(x: string, n: nat): (r: Option<seq<Number>>)
    ensures r.Some? ==> |r.value| == n && forall i :: 0 <= i < n ==> ValidNumber(r.value[i])
  {
    var w := RunLen(x, IsSpace);
    if HasPrefix(x[w..], "RM") then
      match Nums(x[w + 2..], n)
      case Some(h) => Some(h.value)
      case None => None
    else None
  }

  /** `.*?\)` then the rest: the lazy `.*?` tries each `)` of the line in turn,
      since `.` matches neither a line break nor anything past one. */
  function TryCloses(v: string, i: nat, n: nat): (r: Option<seq<Number>>)
    requires i <= |v|
    ensures r.Some? ==> |r.value| == n && forall k :: 0 <= k < n ==> ValidNumber(r.value[k])
    decreases |v| - i
  {
    if i == |v| then None
    else if v[i] == ')' && AfterParen(v[i + 1..], n).Some? then AfterParen(v[i + 1..], n)
    else if v[i] == '\n' then None
    else TryCloses(v, i + 1, n)
  }

  /** `<label>\s*\(.*?\)\s*RM` and `n` numbers at the start of `t`. */
  function Labelled(t: string, marker: string, n: nat): (r: Option<seq<Number>>)
    ensures r.Some? ==> HasPrefix(t, marker)
    ensures r.Some? ==> |r.value| == n && forall k :: 0 <= k < n ==> ValidNumber(r.value[k])
  {
    if !HasPrefix(t, marker) then None
    else
      var u := t[|marker|..];
      var w := RunLen(u, IsSpace);
      if w < |u| && u[w] == '(' then TryCloses(u[w + 1..], 0, n) else None
  }

  const UsageLabel := "Jumlah Penggunaan Anda"
  const IcptLabel := "ICPT"
  const KwtbbLabel := "Kumpulan Wang Tenaga Boleh Baharu"
  const CurrentLabel := "Caj Semasa"

  /** The four patterns, each at the start of a string. */
  function UsageMatch(t: string): (r: Option<seq<Number>>)
    ensures r.Some? ==> HasPrefix(t, UsageLabel)
    ensures r.Some? ==> |r.value| == 3 && forall k :: 0 <= k < 3 ==> ValidNumber(r.value[k])
  {
    Labelled(t, UsageLabel, 3)
  }

  function IcptMatch(t: string): (r: Option<seq<Number>>)
    ensures r.Some? ==> HasPrefix(t, IcptLabel)
    ensures r.Some? ==> |r.value| == 3 && forall k :: 0 <= k < 3 ==> ValidNumber(r.value[k])
  {
    Labelled(t, IcptLabel, 3)
  }

  function KwtbbMatch(t: string): (r: Option<seq<Number>>)
    ensures r.Some? ==> HasPrefix(t, KwtbbLabel)
    ensures r.Some? ==> |r.value| == 1 && ValidNumber(r.value[0])
  {
    Labelled(t, KwtbbLabel, 1)
  }

  /** `Caj Semasa\s*RM\s*(-?\s*[\d.,]+)`, without parentheses. */
  function CurrentMatch(t: string): (r: Option<seq<Number>>)
    ensures r.Some? ==> HasPrefix(t, CurrentLabel)
    ensures r.Some? ==> |r.value| == 1 && ValidNumber(r.value[0])
  {
    if HasPrefix(t, CurrentLabel) then AfterParen(t[|CurrentLabel|..], 1) else None
  }

  /** The value the extractor derives from the text: each field group from its own
      search, "" where that search fails; of the three usage and ICPT amounts only
      the first two are kept. */
  function DetailedData(text: string): DetailedCharges {
    var usage := Search(text, UsageMatch);
    var icpt := Search(text, IcptMatch);
    var kwtbb := Search(text, KwtbbMatch);
    var current := Search(text, CurrentMatch);
    DetailedCharges(Field(usage, 0), Field(usage, 1), Field(icpt, 0), Field(icpt, 1), Field(kwtbb, 0), Field(current, 0))
  }

  /** Group `i + 1` of a search result with its spaces removed, or "". */
  function Field(m: Option<seq<Number>>, i: nat): string {
    if m.Some? && i < |m.value| then Clean(m.value[i]) else ""
  }

  /** `extract_detailed_charges_data`: six fields initialised to "" and each group
      reassigned when its search succeeds. */
  method ExtractDetailedChargesData(detailedChargesText: string) returns (d: DetailedCharges)
    ensures d == DetailedData(detailedChargesText)
  {
    var totalUsageNoSt, totalUsageSt, icptNoSt, icptSt, kwtbb, currentCharge := "", "", "", "", "", "";
    var usageMatch := Search(detailedChargesText, UsageMatch);
    if usageMatch.Some? {
      SearchIsMatch(detailedChargesText, UsageMatch);
      totalUsageNoSt := Clean(usageMatch.value[0]);
      totalUsageSt := Clean(usageMatch.value[1]);
    }
    var icptMatch := Search(detailedChargesText, IcptMatch);
    if icptMatch.Some? {
      SearchIsMatch(detailedChargesText, IcptMatch);
      icptNoSt := Clean(icptMatch.value[0]);
      icptSt := Clean(icptMatch.value[1]);
    }
    var kwtbbMatch := Search(detailedChargesText, KwtbbMatch);
    if kwtbbMatch.Some? {
      SearchIsMatch(detailedChargesText, KwtbbMatch);
      kwtbb := Clean(kwtbbMatch.value[0]);
    }
    var currentChargeMatch := Search(detailedChargesText, CurrentMatch);
    if currentChargeMatch.Some? {
      SearchIsMatch(detailedChargesText, CurrentMatch);
      currentCharge := Clean(currentChargeMatch.value[0]);
    }
    d := DetailedCharges(totalUsageNoSt, totalUsageSt, icptNoSt, icptSt, kwtbb, currentCharge);
  }

  // ---------------------------------------------------------------------------
  // What the extracted fields are.

  /** A capture loses exactly its plain spaces: the sign and the digits survive, so
      the field is never empty. */
  lemma CleanShape(x: Number)
    requires ValidNumber(x)
    ensures Clean(x) == (if x.minus then "-" else "") + Remove(x.ws, ' ') + x.digits
    ensures |Clean(x)| > 0
  {
    var sign := if x.minus then "-" else "";
    assert ' ' !in x.digits by {
      forall i | 0 <= i < |x.digits| ensures x.digits[i] != ' ' {
        assert IsAmountChar(x.digits[i]);
      }
    }
    RemoveConcat(sign + x.ws, x.digits, ' ');
    RemoveConcat(sign, x.ws, ' ');
    assert Remove(sign, ' ') == sign;
  }

  /** A minus sign separated from its digits by spaces only is written against them:
      "- 12.34" becomes "-12.34". */
  lemma SignJoinsDigits(x: Number)
    requires ValidNumber(x) && x.minus && forall i :: 0 <= i < |x.ws| ==> x.ws[i] == ' '
    ensures Clean(x) == "-" + x.digits
  {
    CleanShape(x);
    RemoveOnly(x.ws, ' ');
  }

  /** A minus sign, one space and an amount are read as one signed number whose
      capture keeps the space, and cleaning it joins the sign to the digits. */
  lemma SignedAmount(t: string)
    requires |t| > 2 && t[0] == '-' && t[1] == ' ' && All(t[2..], IsAmountChar)
    ensures Nums(t, 1) == Some(Hit(|t|, [Number(true, " ", t[2..])]))
    ensures Clean(Number(true, " ", t[2..])) == "-" + t[2..]
  {
    SignedNums(t);
    SignJoinsDigits(Number(true, " ", t[2..]));
  }

  /** The match part of SignedAmount. */
  lemma SignedNums(t: string)
    requires |t| > 2 && t[0] == '-' && t[1] == ' ' && All(t[2..], IsAmountChar)
    ensures Nums(t, 1) == Some(Hit(|t|, [Number(true, " ", t[2..])]))
  {
    var b := t[2..];
    SingleSpaceRun(t[1..]);
    NumsSigned(t, 1, 2);
    assert t[1..2] == " ";
    WholeAmount(b);
    ShiftKnown(Nums(t, 1), TryLengths(b, 1, true, " ", |b|), 2, |b|);
  }

  /** One space before an amount is a whitespace run of one. */
  lemma SingleSpaceRun(u: string)
    requires |u| > 1 && u[0] == ' ' && All(u[1..], IsAmountChar)
    ensures RunLen(u, IsSpace) == 1
  {
    assert u == " " + u[1..];
    RunLenConcat(" ", u[1..], IsSpace);
  }

  /** A text opening with a minus sign: the first group's digits start after the
      whitespace behind the sign, which the capture keeps. */
  lemma NumsSigned(t: string, n: nat, d: nat)
    requires 0 < n && |t| > 0 && t[0] == '-'
    requires d == 1 + RunLen(t[1..], IsSpace)
    ensures d <= |t| && All(t[1..d], IsSpace)
    ensures Nums(t, n) == Shift(TryLengths(t[d..], n, true, t[1..d], RunLen(t[d..], IsAmountChar)), d)
  {
    NoLeadingSpace(t);
    assert t[1..d] == t[1..][..d - 1];
  }

  /** A text opening with a minus sign has no leading whitespace. */
  lemma NoLeadingSpace(t: string)
    requires |t| > 0 && t[0] == '-'
    ensures RunLen(t, IsSpace) == 0
  {
  }

  /** A whole amount as the last group. */
  lemma WholeAmount(b: string)
    requires |b| > 0 && All(b, IsAmountChar)
    ensures RunLen(b, IsAmountChar) == |b|
    ensures TryLengths(b, 1, true, " ", |b|) == Some(Hit(|b|, [Number(true, " ", b)]))
  {
    RunLenConcat(b, [], IsAmountChar);
    assert b + [] == b && b[..|b|] == b && b[|b|..] == [];
    assert Nums(b[|b|..], 0) == Some(Hit(0, []));
    assert [Number(true, " ", b[..|b|])] + [] == [Number(true, " ", b)];
  }

  /** Group `i + 1` of a search is empty exactly when the search fails, for any
      pattern whose matches are `n` valid numbers. */
  lemma {:induction false} FieldFound(text: string, m: string -> Option<seq<Number>>, n: nat, i: nat)
    requires i < n
    requires forall t :: m(t).Some? ==> |m(t).value| == n && forall k :: 0 <= k < n ==> ValidNumber(m(t).value[k])
    ensures Field(Search(text, m), i) != "" <==> Search(text, m).Some?
  {
    if Search(text, m).Some? {
      SearchIsMatch(text, m);
      CleanShape(Search(text, m).value[i]);
    }
  }

  /** A field is empty exactly when its search fails, for whatever text. */
  lemma FieldsFound(text: string)
    ensures DetailedData(text).totalUsageNoSt != "" <==> Search(text, UsageMatch).Some?
    ensures DetailedData(text).totalUsageSt != "" <==> Search(text, UsageMatch).Some?
    ensures DetailedData(text).icptNoSt != "" <==> Search(text, IcptMatch).Some?
    ensures DetailedData(text).icptSt != "" <==> Search(text, IcptMatch).Some?
    ensures DetailedData(text).kwtbb != "" <==> Search(text, KwtbbMatch).Some?
    ensures DetailedData(text).currentCharge != "" <==> Search(text, CurrentMatch).Some?
  {
    FieldFound(text, UsageMatch, 3, 0);
    FieldFound(text, UsageMatch, 3, 1);
    FieldFound(text, IcptMatch, 3, 0);
    FieldFound(text, IcptMatch, 3, 1);
    FieldFound(text, KwtbbMatch, 1, 0);
    FieldFound(text, CurrentMatch, 1, 0);
  }

  /** A pattern that starts with a marker finds nothing in a text lacking the
      marker's first character. */
  lemma {:induction false} FirstCharAbsent(s: string, m: string -> Option<seq<Number>>, marker: string)
    requires |marker| > 0 && marker[0] !in s
    requires forall t :: m(t).Some? ==> HasPrefix(t, marker)
    ensures Search(s, m).None?
  {
    forall i | 0 <= i <= |s| ensures m(s[i..]).None? {
      if i < |s| {
        assert s[i..][0] == s[i];
        assert !HasPrefix(s[i..], marker) by {
          if |marker| <= |s[i..]| {
            assert s[i..][..|marker|][0] == s[i];
          }
        }
      }
    }
    SearchNone(s, m);
  }

  /** The sentinel holds no capital letter but its first "N". */
  lemma SentinelLacksCapital(c: char)
    requires IsUpper(c) && c != 'N'
    ensures c !in NoDetailedSection
  {
    forall i | 0 <= i < |NoDetailedSection| ensures NoDetailedSection[i] != c {
      assert i == 0 || !IsUpper(NoDetailedSection[i]);
    }
  }

  /** The "not found" sentinel of the block search holds none of the labels, so
      every field of its data is empty. */
  lemma SentinelGivesEmpty()
    ensures DetailedData(NoDetailedSection) == Empty
  {
    SentinelLacksCapital('J');
    SentinelLacksCapital('I');
    SentinelLacksCapital('K');
    SentinelLacksCapital('C');
    FirstCharAbsent(NoDetailedSection, UsageMatch, UsageLabel);
    FirstCharAbsent(NoDetailedSection, IcptMatch, IcptLabel);
    FirstCharAbsent(NoDetailedSection, KwtbbMatch, KwtbbLabel);
    FirstCharAbsent(NoDetailedSection, CurrentMatch, CurrentLabel);
  }

  /** A last group with a non-empty digit run always matches. */
  lemma LastGroup(rest: string, minus: bool, ws: string, l: nat)
    requires 0 < l <= |rest| && All(rest[..l], IsAmountChar)
    requires All(ws, IsSpace) && (!minus ==> ws == [])
    ensures TryLengths(rest, 1, minus, ws, l).Some?
  {
    assert Nums(rest[l..], 0).Some?;
  }

  /** One number is found wherever an amount character follows the spaces. */
  lemma NumsOne(t: string)
    requires RunLen(t, IsSpace) < |t| && IsAmountChar(t[RunLen(t, IsSpace)])
    ensures Nums(t, 1).Some?
  {
    var g := RunLen(t, IsSpace);
    var rest := t[g..];
    RunLenPositive(rest, IsAmountChar);
    LastGroup(rest, false, [], RunLen(rest, IsAmountChar));
  }

  /** "Caj Semasa RM " followed by an amount character is a match of the current
      charge pattern. */
  lemma CurrentAfterLead(t: string)
    requires HasPrefix(t, CurrentChargeLead) && |t| > |CurrentChargeLead| && IsAmountChar(t[|CurrentChargeLead|])
    ensures CurrentMatch(t).Some?
  {
    assert t[..10] == t[..14][..10];
    var x := t[|CurrentLabel|..];
    assert x[0] == ' ' && x[1] == 'R';
    assert RunLen(x, IsSpace) == 1 by {
      assert RunLen(x[1..], IsSpace) == 0;
    }
    assert HasPrefix(x[1..], "RM") by {
      assert x[1..][..2] == t[11..13];
    }
    var u := x[3..];
    assert u[0] == ' ' && IsAmountChar(u[1]);
    assert RunLen(u, IsSpace) == 1 by {
      assert RunLen(u[1..], IsSpace) == 0;
    }
    NumsOne(u);
  }

  /** The end marker of the detailed block is itself a current-charge line. */
  lemma AmountEndIsCurrent(y: string)
    ensures AmountEnd(y).Some? ==> CurrentMatch(y[..AmountEnd(y).value]).Some?
  {
    if AmountEnd(y).Some? {
      var n := AmountEnd(y).value;
      assert y[..n][..14] == y[..14];
      assert y[..n][14] == y[14];
      CurrentAfterLead(y[..n]);
    }
  }

  /** A text ending in a match of the detailed block's end marker yields a current
      charge. */
  lemma TailHasCurrentCharge(b: string, y: string, n: nat)
    requires AmountEnd(y) == Some(n) && n <= |b| && n <= |y| && b[|b| - n..] == y[..n]
    ensures DetailedData(b).currentCharge != ""
  {
    AmountEndIsCurrent(y);
    SearchFinds(b, CurrentMatch, |b| - n);
    FieldFound(b, CurrentMatch, 1, 0);
  }

  /** The isolated detailed-charges block ends with "Caj Semasa RM <amount>", so a
      block that is found always yields a current charge. */
  lemma FoundBlockHasCurrentCharge(text: string)
    ensures DetailedChargesBlock(text) != NoDetailedSection ==> DetailedData(DetailedChargesBlock(text)).currentCharge != ""
  {
    var b := DetailedChargesBlock(text);
    if b != NoDetailedSection {
      BlockTail(text, DetailedStart, AmountEnd, b);
      var y: string, n: nat :| AmountEnd(y) == Some(n) && n <= |b| && n <= |y| && b[|b| - n..] == y[..n];
      TailHasCurrentCharge(b, y, n);
    }
  }

  // ---------------------------------------------------------------------------
  // Backtracking: a line with two amounts still fills three groups.

  /** A result found in a suffix, as a result for the whole string. */
  function Shift(r: Option<Hit<seq<Number>>>, k: nat): Option<Hit<seq<Number>>> {
    match r
    case Some(h) => Some(Hit(k + h.len, h.value))
    case None => None
  }

  /** Without a minus sign the first group's digits start right after the spaces. */
  lemma NumsUnsigned(t: string, n: nat, g: nat)
    requires 0 < n && g == RunLen(t, IsSpace) && (g == |t| || t[g] != '-')
    ensures Nums(t, n) == Shift(TryLengths(t[g..], n, false, [], RunLen(t[g..], IsAmountChar)), g)
  {
  }

  /** The first group with `l` digits, the rest being found behind it. */
  lemma TryHit(rest: string, n: nat, l: nat, h: Hit<seq<Number>>)
    requires 0 < n && 0 < l <= |rest| && All(rest[..l], IsAmountChar)
    requires Nums(rest[l..], n - 1) == Some(h)
    ensures TryLengths(rest, n, false, [], l) == Some(Hit(l + h.len, [Number(false, [], rest[..l])] + h.value))
  {
    var x := Number(false, [], rest[..l]);
    assert TryLengths(rest, n, false, [], l) == Some(Hit(l + h.len, [x] + h.value));
  }

  /** TryHit for digits `x` given as a string. */
  lemma TryHitAt(rest: string, n: nat, x: string, h: Hit<seq<Number>>)
    requires 0 < n && 0 < |x| <= |rest| && rest[..|x|] == x && All(x, IsAmountChar)
    requires Nums(rest[|x|..], n - 1) == Some(h)
    ensures TryLengths(rest, n, false, [], |x|) == Some(Hit(|x| + h.len, [Number(false, [], x)] + h.value))
  {
    TryHit(rest, n, |x|, h);
  }

  /** With `l` digits the rest is not found, so one digit fewer is tried. */
  lemma TryMiss(rest: string, n: nat, l: nat)
    requires 0 < n && 0 < l <= |rest| && All(rest[..l], IsAmountChar)
    requires Nums(rest[l..], n - 1).None?
    ensures TryLengths(rest, n, false, [], l) == TryLengths(rest, n, false, [], l - 1)
  {
  }

  /** One amount character on its own is a number. */
  lemma SingleDigit(c: char)
    requires IsAmountChar(c)
    ensures Nums([c], 1) == Some(Hit(1, [Number(false, [], [c])]))
  {
    RunLenConcat([], [c], IsSpace);
    assert [] + [c] == [c] && [c][0..] == [c];
    NumsUnsigned([c], 1, 0);
    RunLenConcat([c], [], IsAmountChar);
    assert [c] + [] == [c] && [c][..1] == [c] && [c][1..] == [];
    TryHit([c], 1, 1, Hit(0, []));
    var x := [Number(false, [], [c])];
    assert x + [] == x;
  }

  /** An amount that ends the text leaves nothing for a further group. */
  lemma WholeRunFails(b: string, n: nat)
    requires 1 < n && |b| >= 2 && All(b, IsAmountChar)
    ensures TryLengths(b, n, false, [], |b|) == TryLengths(b, n, false, [], |b| - 1)
  {
    assert b[..|b|] == b && b[|b|..] == [];
    NumsEmpty(n - 1);
    TryMiss(b, n, |b|);
  }

  /** Without a character to match, no number is found. */
  lemma NumsEmpty(n: nat)
    requires 0 < n
    ensures Nums([], n).None?
  {
    assert TryLengths([], n, false, [], 0).None?;
  }

  /** The amount without its last character, then that character. */
  lemma LastCharAlone(b: string)
    requires |b| >= 2 && All(b, IsAmountChar)
    ensures TryLengths(b, 2, false, [], |b| - 1)
      == Some(Hit(|b|, [Number(false, [], b[..|b| - 1])] + [Number(false, [], [b[|b| - 1]])]))
  {
    assert b[|b| - 1..] == [b[|b| - 1]];
    SingleDigit(b[|b| - 1]);
    TryHit(b, 2, |b| - 1, Hit(1, [Number(false, [], [b[|b| - 1]])]));
  }

  /** One space and an amount: the whole amount as the first group is tried and
      fails, leaving the amount less its last character. */
  lemma SpaceThenAmount(t: string)
    requires |t| > 2 && t[0] == ' ' && All(t[1..], IsAmountChar)
    ensures Nums(t, 2) == Shift(TryLengths(t[1..], 2, false, [], |t| - 2), 1)
  {
    var b := t[1..];
    SingleSpaceRun(t);
    assert t[1] == b[0];
    NumsUnsigned(t, 2, 1);
    RunLenConcat(b, [], IsAmountChar);
    assert b + [] == b;
    WholeRunFails(b, 2);
  }

  /** When only one amount follows a space but two are wanted, the amount gives up
      its last character to the second group. */
  lemma SplitLastAmount(t: string)
    requires |t| > 2 && t[0] == ' ' && All(t[1..], IsAmountChar)
    ensures Nums(t, 2) == Some(Hit(|t|, [Number(false, [], t[1..|t| - 1]), Number(false, [], [t[|t| - 1]])]))
  {
    var b := t[1..];
    SpaceThenAmount(t);
    LastCharPair(b);
    SliceOfSlice(t, 1, |b| - 1);
    ShiftKnown(Nums(t, 2), TryLengths(b, 2, false, [], |b| - 1), 1, |b|);
  }

  /** Taking `k` characters of the text from `i` on. */
  lemma SliceOfSlice(t: string, i: nat, k: nat)
    requires i + k <= |t|
    ensures t[i..][..k] == t[i..i + k]
  {
  }

  /** A shifted result that is known. */
  lemma ShiftKnown(v: Option<Hit<seq<Number>>>, w: Option<Hit<seq<Number>>>, k: nat, len: nat)
    requires v == Shift(w, k) && w.Some? && w.value.len == len
    ensures v.Some? && v.value.len == len + k && v.value.value == w.value.value
  {
  }

  /** LastCharAlone with the two groups written as one list. */
  lemma LastCharPair(b: string)
    requires |b| >= 2 && All(b, IsAmountChar)
    ensures TryLengths(b, 2, false, [], |b| - 1)
      == Some(Hit(|b|, [Number(false, [], b[..|b| - 1]), Number(false, [], [b[|b| - 1]])]))
  {
    LastCharAlone(b);
    assert [Number(false, [], b[..|b| - 1])] + [Number(false, [], [b[|b| - 1]])]
      == [Number(false, [], b[..|b| - 1]), Number(false, [], [b[|b| - 1]])];
  }

  /** `RM 10.00 20.00` against three groups: tried with the whole first amount as
      group 1 (the first length the search tries), the second amount is split into
      "20.0" and "0". */
  lemma FirstOfThree(a: string, b: string, rest: string)
    requires |a| > 0 && All(a, IsAmountChar) && |b| >= 2 && All(b, IsAmountChar)
    requires rest == a + (" " + b)
    ensures TryLengths(rest, 3, false, [], |a|).Some?
    ensures TryLengths(rest, 3, false, [], |a|).value.len == |a| + |b| + 1
    ensures TryLengths(rest, 3, false, [], |a|).value.value
      == [Number(false, [], a), Number(false, [], b[..|b| - 1]), Number(false, [], [b[|b| - 1]])]
  {
    AmountThenSplit(a, b, rest);
    ThreeGroups(rest, a, Number(false, [], b[..|b| - 1]), Number(false, [], [b[|b| - 1]]), |b| + 1);
  }

  /** Behind the first amount, the second is split over the remaining two groups. */
  lemma AmountThenSplit(a: string, b: string, rest: string)
    requires |b| >= 2 && All(b, IsAmountChar)
    requires rest == a + (" " + b)
    ensures |a| <= |rest| && rest[..|a|] == a
    ensures Nums(rest[|a|..], 2) == Some(Hit(|b| + 1, [Number(false, [], b[..|b| - 1]), Number(false, [], [b[|b| - 1]])]))
  {
    DropConcat(a, " " + b);
    var t := rest[|a|..];
    assert t == " " + b;
    assert t[1..] == b && t[1..|t| - 1] == b[..|b| - 1] && t[|t| - 1] == b[|b| - 1];
    SplitLastAmount(t);
  }

  /** The first group with the digits `a`, the other two being found behind them. */
  lemma ThreeGroups(rest: string, a: string, y: Number, z: Number, k: nat)
    requires 0 < |a| <= |rest| && rest[..|a|] == a && All(a, IsAmountChar)
    requires Nums(rest[|a|..], 2) == Some(Hit(k, [y, z]))
    ensures TryLengths(rest, 3, false, [], |a|).Some?
    ensures TryLengths(rest, 3, false, [], |a|).value.len == |a| + k
    ensures TryLengths(rest, 3, false, [], |a|).value.value == [Number(false, [], a), y, z]
  {
    TryHitAt(rest, 3, a, Hit(k, [y, z]));
  }
}
