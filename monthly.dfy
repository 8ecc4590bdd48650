/** Month/charge pairs of the monthly-charges block (`extract_months_and_charges`),
    with the single-order pattern of pro16.py, app.py and pro5.py and the
    two-order pattern of app-version-dropdown-menu/app.py. */
module Monthly {
  import opened Lex
  import opened Scan
  import opened Blocks

  /** `[A-Z]{3}-\d{2}`, a month label such as "JAN-24". */
  predicate IsMonth(s: string) {
    |s| == 6 && IsUpper(s[0]) && IsUpper(s[1]) && IsUpper(s[2]) && s[3] == '-' && IsDigit(s[4]) && IsDigit(s[5])
  }

  /** `[RM0-9,\.]+`, a charge token such as "RM120.50". */
  predicate IsCharge(s: string) {
    |s| > 0 && All(s, IsChargeChar)
  }

  const BS := "(BS)"

  /** `\s*(?:\(BS\))?\s*` between month and charge (pro16.py, app.py, pro5.py). Only
      the longest whitespace runs can be followed by the charge, since neither
      whitespace nor "(" is a charge character, so Python's first success takes
      `(BS)` whenever it is there. */
  function Gap(s: string): (r: nat)
    ensures r <= |s|
  {
    var w := RunLen(s, IsSpace);
    if HasPrefix(s[w..], BS) then w + 4 + RunLen(s[w + 4..], IsSpace) else w
  }

  /** `(?:\s*\(BS\))?\s*`, the same gap as the first alternative of the dropdown
      app's pattern writes it. */
  function GapAlt(s: string): (r: nat)
    ensures r <= |s|
  {
    var w := RunLen(s, IsSpace);
    var p := if HasPrefix(s[w..], BS) then w + 4 else 0;
    p + RunLen(s[p..], IsSpace)
  }

  /** The two ways of writing the gap take the same characters. */
  lemma GapAgree(s: string)
    ensures GapAlt(s) == Gap(s)
  {
    assert s[0..] == s;
  }

  /** A month, the gap, then a charge, at the start of `s`: the month and the
      charge run that follows the gap. `gap` is Gap or GapAlt. */
  function MonthThenCharge(s: string, gap: string -> nat): (r: Option<Hit<(string, string)>>)
    requires forall t :: gap(t) <= |t|
    ensures r.Some? ==> 0 < r.value.len <= |s|
    ensures r.Some? ==> IsMonth(r.value.value.0) && IsCharge(r.value.value.1)
    ensures r.Some? ==> 6 <= |s| && r.value.value.0 == s[..6]
  {
    if |s| < 6 || !IsMonth(s[..6]) then None
    else
      var g := gap(s[6..]);
      var t := s[6 + g..];
      var c := RunLen(t, IsChargeChar);
      assert t[..c] == s[6 + g..6 + g + c];
      if c == 0 then None
      else Some(Hit(6 + g + c, (s[..6], t[..c])))
  }

  /** `([A-Z]{3}-\d{2})\s*(?:\(BS\))?\s*([RM0-9,\.]+)` at the start of `s`
      (pro16.py:54, app.py:50, pro5.py:36). */
  function MonthFirst(s: string): (r: Option<Hit<(string, string)>>)
    ensures r.Some? ==> 0 < r.value.len <= |s| && IsMonth(r.value.value.0) && IsCharge(r.value.value.1)
  {
    MonthThenCharge(s, Gap)
  }

  // ---------------------------------------------------------------------------
  // The dropdown app's pattern, both orders:
  // `([A-Z]{3}-\d{2})(?:\s*\(BS\))?\s*([RM0-9,\.]+)|(?:\(BS\))?\s*([RM0-9,\.]+)\s*([A-Z]{3}-\d{2})`

  /** The tuple `re.findall` returns for the two-alternative pattern: groups of the
      alternative that did not match are "". */
  datatype Groups = Groups(monthA: string, chargeA: string, chargeB: string, monthB: string)

  /** The first alternative. */
  function MonthFirstAlt(s: string): (r: Option<Hit<(string, string)>>)
    ensures r.Some? ==> 0 < r.value.len <= |s| && IsMonth(r.value.value.0) && IsCharge(r.value.value.1)
  {
    MonthThenCharge(s, GapAlt)
  }

  /** The dropdown app's first alternative matches exactly where the month-first
      pattern does, with the same groups. */
  lemma AlternativesAgree(s: string)
    ensures MonthFirstAlt(s) == MonthFirst(s)
  {
    if |s| >= 6 {
      GapAgree(s[6..]);
    }
    SameGapSameMatch(s, GapAlt, Gap);
  }

  /** MonthThenCharge depends on the gap only through the gap it finds behind the
      month. */
  lemma SameGapSameMatch(s: string, gap1: string -> nat, gap2: string -> nat)
    requires forall t :: gap1(t) <= |t|
    requires forall t :: gap2(t) <= |t|
    requires |s| >= 6 ==> gap1(s[6..]) == gap2(s[6..])
    ensures MonthThenCharge(s, gap1) == MonthThenCharge(s, gap2)
  {
  }

  /** `\s*([A-Z]{3}-\d{2})` behind a charge run `s[p..p+n]`, shortening the run one
      character at a time as Python backtracks: a charge run can swallow the R or M
      a month begins with. */
  function ChargeRun(s: string, p: nat, n: nat): (r: Option<Hit<(string, string)>>)
    requires p + n <= |s|
    ensures r.Some? ==> p < r.value.len <= |s|
    ensures r.Some? ==> 0 < |r.value.value.0| <= n && r.value.value.0 == s[p..p + |r.value.value.0|]
    ensures r.Some? ==> IsMonth(r.value.value.1) && 6 <= r.value.len && r.value.value.1 == s[r.value.len - 6..r.value.len]
    decreases n
  {
    if n == 0 then None
    else
      var q := p + n;
      var w := RunLen(s[q..], IsSpace);
      if q + w + 6 <= |s| && IsMonth(s[q + w..q + w + 6]) then Some(Hit(q + w + 6, (s[p..q], s[q + w..q + w + 6])))
      else ChargeRun(s, p, n - 1)
  }

  /** The second alternative, `(?:\(BS\))?\s*([RM0-9,\.]+)\s*([A-Z]{3}-\d{2})`:
      (charge, month). */
  function ChargeFirst(s: string): (r: Option<Hit<(string, string)>>)
    ensures r.Some? ==> 0 < r.value.len <= |s|
    ensures r.Some? ==> IsCharge(r.value.value.0) && IsMonth(r.value.value.1)
    ensures r.Some? ==> 6 <= r.value.len && r.value.value.1 == s[r.value.len - 6..r.value.len]
  {
    ChargeAt(s, MarkerSkip(s))
  }

  /** `(?:\(BS\))?\s*`: where the charge run of the second alternative begins. */
  function MarkerSkip(s: string): (p: nat)
    ensures p <= |s|
  {
    var b := if HasPrefix(s, BS) then 4 else 0;
    b + RunLen(s[b..], IsSpace)
  }

  /** The charge run from `p` on, then the month behind it. */
  function ChargeAt(s: string, p: nat): (r: Option<Hit<(string, string)>>)
    requires p <= |s|
    ensures r.Some? ==> 0 < r.value.len <= |s|
    ensures r.Some? ==> IsCharge(r.value.value.0) && IsMonth(r.value.value.1)
    ensures r.Some? ==> 6 <= r.value.len && r.value.value.1 == s[r.value.len - 6..r.value.len]
  {
    var n := RunLen(s[p..], IsChargeChar);
    var r := ChargeRun(s, p, n);
    assert r.Some? ==> All(r.value.value.0, IsChargeChar) by {
      if r.Some? {
        var c := r.value.value.0;
        assert c == s[p..][..n][..|c|];
      }
    }
    r
  }

  /** What each findall tuple holds: a month and a charge in one of the two places. */
  predicate WellFormed(g: Groups) {
    if g.monthA != "" then IsMonth(g.monthA) && IsCharge(g.chargeA)
    else IsMonth(g.monthB) && IsCharge(g.chargeB)
  }

  /** The whole pattern: the first alternative where it matches, else the second. */
  function BothOrders(s: string): (r: Option<Hit<Groups>>)
    ensures r.Some? ==> 0 < r.value.len <= |s| && WellFormed(r.value.value)
  {
    match MonthFirstAlt(s)
    case Some(h) => Some(Hit(h.len, Groups(h.value.0, h.value.1, "", "")))
    case None =>
      match ChargeFirst(s)
      case Some(h) => Some(Hit(h.len, Groups("", "", h.value.0, h.value.1)))
      case None => None
  }

  /** The month and charge the loop takes from a tuple (`if match[0]`). */
  function MonthOf(g: Groups): string { if g.monthA != "" then g.monthA else g.monthB }
  function ChargeOf(g: Groups): string { if g.monthA != "" then g.chargeA else g.chargeB }

  lemma MatchersConsume()
    ensures Consumes(MonthFirst) && Consumes(BothOrders)
  {
  }

  /** Every tuple the dropdown app's pattern finds holds a month and a charge. */
  lemma {:induction false} BothOrdersWellFormed(text: string)
    ensures Consumes(BothOrders)
    ensures forall k :: 0 <= k < |FindAll(text, BothOrders)| ==> WellFormed(FindAll(text, BothOrders)[k])
  {
    MatchersConsume();
    FindAllEvery(text, BothOrders, WellFormed);
  }

  /** The loop of `extract_months_and_charges` (app-version-dropdown-menu/app.py):
      one month and one charge appended per findall tuple, from whichever
      alternative matched. */
  method CollectPairs(matches: seq<Groups>) returns (months: seq<string>, charges: seq<string>)
    ensures |months| == |charges| == |matches|
    ensures forall i :: 0 <= i < |matches| ==> months[i] == MonthOf(matches[i]) && charges[i] == ChargeOf(matches[i])
  {
    months := [];
    charges := [];
    for i := 0 to |matches|
      invariant |months| == |charges| == i
      invariant forall j :: 0 <= j < i ==> months[j] == MonthOf(matches[j]) && charges[j] == ChargeOf(matches[j])
    {
      var m := matches[i];
      if m.monthA != "" {
        months := months + [m.monthA];
        charges := charges + [m.chargeA];
      } else {
        charges := charges + [m.chargeB];
        months := months + [m.monthB];
      }
    }
  }

  /** `extract_months_and_charges` of app-version-dropdown-menu/app.py: pair i
      comes from the i-th non-overlapping match in text order, whichever order month
      and charge were written in. */
  method ExtractMonthsAndCharges(chargesText: string) returns (months: seq<string>, charges: seq<string>)
    ensures Consumes(BothOrders)
    ensures |months| == |charges| == |FindAll(chargesText, BothOrders)|
    ensures forall i :: 0 <= i < |months| ==>
      months[i] == MonthOf(FindAll(chargesText, BothOrders)[i]) && charges[i] == ChargeOf(FindAll(chargesText, BothOrders)[i])
    ensures forall i :: 0 <= i < |months| ==> IsMonth(months[i]) && IsCharge(charges[i])
  {
    BothOrdersWellFormed(chargesText);
    var matches := FindAll(chargesText, BothOrders);
    months, charges := CollectPairs(matches);
    forall i | 0 <= i < |matches| ensures IsMonth(months[i]) && IsCharge(charges[i]) {
      assert WellFormed(matches[i]);
    }
  }

  /** Every pair the month-first pattern finds is a month and a charge. */
  predicate IsPair(p: (string, string)) { IsMonth(p.0) && IsCharge(p.1) }

  lemma {:induction false} MonthFirstWellFormed(text: string)
    ensures Consumes(MonthFirst)
    ensures forall k :: 0 <= k < |FindAll(text, MonthFirst)| ==> IsPair(FindAll(text, MonthFirst)[k])
  {
    MatchersConsume();
    FindAllEvery(text, MonthFirst, IsPair);
  }

  /** `extract_months_and_charges` of pro16.py, app.py and pro5.py. */
  method ExtractMonthsAndChargesMonthFirst(chargesText: string) returns (months: seq<string>, charges: seq<string>)
    ensures Consumes(MonthFirst)
    ensures |months| == |charges| == |FindAll(chargesText, MonthFirst)|
    ensures forall i :: 0 <= i < |months| ==> (months[i], charges[i]) == FindAll(chargesText, MonthFirst)[i]
    ensures forall i :: 0 <= i < |months| ==> IsMonth(months[i]) && IsCharge(charges[i])
  {
    MonthFirstWellFormed(chargesText);
    var matches := FindAll(chargesText, MonthFirst);
    months := [];
    charges := [];
    for i := 0 to |matches|
      invariant |months| == |charges| == i
      invariant forall j :: 0 <= j < i ==> (months[j], charges[j]) == matches[j]
    {
      var (month, charge) := matches[i];
      months := months + [month];
      charges := charges + [charge];
    }
    assert forall j :: 0 <= j < |months| ==> IsPair(matches[j]);
  }

  // ---------------------------------------------------------------------------
  // Token shapes and the sentinel.

  /** Neither a month nor a charge can contain "(BS)": "(" is in neither alphabet. */
  lemma NoBSInTokens(month: string, charge: string)
    requires IsMonth(month) && IsCharge(charge)
    ensures !Contains(month, BS) && !Contains(charge, BS)
  {
    NotContainsChar(month, BS, '(');
    NotContainsChar(charge, BS, '(');
  }

  /** A string is not contained in one lacking one of its characters. */
  lemma {:induction false} NotContainsChar(s: string, p: string, c: char)
    requires c in p && c !in s
    ensures !Contains(s, p)
  {
    forall i: nat | i <= |s| ensures !HasAt(s, i, p) {
      if |p| <= |s[i..]| {
        var k :| 0 <= k < |p| && p[k] == c;
        assert s[i..][..|p|][k] == s[i + k];
      }
    }
    AbsentEverywhere(s, p);
  }

  /** Both patterns need a "-" (every match holds a month), so a text without one
      yields no pairs. */
  lemma {:induction false} NoDashNoPairs(text: string)
    requires '-' !in text
    ensures Consumes(MonthFirst) && Consumes(BothOrders)
    ensures FindAll(text, MonthFirst) == [] && FindAll(text, BothOrders) == []
  {
    MatchersConsume();
    forall i | 0 <= i <= |text| ensures MonthFirst(text[i..]).None? && BothOrders(text[i..]).None? {
      MonthNeedsDash(text[i..]);
    }
    FindAllNone(text, MonthFirst);
    FindAllNone(text, BothOrders);
  }

  lemma MonthNeedsDash(t: string)
    ensures MonthFirst(t).Some? ==> '-' in t
    ensures BothOrders(t).Some? ==> '-' in t
  {
    if MonthFirst(t).Some? {
      assert t[3] == t[..6][3];
    }
    if MonthFirstAlt(t).Some? {
      assert t[3] == t[..6][3];
    }
    var c := ChargeFirst(t);
    if c.Some? {
      assert t[c.value.len - 3] == c.value.value.1[3];
    }
  }

  /** Parsing the monthly sentinel gives two empty lists, with either pattern. */
  lemma SentinelNoPairs()
    ensures Consumes(MonthFirst) && Consumes(BothOrders)
    ensures FindAll(NoChargesSection, MonthFirst) == [] && FindAll(NoChargesSection, BothOrders) == []
  {
    NoDashNoPairs(NoChargesSection);
  }
}
