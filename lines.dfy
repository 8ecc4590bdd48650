/** The line-by-line detailed-charges extractor of pro10.py: each line of the block
    is matched against four labels in turn, and the first label it contains decides
    which field group the line may set. */
module Lines {
  import opened Lex
  import opened Scan
  import opened Detailed

  /** `RM\s*([\d.,]+)` at the start of `t`. The whitespace run and the amount are
      each taken whole: nothing follows the amount, and a shorter whitespace run
      would leave whitespace where the amount must start. */
  function RmAmount(t: string): (r: Option<Hit<string>>)
    ensures r.Some? ==> 0 < r.value.len <= |t| && IsAmount(r.value.value)
  {
    if !HasPrefix(t, "RM") then None
    else
      var w := RunLen(t[2..], IsSpace);
      var l := RunLen(t[2 + w..], IsAmountChar);
      assert t[2 + w..2 + w + l] == t[2 + w..][..l];
      if l == 0 then None else Some(Hit(2 + w + l, t[2 + w..2 + w + l]))
  }

  /** A non-empty run of digits, '.' and ','. */
  predicate IsAmount(v: string) {
    |v| > 0 && All(v, IsAmountChar)
  }

  lemma RmAmountConsumes()
    ensures Consumes(RmAmount)
  {
  }

  /** The amounts of a line, in order: `re.findall(r"RM\s*([\d.,]+)", line)`. */
  function Tokens(line: string): (r: seq<string>)
    ensures forall k :: 0 <= k < |r| ==> IsAmount(r[k])
  {
    RmAmountConsumes();
    FindAllEvery(line, RmAmount, IsAmount);
    FindAll(line, RmAmount)
  }

  datatype Group = Usage | Icpt | Kwtbb | Current

  /** The label each branch of the if/elif chain tests for. */
  function Label(g: Group): string {
    match g
    case Usage => UsageLabel
    case Icpt => IcptLabel
    case Kwtbb => KwtbbLabel
    case Current => CurrentLabel
  }

  /** The position of a branch in the chain. */
  function Rank(g: Group): nat {
    match g
    case Usage => 0
    case Icpt => 1
    case Kwtbb => 2
    case Current => 3
  }

  /** The branch of the if/elif chain a line takes. */
  function Branch(line: string): Option<Group> {
    if Contains(line, UsageLabel) then Some(Usage)
    else if Contains(line, IcptLabel) then Some(Icpt)
    else if Contains(line, KwtbbLabel) then Some(Kwtbb)
    else if Contains(line, CurrentLabel) then Some(Current)
    else None
  }

  /** The branch a line takes is the first of the four labels, in the chain's
      order, that the line contains; no branch is taken only when it holds none. */
  lemma BranchIsFirstLabel(line: string)
    ensures Branch(line).Some? ==> Contains(line, Label(Branch(line).value))
    ensures forall g :: (Branch(line).None? || Rank(g) < Rank(Branch(line).value)) ==> !Contains(line, Label(g))
  {
  }

  /** One pass of the loop body. A line sets the group it qualifies for and leaves
      every other group as it was, so at most one group changes per line; a line
      holding none of the labels changes nothing. */
  function LineStep(d: DetailedCharges, line: string): (r: DetailedCharges)
    ensures forall g :: GroupOf(r, g) == if Sets(line, g).Some? then Sets(line, g).value else GroupOf(d, g)
    ensures Branch(line).None? ==> r == d
  {
    RmAmountConsumes();
    SearchIsFirstFound(line, RmAmount);
    StepOnEffect(d, Branch(line), Tokens(line), Search(line, RmAmount));
    StepOn(d, Branch(line), Tokens(line), Search(line, RmAmount))
  }

  /** The loop body given the branch taken, the line's amounts and its first match. */
  function StepOn(d: DetailedCharges, b: Option<Group>, values: seq<string>, first: Option<Hit<string>>): DetailedCharges {
    if b == Some(Usage) then
      if |values| >= 2 then d.(totalUsageNoSt := values[0], totalUsageSt := values[1]) else d
    else if b == Some(Icpt) then
      if |values| >= 2 then d.(icptNoSt := values[0], icptSt := values[1]) else d
    else if b == Some(Kwtbb) then
      if first.Some? then d.(kwtbb := first.value.value) else d
    else if b == Some(Current) then
      if first.Some? then d.(currentCharge := first.value.value) else d
    else d
  }

  /** The fields after the given lines, in order, starting from all "". */
  function ApplyLines(lines: seq<string>): DetailedCharges
    decreases |lines|
  {
    if lines == [] then Empty else LineStep(ApplyLines(lines[..|lines| - 1]), lines[|lines| - 1])
  }

  /** `extract_detailed_charges_data` of pro10.py. */
  method ExtractDetailedChargesData(detailedChargesText: string) returns (d: DetailedCharges)
    ensures d == ApplyLines(SplitLines(detailedChargesText))
  {
    var totalUsageNoSt, totalUsageSt, icptNoSt, icptSt, kwtbb, currentCharge := "", "", "", "", "", "";
    var lines := SplitLines(detailedChargesText);
    for i := 0 to |lines|
      invariant DetailedCharges(totalUsageNoSt, totalUsageSt, icptNoSt, icptSt, kwtbb, currentCharge) == ApplyLines(lines[..i])
    {
      var line := lines[i];
      assert lines[..i + 1][..i] == lines[..i];
      if Contains(line, UsageLabel) {
        var values := Tokens(line);
        if |values| >= 2 {
          totalUsageNoSt := values[0];
          totalUsageSt := values[1];
        }
      } else if Contains(line, IcptLabel) {
        var values := Tokens(line);
        if |values| >= 2 {
          icptNoSt := values[0];
          icptSt := values[1];
        }
      } else if Contains(line, KwtbbLabel) {
        var match_ := Search(line, RmAmount);
        if match_.Some? {
          kwtbb := match_.value.value;
        }
      } else if Contains(line, CurrentLabel) {
        var match_ := Search(line, RmAmount);
        if match_.Some? {
          currentCharge := match_.value.value;
        }
      }
    }
    assert lines[..|lines|] == lines;
    d := DetailedCharges(totalUsageNoSt, totalUsageSt, icptNoSt, icptSt, kwtbb, currentCharge);
  }

  // ---------------------------------------------------------------------------
  // Properties of the loop.

  /** The fields of one group; the one-field groups have "" as their second part. */
  function GroupOf(d: DetailedCharges, g: Group): (string, string) {
    match g
    case Usage => (d.totalUsageNoSt, d.totalUsageSt)
    case Icpt => (d.icptNoSt, d.icptSt)
    case Kwtbb => (d.kwtbb, "")
    case Current => (d.currentCharge, "")
  }

  /** What a line sets for group `g`, if anything: the first two amounts of a usage
      or ICPT line holding at least two, the first amount of a KWTBB or current
      charge line holding one. */
  function Sets(line: string, g: Group): Option<(string, string)> {
    SetsOn(Branch(line), Tokens(line), g)
  }

  function SetsOn(b: Option<Group>, values: seq<string>, g: Group): Option<(string, string)> {
    if b != Some(g) then None
    else if g == Usage || g == Icpt then (if |values| >= 2 then Some((values[0], values[1])) else None)
    else if |values| >= 1 then Some((values[0], ""))
    else None
  }

  /** StepOn for a first match that agrees with the amounts. */
  lemma StepOnEffect(d: DetailedCharges, b: Option<Group>, values: seq<string>, first: Option<Hit<string>>)
    requires first.None? <==> values == []
    requires first.Some? ==> values[0] == first.value.value
    ensures forall g :: GroupOf(StepOn(d, b, values, first), g) == if SetsOn(b, values, g).Some? then SetsOn(b, values, g).value else GroupOf(d, g)
    ensures b.None? ==> StepOn(d, b, values, first) == d
  {
  }

  /** One step, for one group, of the fold. */
  lemma StepAt(d: DetailedCharges, line: string, g: Group)
    ensures GroupOf(LineStep(d, line), g) == if Sets(line, g).Some? then Sets(line, g).value else GroupOf(d, g)
  {
  }

  /** Last wins: a group holds what the last line qualifying for it set. */
  lemma {:induction false} LastWins(lines: seq<string>, g: Group, j: nat)
    requires j < |lines| && Sets(lines[j], g).Some?
    requires forall k :: j < k < |lines| ==> Sets(lines[k], g).None?
    ensures GroupOf(ApplyLines(lines), g) == Sets(lines[j], g).value
    decreases |lines|
  {
    var n := |lines|;
    var prefix := lines[..n - 1];
    StepAt(ApplyLines(prefix), lines[n - 1], g);
    if j < n - 1 {
      assert forall k :: j < k < |prefix| ==> prefix[k] == lines[k];
      LastWins(prefix, g, j);
    }
  }

  /** A group no line qualifies for keeps its defaults. */
  lemma {:induction false} NeverSet(lines: seq<string>, g: Group)
    requires forall k :: 0 <= k < |lines| ==> Sets(lines[k], g).None?
    ensures GroupOf(ApplyLines(lines), g) == ("", "")
    decreases |lines|
  {
    if lines != [] {
      var prefix := lines[..|lines| - 1];
      StepAt(ApplyLines(prefix), lines[|lines| - 1], g);
      assert forall k :: 0 <= k < |prefix| ==> prefix[k] == lines[k];
      NeverSet(prefix, g);
    }
  }

  /** A field that is empty or an amount. */
  predicate EmptyOrAmount(v: string) {
    v == "" || IsAmount(v)
  }

  predicate AllFieldsAmounts(d: DetailedCharges) {
    && EmptyOrAmount(d.totalUsageNoSt) && EmptyOrAmount(d.totalUsageSt)
    && EmptyOrAmount(d.icptNoSt) && EmptyOrAmount(d.icptSt)
    && EmptyOrAmount(d.kwtbb) && EmptyOrAmount(d.currentCharge)
  }

  /** Every field the loop produces is "" or a run of digits, '.' and ',': a minus
      sign is never captured. */
  lemma {:induction false} FieldsAreAmounts(lines: seq<string>)
    ensures AllFieldsAmounts(ApplyLines(lines))
    decreases |lines|
  {
    if lines != [] {
      var line := lines[|lines| - 1];
      var d := ApplyLines(lines[..|lines| - 1]);
      FieldsAreAmounts(lines[..|lines| - 1]);
      var first := Search(line, RmAmount);
      if first.Some? {
        SearchIsMatch(line, RmAmount);
      }
      StepKeepsAmounts(d, Branch(line), Tokens(line), first);
    }
  }

  lemma StepKeepsAmounts(d: DetailedCharges, b: Option<Group>, values: seq<string>, first: Option<Hit<string>>)
    requires AllFieldsAmounts(d) && forall k :: 0 <= k < |values| ==> IsAmount(values[k])
    requires first.Some? ==> IsAmount(first.value.value)
    ensures AllFieldsAmounts(StepOn(d, b, values, first))
  {
  }

  /** A field never holds a minus sign. */
  lemma NoMinusSign(text: string)
    ensures '-' !in ApplyLines(SplitLines(text)).kwtbb && '-' !in ApplyLines(SplitLines(text)).currentCharge
    ensures '-' !in ApplyLines(SplitLines(text)).totalUsageNoSt && '-' !in ApplyLines(SplitLines(text)).totalUsageSt
    ensures '-' !in ApplyLines(SplitLines(text)).icptNoSt && '-' !in ApplyLines(SplitLines(text)).icptSt
  {
    var d := ApplyLines(SplitLines(text));
    FieldsAreAmounts(SplitLines(text));
    AmountHasNoMinus(d.totalUsageNoSt);
    AmountHasNoMinus(d.totalUsageSt);
    AmountHasNoMinus(d.icptNoSt);
    AmountHasNoMinus(d.icptSt);
    AmountHasNoMinus(d.kwtbb);
    AmountHasNoMinus(d.currentCharge);
  }

  lemma AmountHasNoMinus(v: string)
    requires EmptyOrAmount(v)
    ensures '-' !in v
  {
    forall k | 0 <= k < |v| ensures v[k] != '-' {
      assert IsAmountChar(v[k]);
    }
  }
}
