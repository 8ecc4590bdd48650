/** Month/charge lines as a bill writes them, and the proof that both
    `extract_months_and_charges` patterns read such a line back entry by entry. */
module MonthlyText {
  import opened Lex
  import opened Scan
  import opened Monthly

  /** One entry of the monthly-charges table, written month first ("JAN-24 RM120.50")
      or charge first ("RM120.50 JAN-24"), with or without the "(BS)" marker in
      front of the charge ("JAN-24 (BS) RM120.50", "(BS) RM120.50 JAN-24"). */
  datatype Entry = Entry(month: string, charge: string, monthFirst: bool, bs: bool)

  predicate ValidEntry(e: Entry) { IsMonth(e.month) && IsCharge(e.charge) }

  function Text(e: Entry): string {
    if e.monthFirst && e.bs then e.month + " (BS) " + e.charge
    else if e.monthFirst then e.month + " " + e.charge
    else if e.bs then "(BS) " + e.charge + " " + e.month
    else e.charge + " " + e.month
  }

  /** Each entry preceded by one space. */
  function Spaced(es: seq<Entry>): string
    decreases |es|
  {
    if es == [] then "" else " " + Text(es[0]) + Spaced(es[1..])
  }

  /** The entries separated by single spaces. */
  function Line(es: seq<Entry>): string {
    if es == [] then "" else Text(es[0]) + Spaced(es[1..])
  }

  /** The findall tuple of an entry: its groups go to the alternative of its order. */
  function GroupsOf(e: Entry): Groups {
    if e.monthFirst then Groups(e.month, e.charge, "", "") else Groups("", "", e.charge, e.month)
  }

  function AllGroups(es: seq<Entry>): (r: seq<Groups>)
    ensures |r| == |es|
    ensures forall i :: 0 <= i < |es| ==> r[i] == GroupsOf(es[i])
    decreases |es|
  {
    if es == [] then [] else [GroupsOf(es[0])] + AllGroups(es[1..])
  }

  function AllPairs(es: seq<Entry>): (r: seq<(string, string)>)
    ensures |r| == |es|
    ensures forall i :: 0 <= i < |es| ==> r[i] == (es[i].month, es[i].charge)
    decreases |es|
  {
    if es == [] then [] else [(es[0].month, es[0].charge)] + AllPairs(es[1..])
  }

  /** Spaced text is empty or begins with a space. */
  lemma SpacedStart(es: seq<Entry>)
    ensures Spaced(es) == [] || Spaced(es)[0] == ' '
  {
  }

  // ---------------------------------------------------------------------------
  // What each pattern does at the start of an entry.

  /** A month-first entry is matched whole by the month-first patterns. */
  lemma MonthFirstEntry(s: string, m: string, c: string, tail: string)
    requires IsMonth(m) && IsCharge(c)
    requires tail == [] || tail[0] == ' '
    requires s == m + " " + c + tail
    ensures MonthFirst(s) == Some(Hit(7 + |c|, (m, c)))
  {
    assert s[..6] == m;
    var u := s[6..];
    assert u == " " + (c + tail);
    assert u[0..] == u;
    RunLenConcat(" ", c + tail, IsSpace);
    assert u[1..] == c + tail;
    assert !HasPrefix(u[1..], BS) by {
      assert u[1..][0] == c[0];
    }
    assert Gap(u) == 1;
    assert s[7..] == c + tail;
    RunLenConcat(c, tail, IsChargeChar);
    assert (c + tail)[..|c|] == c;
  }

  /** A month-first entry with the marker is matched whole too: the gap takes the
      spaces around "(BS)". */
  lemma MonthFirstMarkedEntry(s: string, m: string, c: string, tail: string)
    requires IsMonth(m) && IsCharge(c)
    requires tail == [] || tail[0] == ' '
    requires s == m + " (BS) " + c + tail
    ensures MonthFirst(s) == Some(Hit(12 + |c|, (m, c)))
  {
    assert s[..6] == m;
    assert s[6..] == " (BS) " + (c + tail);
    MarkedGap(s[6..], c + tail);
    assert s[12..] == c + tail;
    RunLenConcat(c, tail, IsChargeChar);
    assert (c + tail)[..|c|] == c;
  }

  /** The gap takes " (BS) " whole. */
  lemma MarkedGap(u: string, rest: string)
    requires |rest| > 0 && !IsSpace(rest[0])
    requires u == " (BS) " + rest
    ensures Gap(u) == 6
  {
    assert u == " " + ("(BS) " + rest);
    RunLenConcat(" ", "(BS) " + rest, IsSpace);
    assert u[1..][..4] == BS;
    assert u[5..] == " " + rest;
    RunLenConcat(" ", rest, IsSpace);
  }

  /** A charge-first entry is not matched by the month-first alternative: no
      month starts at a charge... */
  lemma NoMonthAtCharge(s: string, c: string, m: string, tail: string)
    requires IsMonth(m) && IsCharge(c)
    requires s == c + " " + m + tail
    ensures MonthFirstAlt(s).None?
  {
    assert s[0] == c[0];
    assert |c| >= 4 ==> s[3] == c[3];
    assert |c| <= 3 ==> s[|c|] == ' ';
    assert s[..6][0] == s[0] && s[..6][1] == s[1] && s[..6][2] == s[2] && s[..6][3] == s[3];
  }

  /** Nor does one start at a space or at the marker. */
  lemma NoMonthAtNonUpper(s: string)
    requires |s| > 0 && !IsUpper(s[0])
    ensures MonthFirstAlt(s).None?
  {
    assert |s| >= 6 ==> s[..6][0] == s[0];
  }

  /** ... and is matched whole by the charge-first alternative. */
  lemma ChargeFirstEntry(s: string, c: string, m: string, tail: string)
    requires IsMonth(m) && IsCharge(c)
    requires s == c + " " + m + tail
    ensures ChargeFirst(s) == Some(Hit(|c| + 7, (c, m)))
  {
    assert s[0] == c[0];
    SkipAtChargeChar(s);
    assert s[0..] == c + (" " + (m + tail));
    ChargeAtEntry(s, 0, c, m, tail);
  }

  /** The same with a space in front. */
  lemma ChargeFirstSpacedEntry(s: string, c: string, m: string, tail: string)
    requires IsMonth(m) && IsCharge(c)
    requires s == " " + c + " " + m + tail
    ensures ChargeFirst(s) == Some(Hit(|c| + 8, (c, m)))
  {
    assert s == " " + (c + " " + m + tail);
    SkipSpace(s, c + " " + m + tail);
    assert s[1..] == c + (" " + (m + tail));
    ChargeAtEntry(s, 1, c, m, tail);
  }

  /** The same behind the marker: the optional `(BS)` and the spaces are taken
      before the charge. */
  lemma ChargeFirstMarkedEntry(s: string, c: string, m: string, tail: string)
    requires IsMonth(m) && IsCharge(c)
    requires s == "(BS) " + c + " " + m + tail
    ensures ChargeFirst(s) == Some(Hit(|c| + 12, (c, m)))
  {
    assert s == "(BS) " + (c + " " + m + tail);
    SkipMarker(s, c + " " + m + tail);
    assert s[5..] == c + (" " + (m + tail));
    ChargeAtEntry(s, 5, c, m, tail);
  }

  /** Nothing is skipped before a charge character. */
  lemma SkipAtChargeChar(s: string)
    requires |s| > 0 && IsChargeChar(s[0])
    ensures MarkerSkip(s) == 0
  {
    assert !HasPrefix(s, BS) by {
      assert |s| >= 4 ==> s[..4][0] == s[0];
    }
    assert s[0..] == s;
  }

  /** One space is skipped before a charge character. */
  lemma SkipSpace(s: string, rest: string)
    requires s == " " + rest && |rest| > 0 && IsChargeChar(rest[0])
    ensures MarkerSkip(s) == 1
  {
    assert !HasPrefix(s, BS) by {
      assert |s| >= 4 ==> s[..4][0] == ' ';
    }
    assert s[0..] == s;
    RunLenConcat(" ", rest, IsSpace);
  }

  /** The marker and one space are skipped before a charge character. */
  lemma SkipMarker(s: string, rest: string)
    requires s == "(BS) " + rest && |rest| > 0 && IsChargeChar(rest[0])
    ensures MarkerSkip(s) == 5
  {
    assert HasPrefix(s, BS) by {
      assert s[..4] == BS;
    }
    assert s[4..] == " " + rest;
    RunLenConcat(" ", rest, IsSpace);
  }

  /** A charge, one space and a month at offset `p`. */
  lemma ChargeAtEntry(s: string, p: nat, c: string, m: string, tail: string)
    requires IsMonth(m) && IsCharge(c)
    requires p <= |s| && s[p..] == c + (" " + (m + tail))
    ensures ChargeAt(s, p) == Some(Hit(p + |c| + 7, (c, m)))
  {
    ChargeRunIs(s, p, c, " " + (m + tail));
    MonthBehind(s, p, c, m, tail);
  }

  /** The charge characters at offset `p` are exactly `c`. */
  lemma ChargeRunIs(s: string, p: nat, c: string, rest: string)
    requires IsCharge(c) && (rest == [] || !IsChargeChar(rest[0]))
    requires p <= |s| && s[p..] == c + rest
    ensures RunLen(s[p..], IsChargeChar) == |c|
    ensures p + |c| <= |s| && s[p..p + |c|] == c && s[p + |c|..] == rest
  {
    RunLenConcat(c, rest, IsChargeChar);
    assert s[p..p + |c|] == s[p..][..|c|];
    assert s[p + |c|..] == s[p..][|c|..];
  }

  /** A month one space behind the charge `c` at offset `p` ends the run there. */
  lemma MonthBehind(s: string, p: nat, c: string, m: string, tail: string)
    requires IsMonth(m) && |c| > 0
    requires p + |c| <= |s| && s[p..p + |c|] == c && s[p + |c|..] == " " + (m + tail)
    ensures ChargeRun(s, p, |c|) == Some(Hit(p + |c| + 7, (c, m)))
  {
    var q := p + |c|;
    RunLenConcat(" ", m + tail, IsSpace);
    assert s[q + 1..q + 7] == s[q..][1..7];
    assert s[q..][1..7] == m;
  }

  /** Nothing matches at the space before a marked charge-first entry: "(" is not
      a charge character, so the charge run there is empty. */
  lemma NothingBeforeMarked(c: string, m: string, tail: string)
    requires IsMonth(m) && IsCharge(c)
    ensures BothOrders(" (BS) " + c + " " + m + tail).None?
  {
    var s := " (BS) " + c + " " + m + tail;
    NoMonthAtNonUpper(s);
    assert !HasPrefix(s, BS) by {
      assert s[..4][0] == ' ';
    }
    assert s[0..] == s;
    assert s == " " + ("(BS) " + c + " " + m + tail);
    RunLenConcat(" ", "(BS) " + c + " " + m + tail, IsSpace);
    assert s[1..][0] == '(';
    assert RunLen(s[1..], IsChargeChar) == 0;
  }

  /** A month-first entry, marked or not, is matched whole by both month-first
      patterns. */
  lemma EntryMonthFirst(e: Entry, tail: string)
    requires ValidEntry(e) && e.monthFirst
    requires tail == [] || tail[0] == ' '
    ensures MonthFirst(Text(e) + tail) == Some(Hit(|Text(e)|, (e.month, e.charge)))
    ensures MonthFirstAlt(Text(e) + tail) == Some(Hit(|Text(e)|, (e.month, e.charge)))
  {
    MonthFirstText(e, tail);
    AlternativesAgree(Text(e) + tail);
  }

  lemma MonthFirstText(e: Entry, tail: string)
    requires ValidEntry(e) && e.monthFirst
    requires tail == [] || tail[0] == ' '
    ensures MonthFirst(Text(e) + tail) == Some(Hit(|Text(e)|, (e.month, e.charge)))
  {
    if e.bs {
      MonthFirstMarkedEntry(Text(e) + tail, e.month, e.charge, tail);
    } else {
      MonthFirstEntry(Text(e) + tail, e.month, e.charge, tail);
    }
  }

  /** A charge-first entry, marked or not, is missed by the first alternative and
      matched whole by the second. */
  lemma EntryChargeFirst(e: Entry, tail: string)
    requires ValidEntry(e) && !e.monthFirst
    ensures MonthFirstAlt(Text(e) + tail).None?
    ensures ChargeFirst(Text(e) + tail) == Some(Hit(|Text(e)|, (e.charge, e.month)))
  {
    var s := Text(e) + tail;
    if e.bs {
      assert s[0] == '(';
      NoMonthAtNonUpper(s);
      ChargeFirstMarkedEntry(s, e.charge, e.month, tail);
    } else {
      NoMonthAtCharge(s, e.charge, e.month, tail);
      ChargeFirstEntry(s, e.charge, e.month, tail);
    }
  }

  /** The whole pattern at the start of an entry... */
  lemma BothOrdersAtEntry(e: Entry, tail: string)
    requires ValidEntry(e)
    requires tail == [] || tail[0] == ' '
    ensures BothOrders(Text(e) + tail) == Some(Hit(|Text(e)|, GroupsOf(e)))
  {
    if e.monthFirst {
      EntryMonthFirst(e, tail);
    } else {
      EntryChargeFirst(e, tail);
    }
  }

  /** ... and at the space before a charge-first entry without the marker. */
  lemma BothOrdersAtSpacedCharge(e: Entry, tail: string)
    requires ValidEntry(e) && !e.monthFirst && !e.bs
    ensures BothOrders(" " + Text(e) + tail) == Some(Hit(1 + |Text(e)|, GroupsOf(e)))
  {
    var s := " " + Text(e) + tail;
    assert s == " " + e.charge + " " + e.month + tail;
    NoMonthAtNonUpper(s);
    ChargeFirstSpacedEntry(s, e.charge, e.month, tail);
  }

  /** Nothing matches at the space before a month followed by a space: a charge run
      starting at the month is at most its three letters, and no month starts
      inside it. */
  lemma NothingBeforeMonth(m: string, rest: string)
    requires IsMonth(m) && |rest| > 0 && rest[0] == ' '
    ensures MonthFirst(" " + m + rest).None?
    ensures BothOrders(" " + m + rest).None?
  {
    var s := " " + m + rest;
    assert s[..6][0] == ' ';
    assert !HasPrefix(s, BS) by {
      assert s[..4][0] == ' ';
    }
    assert s[0..] == s;
    RunLenConcat(" ", m + rest, IsSpace);
    assert s == " " + (m + rest);
    assert s[1..] == m + rest;
    assert s[1..][3] == '-';
    RunStopsAt(s[1..], IsChargeChar, 3);
    NoMonthInRun(s, m, RunLen(s[1..], IsChargeChar));
  }

  /** Nothing matches at the space before a month-first entry. */
  lemma NothingBeforeEntry(e: Entry, tail: string)
    requires ValidEntry(e) && e.monthFirst
    ensures MonthFirst(" " + Text(e) + tail).None?
    ensures BothOrders(" " + Text(e) + tail).None?
  {
    var rest := (if e.bs then " (BS) " else " ") + e.charge + tail;
    assert " " + Text(e) + tail == " " + e.month + rest;
    NothingBeforeMonth(e.month, rest);
  }

  /** Nothing matches at the space before an entry that starts with a month or
      with the marker. */
  lemma NothingBeforeText(e: Entry, tail: string)
    requires ValidEntry(e) && (e.monthFirst || e.bs)
    ensures BothOrders(" " + Text(e) + tail).None?
  {
    if e.monthFirst {
      NothingBeforeEntry(e, tail);
    } else {
      assert " " + Text(e) + tail == " (BS) " + e.charge + " " + e.month + tail;
      NothingBeforeMarked(e.charge, e.month, tail);
    }
  }

  /** ChargeRun finds no month behind any prefix of the month's letters. */
  lemma {:induction false} NoMonthInRun(s: string, m: string, n: nat)
    requires IsMonth(m) && n <= 3
    requires |s| >= 8 && s[1..7] == m && s[7] == ' '
    ensures ChargeRun(s, 1, n).None?
    decreases n
  {
    if n > 0 {
      var q := 1 + n;
      assert s[q] == m[n];
      assert s[q..][0] == s[q];
      assert RunLen(s[q..], IsSpace) == 0;
      assert s[q + 3] != '-' by {
        assert q + 3 <= 6 ==> s[q + 3] == m[q + 2];
      }
      assert q + 6 <= |s| ==> s[q..q + 6][3] == s[q + 3];
      NoMonthInRun(s, m, n - 1);
    }
  }

  // ---------------------------------------------------------------------------
  // Whole lines.

  /** Findall over an entry and what follows it. */
  lemma {:induction false} LineStep(e: Entry, rest: string)
    requires ValidEntry(e)
    requires rest == [] || rest[0] == ' '
    ensures Consumes(BothOrders)
    ensures FindAll(Text(e) + rest, BothOrders) == [GroupsOf(e)] + FindAll(rest, BothOrders)
  {
    MatchersConsume();
    BothOrdersAtEntry(e, rest);
    FindAllHit(Text(e) + rest, BothOrders, Hit(|Text(e)|, GroupsOf(e)));
    DropConcat(Text(e), rest);
  }

  /** Findall over a space, an entry and what follows. */
  lemma {:induction false} SpacedStep(e: Entry, rest: string)
    requires ValidEntry(e)
    requires rest == [] || rest[0] == ' '
    ensures Consumes(BothOrders)
    ensures FindAll(" " + Text(e) + rest, BothOrders) == [GroupsOf(e)] + FindAll(rest, BothOrders)
  {
    MatchersConsume();
    var s := " " + Text(e) + rest;
    ConcatAssoc(" ", Text(e), rest);
    DropConcat(" ", Text(e) + rest);
    if e.monthFirst || e.bs {
      NothingBeforeText(e, rest);
      FindAllMiss(s, BothOrders);
      LineStep(e, rest);
    } else {
      BothOrdersAtSpacedCharge(e, rest);
      FindAllHit(s, BothOrders, Hit(1 + |Text(e)|, GroupsOf(e)));
      DropConcat(" ", Text(e) + rest);
      DropConcat(Text(e), rest);
      assert s[1 + |Text(e)|..] == (Text(e) + rest)[|Text(e)|..];
    }
  }

  /** Both-orders parsing of spaced entries returns their tuples in order. */
  lemma {:induction false} SpacedParses(es: seq<Entry>)
    requires forall i :: 0 <= i < |es| ==> ValidEntry(es[i])
    ensures Consumes(BothOrders)
    ensures FindAll(Spaced(es), BothOrders) == AllGroups(es)
    decreases |es|
  {
    MatchersConsume();
    if es != [] {
      SpacedStart(es[1..]);
      SpacedParses(es[1..]);
      SpacedStep(es[0], Spaced(es[1..]));
      assert AllGroups(es) == [GroupsOf(es[0])] + AllGroups(es[1..]);
    }
  }

  /** A line of entries in either order is read back by the dropdown app's pattern
      one tuple per entry, in order. */
  lemma {:induction false} LineParses(es: seq<Entry>)
    requires forall i :: 0 <= i < |es| ==> ValidEntry(es[i])
    ensures Consumes(BothOrders)
    ensures FindAll(Line(es), BothOrders) == AllGroups(es)
  {
    MatchersConsume();
    if es != [] {
      SpacedStart(es[1..]);
      SpacedParses(es[1..]);
      LineStep(es[0], Spaced(es[1..]));
      assert AllGroups(es) == [GroupsOf(es[0])] + AllGroups(es[1..]);
    }
  }

  /** So the dropdown app's extractor returns exactly the entries' months and
      charges, whichever order each entry was written in. */
  lemma LineMonthsAndCharges(es: seq<Entry>)
    requires forall i :: 0 <= i < |es| ==> ValidEntry(es[i])
    ensures Consumes(BothOrders)
    ensures |FindAll(Line(es), BothOrders)| == |es|
    ensures forall i :: 0 <= i < |es| ==>
      MonthOf(FindAll(Line(es), BothOrders)[i]) == es[i].month && ChargeOf(FindAll(Line(es), BothOrders)[i]) == es[i].charge
  {
    LineParses(es);
  }

  /** Month-first findall over a month-first entry and what follows it. */
  lemma {:induction false} LineStepMonthFirst(e: Entry, rest: string)
    requires ValidEntry(e) && e.monthFirst
    requires rest == [] || rest[0] == ' '
    ensures Consumes(MonthFirst)
    ensures FindAll(Text(e) + rest, MonthFirst) == [(e.month, e.charge)] + FindAll(rest, MonthFirst)
  {
    MatchersConsume();
    EntryMonthFirst(e, rest);
    FindAllHit(Text(e) + rest, MonthFirst, Hit(|Text(e)|, (e.month, e.charge)));
    DropConcat(Text(e), rest);
  }

  lemma {:induction false} SpacedStepMonthFirst(e: Entry, rest: string)
    requires ValidEntry(e) && e.monthFirst
    requires rest == [] || rest[0] == ' '
    ensures Consumes(MonthFirst)
    ensures FindAll(" " + Text(e) + rest, MonthFirst) == [(e.month, e.charge)] + FindAll(rest, MonthFirst)
  {
    MatchersConsume();
    var s := " " + Text(e) + rest;
    ConcatAssoc(" ", Text(e), rest);
    DropConcat(" ", Text(e) + rest);
    NothingBeforeEntry(e, rest);
    FindAllMiss(s, MonthFirst);
    LineStepMonthFirst(e, rest);
  }

  /** Month-first parsing of spaced month-first entries returns their pairs. */
  lemma {:induction false} SpacedParsesMonthFirst(es: seq<Entry>)
    requires forall i :: 0 <= i < |es| ==> ValidEntry(es[i]) && es[i].monthFirst
    ensures Consumes(MonthFirst)
    ensures FindAll(Spaced(es), MonthFirst) == AllPairs(es)
    decreases |es|
  {
    MatchersConsume();
    if es != [] {
      SpacedStart(es[1..]);
      SpacedParsesMonthFirst(es[1..]);
      SpacedStepMonthFirst(es[0], Spaced(es[1..]));
      assert AllPairs(es) == [(es[0].month, es[0].charge)] + AllPairs(es[1..]);
    }
  }

  /** A line of month-first entries is read back by the month-first pattern of
      pro16.py, app.py and pro5.py pair by pair. */
  lemma {:induction false} LineParsesMonthFirst(es: seq<Entry>)
    requires forall i :: 0 <= i < |es| ==> ValidEntry(es[i]) && es[i].monthFirst
    ensures Consumes(MonthFirst)
    ensures FindAll(Line(es), MonthFirst) == AllPairs(es)
  {
    MatchersConsume();
    if es != [] {
      SpacedStart(es[1..]);
      SpacedParsesMonthFirst(es[1..]);
      LineStepMonthFirst(es[0], Spaced(es[1..]));
      assert AllPairs(es) == [(es[0].month, es[0].charge)] + AllPairs(es[1..]);
    }
  }

  const ExampleEntries := [Entry("JAN-24", "RM120.50", true, false), Entry("FEB-24", "RM135.00", true, false)]

  lemma ExampleLine()
    ensures forall i :: 0 <= i < |ExampleEntries| ==> ValidEntry(ExampleEntries[i]) && ExampleEntries[i].monthFirst
    ensures Line(ExampleEntries) == "JAN-24 RM120.50 FEB-24 RM135.00"
    ensures AllPairs(ExampleEntries) == [("JAN-24", "RM120.50"), ("FEB-24", "RM135.00")]
  {
    var e0, e1 := ExampleEntries[0], ExampleEntries[1];
    assert ValidEntry(e0) && ValidEntry(e1);
    assert Text(e0) == "JAN-24 RM120.50" && Text(e1) == "FEB-24 RM135.00";
    assert ExampleEntries[1..] == [e1] && [e1][1..] == [];
  }

  /** "JAN-24 RM120.50 FEB-24 RM135.00" gives months [JAN-24, FEB-24] and charges
      [RM120.50, RM135.00]. */
  lemma Example()
    ensures Consumes(MonthFirst)
    ensures FindAll("JAN-24 RM120.50 FEB-24 RM135.00", MonthFirst) == [("JAN-24", "RM120.50"), ("FEB-24", "RM135.00")]
  {
    ExampleLine();
    LineParsesMonthFirst(ExampleEntries);
  }

  /** "JAN-24 (BS) RM120.50" gives the pair (JAN-24, RM120.50) with either pattern. */
  lemma MarkedMonthFirstExample()
    ensures Consumes(BothOrders) && Consumes(MonthFirst)
    ensures FindAll("JAN-24 (BS) RM120.50", BothOrders) == [Groups("JAN-24", "RM120.50", "", "")]
    ensures FindAll("JAN-24 (BS) RM120.50", MonthFirst) == [("JAN-24", "RM120.50")]
  {
    var e := Entry("JAN-24", "RM120.50", true, true);
    assert ValidEntry(e);
    assert Text(e) + [] == "JAN-24 (BS) RM120.50";
    LineStep(e, []);
    LineStepMonthFirst(e, []);
  }

  /** "(BS) RM120.50 JAN-24" gives the charge-first tuple of RM120.50 and JAN-24. */
  lemma MarkedChargeFirstExample()
    ensures Consumes(BothOrders)
    ensures FindAll("(BS) RM120.50 JAN-24", BothOrders) == [Groups("", "", "RM120.50", "JAN-24")]
  {
    var e := Entry("JAN-24", "RM120.50", false, true);
    assert ValidEntry(e);
    assert Text(e) + [] == "(BS) RM120.50 JAN-24";
    LineStep(e, []);
  }
}
