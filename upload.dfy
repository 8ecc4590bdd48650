/** What the upload routes do with the parsed pairs: the dashboard's
    store-or-reject decision (app.py, app-version-dropdown-menu/app.py) and the
    isolated-text file of pro5.py. Storage and files themselves are not modelled,
    only the value that would be stored or written. */
module Upload {
  import opened Lex
  import opened Scan
  import opened Blocks
  import opened Monthly

  /** The document `dashboard` inserts into the bills collection. */
  datatype BillDocument = BillDocument(username: string, months: seq<string>, charges: seq<string>)

  /** `if months and charges:` — a document holding exactly the parser's lists, or
      nothing when either list is empty. */
  function StoreDecision(username: string, months: seq<string>, charges: seq<string>): (r: Option<BillDocument>)
    ensures r.Some? <==> months != [] && charges != []
    ensures r.Some? ==> r.value == BillDocument(username, months, charges)
  {
    if months != [] && charges != [] then Some(BillDocument(username, months, charges)) else None
  }

  function Months(pairs: seq<(string, string)>): (r: seq<string>)
    ensures |r| == |pairs| && forall i :: 0 <= i < |pairs| ==> r[i] == pairs[i].0
    decreases |pairs|
  {
    if pairs == [] then [] else [pairs[0].0] + Months(pairs[1..])
  }

  function Charges(pairs: seq<(string, string)>): (r: seq<string>)
    ensures |r| == |pairs| && forall i :: 0 <= i < |pairs| ==> r[i] == pairs[i].1
    decreases |pairs|
  {
    if pairs == [] then [] else [pairs[0].1] + Charges(pairs[1..])
  }

  /** The pairs app.py's dashboard gets from a bill's text: the `&`-terminated
      monthly block parsed month first. */
  function AppPairs(pdfText: string): seq<(string, string)> {
    MatchersConsume();
    FindAll(MonthlyChargesBlockAmp(pdfText), MonthFirst)
  }

  /** What app.py's dashboard stores for a bill's text: a document exactly when
      the month-first parse of the `&`-terminated block finds a pair, holding the
      user and the pairs found, in order. */
  function AppUpload(username: string, pdfText: string): (r: Option<BillDocument>)
    ensures r.Some? <==> AppPairs(pdfText) != []
    ensures r.Some? ==> r.value.username == username
    ensures r.Some? ==> |r.value.months| == |r.value.charges| == |AppPairs(pdfText)|
    ensures r.Some? ==> forall i :: 0 <= i < |AppPairs(pdfText)| ==> (r.value.months[i], r.value.charges[i]) == AppPairs(pdfText)[i]
  {
    var pairs := AppPairs(pdfText);
    StoreDecision(username, Months(pairs), Charges(pairs))
  }

  /** A bill without the monthly block stores nothing: the sentinel parses to no
      pairs, and the route flashes its failure message. */
  lemma NoBlockNoDocument(username: string, pdfText: string)
    ensures !HasBlock(pdfText, MonthlyStart, AverageAmpEnd) ==> AppUpload(username, pdfText).None?
  {
    if !HasBlock(pdfText, MonthlyStart, AverageAmpEnd) {
      SentinelNoPairs();
    }
  }

  /** A stored document holds as many months as charges, all well formed, and comes
      from a bill that has the monthly block. */
  lemma StoredDocumentShape(username: string, pdfText: string)
    requires AppUpload(username, pdfText).Some?
    ensures var d := AppUpload(username, pdfText).value;
      && d.username == username
      && |d.months| == |d.charges| > 0
      && (forall i :: 0 <= i < |d.months| ==> IsMonth(d.months[i]) && IsCharge(d.charges[i]))
      && HasBlock(pdfText, MonthlyStart, AverageAmpEnd)
  {
    var pairs := AppPairs(pdfText);
    MonthFirstWellFormed(MonthlyChargesBlockAmp(pdfText));
    forall i | 0 <= i < |pairs| ensures IsMonth(Months(pairs)[i]) && IsCharge(Charges(pairs)[i]) {
      assert IsPair(pairs[i]);
    }
    NoBlockNoDocument(username, pdfText);
  }

  // ---------------------------------------------------------------------------
  // The dropdown app's dashboard (app-version-dropdown-menu/app.py).

  function MonthsOf(gs: seq<Groups>): (r: seq<string>)
    ensures |r| == |gs| && forall i :: 0 <= i < |gs| ==> r[i] == MonthOf(gs[i])
    decreases |gs|
  {
    if gs == [] then [] else [MonthOf(gs[0])] + MonthsOf(gs[1..])
  }

  function ChargesOf(gs: seq<Groups>): (r: seq<string>)
    ensures |r| == |gs| && forall i :: 0 <= i < |gs| ==> r[i] == ChargeOf(gs[i])
    decreases |gs|
  {
    if gs == [] then [] else [ChargeOf(gs[0])] + ChargesOf(gs[1..])
  }

  /** The tuples the dropdown app's dashboard gets from a bill's text. */
  function DropdownTuples(pdfText: string): seq<Groups> {
    MatchersConsume();
    FindAll(MonthlyChargesBlock(pdfText), BothOrders)
  }

  /** What the dropdown app's dashboard stores for a bill's text: a document
      exactly when the two-order parse of the monthly block finds a tuple, holding
      the user and each tuple's month and charge, in order. */
  function DropdownUpload(username: string, pdfText: string): (r: Option<BillDocument>)
    ensures r.Some? <==> DropdownTuples(pdfText) != []
    ensures r.Some? ==> r.value.username == username
    ensures r.Some? ==> |r.value.months| == |r.value.charges| == |DropdownTuples(pdfText)|
    ensures r.Some? ==> forall i :: 0 <= i < |DropdownTuples(pdfText)| ==>
      r.value.months[i] == MonthOf(DropdownTuples(pdfText)[i]) && r.value.charges[i] == ChargeOf(DropdownTuples(pdfText)[i])
  {
    var gs := DropdownTuples(pdfText);
    StoreDecision(username, MonthsOf(gs), ChargesOf(gs))
  }

  lemma DropdownNoBlockNoDocument(username: string, pdfText: string)
    ensures !HasBlock(pdfText, MonthlyStart, AverageEnd) ==> DropdownUpload(username, pdfText).None?
  {
    if !HasBlock(pdfText, MonthlyStart, AverageEnd) {
      SentinelNoPairs();
    }
  }

  lemma DropdownStoredDocumentShape(username: string, pdfText: string)
    requires DropdownUpload(username, pdfText).Some?
    ensures var d := DropdownUpload(username, pdfText).value;
      && d.username == username
      && |d.months| == |d.charges| > 0
      && (forall i :: 0 <= i < |d.months| ==> IsMonth(d.months[i]) && IsCharge(d.charges[i]))
      && HasBlock(pdfText, MonthlyStart, AverageEnd)
  {
    var gs := DropdownTuples(pdfText);
    BothOrdersWellFormed(MonthlyChargesBlock(pdfText));
    forall i | 0 <= i < |gs| ensures IsMonth(MonthsOf(gs)[i]) && IsCharge(ChargesOf(gs)[i]) {
      assert WellFormed(gs[i]);
    }
    DropdownNoBlockNoDocument(username, pdfText);
  }

  // ---------------------------------------------------------------------------
  // pro5.py's isolated-text file.

  /** No string of the list holds a line break. */
  predicate LineFree(xs: seq<string>) {
    forall i :: 0 <= i < |xs| ==> All(xs[i], IsLineChar)
  }

  /** The text pro5.py writes: "Months:", the months joined by ", ", "Charges:",
      the charges joined by ", ", each on its own line. Read back line by line, it
      gives those four lines again, as long as no month or charge holds a line
      break (none of those the parser returns do). */
  function IsolatedText(months: seq<string>, charges: seq<string>): (r: string)
    ensures LineFree(months) && LineFree(charges) ==>
      SplitLines(r) == ["Months:", Join(months, ", "), "Charges:", Join(charges, ", ")]
  {
    var lines := ["Months:", Join(months, ", "), "Charges:", Join(charges, ", ")];
    if LineFree(months) && LineFree(charges) then
      JoinAll(months, ", ", IsLineChar);
      JoinAll(charges, ", ", IsLineChar);
      SplitWrittenLines(lines);
      WriteLines(lines)
    else
      WriteLines(lines)
  }

  /** Parsed tokens never hold a line break. */
  lemma TokensAreLineFree(s: string)
    ensures IsMonth(s) || IsCharge(s) ==> All(s, IsLineChar)
  {
  }

  /** The file pro5.py writes for a bill's text: its lines are the headings and
      the months and charges the month-first parse of the `&`-terminated block
      found. */
  function Pro5File(pdfText: string): (r: string)
    ensures Consumes(MonthFirst)
    ensures var pairs := FindAll(MonthlyChargesBlockAmp(pdfText), MonthFirst);
      SplitLines(r) == ["Months:", Join(Months(pairs), ", "), "Charges:", Join(Charges(pairs), ", ")]
  {
    MatchersConsume();
    var pairs := FindAll(MonthlyChargesBlockAmp(pdfText), MonthFirst);
    MonthFirstWellFormed(MonthlyChargesBlockAmp(pdfText));
    PairsLineFree(pairs);
    IsolatedText(Months(pairs), Charges(pairs))
  }

  /** The months and charges of well-formed pairs hold no line break. */
  lemma PairsLineFree(pairs: seq<(string, string)>)
    requires forall k :: 0 <= k < |pairs| ==> IsPair(pairs[k])
    ensures LineFree(Months(pairs)) && LineFree(Charges(pairs))
  {
    forall i | 0 <= i < |pairs| ensures All(Months(pairs)[i], IsLineChar) && All(Charges(pairs)[i], IsLineChar) {
      TokensAreLineFree(pairs[i].0);
      TokensAreLineFree(pairs[i].1);
    }
  }

  /** Without the monthly block pro5.py's file holds the two headings and two empty
      lines. */
  lemma Pro5FileWithoutBlock(pdfText: string)
    requires !HasBlock(pdfText, MonthlyStart, AverageAmpEnd)
    ensures SplitLines(Pro5File(pdfText)) == ["Months:", "", "Charges:", ""]
  {
    SentinelNoPairs();
    assert MonthlyChargesBlockAmp(pdfText) == NoChargesSection;
    assert Months([]) == [] && Charges([]) == [];
  }
}
