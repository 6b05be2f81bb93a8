/** Driver codes and invoice numbers: the sequences that migration 0021 sets up, their lpad column defaults,
    and the max-plus-one codes that demo_data.py inserts beside them. */
module CodeAllocator {
  import opened Outcomes
  import opened Numerals

  /** A PostgreSQL sequence: its last value and whether nextval has returned it. */
  datatype Sequence = Sequence(last: nat, isCalled: bool) {
    function Upcoming(): nat {
      if isCalled then last + 1 else last
    }
  }

  datatype Kind = Kind(prefix: string, width: nat)

  const DRIVER := Kind("DR-", 3)
  const INVOICE := Kind("INV-", 6)

  /** The codes present in the table, and the sequence behind the column default. */
  datatype Table = Table(codes: set<string>, counter: Sequence)

  // ---- Parsing ----

  /** regexp_match(code, '^<prefix>(\d+)$') as a number. */
  function Suffix(prefix: string, code: string): Option<nat> {
    if prefix <= code && |code| > |prefix| && AllDigits(code[|prefix|..]) then Some(Value(code[|prefix|..])) else None
  }

  /** trim(code) */
  function Trim(code: string): string {
    if code != [] && code[0] == ' ' then Trim(code[1..])
    else if code != [] && code[|code| - 1] == ' ' then Trim(code[..|code| - 1])
    else code
  }

  function Suffixes(prefix: string, codes: set<string>): set<nat> {
    set c | c in codes && Suffix(prefix, c).Some? :: Suffix(prefix, c).value
  }

  function TrimmedSuffixes(prefix: string, codes: set<string>): set<nat> {
    set c | c in codes && Suffix(prefix, Trim(c)).Some? :: Suffix(prefix, Trim(c)).value
  }

  /** SQL MAX: NULL over no rows. */
  ghost function Max(ns: set<nat>): (m: Option<nat>)
    ensures m.None? <==> ns == {}
    ensures m.Some? ==> m.value in ns && forall n :: n in ns ==> n <= m.value
  {
    if ns == {} then None
    else
      var n :| n in ns;
      var rest := ns - {n};
      assert forall k :: k in ns ==> k in rest || k == n;
      match Max(rest)
      case None => Some(n)
      case Some(k) => Some(if n < k then k else n)
  }

  // ---- The steps ----

  function DefaultCode(kind: Kind, n: nat): string {
    kind.prefix + PadLpad(n, kind.width)
  }

  function ScriptCode(n: nat): string {
    DRIVER.prefix + PadGrow(n, DRIVER.width)
  }

  /** Migration 0021: None when setval is given 0, which is below the sequence's minimum. */
  ghost function Initialise(kind: Kind, codes: set<string>): Option<Table> {
    match Max(Suffixes(kind.prefix, codes))
    case None => Some(Table(codes, Sequence(1, false)))
    case Some(m) => if m == 0 then None else Some(Table(codes, Sequence(m, true)))
  }

  datatype Step =
    | DefaultInsert          // INSERT without a code: the column default draws from the sequence
    | BurnedNumber           // an INSERT that drew a number and was rolled back
    | ScriptInsert           // demo_data.py: 1 + the largest suffix, then setval
    | BurnedScriptInsert     // the same, rolled back: the row goes, setval stays
    | Delete(code: string)

  /** The store after a default insert, and the code inserted; None when the code is taken and the insert fails. */
  function InsertDefault(kind: Kind, t: Table): (Table, Option<string>) {
    var n := t.counter.Upcoming();
    var code := DefaultCode(kind, n);
    var drawn := t.(counter := Sequence(n, true));
    if code in t.codes then (drawn, None) else (drawn.(codes := t.codes + {code}), Some(code))
  }

  /** _next_driver_code_num */
  ghost function NextScriptNumber(codes: set<string>): nat {
    match Max(TrimmedSuffixes(DRIVER.prefix, codes))
    case None => 1
    case Some(m) => m + 1
  }

  ghost function InsertFromScript(t: Table): (Table, Option<string>) {
    var n := NextScriptNumber(t.codes);
    var code := ScriptCode(n);
    if code in t.codes then (t, None) else (Table(t.codes + {code}, Sequence(n, true)), Some(code))
  }

  ghost function Apply(kind: Kind, t: Table, step: Step): Table {
    match step
    case DefaultInsert => InsertDefault(kind, t).0
    case BurnedNumber => t.(counter := Sequence(t.counter.Upcoming(), true))
    case ScriptInsert => InsertFromScript(t).0
    case BurnedScriptInsert => t.(counter := InsertFromScript(t).0.counter)
    case Delete(code) => t.(codes := t.codes - {code})
  }

  ghost function Run(kind: Kind, t: Table, steps: seq<Step>): Table
    decreases |steps|
  {
    if steps == [] then t else Run(kind, Apply(kind, t, steps[0]), steps[1..])
  }

  // ---- Printing and parsing ----

  lemma SuffixOfPrinted(prefix: string, digits: string)
    requires digits != [] && AllDigits(digits)
    ensures Suffix(prefix, prefix + digits) == Some(Value(digits))
  {
  }

  lemma SuffixOfDefault(kind: Kind, n: nat)
    requires kind.width >= 1
    ensures Suffix(kind.prefix, DefaultCode(kind, n)) == Some(LeadingDigits(n, kind.width))
  {
    SuffixOfPrinted(kind.prefix, PadLpad(n, kind.width));
    ValueOfPadLpad(n, kind.width);
  }

  lemma SuffixOfScript(n: nat)
    ensures Suffix(DRIVER.prefix, ScriptCode(n)) == Some(n)
  {
    SuffixOfPrinted(DRIVER.prefix, PadGrow(n, DRIVER.width));
    ValueOfPadGrow(n, DRIVER.width);
  }

  lemma CodesAreTrimmed(code: string)
    requires Suffix(DRIVER.prefix, code).Some?
    ensures Trim(code) == code
  {
  }

  /** A code parses exactly when it is the prefix followed by digits and nothing else, and to their number. */
  lemma SuffixExactly(prefix: string, code: string, n: nat)
    ensures Suffix(prefix, code) == Some(n) <==>
      exists digits: string :: digits != [] && AllDigits(digits) && code == prefix + digits && Value(digits) == n
  {
    hide Value;
    if Suffix(prefix, code) == Some(n) {
      assert code == prefix + code[|prefix|..];
    }
    if digits: string :| digits != [] && AllDigits(digits) && code == prefix + digits && Value(digits) == n {
      SuffixOfPrinted(prefix, digits);
    }
  }

  predicate Blank(s: string) {
    forall c :: c in s ==> c == ' '
  }

  /** trim takes all spaces off both ends and nothing else. */
  lemma {:induction false} TrimTakesSpaces(code: string) returns (left: string, right: string)
    ensures code == left + Trim(code) + right && Blank(left) && Blank(right)
    ensures Trim(code) == [] || (Trim(code)[0] != ' ' && Trim(code)[|Trim(code)| - 1] != ' ')
    decreases |code|
  {
    if code != [] && code[0] == ' ' {
      left, right := TrimTakesSpaces(code[1..]);
      left := " " + left;
    } else if code != [] && code[|code| - 1] == ' ' {
      left, right := TrimTakesSpaces(code[..|code| - 1]);
      right := right + " ";
    } else {
      left, right := "", "";
    }
  }

  // ---- Where the numbers start ----

  /** After the initialisation the next number is the least from 1 on above every suffix present; the codes stay. */
  lemma InitialiseLeast(kind: Kind, codes: set<string>)
    requires Initialise(kind, codes).Some?
    ensures var t := Initialise(kind, codes).value;
      && t.codes == codes
      && t.counter.Upcoming() >= 1
      && (forall c | c in codes && Suffix(kind.prefix, c).Some? :: Suffix(kind.prefix, c).value < t.counter.Upcoming())
      && (t.counter.Upcoming() == 1 || exists c :: c in codes && Suffix(kind.prefix, c) == Some(t.counter.Upcoming() - 1))
  {
    hide Suffix;
    var ns := Suffixes(kind.prefix, codes);
    assert forall c | c in codes && Suffix(kind.prefix, c).Some? :: Suffix(kind.prefix, c).value in ns;
  }

  /** The script's next number is the least from 1 on above every suffix present, spaces around codes aside. */
  lemma ScriptNumberLeast(codes: set<string>)
    ensures var n := NextScriptNumber(codes);
      && n >= 1
      && (forall c | c in codes && Suffix(DRIVER.prefix, Trim(c)).Some? :: Suffix(DRIVER.prefix, Trim(c)).value < n)
      && (n == 1 || exists c :: c in codes && Suffix(DRIVER.prefix, Trim(c)) == Some(n - 1))
  {
    hide Suffix, Trim;
    var ns := TrimmedSuffixes(DRIVER.prefix, codes);
    assert forall c | c in codes && Suffix(DRIVER.prefix, Trim(c)).Some? :: Suffix(DRIVER.prefix, Trim(c)).value in ns;
  }

  lemma OneIsPrinted()
    ensures DefaultCode(DRIVER, 1) == "DR-001" && DefaultCode(INVOICE, 1) == "INV-000001" && ScriptCode(1) == "DR-001"
  {
    assert Digits(1) == "1";
    assert PadLpad(1, 3) == "001" && PadLpad(1, 6) == "000001" && PadGrow(1, 3) == "001";
  }

  /** Where no code parses yet, the first driver is DR-001 by default and by the script, and the first invoice INV-000001. */
  lemma FirstCodes(drivers: set<string>, invoices: set<string>)
    requires forall c :: c in drivers ==> Suffix(DRIVER.prefix, Trim(c)).None?
    requires forall c :: c in invoices ==> Suffix(INVOICE.prefix, c).None?
    ensures Initialise(DRIVER, drivers).Some? && InsertDefault(DRIVER, Initialise(DRIVER, drivers).value).1 == Some("DR-001")
    ensures Initialise(INVOICE, invoices).Some?
    ensures InsertDefault(INVOICE, Initialise(INVOICE, invoices).value).1 == Some("INV-000001")
    ensures InsertFromScript(Initialise(DRIVER, drivers).value).1 == Some("DR-001")
  {
    hide Suffix, Trim, DefaultCode, ScriptCode, NextScriptNumber;
    forall c | c in drivers ensures Suffix(DRIVER.prefix, c).None? {
      if Suffix(DRIVER.prefix, c).Some? {
        CodesAreTrimmed(c);
      }
    }
    assert Suffixes(DRIVER.prefix, drivers) == {} && Suffixes(INVOICE.prefix, invoices) == {};
    OneIsPrinted();
    ScriptNumberLeast(drivers);
    SuffixOfScript(1);
    SuffixOfDefault(INVOICE, 1);
    ScriptCodeIsFresh(Initialise(DRIVER, drivers).value);
  }

  // ---- The sequence stays ahead of the table ----

  /** Every suffix in the table is below the number the sequence will give out next. */
  ghost predicate Ahead(kind: Kind, t: Table) {
    forall c | c in t.codes && Suffix(kind.prefix, c).Some? :: Suffix(kind.prefix, c).value < t.counter.Upcoming()
  }

  lemma InitialiseAhead(kind: Kind, codes: set<string>)
    ensures Initialise(kind, codes).Some? ==> Ahead(kind, Initialise(kind, codes).value)
    ensures Initialise(kind, codes).None? <==> Max(Suffixes(kind.prefix, codes)) == Some(0)
  {
    var ns := Suffixes(kind.prefix, codes);
    assert forall c | c in codes && Suffix(kind.prefix, c).Some? :: Suffix(kind.prefix, c).value in ns;
  }

  lemma DefaultAhead(kind: Kind, t: Table)
    requires kind.width >= 1 && Ahead(kind, t)
    ensures Ahead(kind, InsertDefault(kind, t).0)
  {
    hide Suffix, DefaultCode;
    var n := t.counter.Upcoming();
    SuffixOfDefault(kind, n);
    var m := LeadingDigits(n, kind.width);
    assert m <= n;
  }

  lemma ScriptNumberIsAhead(codes: set<string>, c: string)
    requires c in codes && Suffix(DRIVER.prefix, c).Some?
    ensures Suffix(DRIVER.prefix, c).value < NextScriptNumber(codes)
  {
    CodesAreTrimmed(c);
    assert Suffix(DRIVER.prefix, c).value in TrimmedSuffixes(DRIVER.prefix, codes);
  }

  lemma ScriptAhead(t: Table)
    ensures InsertFromScript(t).1.Some? ==> Ahead(DRIVER, InsertFromScript(t).0)
  {
    hide Suffix, NextScriptNumber;
    var n := NextScriptNumber(t.codes);
    SuffixOfScript(n);
    forall c | c in t.codes && Suffix(DRIVER.prefix, c).Some? ensures Suffix(DRIVER.prefix, c).value < n {
      ScriptNumberIsAhead(t.codes, c);
    }
  }

  /** The script's code is new in every table, whatever inserts and deletes came before: f"{n:03d}" loses no digits. */
  lemma ScriptCodeIsFresh(t: Table)
    ensures ScriptCode(NextScriptNumber(t.codes)) !in t.codes
    ensures InsertFromScript(t).1 == Some(ScriptCode(NextScriptNumber(t.codes)))
  {
    hide Suffix, NextScriptNumber;
    var n := NextScriptNumber(t.codes);
    SuffixOfScript(n);
    if ScriptCode(n) in t.codes {
      ScriptNumberIsAhead(t.codes, ScriptCode(n));
    }
  }

  lemma {:induction false} RunAhead(kind: Kind, t: Table, steps: seq<Step>)
    requires kind.width >= 1 && Ahead(kind, t)
    requires ScriptInsert in steps || BurnedScriptInsert in steps ==> kind == DRIVER
    ensures Ahead(kind, Run(kind, t, steps))
    decreases |steps|
  {
    if steps != [] {
      match steps[0] {
        case DefaultInsert => DefaultAhead(kind, t);
        case BurnedNumber =>
        case ScriptInsert => ScriptAhead(t);
        case BurnedScriptInsert => ScriptAhead(t);
        case Delete(code) =>
      }
      RunAhead(kind, Apply(kind, t, steps[0]), steps[1..]);
    }
  }

  // ---- When a default insert succeeds ----

  /** With the sequence ahead, a default insert fails exactly when lpad cuts digits off its number and the cut number's
      code is present. */
  lemma DefaultFailsExactly(kind: Kind, t: Table)
    requires kind.width >= 1 && Ahead(kind, t)
    ensures var n := t.counter.Upcoming();
      InsertDefault(kind, t).1.None? <==>
        n >= Pow10(kind.width) && kind.prefix + Digits(LeadingDigits(n, kind.width)) in t.codes
  {
    hide Suffix, LeadingDigits, PadLpad;
    var n := t.counter.Upcoming();
    SuffixOfDefault(kind, n);
    if n < Pow10(kind.width) {
      LeadingIsAll(n, kind.width);
    } else {
      LongLpad(n, kind.width);
    }
  }

  lemma LeadingIsAll(n: nat, w: nat)
    requires w >= 1 && n < Pow10(w)
    ensures LeadingDigits(n, w) == n
  {
  }

  /** After 0021, through any interleaving of default inserts, rolled-back inserts, script inserts and deletes: while
      the number drawn has at most as many digits as the column default pads to, the code is new and parses back to it. */
  lemma DefaultCodeIsFresh(kind: Kind, codes: set<string>, steps: seq<Step>)
    requires kind.width >= 1 && Initialise(kind, codes).Some?
    requires ScriptInsert in steps || BurnedScriptInsert in steps ==> kind == DRIVER
    ensures var t := Run(kind, Initialise(kind, codes).value, steps);
      var n := t.counter.Upcoming();
      n < Pow10(kind.width) ==>
        && DefaultCode(kind, n) !in t.codes
        && InsertDefault(kind, t).1 == Some(kind.prefix + PadGrow(n, kind.width))
        && Suffix(kind.prefix, DefaultCode(kind, n)) == Some(n)
  {
    hide Run, Initialise, Suffix, LeadingDigits, PadLpad, PadGrow;
    var t := Run(kind, Initialise(kind, codes).value, steps);
    var n := t.counter.Upcoming();
    InitialiseAhead(kind, codes);
    RunAhead(kind, Initialise(kind, codes).value, steps);
    DefaultFailsExactly(kind, t);
    if n < Pow10(kind.width) {
      SuffixOfDefault(kind, n);
      LeadingIsAll(n, kind.width);
      PaddingsAgree(n, kind.width);
    }
  }

  /** The default prints the documented code "continuing DR-1000+" exactly below 10^width. */
  lemma DefaultMatchesDocumentation(kind: Kind, n: nat)
    requires kind.width >= 1
    ensures DefaultCode(kind, n) == kind.prefix + PadGrow(n, kind.width) <==> n < Pow10(kind.width)
  {
    hide PadLpad, PadGrow;
    if n < Pow10(kind.width) {
      PaddingsAgree(n, kind.width);
    } else if DefaultCode(kind, n) == kind.prefix + PadGrow(n, kind.width) {
      assert DefaultCode(kind, n)[|kind.prefix|..] == PadLpad(n, kind.width);
      assert (kind.prefix + PadGrow(n, kind.width))[|kind.prefix|..] == PadGrow(n, kind.width);
      ValueOfPadLpad(n, kind.width);
      ValueOfPadGrow(n, kind.width);
    }
  }

  lemma MillionIsPow10()
    ensures Pow10(DRIVER.width) == 1000 && Pow10(INVOICE.width) == 1_000_000
  {
    assert Pow10(3) == 1000 by { assert Pow10(1) == 10; }
    assert Pow10(5) == 100_000;
  }

  /** Invoice numbers come from the default alone: up to 999999 each is new, and the first beyond it prints with a digit
      cut off. */
  lemma InvoiceNumbersAreFresh(codes: set<string>, steps: seq<Step>)
    requires Initialise(INVOICE, codes).Some? && ScriptInsert !in steps && BurnedScriptInsert !in steps
    ensures var t := Run(INVOICE, Initialise(INVOICE, codes).value, steps);
      var n := t.counter.Upcoming();
      && (n <= 999_999 ==> InsertDefault(INVOICE, t).1 == Some("INV-" + PadGrow(n, 6)))
      && (n > 999_999 ==> DefaultCode(INVOICE, n) != "INV-" + PadGrow(n, 6))
  {
    hide Run, Initialise, InsertDefault, DefaultCode, PadGrow, Pow10;
    MillionIsPow10();
    DefaultCodeIsFresh(INVOICE, codes, steps);
    DefaultMatchesDocumentation(INVOICE, Run(INVOICE, Initialise(INVOICE, codes).value, steps).counter.Upcoming());
  }

  // ---- Past the width ----

  /** Every full-width code from 10^(w-1) to 10^w - 1 is present. */
  ghost predicate Full(kind: Kind, t: Table) {
    forall m | kind.width >= 1 && Pow10(kind.width - 1) <= m < Pow10(kind.width) :: kind.prefix + Digits(m) in t.codes
  }

  lemma {:induction false} LeadingIsFullWidth(n: nat, w: nat)
    requires w >= 1 && n >= Pow10(w - 1)
    ensures Pow10(w - 1) <= LeadingDigits(n, w) < Pow10(w)
  {
    if n >= Pow10(w) {
      LeadingIsFullWidth(n / 10, w);
    }
  }

  /** Once the full-width codes are all present and the numbers have outgrown the width, no default insert ever
      succeeds again, however many numbers are drawn. */
  lemma {:induction false} DefaultsExhausted(kind: Kind, t: Table, steps: seq<Step>)
    requires kind.width >= 1 && Full(kind, t) && t.counter.Upcoming() >= Pow10(kind.width)
    requires forall step :: step in steps ==> step == DefaultInsert || step == BurnedNumber
    ensures Run(kind, t, steps).codes == t.codes
    ensures InsertDefault(kind, Run(kind, t, steps)).1.None?
    decreases |steps|
  {
    hide LeadingDigits, PadLpad;
    var n := t.counter.Upcoming();
    assert DefaultCode(kind, n) in t.codes by {
      LongLpad(n, kind.width);
      LeadingIsFullWidth(n, kind.width);
    }
    if steps != [] {
      assert steps[0] in steps && forall step :: step in steps[1..] ==> step in steps;
      var u := Apply(kind, t, steps[0]);
      assert u.codes == t.codes && u.counter.Upcoming() == n + 1;
      DefaultsExhausted(kind, u, steps[1..]);
    }
  }

  lemma DigitsOfThousand()
    ensures Digits(1000) == "1000"
  {
    assert Digits(1) == "1" && Digits(10) == "10" && Digits(100) == "100";
  }

  lemma ThousandPrintsHundred()
    ensures DefaultCode(DRIVER, 1000) == "DR-100"
  {
    hide Digits;
    DigitsOfThousand();
    assert "1000"[..3] == "100";
    assert "DR-" + "100" == "DR-100";
  }

  lemma TwoCodesInitialise()
    ensures Initialise(DRIVER, {"DR-100", "DR-999"}) == Some(Table({"DR-100", "DR-999"}, Sequence(999, true)))
  {
    hide Suffix;
    assert "DR-" + "100" == "DR-100" && "DR-" + "999" == "DR-999";
    SuffixOfNumeral(100, "100");
    SuffixOfNumeral(999, "999");
    assert Suffixes("DR-", {"DR-100", "DR-999"}) == {100, 999};
  }

  /** The first number that breaks: 1000 prints as DR-100, so a fleet with DR-100 and DR-999 refuses its next driver. */
  lemma ThousandthDriverRefused()
    ensures var t := Table({"DR-100", "DR-999"}, Sequence(999, true));
      Initialise(DRIVER, t.codes) == Some(t) && InsertDefault(DRIVER, t).1.None?
  {
    hide Initialise, DefaultCode;
    TwoCodesInitialise();
    ThousandPrintsHundred();
  }

  lemma SuffixOfNumeral(n: nat, s: string)
    requires |s| == 3 && AllDigits(s)
    requires n == 100 * DigitValue(s[0]) + 10 * DigitValue(s[1]) + DigitValue(s[2])
    ensures Suffix("DR-", "DR-" + s) == Some(n)
  {
    SuffixOfPrinted("DR-", s);
    assert s[..2][..1] == [s[0]] && s[..2][1] == s[1] && s[..1][..0] == [];
    assert Value([s[0]]) == DigitValue(s[0]) by { assert [s[0]][..0] == []; }
    assert Value(s[..2]) == 10 * DigitValue(s[0]) + DigitValue(s[1]) by { assert s[..2][..|s[..2]| - 1] == [s[0]]; }
    assert s[..|s| - 1] == s[..2];
  }

  // ---- Numbers over time ----

  /** Default inserts alone never draw a number twice, deletes or not. */
  lemma {:induction false} DefaultNumbersNeverRepeat(kind: Kind, t: Table, steps: seq<Step>)
    requires ScriptInsert !in steps && BurnedScriptInsert !in steps
    ensures Run(kind, t, steps).counter.Upcoming() >= t.counter.Upcoming()
    ensures DefaultInsert in steps ==> Run(kind, t, steps).counter.Upcoming() > t.counter.Upcoming()
    decreases |steps|
  {
    if steps != [] {
      DefaultNumbersNeverRepeat(kind, Apply(kind, t, steps[0]), steps[1..]);
      assert steps == [steps[0]] + steps[1..];
    }
  }

  /** The script can: its setval outlives its rollback and takes the sequence to just past the largest code, which may
      be below numbers drawn and given up since; the sequence stays ahead of the table. */
  lemma BurnedScriptRewinds(t: Table)
    requires Ahead(DRIVER, t)
    ensures var u := Apply(DRIVER, t, BurnedScriptInsert);
      && u.codes == t.codes && u.counter.Upcoming() == NextScriptNumber(t.codes) + 1 && Ahead(DRIVER, u)
  {
    hide Suffix, NextScriptNumber;
    ScriptCodeIsFresh(t);
    ScriptAhead(t);
  }

  /** And deleting the driver it just inserted and running it again issues the same code. */
  lemma ScriptReissuesDeletedCode(t: Table)
    ensures var (u, code) := InsertFromScript(t);
      code.Some? && InsertFromScript(Apply(DRIVER, u, Delete(code.value))).1 == code
  {
    ScriptCodeIsFresh(t);
    var (u, code) := InsertFromScript(t);
    assert Apply(DRIVER, u, Delete(code.value)).codes == t.codes;
  }

  // ---- The table as the statements change it ----

  class CodeTable {
    const kind: Kind
    var codes: set<string>
    var last: nat
    var isCalled: bool

    function State(): Table
      reads this
    {
      Table(codes, Sequence(last, isCalled))
    }

    constructor (kind: Kind, codes: set<string>)
      ensures this.kind == kind && this.codes == codes && last == 1 && !isCalled
    {
      this.kind, this.codes := kind, codes;
      last, isCalled := 1, false;
    }

    method SetVal(n: nat, called: bool) returns (ok: bool)
      modifies this`last, this`isCalled
      ensures ok == (n >= 1)
      ensures if ok then last == n && isCalled == called else last == old(last) && isCalled == old(isCalled)
    {
      ok := n >= 1;
      if ok {
        last, isCalled := n, called;
      }
    }

    method NextVal() returns (n: nat)
      modifies this`last, this`isCalled
      ensures n == old(State()).counter.Upcoming() && last == n && isCalled
    {
      if isCalled {
        last := last + 1;
      }
      isCalled := true;
      n := last;
    }

    method InitialiseSequence() returns (ok: bool)
      modifies this`last, this`isCalled
      ensures ok <==> Initialise(kind, codes).Some?
      ensures ok ==> State() == Initialise(kind, codes).value
    {
      var found, m := MaxNumber(set c | c in codes && Suffix(kind.prefix, c).Some? :: Suffix(kind.prefix, c).value);
      ok := SetVal(if found then m else 1, found && m > 0);
    }

    method Insert() returns (code: Option<string>)
      modifies this
      ensures (State(), code) == InsertDefault(kind, old(State()))
    {
      var n := NextVal();
      var drawn := DefaultCode(kind, n);
      if drawn in codes {
        return None;
      }
      codes := codes + {drawn};
      return Some(drawn);
    }

    method InsertByScript() returns (code: Option<string>)
      modifies this
      ensures (State(), code) == InsertFromScript(old(State()))
    {
      hide Suffix, Trim;
      var found, m := MaxNumber(set c | c in codes && Suffix(DRIVER.prefix, Trim(c)).Some? :: Suffix(DRIVER.prefix, Trim(c)).value);
      var n := (if found then m else 0) + 1;
      var drawn := ScriptCode(n);
      if drawn in codes {
        return None;
      }
      codes := codes + {drawn};
      var _ := SetVal(n, true);
      return Some(drawn);
    }
  }

  method MaxNumber(ns: set<nat>) returns (found: bool, m: nat)
    ensures Max(ns) == if found then Some(m) else None
  {
    found, m := false, 0;
    var rest := ns;
    while rest != {}
      invariant rest <= ns && (found <==> rest != ns)
      invariant found ==> m in ns && forall n :: n in ns && n !in rest ==> n <= m
      decreases |rest|
    {
      var n :| n in rest;
      m := if found && n < m then m else n;
      found := true;
      rest := rest - {n};
    }
    assert found ==> Max(ns).value <= m && m <= Max(ns).value;
  }
}
