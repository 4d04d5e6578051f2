/** Reading the text of a declared count: is it a number at all, and which. */
module DeclaredCells {
  import opened Wrappers
  import opened PythonText
  import opened Text

  /** The character classes of `str.isdigit` and of decimal digits, and the most digits `int` converts. */
  datatype Digits = Digits(isDigit: char -> bool, decimal: char -> Option<nat>, limit: nat)

  /** Decimal digits are digits, ASCII digits are decimal, the superscript two is a digit that is not
      decimal, and neither a minus nor whitespace is a digit. */
  ghost predicate SoundDigits(d: Digits) {
    && (forall c | d.decimal(c).Some? :: d.isDigit(c) && d.decimal(c).value < 10)
    && (forall k: nat {:trigger Digit(k)} | k < 10 :: d.decimal(Digit(k)) == Some(k))
    && d.isDigit('\U{00B2}') && d.decimal('\U{00B2}') == None
    && !d.isDigit('-') && (forall c | IsPythonSpace(c) :: !d.isDigit(c))
    && d.limit >= 1
  }

  /** The three ways a declared cell can turn out: no number was meant, a number, or text that
      passes the digit test and that `int` refuses. */
  datatype Declared = NotANumber | Number(text: string, value: int) | NotAnInteger

  function Minuses(text: string): (n: nat)
    ensures n <= |text|
  {
    if text != "" && text[0] == '-' then 1 + Minuses(text[1..]) else 0
  }

  predicate AllDigits(d: Digits, s: string) { forall i | 0 <= i < |s| :: d.isDigit(s[i]) }

  predicate AllDecimal(d: Digits, s: string) { forall i | 0 <= i < |s| :: d.decimal(s[i]).Some? }

  function ValueOf(d: Digits, s: string): nat
    requires AllDecimal(d, s)
  {
    if s == "" then 0 else ValueOf(d, s[..|s| - 1]) * 10 + d.decimal(s[|s| - 1]).value
  }

  /** `int(text)` takes one sign at most, while the test before it drops any number of them. */
  function ReadCount(d: Digits, cell: string): Declared {
    var text := Trim(cell);
    var n := Minuses(text);
    var digits := text[n..];
    if digits == "" || !AllDigits(d, digits) then NotANumber
    else if n > 1 || !AllDecimal(d, digits) || |digits| > d.limit then NotAnInteger
    else
      var value: int := ValueOf(d, digits);
      Number(text, if n == 1 then -value else value)
  }

  function Reader(d: Digits): string -> Declared { cell => ReadCount(d, cell) }

  // ---- declared totals that are read as meant ----

  lemma {:induction false} NothingToTrim(s: string)
    requires s != "" && !IsPythonSpace(s[0]) && !IsPythonSpace(s[|s| - 1])
    ensures Trim(s) == s
  {}

  lemma {:induction false} DecimalIsRead(d: Digits, n: nat)
    requires SoundDigits(d)
    ensures AllDecimal(d, Decimal(n)) && ValueOf(d, Decimal(n)) == n && Decimal(n) != ""
  {
    if n < 10 {
      assert [Digit(n)][..0] == "" && ValueOf(d, "") == 0;
    } else {
      DecimalIsRead(d, n / 10);
      var s := Decimal(n);
      assert s[..|s| - 1] == Decimal(n / 10) && s[|s| - 1] == Digit(n % 10);
    }
  }

  lemma {:induction false} DecimalOnly(d: Digits, s: string)
    requires SoundDigits(d) && AllDecimal(d, s) && s != ""
    ensures AllDigits(d, s) && Minuses(s) == 0 && Trim(s) == s
    ensures Minuses("-" + s) == 1 && Trim("-" + s) == "-" + s && ("-" + s)[1..] == s
  {
    assert d.isDigit(s[0]) && d.isDigit(s[|s| - 1]);
    NothingToTrim(s);
    var t := "-" + s;
    assert t[1..] == s && t[|t| - 1] == s[|s| - 1];
    NothingToTrim(t);
  }

  /** A total written in decimal digits is read as that total, with a minus as its negative. */
  lemma {:induction false} DecimalReadsBack(d: Digits, n: nat)
    requires SoundDigits(d) && |Decimal(n)| <= d.limit
    ensures ReadCount(d, Decimal(n)) == Number(Decimal(n), n)
    ensures ReadCount(d, "-" + Decimal(n)) == Number("-" + Decimal(n), -(n as int))
  {
    DecimalIsRead(d, n);
    DecimalOnly(d, Decimal(n));
  }

  // ---- and those on which reading stops ----

  /** More than one minus before digits, or a digit that is not decimal, or too many digits. */
  lemma {:induction false} NoIntegerIff(d: Digits, minuses: nat, digits: string)
    requires SoundDigits(d) && digits != "" && AllDigits(d, digits)
    ensures ReadCount(d, Repeated('-', minuses) + digits) == NotAnInteger
       <==> minuses > 1 || !AllDecimal(d, digits) || |digits| > d.limit
  {
    var text := Repeated('-', minuses) + digits;
    assert d.isDigit(digits[0]) && text[|text| - 1] == digits[|digits| - 1];
    MinusesCounted(minuses, digits);
    NothingToTrim(text);
  }

  function Repeated(c: char, n: nat): string { seq(n, _ => c) }

  lemma {:induction false} MinusesCounted(n: nat, digits: string)
    requires digits != "" && digits[0] != '-'
    ensures Minuses(Repeated('-', n) + digits) == n && (Repeated('-', n) + digits)[n..] == digits
  {
    if n > 0 {
      MinusesCounted(n - 1, digits);
      assert (Repeated('-', n) + digits)[1..] == Repeated('-', n - 1) + digits;
    }
  }

  lemma {:induction false} MinusesOnly(n: nat)
    ensures Minuses(Repeated('-', n)) == n
  {
    if n > 0 {
      MinusesOnly(n - 1);
      assert Repeated('-', n)[1..] == Repeated('-', n - 1);
    }
  }

  /** Between the whitespace at its ends the cell is so many minuses and then this, which does not begin with one. */
  ghost predicate Holds(cell: string, a: nat, b: nat, minuses: nat, digits: string) {
    && TrimsTo(cell, a, b) && cell[a..b] == Repeated('-', minuses) + digits
    && (digits == "" || digits[0] != '-')
  }

  /** Every cell is such. */
  lemma {:induction false} CellHolds(cell: string) returns (a: nat, b: nat, minuses: nat, digits: string)
    ensures Holds(cell, a, b, minuses, digits) && Trim(cell) == cell[a..b]
  {
    a, b := TrimFacts(cell);
    var text := cell[a..b];
    minuses, digits := Minuses(text), text[Minuses(text)..];
    MinusesLead(text);
    assert text == Repeated('-', minuses) + digits;
  }

  lemma {:induction false} MinusesLead(text: string)
    ensures text[..Minuses(text)] == Repeated('-', Minuses(text))
    ensures Minuses(text) < |text| ==> text[Minuses(text)] != '-'
  {
    if text != "" && text[0] == '-' {
      MinusesLead(text[1..]);
      assert text[..Minuses(text)] == [text[0]] + text[1..][..Minuses(text[1..])];
    }
  }

  lemma {:induction false} HeldOnce(cell: string, a: nat, b: nat, c: nat, e: nat)
    requires TrimsTo(cell, a, b) && TrimsTo(cell, c, e)
    ensures cell[a..b] == cell[c..e]
  {
    BlankIff(cell, a, b);
    BlankIff(cell, c, e);
    if a < b {
      assert c < e;
      assert a == c && b == e;
    }
  }

  /** How any cell is read: it is no number when nothing or some other character than a digit follows the
      minuses; of what is left it is no integer after more than one minus, with a digit that is not
      decimal, or with too many digits; and otherwise a number, which keeps its text. */
  lemma {:induction false} CellIsRead(d: Digits, cell: string, a: nat, b: nat, minuses: nat, digits: string)
    requires Holds(cell, a, b, minuses, digits)
    ensures var read, number := ReadCount(d, cell), digits != "" && forall i | 0 <= i < |digits| :: d.isDigit(digits[i]);
            var integer := minuses <= 1 && (forall i | 0 <= i < |digits| :: d.decimal(digits[i]).Some?) && |digits| <= d.limit;
            && (read == NotANumber <==> !number)
            && (read == NotAnInteger <==> number && !integer)
            && (read.Number? ==> read.text == cell[a..b] && (if minuses == 0 then read.value >= 0 else read.value <= 0))
  {
    var c, e, m, ds := CellHolds(cell);
    HeldOnce(cell, a, b, c, e);
    var text := cell[a..b];
    assert Trim(cell) == text;
    if digits == "" {
      assert text == Repeated('-', minuses);
      MinusesOnly(minuses);
    } else {
      MinusesCounted(minuses, digits);
    }
    assert text[minuses..] == digits;
  }

  /** Two cells that pass the digit test and are no integer. */
  lemma {:induction false} TwoUnreadableCells(d: Digits)
    requires SoundDigits(d)
    ensures ReadCount(d, "--5") == NotAnInteger && ReadCount(d, "\U{00B2}") == NotAnInteger
  {
    assert Digit(5) == '5';
    assert d.decimal('5') == Some(5);
    NoIntegerIff(d, 2, "5");
    assert Repeated('-', 2) + "5" == "--5";
    NoIntegerIff(d, 0, "\U{00B2}");
    assert Repeated('-', 0) + "\U{00B2}" == "\U{00B2}";
  }
}
