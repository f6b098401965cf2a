/** Numbers and dates as text: one spelling for each number that can be assigned, how other spellings are read, and the calendar. */
module TextLaws {
  import opened Wrappers
  import opened TextRules
  import opened Canonical

  lemma {:induction false} DecimalLeads(n: nat)
    requires n > 0
    ensures Decimal(n)[0] != '0'
  {
    if n >= 10 {
      DecimalLeads(n / 10);
    }
  }

  lemma {:induction false} ValueGrows(s: string)
    requires Digits(s) && s != "" && s[0] != '0'
    ensures Value(s) > 0
  {
    if |s| > 1 {
      ValueGrows(s[..|s| - 1]);
    } else {
      assert s[..0] == "";
    }
  }

  lemma {:induction false} SpeltBack(s: string)
    requires Digits(s) && s != "" && s[0] != '0'
    ensures Decimal(Value(s)) == s
  {
    var front, last := s[..|s| - 1], s[|s| - 1];
    assert s == front + [last];
    assert '0' <= last <= '9';
    if front == "" {
      assert Value(front) == 0;
    } else {
      SpeltBack(front);
      ValueGrows(front);
      assert Value(s) / 10 == Value(front) && Value(s) % 10 == last as int - 48;
    }
  }

  /** The numbers that can be assigned are those from 1 to 2147483647, each in the one way it is written out. */
  lemma {:induction false} AssignedExactly(s: string)
    ensures AssignedBib(s) <==> exists n: nat :: 1 <= n <= 2147483647 && s == Decimal(n)
  {
    if AssignedBib(s) {
      SpeltBack(s);
      ValueGrows(s);
    }
    if n: nat :| 1 <= n <= 2147483647 && s == Decimal(n) {
      DecimalReads(n);
      DecimalLeads(n);
    }
  }

  /** A written-out number is read back with or without a sign, unless it does not fit in 64 bits. */
  lemma {:induction false} SignedIsRead(n: nat)
    ensures BibNumber(Decimal(n)) == if n <= 9223372036854775807 then Some(n) else None
    ensures BibNumber("+" + Decimal(n)) == BibNumber(Decimal(n))
    ensures var m: int := n; BibNumber("-" + Decimal(n)) == if n <= 9223372036854775808 then Some(-m) else None
  {
    DecimalReads(n);
    var d := Decimal(n);
    assert '0' <= d[0] <= '9';
    assert ("+" + d)[1..] == d && ("-" + d)[1..] == d;
  }

  /** Every other text is no number at all. */
  lemma {:induction false} OnlyNumbersAreRead(s: string)
    requires BibNumber(s).Some?
    ensures s != "" && (Digits(s) || ((s[0] == '+' || s[0] == '-') && s[1..] != "" && Digits(s[1..])))
  {
  }

  /** The days of the months from January on, in a common year. */
  const MonthDays := [31, 28, 31, 30, 31, 30, 31, 31, 30, 31, 30, 31]

  /** A month has its days of a common year, and February one more every fourth year but for three centuries in four. */
  lemma {:induction false} MonthsHaveTheirDays(year: nat, month: nat)
    requires 1 <= month <= 12
    ensures var more := month == 2 && (year % 400 == 0 || (year % 4 == 0 && year % 100 != 0));
            DaysIn(year, month) == MonthDays[month - 1] + if more then 1 else 0
  {
    assert MonthDays[1] == 28 && MonthDays[3] == 30 && MonthDays[5] == 30 && MonthDays[8] == 30 && MonthDays[10] == 30;
  }
}
