/** The canonical spelling itself: one escape for each character, and which numbers and characters can be written. */
module CanonicalLaws {
  import opened Wrappers
  import opened TextRules
  import opened JsonMerge
  import opened Canonical

  const HexDigits := "0123456789abcdef"

  /** The two-character escapes of section 7 of RFC 8259 that are written by letter. */
  function Letter(c: char): Option<char> {
    match c as int
    case 8 => Some('b')
    case 9 => Some('t')
    case 10 => Some('n')
    case 12 => Some('f')
    case 13 => Some('r')
    case 34 => Some(c)
    case 92 => Some(c)
    case _ => None
  }

  /** How one character is spelt: by letter, as four lower-case hexadecimal digits, or as itself. */
  predicate Spelt(c: char, s: string) {
    if Letter(c).Some? then s == ['\\', Letter(c).value]
    else if c as int < 32 then s == "\\u00" + [HexDigits[c as int / 16], HexDigits[c as int % 16]]
    else s == [c]
  }

  lemma {:induction false} HexIsLowerCase(n: nat)
    requires n < 16
    ensures HexOf(n) == HexDigits[n]
  {
    assert HexDigits == ['0', '1', '2', '3', '4', '5', '6', '7', '8', '9', 'a', 'b', 'c', 'd', 'e', 'f'];
  }

  lemma {:induction false} CharIsSpelt(c: char)
    ensures Spelt(c, EscapeChar(c))
  {
    if c as int < 32 {
      HexIsLowerCase(c as int / 16);
      HexIsLowerCase(c as int % 16);
    }
  }

  lemma {:induction false} EscapeJoins(s: string, t: string)
    ensures Escape(s + t) == Escape(s) + Escape(t)
  {
    if s == "" {
      assert s + t == t;
    } else {
      assert (s + t)[0] == s[0] && (s + t)[1..] == s[1..] + t;
      EscapeJoins(s[1..], t);
    }
  }

  /** A string is spelt character by character, each in its one way. */
  lemma {:induction false} StringIsSpelt(s: string, c: char)
    ensures Quoted("") == "\"\"" && Spelt(c, Escape([c])) && Escape(s + [c]) == Escape(s) + Escape([c])
  {
    CharIsSpelt(c);
    assert [c][1..] == "";
    EscapeJoins(s, [c]);
  }

  /** Neither control characters nor marks that reorder text on the screen. */
  predicate Printable(c: char) {
    var n := c as int;
    !(n <= 8 || 14 <= n <= 31 || n == 127 || 0x202A <= n <= 0x202E || 0x2066 <= n <= 0x2069)
  }

  /** Numbers can be written exactly if every client can hold them, strings exactly if every character is printable. */
  lemma {:induction false} WritesExactly(n: int, s: string)
    ensures Writable(Num(n)) <==> 0 <= n <= 9007199254740991
    ensures Writable(Str(s)) <==> forall c :: c in s ==> Printable(c)
  {
    if CleanText(s) {
      forall c | c in s
        ensures Printable(c)
      {
        assert !ForbiddenChar(c);
      }
    } else {
      var c :| c in s && ForbiddenChar(c);
      assert !Printable(c);
    }
  }
}
