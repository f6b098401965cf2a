/**
 The canonical text of a JSON tree, over which operations are hashed and compared: no spaces, keys in order, one
 spelling for every string and number.  A reader of JSON inverts it, so the text determines the tree.
 */
module Canonical {
  import opened Wrappers
  import opened TextOrder
  import opened TextRules
  import opened JsonMerge

  type Tree = Json<string>

  /** Trees the writer accepts: printable strings, and integers every client can hold exactly. */
  predicate Writable(t: Tree) {
    match t
    case Num(n) => 0 <= n <= MaxSafeInteger
    case Str(s) => CleanText(s)
    case Arr(items) => forall i :: 0 <= i < |items| ==> Writable(items[i])
    case Obj(fields) => forall k :: k in fields ==> Writable(fields[k])
    case _ => true
  }

  // Strings, as section 7 of RFC 8259 escapes them.

  function HexOf(n: nat): char
    requires n < 16
  {
    if n < 10 then (48 + n) as char else (87 + n) as char
  }

  function EscapeChar(c: char): (s: string)
    ensures s != "" && s[0] != '\U{22}'
  {
    if c == '\U{22}' then ['\\', '\U{22}']
    else if c == '\\' then ['\\', '\\']
    else if c == '\U{8}' then ['\\', 'b']
    else if c == '\U{C}' then ['\\', 'f']
    else if c == '\U{A}' then ['\\', 'n']
    else if c == '\U{D}' then ['\\', 'r']
    else if c == '\U{9}' then ['\\', 't']
    else if c < ' ' then ['\\', 'u', '0', '0', HexOf(c as int / 16), HexOf(c as int % 16)]
    else [c]
  }

  function Escape(s: string): string {
    if s == "" then "" else EscapeChar(s[0]) + Escape(s[1..])
  }

  function Quoted(s: string): string {
    "\"" + Escape(s) + "\""
  }

  // Numbers.

  function Decimal(n: nat): (s: string)
    ensures s != "" && Digits(s)
  {
    if n < 10 then [(48 + n) as char] else Decimal(n / 10) + [(48 + n % 10) as char]
  }

  // Key order.

  predicate First(keys: set<string>, k: string) {
    k in keys && forall x :: x in keys ==> x == k || Before(k, x)
  }

  lemma {:induction false} FirstExists(keys: set<string>) returns (k: string)
    requires keys != {}
    ensures First(keys, k)
    decreases |keys|
  {
    var x :| x in keys;
    if keys == {x} {
      k := x;
    } else {
      var rest := keys - {x};
      assert rest != {};
      k := FirstExists(rest);
      BeforeTotal(x, k);
      if Before(x, k) {
        forall y | y in keys ensures y == x || Before(x, y) {
          if y != x && y != k {
            BeforeTransitive(x, k, y);
          }
        }
        k := x;
      }
    }
  }

  lemma {:induction false} FirstIsUnique(keys: set<string>, j: string, k: string)
    requires First(keys, j) && First(keys, k)
    ensures j == k
  {
    BeforeTotal(j, k);
  }

  lemma {:induction false} FirstIsThere(keys: set<string>)
    requires keys != {}
    ensures exists k :: First(keys, k)
    ensures forall j, k :: First(keys, j) && First(keys, k) ==> j == k
  {
    var k := FirstExists(keys);
    forall i, j | First(keys, i) && First(keys, j) ensures i == j {
      FirstIsUnique(keys, i, j);
    }
  }

  /** The keys in order. */
  function Sorted(keys: set<string>): (r: seq<string>)
    ensures Ascending(r) && |r| == |keys| && forall k :: k in r <==> k in keys
    decreases |keys|
  {
    if keys == {} then []
    else
      FirstIsThere(keys);
      var k :| First(keys, k);
      var rest := Sorted(keys - {k});
      FirstLeads(keys, k, rest);
      [k] + rest
  }

  lemma {:induction false} FirstLeads(keys: set<string>, k: string, rest: seq<string>)
    requires First(keys, k) && Ascending(rest) && |rest| == |keys - {k}| && forall x :: x in rest <==> x in keys - {k}
    ensures Ascending([k] + rest) && |[k] + rest| == |keys| && forall x :: x in [k] + rest <==> x in keys
  {
    var all := [k] + rest;
    forall i, j | 0 <= i < j < |all| ensures Before(all[i], all[j]) {
      assert all[j] == rest[j - 1] && rest[j - 1] in keys - {k};
      if i > 0 { assert all[i] == rest[i - 1]; }
    }
  }

  // The text.

  function Text(t: Tree): (s: string)
    ensures s != ""
    decreases t, 1, 0
  {
    match t
    case Null => "null"
    case Bool(flag) => if flag then "true" else "false"
    case Num(n) => if n < 0 then "-" + Decimal(-n) else Decimal(n)
    case Str(s) => Quoted(s)
    case Arr(items) => "[" + ItemsText(t, 0) + "]"
    case Obj(fields) => "{" + MembersText(t, Sorted(fields.Keys)) + "}"
  }

  /** The items from the i-th on, with commas between. */
  function ItemsText(t: Tree, i: nat): string
    requires t.Arr? && i <= |t.items|
    decreases t, 0, |t.items| - i
  {
    if i == |t.items| then ""
    else Text(t.items[i]) + (if i + 1 == |t.items| then "" else "," + ItemsText(t, i + 1))
  }

  function MembersText(t: Tree, keys: seq<string>): string
    requires t.Obj? && forall k :: k in keys ==> k in t.fields
    decreases t, 0, |keys|
  {
    if keys == [] then ""
    else Quoted(keys[0]) + ":" + Text(t.fields[keys[0]]) + (if |keys| == 1 then "" else "," + MembersText(t, keys[1..]))
  }

  // A reader of JSON without spaces.

  datatype Read<T> = Read(value: T, rest: string)

  function HexValue(c: char): Option<nat> {
    if '0' <= c <= '9' then Some(c as int - 48)
    else if 'a' <= c <= 'f' then Some(c as int - 87)
    else if 'A' <= c <= 'F' then Some(c as int - 55)
    else None
  }

  /** The character that four hexadecimal digits name, unless they name half of a surrogate pair. */
  function CharOf(a: Option<nat>, b: Option<nat>, c: Option<nat>, d: Option<nat>): Option<char> {
    if a.None? || b.None? || c.None? || d.None? then None
    else
      var code := ((a.value * 16 + b.value) * 16 + c.value) * 16 + d.value;
      if code < 0xD800 || 0xE000 <= code < 0x10000 then Some(code as char) else None
  }

  /** One character of a string's inside, escaped or plain. */
  function ReadChar(s: string): (r: Option<Read<char>>)
    requires s != ""
    ensures r.Some? ==> |r.value.rest| < |s|
  {
    if s[0] != '\\' then Some(Read(s[0], s[1..]))
    else if |s| < 2 then None
    else if s[1] == '\U{22}' || s[1] == '\\' || s[1] == '/' then Some(Read(s[1], s[2..]))
    else if s[1] == 'b' then Some(Read('\U{8}', s[2..]))
    else if s[1] == 'f' then Some(Read('\U{C}', s[2..]))
    else if s[1] == 'n' then Some(Read('\U{A}', s[2..]))
    else if s[1] == 'r' then Some(Read('\U{D}', s[2..]))
    else if s[1] == 't' then Some(Read('\U{9}', s[2..]))
    else if s[1] == 'u' && |s| >= 6 then
      var c := CharOf(HexValue(s[2]), HexValue(s[3]), HexValue(s[4]), HexValue(s[5]));
      if c.None? then None else Some(Read(c.value, s[6..]))
    else None
  }

  /** A string's inside up to its closing quote. */
  function ReadChars(s: string): (r: Option<Read<string>>)
    ensures r.Some? ==> |r.value.rest| < |s|
    decreases |s|
  {
    if s == "" then None
    else if s[0] == '\U{22}' then Some(Read("", s[1..]))
    else
      var one := ReadChar(s);
      if one.None? then None
      else
        var more := ReadChars(one.value.rest);
        if more.None? then None else Some(Read([one.value.value] + more.value.value, more.value.rest))
  }

  function DigitCount(s: string): (n: nat)
    ensures n <= |s| && Digits(s[..n])
  {
    if s != "" && '0' <= s[0] <= '9' then
      var n := DigitCount(s[1..]);
      assert s[..n + 1] == [s[0]] + s[1..][..n];
      n + 1
    else 0
  }

  predicate Starts(s: string, word: string) {
    |word| <= |s| && s[..|word|] == word
  }

  function ReadTree(s: string): (r: Option<Read<Tree>>)
    ensures r.Some? ==> |r.value.rest| < |s|
    decreases |s|, 0
  {
    if s == "" then None
    else if Starts(s, "null") then Some(Read(Null, s[4..]))
    else if Starts(s, "true") then Some(Read(Bool(true), s[4..]))
    else if Starts(s, "false") then Some(Read(Bool(false), s[5..]))
    else if '0' <= s[0] <= '9' then Some(Read(Num(Value(s[..DigitCount(s)])), s[DigitCount(s)..]))
    else if s[0] == '\U{22}' then
      var inside := ReadChars(s[1..]);
      if inside.None? then None else Some(Read(Str(inside.value.value), inside.value.rest))
    else if s[0] == '[' then
      if |s| > 1 && s[1] == ']' then Some(Read(Arr([]), s[2..]))
      else
        var items := ReadItems(s[1..]);
        if items.None? then None else Some(Read(Arr(items.value.value), items.value.rest))
    else if s[0] == '{' then
      if |s| > 1 && s[1] == '}' then Some(Read(Obj(map[]), s[2..]))
      else
        var members := ReadMembers(s[1..]);
        if members.None? then None else Some(Read(Obj(members.value.value), members.value.rest))
    else None
  }

  /** Items up to the closing bracket. */
  function ReadItems(s: string): (r: Option<Read<seq<Tree>>>)
    ensures r.Some? ==> |r.value.rest| < |s|
    decreases |s|, 1
  {
    var one := ReadTree(s);
    if one.None? || one.value.rest == "" then None
    else if one.value.rest[0] == ']' then Some(Read([one.value.value], one.value.rest[1..]))
    else if one.value.rest[0] == ',' then
      var more := ReadItems(one.value.rest[1..]);
      if more.None? then None else Some(Read([one.value.value] + more.value.value, more.value.rest))
    else None
  }

  /** Members up to the closing brace; the last of two equal keys wins, and canonical text has none. */
  function ReadMembers(s: string): (r: Option<Read<map<string, Tree>>>)
    ensures r.Some? ==> |r.value.rest| < |s|
    decreases |s|, 1
  {
    if s == "" || s[0] != '\U{22}' then None
    else
      var key := ReadChars(s[1..]);
      if key.None? || key.value.rest == "" || key.value.rest[0] != ':' then None
      else
        var one := ReadTree(key.value.rest[1..]);
        if one.None? || one.value.rest == "" then None
        else if one.value.rest[0] == '}' then Some(Read(map[key.value.value := one.value.value], one.value.rest[1..]))
        else if one.value.rest[0] == ',' then
          var more := ReadMembers(one.value.rest[1..]);
          if more.None? then None
          else Some(Read(map[key.value.value := one.value.value] + more.value.value, more.value.rest))
        else None
  }

  // The reader inverts the writer.

  lemma {:induction false} HexReads(n: nat)
    requires n < 16
    ensures HexValue(HexOf(n)) == Some(n)
  {
  }

  lemma {:induction false} ControlReads(c: char)
    requires c < ' '
    ensures CharOf(HexValue('0'), HexValue('0'), HexValue(HexOf(c as int / 16)), HexValue(HexOf(c as int % 16))) == Some(c)
  {
    HexReads(c as int / 16);
    HexReads(c as int % 16);
  }

  lemma {:induction false} CharReads(c: char, more: string)
    ensures ReadChar(EscapeChar(c) + more) == Some(Read(c, more))
  {
    var e := EscapeChar(c);
    var s := e + more;
    assert forall i :: 0 <= i < |e| ==> s[i] == e[i];
    assert s[|e|..] == more;
    if c < ' ' {
      ControlReads(c);
    }
  }

  lemma {:induction false} OneMoreReads(all: string, c: char, next: string, cs: string, more: string)
    requires all != "" && all[0] != '\U{22}' && ReadChar(all) == Some(Read(c, next)) && ReadChars(next) == Some(Read(cs, more))
    ensures ReadChars(all) == Some(Read([c] + cs, more))
  {
  }

  lemma {:induction false} CharsRead(s: string, more: string)
    ensures ReadChars(Escape(s) + "\"" + more) == Some(Read(s, more))
  {
    var all := Escape(s) + "\"" + more;
    if s == "" {
      assert all == ['\U{22}'] + more;
    } else {
      var e, next := EscapeChar(s[0]), Escape(s[1..]) + "\"" + more;
      CharsRead(s[1..], more);
      assert all == e + next && e[0] != '\U{22}';
      CharReads(s[0], next);
      OneMoreReads(e + next, s[0], next, s[1..], more);
      assert s == [s[0]] + s[1..];
    }
  }

  lemma {:induction false} QuoteOpens(inside: string, more: string)
    ensures var all := "\"" + inside + "\"" + more; all[0] == '\U{22}' && all[1..] == inside + "\"" + more
  {
  }

  lemma {:induction false} QuotedReads(s: string, more: string)
    ensures Quoted(s) + more != "" && (Quoted(s) + more)[0] == '\U{22}'
    ensures ReadChars((Quoted(s) + more)[1..]) == Some(Read(s, more))
  {
    CharsRead(s, more);
    QuoteOpens(Escape(s), more);
  }

  lemma {:induction false} DecimalReads(n: nat)
    ensures Value(Decimal(n)) == n
  {
    var d := Decimal(n);
    if n < 10 {
      assert d[..0] == "" && Value(d[..0]) == 0;
    } else {
      DecimalReads(n / 10);
      assert d[..|d| - 1] == Decimal(n / 10);
    }
  }

  /** Nothing that follows a number in a text continues it. */
  predicate NoDigit(more: string) {
    more == "" || !('0' <= more[0] <= '9')
  }

  lemma {:induction false} DigitsEnd(d: string, more: string)
    requires Digits(d) && NoDigit(more)
    ensures DigitCount(d + more) == |d|
  {
    if d == "" {
      assert d + more == more;
    } else {
      assert (d + more)[1..] == d[1..] + more;
      DigitsEnd(d[1..], more);
    }
  }

  lemma {:induction false} NumberReads(n: nat, more: string)
    requires NoDigit(more)
    ensures ReadTree(Decimal(n) + more) == Some(Read(Num(n), more))
  {
    var d := Decimal(n);
    DigitsEnd(d, more);
    DecimalReads(n);
    assert (d + more)[..|d|] == d && (d + more)[|d|..] == more;
    assert '0' <= d[0] <= '9' && (d + more)[0] == d[0];
    NotAWord(d + more);
  }

  lemma {:induction false} NotAWord(s: string)
    requires s != "" && s[0] != 'n' && s[0] != 't' && s[0] != 'f'
    ensures !Starts(s, "null") && !Starts(s, "true") && !Starts(s, "false")
  {
    assert s[..1] == [s[0]];
    if |s| >= 4 { assert s[..4][0] == s[0]; }
    if |s| >= 5 { assert s[..5][0] == s[0]; }
  }

  lemma {:induction false} WordReads(t: Tree, more: string)
    requires t.Null? || t.Bool?
    ensures ReadTree(Text(t) + more) == Some(Read(t, more))
  {
    var s := Text(t) + more;
    assert s[..|Text(t)|] == Text(t) && s[|Text(t)|..] == more;
    if t.Bool? {
      assert s[0] == Text(t)[0];
      assert !Starts(s, "null") by { assert s[..4][0] == s[0]; }
      if !t.flag {
        assert !Starts(s, "true") by { assert s[..4][0] == s[0]; }
      }
    }
  }

  lemma {:induction false} StringReads(s: string, more: string)
    ensures ReadTree(Quoted(s) + more) == Some(Read(Str(s), more))
  {
    QuotedReads(s, more);
    NotAWord(Quoted(s) + more);
  }

  lemma {:induction false} TextStarts(t: Tree)
    requires Writable(t)
    ensures Text(t)[0] != ']' && Text(t)[0] != '}'
  {
    if t.Num? {
      assert '0' <= Decimal(t.number)[0] <= '9';
    }
  }

  /** Reading a canonical text gives back the tree and stops where the text ends. */
  lemma {:induction false} TextReads(t: Tree, more: string)
    requires Writable(t) && NoDigit(more)
    ensures ReadTree(Text(t) + more) == Some(Read(t, more))
    decreases t, 1, 0
  {
    match t
    case Null => WordReads(t, more);
    case Bool(flag) => WordReads(t, more);
    case Num(n) => NumberReads(n, more);
    case Str(s) => StringReads(s, more);
    case Arr(items) => ArrayReads(t, more);
    case Obj(fields) => ObjectReads(t, more);
  }

  lemma {:induction false} Joined(a: string, b: string, c: string)
    ensures (a + b) + c == a + (b + c)
  {
  }

  lemma {:induction false} Headed(c: char, rest: string)
    ensures ([c] + rest)[0] == c && ([c] + rest)[1..] == rest
  {
  }

  lemma {:induction false} BracketReads(items: seq<Tree>, inside: string, more: string)
    requires inside != "" && inside[0] != ']' && ReadItems(inside) == Some(Read(items, more))
    ensures ReadTree("[" + inside) == Some(Read(Arr(items), more))
  {
    Headed('[', inside);
    NotAWord("[" + inside);
  }

  lemma {:induction false} ArrayReads(t: Tree, more: string)
    requires t.Arr? && Writable(t)
    ensures ReadTree(Text(t) + more) == Some(Read(t, more))
    decreases t, 0, |t.items| + 1
  {
    var inside := ItemsText(t, 0) + ("]" + more);
    assert Text(t) + more == "[" + inside;
    if t.items == [] {
      assert inside == "]" + more;
      EmptyReads(t, more);
    } else {
      ItemsRead(t, 0, more);
      TextStarts(t.items[0]);
      assert inside[0] == Text(t.items[0])[0];
      assert t.items[0..] == t.items;
      BracketReads(t.items, inside, more);
    }
  }

  lemma {:induction false} EmptyReads(t: Tree, more: string)
    requires t == Arr([]) || t == Obj(map[])
    ensures ReadTree((if t.Arr? then "[" else "{") + ((if t.Arr? then "]" else "}") + more)) == Some(Read(t, more))
  {
    var s := (if t.Arr? then "[" else "{") + ((if t.Arr? then "]" else "}") + more);
    NotAWord(s);
    assert s[2..] == more;
  }

  lemma {:induction false} LastItemReads(head: string, item: Tree, more: string)
    requires ReadTree(head + ("]" + more)) == Some(Read(item, "]" + more))
    ensures ReadItems(head + ("]" + more)) == Some(Read([item], more))
  {
    Headed(']', more);
  }

  lemma {:induction false} NextItemReads(head: string, item: Tree, tail: string, items: seq<Tree>, more: string)
    requires ReadTree(head + ("," + tail)) == Some(Read(item, "," + tail)) && ReadItems(tail) == Some(Read(items, more))
    ensures ReadItems(head + ("," + tail)) == Some(Read([item] + items, more))
  {
    Headed(',', tail);
  }

  lemma {:induction false} LastItemText(t: Tree)
    requires t.Arr? && t.items != []
    ensures ItemsText(t, |t.items| - 1) == Text(t.items[|t.items| - 1])
  {
  }

  lemma {:induction false} NextItemText(t: Tree, i: nat, more: string)
    requires t.Arr? && i + 1 < |t.items|
    ensures ItemsText(t, i) + ("]" + more) == Text(t.items[i]) + ("," + (ItemsText(t, i + 1) + ("]" + more)))
  {
    TailMoves(Text(t.items[i]), ItemsText(t, i + 1), "]" + more);
  }

  lemma {:induction false} TailMoves(head: string, tail: string, rest: string)
    ensures head + ("," + tail) + rest == head + ("," + (tail + rest))
  {
  }

  lemma {:induction false} ItemsRead(t: Tree, i: nat, more: string)
    requires t.Arr? && Writable(t) && i < |t.items|
    ensures ReadItems(ItemsText(t, i) + ("]" + more)) == Some(Read(t.items[i..], more))
    decreases t, 0, |t.items| - i
  {
    var head := Text(t.items[i]);
    if i + 1 == |t.items| {
      TextReads(t.items[i], "]" + more);
      LastItemReads(head, t.items[i], more);
      LastItemText(t);
      assert t.items[i..] == [t.items[i]];
    } else {
      var tail := ItemsText(t, i + 1) + ("]" + more);
      TextReads(t.items[i], "," + tail);
      ItemsRead(t, i + 1, more);
      NextItemReads(head, t.items[i], tail, t.items[i + 1..], more);
      NextItemText(t, i, more);
      assert t.items[i..] == [t.items[i]] + t.items[i + 1..];
    }
  }

  function Restrict(fields: map<string, Tree>, keys: seq<string>): map<string, Tree> {
    map k | k in fields && k in keys :: fields[k]
  }

  lemma {:induction false} BraceReads(fields: map<string, Tree>, inside: string, more: string)
    requires inside != "" && inside[0] == '\U{22}' && ReadMembers(inside) == Some(Read(fields, more))
    ensures ReadTree("{" + inside) == Some(Read(Obj(fields), more))
  {
    Headed('{', inside);
    NotAWord("{" + inside);
  }

  lemma {:induction false} ObjectReads(t: Tree, more: string)
    requires t.Obj? && Writable(t)
    ensures ReadTree(Text(t) + more) == Some(Read(t, more))
    decreases t, 0, |t.fields.Keys| + 1
  {
    var keys := Sorted(t.fields.Keys);
    var inside := MembersText(t, keys) + ("}" + more);
    assert Text(t) + more == "{" + inside;
    if keys == [] {
      NoKeys(t.fields);
      assert inside == "}" + more;
      EmptyReads(t, more);
    } else {
      MembersRead(t, keys, more);
      AllKeysStay(t.fields);
      BraceReads(t.fields, inside, more);
    }
  }

  lemma {:induction false} AllKeysStay(fields: map<string, Tree>)
    ensures Restrict(fields, Sorted(fields.Keys)) == fields
  {
  }

  lemma {:induction false} NoKeys(fields: map<string, Tree>)
    requires Sorted(fields.Keys) == []
    ensures fields == map[]
  {
    assert |fields.Keys| == 0;
  }

  lemma {:induction false} MemberReads(k: string, value: string, t: Tree, tail: string)
    requires ReadTree(value + tail) == Some(Read(t, tail))
    ensures var s := Quoted(k) + (":" + (value + tail));
            s != "" && s[0] == '\U{22}' && ReadChars(s[1..]) == Some(Read(k, ":" + (value + tail)))
  {
    QuotedReads(k, ":" + (value + tail));
  }

  lemma {:induction false} LastMemberReads(k: string, value: string, t: Tree, more: string)
    requires ReadTree(value + ("}" + more)) == Some(Read(t, "}" + more))
    ensures ReadMembers(Quoted(k) + (":" + (value + ("}" + more)))) == Some(Read(map[k := t], more))
  {
    MemberReads(k, value, t, "}" + more);
    Headed(':', value + ("}" + more));
    Headed('}', more);
  }

  lemma {:induction false} NextMemberReads(k: string, value: string, t: Tree, tail: string, fields: map<string, Tree>, more: string)
    requires ReadTree(value + ("," + tail)) == Some(Read(t, "," + tail)) && ReadMembers(tail) == Some(Read(fields, more))
    ensures ReadMembers(Quoted(k) + (":" + (value + ("," + tail)))) == Some(Read(map[k := t] + fields, more))
  {
    MemberReads(k, value, t, "," + tail);
    Headed(':', value + ("," + tail));
    Headed(',', tail);
  }

  lemma {:induction false} MembersRead(t: Tree, keys: seq<string>, more: string)
    requires t.Obj? && Writable(t) && keys != [] && Ascending(keys) && forall k :: k in keys ==> k in t.fields
    ensures ReadMembers(MembersText(t, keys) + ("}" + more)) == Some(Read(Restrict(t.fields, keys), more))
    decreases t, 0, |keys|
  {
    var k := keys[0];
    var value := t.fields[k];
    if |keys| == 1 {
      TextReads(value, "}" + more);
      LastMemberReads(k, Text(value), value, more);
      LastMemberText(t, keys, more);
      assert keys == [k];
      RestrictOne(t.fields, keys);
    } else {
      var tail := MembersText(t, keys[1..]) + ("}" + more);
      KeyIsNew(keys);
      TextReads(value, "," + tail);
      MembersRead(t, keys[1..], more);
      NextMemberReads(k, Text(value), value, tail, Restrict(t.fields, keys[1..]), more);
      NextMemberText(t, keys, more);
      RestrictMore(t.fields, keys);
    }
  }

  lemma {:induction false} RestrictOne(fields: map<string, Tree>, keys: seq<string>)
    requires |keys| == 1 && keys[0] in fields
    ensures Restrict(fields, keys) == map[keys[0] := fields[keys[0]]]
  {
  }

  lemma {:induction false} RestrictMore(fields: map<string, Tree>, keys: seq<string>)
    requires keys != [] && Ascending(keys) && forall k :: k in keys ==> k in fields
    ensures Restrict(fields, keys) == map[keys[0] := fields[keys[0]]] + Restrict(fields, keys[1..])
  {
    KeyIsNew(keys);
  }

  lemma {:induction false} Chained(q: string, v: string, rest: string)
    ensures q + ":" + v + rest == q + (":" + (v + rest))
  {
  }

  lemma {:induction false} ChainedOn(q: string, v: string, m: string, rest: string)
    ensures q + (":" + (v + ("," + m))) + rest == q + (":" + (v + ("," + (m + rest))))
  {
  }

  lemma {:induction false} LastMemberText(t: Tree, keys: seq<string>, more: string)
    requires t.Obj? && |keys| == 1 && keys[0] in t.fields && forall k :: k in keys ==> k in t.fields
    ensures MembersText(t, keys) + ("}" + more) == Quoted(keys[0]) + (":" + (Text(t.fields[keys[0]]) + ("}" + more)))
  {
    var q, v := Quoted(keys[0]), Text(t.fields[keys[0]]);
    assert MembersText(t, keys) == q + ":" + v;
    Chained(q, v, "}" + more);
  }

  lemma {:induction false} NextMemberText(t: Tree, keys: seq<string>, more: string)
    requires t.Obj? && |keys| > 1 && keys[0] in t.fields && forall k :: k in keys ==> k in t.fields
    ensures MembersText(t, keys) + ("}" + more) ==
            Quoted(keys[0]) + (":" + (Text(t.fields[keys[0]]) + ("," + (MembersText(t, keys[1..]) + ("}" + more)))))
  {
    var q, v, m := Quoted(keys[0]), Text(t.fields[keys[0]]), MembersText(t, keys[1..]);
    assert MembersText(t, keys) == q + ":" + v + ("," + m);
    Chained(q, v, "," + m);
    ChainedOn(q, v, m, "}" + more);
  }

  lemma {:induction false} KeyIsNew(keys: seq<string>)
    requires keys != [] && Ascending(keys)
    ensures keys[0] !in keys[1..] && Ascending(keys[1..]) && forall k :: k in keys <==> k == keys[0] || k in keys[1..]
  {
    forall i | 0 <= i < |keys| - 1 ensures keys[1..][i] != keys[0] {
      assert keys[1..][i] == keys[i + 1];
      BeforeTotal(keys[0], keys[i + 1]);
    }
    assert keys == [keys[0]] + keys[1..];
  }

  /** Round trip: the text of an accepted tree reads back as that tree, with nothing left over. */
  lemma {:induction false} CanonicalRoundTrip(t: Tree)
    requires Writable(t)
    ensures ReadTree(Text(t)) == Some(Read(t, ""))
  {
    TextReads(t, "");
    assert Text(t) + "" == Text(t);
  }

  /** Different trees never share a text, so comparing or hashing texts compares trees. */
  lemma {:induction false} CanonicalIsInjective(t: Tree, u: Tree)
    requires Writable(t) && Writable(u) && Text(t) == Text(u)
    ensures t == u
  {
    CanonicalRoundTrip(t);
    CanonicalRoundTrip(u);
  }

  /** No text begins another: canonical texts can be told apart in a stream. */
  lemma {:induction false} CanonicalIsPrefixFree(t: Tree, u: Tree, more: string)
    requires Writable(t) && Writable(u) && Text(u) == Text(t) + more && NoDigit(more)
    ensures t == u && more == ""
  {
    TextReads(t, more);
    CanonicalRoundTrip(u);
  }

  /** Reading an accepted text and writing it again gives the same text. */
  lemma {:induction false} CanonicalIsStable(t: Tree)
    requires Writable(t)
    ensures ReadTree(Text(t)).Some? && Text(ReadTree(Text(t)).value.value) == Text(t)
  {
    CanonicalRoundTrip(t);
  }

  // The writer as the program runs it.

  /** A tree's text as pieces: the comma goes before every item but the first. */
  function Comma(i: nat): string {
    if i == 0 then "" else ","
  }

  function ItemsUpTo(items: seq<Tree>, n: nat): string
    requires n <= |items|
  {
    if n == 0 then "" else ItemsUpTo(items, n - 1) + Comma(n - 1) + Text(items[n - 1])
  }

  function MembersUpTo(fields: map<string, Tree>, keys: seq<string>, n: nat): string
    requires n <= |keys| && forall k :: k in keys ==> k in fields
  {
    if n == 0 then ""
    else MembersUpTo(fields, keys, n - 1) + Comma(n - 1) + Quoted(keys[n - 1]) + ":" + Text(fields[keys[n - 1]])
  }

  /** Written from the front or from the back, the items come out the same. */
  lemma {:induction false} ItemsEitherWay(t: Tree, n: nat)
    requires t.Arr? && n <= |t.items|
    ensures ItemsText(t, 0) == ItemsUpTo(t.items, n) + (if 0 < n < |t.items| then "," else "") + ItemsText(t, n)
  {
    if n > 0 {
      ItemsEitherWay(t, n - 1);
      var front, c, last := ItemsUpTo(t.items, n - 1), Comma(n - 1), Text(t.items[n - 1]);
      assert ItemsText(t, n - 1) == last + (if n == |t.items| then "" else "," + ItemsText(t, n));
      assert ItemsText(t, 0) == front + c + ItemsText(t, n - 1);
      if n == |t.items| {
        assert ItemsText(t, n) == "";
      }
    }
  }

  lemma {:induction false} AllItems(t: Tree)
    requires t.Arr?
    ensures ItemsText(t, 0) == ItemsUpTo(t.items, |t.items|)
  {
    ItemsEitherWay(t, |t.items|);
    assert ItemsText(t, |t.items|) == "";
  }

  lemma {:induction false} AllMembers(t: Tree, keys: seq<string>)
    requires t.Obj? && forall k :: k in keys ==> k in t.fields
    ensures MembersText(t, keys) == MembersUpTo(t.fields, keys, |keys|)
  {
    MembersEitherWay(t, keys, |keys|);
    assert keys[|keys|..] == [];
    assert MembersText(t, keys[|keys|..]) == "";
  }

  lemma {:induction false} MembersEitherWay(t: Tree, keys: seq<string>, n: nat)
    requires t.Obj? && n <= |keys| && forall k :: k in keys ==> k in t.fields
    ensures MembersText(t, keys) ==
            MembersUpTo(t.fields, keys, n) + (if 0 < n < |keys| then "," else "") + MembersText(t, keys[n..])
  {
    if n == 0 {
      assert keys[0..] == keys;
    } else {
      MembersEitherWay(t, keys, n - 1);
      var q, v := Quoted(keys[n - 1]), Text(t.fields[keys[n - 1]]);
      var comma, rest := if n < |keys| then "," else "", MembersText(t, keys[n..]);
      MembersFrom(t, keys, n - 1);
      Regrouped(MembersUpTo(t.fields, keys, n - 1), Comma(n - 1), q, v, comma, rest);
    }
  }

  lemma {:induction false} Regrouped(front: string, c: string, q: string, v: string, comma: string, rest: string)
    ensures front + c + (q + ":" + v + (comma + rest)) == (front + c + q + ":" + v) + comma + rest
  {
    Regroup(front + c, q, ":", v, comma + rest);
  }

  lemma {:induction false} MembersFrom(t: Tree, keys: seq<string>, n: nat)
    requires t.Obj? && n < |keys| && forall k :: k in keys ==> k in t.fields
    ensures MembersText(t, keys[n..]) ==
            Quoted(keys[n]) + ":" + Text(t.fields[keys[n]]) + ((if n + 1 < |keys| then "," else "") + MembersText(t, keys[n + 1..]))
  {
    var rest := keys[n..];
    assert rest[0] == keys[n] && rest[1..] == keys[n + 1..];
    if n + 1 == |keys| {
      assert MembersText(t, keys[n + 1..]) == "";
      var m := Quoted(keys[n]) + ":" + Text(t.fields[keys[n]]);
      assert m + "" == m && m + ("" + "") == m;
    }
  }

  lemma {:induction false} ItemsNext(start: string, items: seq<Tree>, i: nat)
    requires i < |items|
    ensures start + ItemsUpTo(items, i) + Comma(i) + Text(items[i]) == start + ItemsUpTo(items, i + 1)
  {
  }

  lemma {:induction false} Regroup(front: string, q: string, c: string, v: string, tail: string)
    ensures front + (q + c + v + tail) == front + q + c + v + tail
  {
  }

  predicate MembersWritable(t: Tree, keys: seq<string>, n: nat)
    requires t.Obj? && n <= |keys| && forall k :: k in keys ==> k in t.fields
  {
    n == 0 || (MembersWritable(t, keys, n - 1) && Writable(t.fields[keys[n - 1]]))
  }

  lemma {:induction false} MemberWritable(t: Tree, keys: seq<string>, n: nat, j: nat)
    requires t.Obj? && j < n <= |keys| && (forall k :: k in keys ==> k in t.fields) && MembersWritable(t, keys, n)
    ensures Writable(t.fields[keys[j]])
  {
    if j < n - 1 {
      MemberWritable(t, keys, n - 1, j);
    }
  }

  lemma {:induction false} MembersAreAll(t: Tree, keys: seq<string>)
    requires t.Obj? && (forall k :: k in keys <==> k in t.fields) && MembersWritable(t, keys, |keys|)
    ensures Writable(t)
  {
    forall k | k in t.fields ensures Writable(t.fields[k]) {
      var j :| 0 <= j < |keys| && keys[j] == k;
      MemberWritable(t, keys, |keys|, j);
    }
  }

  lemma {:induction false} MemberStops(t: Tree, k: string)
    requires t.Obj? && k in t.fields && !Writable(t.fields[k])
    ensures !Writable(t)
  {
  }

  lemma {:induction false} Grown(start: string, front: string, c: string, q: string, v: string)
    ensures start + front + c + q + ":" + v == start + (front + c + q + ":" + v)
  {
  }

  lemma {:induction false} MembersNext(start: string, fields: map<string, Tree>, keys: seq<string>, i: nat)
    requires i < |keys| && forall k :: k in keys ==> k in fields
    ensures start + MembersUpTo(fields, keys, i) + Comma(i) + Quoted(keys[i]) + ":" + Text(fields[keys[i]]) ==
            start + MembersUpTo(fields, keys, i + 1)
  {
    Grown(start, MembersUpTo(fields, keys, i), Comma(i), Quoted(keys[i]), Text(fields[keys[i]]));
  }

  lemma {:induction false} Wrapped(start: string, open: string, inside: string, close: string)
    ensures start + open + inside + close == start + (open + inside + close)
  {
  }

  lemma {:induction false} Gathered(a: string, b: string, c: string)
    ensures a + (b + c) == a + b + c
  {
  }

  lemma {:induction false} EscapeOneMore(s: string, i: nat)
    requires i < |s|
    ensures Escape(s[..i + 1]) == Escape(s[..i]) + EscapeChar(s[i])
  {
    if i == 0 {
      assert s[..1][1..] == "" && s[..0] == "";
    } else {
      EscapeOneMore(s[1..], i - 1);
      assert s[..i + 1][1..] == s[1..][..i] && s[..i][1..] == s[1..][..i - 1];
      Gathered(EscapeChar(s[0]), Escape(s[1..][..i - 1]), EscapeChar(s[i]));
    }
  }

  class Buffer {
    var text: string

    constructor ()
      ensures text == ""
    {
      text := "";
    }

    method WriteJsonString(value: string)
      modifies this
      ensures text == old(text) + Quoted(value)
    {
      text := text + "\"";
      ghost var start := text;
      for i := 0 to |value|
        invariant text == start + Escape(value[..i])
      {
        EscapeOneMore(value, i);
        text := text + EscapeChar(value[i]);
      }
      assert value[..|value|] == value;
      text := text + "\"";
      Wrapped(old(text), "\"", Escape(value), "\"");
    }

    method WriteItem(i: nat, t: Tree) returns (ok: bool)
      modifies this
      ensures ok <==> Writable(t)
      ensures ok ==> text == old(text) + Comma(i) + Text(t)
      decreases t, 2
    {
      if i > 0 {
        text := text + ",";
      }
      ok := WriteCanonical(t);
    }

    method WriteItems(t: Tree) returns (ok: bool)
      requires t.Arr?
      modifies this
      ensures ok <==> Writable(t)
      ensures ok ==> text == old(text) + ItemsUpTo(t.items, |t.items|)
      decreases t, 0, 0
    {
      ghost var start := text;
      for i := 0 to |t.items|
        invariant forall j :: 0 <= j < i ==> Writable(t.items[j])
        invariant text == start + ItemsUpTo(t.items, i)
      {
        ok := WriteItem(i, t.items[i]);
        if !ok {
          return;
        }
        ItemsNext(start, t.items, i);
      }
      ok := true;
    }

    method WriteMember(i: nat, key: string, t: Tree) returns (ok: bool)
      modifies this
      ensures ok <==> Writable(t)
      ensures ok ==> text == old(text) + Comma(i) + Quoted(key) + ":" + Text(t)
      decreases t, 2
    {
      if i > 0 {
        text := text + ",";
      }
      WriteJsonString(key);
      text := text + ":";
      ok := WriteCanonical(t);
    }

    method WriteNextMember(t: Tree, keys: seq<string>, i: nat, ghost start: string) returns (ok: bool)
      requires t.Obj? && i < |keys| && (forall k :: k in keys ==> k in t.fields) && text == start + MembersUpTo(t.fields, keys, i)
      modifies this
      ensures ok <==> Writable(t.fields[keys[i]])
      ensures ok ==> text == start + MembersUpTo(t.fields, keys, i + 1)
      decreases t, 0, 0
    {
      ok := WriteMember(i, keys[i], t.fields[keys[i]]);
      MembersNext(start, t.fields, keys, i);
    }

    method WriteMembers(t: Tree, keys: seq<string>) returns (ok: bool)
      requires t.Obj? && forall k :: k in keys <==> k in t.fields
      modifies this
      ensures ok <==> Writable(t)
      ensures ok ==> text == old(text) + MembersUpTo(t.fields, keys, |keys|)
      decreases t, 0, 1
    {
      ghost var start := text;
      for i := 0 to |keys|
        invariant MembersWritable(t, keys, i) && text == start + MembersUpTo(t.fields, keys, i)
      {
        ok := WriteNextMember(t, keys, i, start);
        if !ok {
          MemberStops(t, keys[i]);
          return;
        }
      }
      MembersAreAll(t, keys);
      ok := true;
    }

    /** Appends a tree's text, or stops inside the first part that cannot be written. */
    method WriteCanonical(t: Tree) returns (ok: bool)
      modifies this
      ensures ok <==> Writable(t)
      ensures ok ==> text == old(text) + Text(t)
      decreases t, 1
    {
      match t
      case Null => text := text + "null"; ok := true;
      case Bool(flag) => text := text + (if flag then "true" else "false"); ok := true;
      case Num(n) =>
        ok := 0 <= n <= MaxSafeInteger;
        if ok {
          text := text + Decimal(n);
        }
      case Str(s) =>
        ok := CleanText(s);
        if ok {
          WriteJsonString(s);
        }
      case Arr(items) => ok := WriteArray(t);
      case Obj(fields) => ok := WriteObject(t);
    }

    method WriteArray(t: Tree) returns (ok: bool)
      requires t.Arr?
      modifies this
      ensures ok <==> Writable(t)
      ensures ok ==> text == old(text) + Text(t)
      decreases t, 0, 1
    {
      text := text + "[";
      ok := WriteItems(t);
      AllItems(t);
      text := text + "]";
      Wrapped(old(text), "[", ItemsText(t, 0), "]");
    }

    method WriteObject(t: Tree) returns (ok: bool)
      requires t.Obj?
      modifies this
      ensures ok <==> Writable(t)
      ensures ok ==> text == old(text) + Text(t)
      decreases t, 0, 2
    {
      var keys := Sorted(t.fields.Keys);
      text := text + "{";
      ok := WriteMembers(t, keys);
      AllMembers(t, keys);
      text := text + "}";
      Wrapped(old(text), "{", MembersText(t, keys), "}");
    }
  }
}
