/** JSON texts as the audit log hashes them: which strings are object texts, and that every printed
    object is one. */
module JsonText {
  import opened Common

  // ---------------------------------------------------------------------
  // Object texts
  // ---------------------------------------------------------------------

  /** How a reader stands inside a JSON text. A backslash outside quotes breaks it. */
  datatype Scan = Broken | Scan(depth: int, quoted: bool, escaped: bool)

  function Advance(st: Scan, ch: char): Scan {
    if st.Broken? then Broken
    else if st.escaped then st.(escaped := false)
    else if st.quoted then
      if ch == '\\' then st.(escaped := true) else if ch == '"' then st.(quoted := false) else st
    else if ch == '\\' then Broken
    else if ch == '"' then st.(quoted := true)
    else if ch == '{' || ch == '[' then st.(depth := st.depth + 1)
    else if ch == '}' || ch == ']' then st.(depth := st.depth - 1)
    else st
  }

  function ScanFrom(st: Scan, s: string): Scan
    decreases |s|
  {
    if s == "" then st else ScanFrom(Advance(st, s[0]), s[1..])
  }

  const START: Scan := Scan(0, false, false)

  /** What every JSON object text satisfies: it opens with a brace that its last character closes. */
  ghost predicate ObjectText(s: string) {
    && s != "" && s[0] == '{' && ScanFrom(START, s) == START
    && forall k :: 0 < k < |s| ==> ScanFrom(START, s[..k]).Scan? && ScanFrom(START, s[..k]).depth >= 1
  }

  lemma {:induction false} ScanConcat(st: Scan, s: string, t: string)
    ensures ScanFrom(st, s + t) == ScanFrom(ScanFrom(st, s), t)
    decreases |s|
  {
    if s == "" {
      assert s + t == t;
    } else {
      assert (s + t)[1..] == s[1..] + t;
      ScanConcat(Advance(st, s[0]), s[1..], t);
    }
  }

  /** Starting deeper ends deeper by as much. */
  lemma {:induction false} ScanShift(st: Scan, s: string, d: int)
    requires st.Scan? && ScanFrom(st, s).Scan?
    ensures ScanFrom(st.(depth := st.depth + d), s) == ScanFrom(st, s).(depth := ScanFrom(st, s).depth + d)
    decreases |s|
  {
    if s != "" {
      if Advance(st, s[0]).Broken? {
        BrokenStays(s[1..]);
      } else {
        ScanShift(Advance(st, s[0]), s[1..], d);
      }
    }
  }

  lemma {:induction false} BrokenStays(s: string)
    ensures ScanFrom(Broken, s) == Broken
  {
    if s != "" {
      BrokenStays(s[1..]);
    }
  }

  /** Two readers who disagree on being inside quotes go on disagreeing, or one of them breaks. */
  lemma {:induction false} ScanOpposite(a: Scan, b: Scan, s: string)
    requires a.Scan? && b.Scan? && a.quoted != b.quoted && !a.escaped && !b.escaped
    ensures var x, y := ScanFrom(a, s), ScanFrom(b, s); x.Broken? || y.Broken? || x.quoted != y.quoted
    decreases |s|
  {
    if s != "" {
      var a', b' := Advance(a, s[0]), Advance(b, s[0]);
      if s[0] == '\\' {
        BrokenStays(s[1..]);
      } else {
        ScanOpposite(a', b', s[1..]);
      }
    }
  }

  /** No object text ends, after a colon, in another object text. */
  lemma ObjectEndsInNoObject(x: string, y: string)
    requires ObjectText(y)
    ensures !ObjectText(x + [':'] + y)
  {
    var head := x + [':'];
    var whole := head + y;
    if ObjectText(whole) {
      assert whole[..|head|] == head;
      ScanConcat(START, head, y);
      ScanConcat(START, x, [':']);
      var st := ScanFrom(START, head);
      assert st.Scan? && st.depth >= 1 && !st.escaped by {
        assert ScanFrom(ScanFrom(START, x), [':']) == Advance(ScanFrom(START, x), ':');
      }
      if st.quoted {
        ScanOpposite(st, START, y);
      } else {
        ScanShift(START, y, st.depth);
      }
    }
  }

  // ---------------------------------------------------------------------
  // Printing, as json.dumps does with separators (',', ':')
  // ---------------------------------------------------------------------

  /** `Atom` is a number, true, false or null. `members` are in the order of printing, which `sort_keys`
      makes the order of the keys. */
  datatype Json = Atom(text: string) | Str(chars: string) | List(items: seq<Json>) | Object(members: seq<Member>)

  datatype Member = Member(key: string, value: Json)

  predicate Plain(ch: char) {
    ch != '"' && ch != '\\' && ch != '{' && ch != '}' && ch != '[' && ch != ']'
  }

  predicate AllPlain(s: string) {
    forall i :: 0 <= i < |s| ==> Plain(s[i])
  }

  predicate IsJson(j: Json) {
    match j
    case Atom(text) => text != "" && AllPlain(text) && ',' !in text && ':' !in text
    case Str(_) => true
    case List(items) => forall i :: 0 <= i < |items| ==> IsJson(items[i])
    case Object(members) => forall i :: 0 <= i < |members| ==> IsJson(members[i].value)
  }

  /** Four hexadecimal digits of a code unit. */
  function Unit(n: int): string {
    [HexDigit(n / 4096 % 16), HexDigit(n / 256 % 16), HexDigit(n / 16 % 16), HexDigit(n % 16)]
  }

  /** Quotes and backslashes are escaped, line breaks and the like by a letter, and what is not
      printable ASCII by its code units. */
  function Escaped(ch: char): string {
    if ch == '"' || ch == '\\' then ['\\', ch]
    else if ch == '\n' then "\\n" else if ch == '\r' then "\\r" else if ch == '\t' then "\\t"
    else if ch == '\U{0008}' then "\\b" else if ch == '\U{000C}' then "\\f"
    else if ' ' <= ch <= '~' then [ch]
    else if ch as int < 0x10000 then "\\u" + Unit(ch as int)
    else "\\u" + Unit(0xD800 + (ch as int - 0x10000) / 1024) + "\\u" + Unit(0xDC00 + (ch as int - 0x10000) % 1024)
  }

  function EscapedAll(s: string): string {
    if s == "" then "" else Escaped(s[0]) + EscapedAll(s[1..])
  }

  function Quote(s: string): string {
    "\"" + EscapedAll(s) + "\""
  }

  function Dump(j: Json): string {
    match j
    case Atom(text) => text
    case Str(chars) => Quote(chars)
    case List(items) => "[" + DumpItems(items) + "]"
    case Object(members) => "{" + DumpMembers(members) + "}"
  }

  function DumpItems(items: seq<Json>): string {
    if items == [] then "" else Dump(items[0]) + (if |items| == 1 then "" else ",") + DumpItems(items[1..])
  }

  function DumpMembers(members: seq<Member>): string {
    if members == [] then ""
    else
      Quote(members[0].key) + ":" + Dump(members[0].value) + (if |members| == 1 then "" else ",")
      + DumpMembers(members[1..])
  }

  // ---------------------------------------------------------------------
  // Every printed object is an object text
  // ---------------------------------------------------------------------

  /** Reading `s` from `st` never breaks or rises above it, and comes back to it. */
  ghost predicate Stays(st: Scan, s: string)
    requires st.Scan?
  {
    && ScanFrom(st, s) == st
    && forall k :: 0 <= k <= |s| ==> Within(st, s[..k])
  }

  ghost predicate Within(st: Scan, s: string)
    requires st.Scan?
  {
    ScanFrom(st, s).Scan? && ScanFrom(st, s).depth >= st.depth
  }

  lemma StaysConcat(st: Scan, a: string, b: string)
    requires st.Scan? && Stays(st, a) && Stays(st, b)
    ensures Stays(st, a + b)
  {
    ScanConcat(st, a, b);
    forall k | 0 <= k <= |a + b| ensures Within(st, (a + b)[..k]) {
      if k <= |a| {
        assert (a + b)[..k] == a[..k];
      } else {
        assert (a + b)[..k] == a + b[..k - |a|];
        ScanConcat(st, a, b[..k - |a|]);
        assert Within(st, b[..k - |a|]);
      }
    }
  }

  lemma {:induction false} PlainStays(st: Scan, s: string)
    requires st.Scan? && !st.escaped && AllPlain(s)
    ensures Stays(st, s)
  {
    if s == "" {
      assert forall k :: 0 <= k <= |s| ==> s[..k] == "";
    } else {
      PlainStays(st, s[1..]);
      StepStays(st, s);
    }
  }

  /** A first character that changes nothing. */
  lemma StepStays(st: Scan, s: string)
    requires st.Scan? && s != "" && Advance(st, s[0]) == st && Stays(st, s[1..])
    ensures Stays(st, s)
  {
    forall k | 0 <= k <= |s| ensures Within(st, s[..k]) {
      if k > 0 {
        assert s[..k][1..] == s[1..][..k - 1];
        assert Within(st, s[1..][..k - 1]);
      }
    }
  }

  /** A pair of characters around a stretch read in the state between them. */
  lemma WrapStays(st: Scan, inner: Scan, open: char, s: string, close: char)
    requires st.Scan? && inner.Scan? && inner.depth >= st.depth
    requires Advance(st, open) == inner && Advance(inner, close) == st && Stays(inner, s)
    ensures Stays(st, [open] + s + [close])
    ensures forall k :: 0 < k < |s| + 2 ==> Within(inner, ([open] + s + [close])[1..k])
    ensures forall k :: 0 < k < |s| + 2 ==>
        ScanFrom(st, ([open] + s + [close])[..k]) == ScanFrom(inner, ([open] + s + [close])[1..k])
  {
    var w := [open] + s + [close];
    assert w[1..] == s + [close];
    ScanConcat(inner, s, [close]);
    assert ScanFrom(inner, [close]) == st;
    forall k | 0 < k < |w|
      ensures Within(inner, w[1..k]) && ScanFrom(st, w[..k]) == ScanFrom(inner, w[1..k])
    {
      assert w[1..k] == s[..k - 1] && w[..k][1..] == w[1..k];
      assert Within(inner, s[..k - 1]);
    }
    forall k | 0 <= k <= |w| ensures Within(st, w[..k]) {
      if k == |w| {
        assert w[..k] == w;
      }
    }
  }

  /** Inside quotes a backslash and the character after it change nothing. */
  lemma PairStays(st: Scan, ch: char)
    requires st.Scan? && st.quoted && !st.escaped
    ensures Stays(st, ['\\', ch])
  {
    var s := ['\\', ch];
    assert s[1..] == [ch] && s[..1] == ['\\'] && s[..2] == s && s[..0] == "";
    assert ScanFrom(st, s) == ScanFrom(st.(escaped := true), [ch]) == st;
    forall k | 0 <= k <= |s| ensures Within(st, s[..k]) {
    }
  }

  lemma UnitStays(st: Scan, n: int)
    requires st.Scan? && st.quoted && !st.escaped
    ensures Stays(st, "\\u" + Unit(n))
  {
    assert "\\u" == ['\\', 'u'];
    PairStays(st, 'u');
    PlainStays(st, Unit(n));
    StaysConcat(st, "\\u", Unit(n));
  }

  lemma EscapedStays(st: Scan, ch: char)
    requires st.Scan? && st.quoted && !st.escaped
    ensures Stays(st, Escaped(ch))
  {
    if |Escaped(ch)| == 2 {
      assert Escaped(ch) == ['\\', Escaped(ch)[1]];
      PairStays(st, Escaped(ch)[1]);
    } else if ' ' <= ch <= '~' {
      EmptyStays(st);
      StepStays(st, [ch]);
    } else if ch as int < 0x10000 {
      UnitStays(st, ch as int);
    } else {
      var high, low := 0xD800 + (ch as int - 0x10000) / 1024, 0xDC00 + (ch as int - 0x10000) % 1024;
      UnitStays(st, high);
      UnitStays(st, low);
      StaysConcat(st, "\\u" + Unit(high), "\\u" + Unit(low));
      assert Escaped(ch) == ("\\u" + Unit(high)) + ("\\u" + Unit(low));
    }
  }

  lemma EmptyStays(st: Scan)
    requires st.Scan?
    ensures Stays(st, "")
  {
    assert forall k :: 0 <= k <= |""| ==> ""[..k] == "";
  }

  lemma {:induction false} EscapedAllStays(st: Scan, s: string)
    requires st.Scan? && st.quoted && !st.escaped
    ensures Stays(st, EscapedAll(s))
  {
    if s == "" {
      EmptyStays(st);
    } else {
      EscapedStays(st, s[0]);
      EscapedAllStays(st, s[1..]);
      StaysConcat(st, Escaped(s[0]), EscapedAll(s[1..]));
    }
  }

  lemma QuoteStays(d: int, s: string)
    ensures Stays(Scan(d, false, false), Quote(s))
  {
    EscapedAllStays(Scan(d, true, false), s);
    WrapStays(Scan(d, false, false), Scan(d, true, false), '"', EscapedAll(s), '"');
    assert Quote(s) == ['"'] + EscapedAll(s) + ['"'];
  }

  lemma {:induction false} DumpStays(d: int, j: Json)
    requires IsJson(j)
    ensures Stays(Scan(d, false, false), Dump(j))
    decreases j, 1, 0
  {
    var st, inner := Scan(d, false, false), Scan(d + 1, false, false);
    match j
    case Atom(text) => PlainStays(st, text);
    case Str(chars) => QuoteStays(d, chars);
    case List(items) =>
      ItemsStay(d + 1, j, items);
      WrapStays(st, inner, '[', DumpItems(items), ']');
      assert Dump(j) == ['['] + DumpItems(items) + [']'];
    case Object(members) =>
      MembersStay(d + 1, j, members);
      WrapStays(st, inner, '{', DumpMembers(members), '}');
      assert Dump(j) == ['{'] + DumpMembers(members) + ['}'];
  }

  lemma {:induction false} ItemsStay(d: int, j: Json, items: seq<Json>)
    requires forall i :: 0 <= i < |items| ==> IsJson(items[i]) && items[i] < j
    ensures Stays(Scan(d, false, false), DumpItems(items))
    decreases j, 0, |items|
  {
    var st := Scan(d, false, false);
    if items == [] {
      EmptyStays(st);
    } else {
      DumpStays(d, items[0]);
      ItemsStay(d, j, items[1..]);
      var comma := if |items| == 1 then "" else ",";
      PlainStays(st, comma);
      StaysConcat(st, Dump(items[0]), comma);
      StaysConcat(st, Dump(items[0]) + comma, DumpItems(items[1..]));
    }
  }

  lemma {:induction false} MembersStay(d: int, j: Json, members: seq<Member>)
    requires forall i :: 0 <= i < |members| ==> IsJson(members[i].value) && members[i].value < j
    ensures Stays(Scan(d, false, false), DumpMembers(members))
    decreases j, 0, |members|
  {
    var st := Scan(d, false, false);
    if members == [] {
      EmptyStays(st);
    } else {
      var key, value := Quote(members[0].key), Dump(members[0].value);
      QuoteStays(d, members[0].key);
      DumpStays(d, members[0].value);
      MembersStay(d, j, members[1..]);
      var comma := if |members| == 1 then "" else ",";
      PlainStays(st, ":");
      PlainStays(st, comma);
      StaysConcat(st, key, ":");
      StaysConcat(st, key + ":", value);
      StaysConcat(st, key + ":" + value, comma);
      StaysConcat(st, key + ":" + value + comma, DumpMembers(members[1..]));
    }
  }

  /** The text of every JSON object is an object text. */
  lemma DumpIsObjectText(members: seq<Member>)
    requires IsJson(Object(members))
    ensures ObjectText(Dump(Object(members)))
  {
    var inner := Scan(1, false, false);
    var s := DumpMembers(members);
    var w := ['{'] + s + ['}'];
    MembersStay(1, Object(members), members);
    WrapStays(START, inner, '{', s, '}');
    assert Dump(Object(members)) == w;
    forall k | 0 < k < |w| ensures ScanFrom(START, w[..k]).Scan? && ScanFrom(START, w[..k]).depth >= 1 {
      assert Within(inner, w[1..k]);
    }
  }

  // ---------------------------------------------------------------------
  // Different values print differently
  // ---------------------------------------------------------------------

  lemma HexDigitInjective(a: int, b: int)
    requires 0 <= a < 16 && 0 <= b < 16 && HexDigit(a) == HexDigit(b)
    ensures a == b
  {
  }

  lemma UnitInjective(n: int, m: int)
    requires 0 <= n < 0x10000 && 0 <= m < 0x10000 && Unit(n) == Unit(m)
    ensures n == m
  {
    var u, v := Unit(n), Unit(m);
    assert u[0] == v[0] && u[1] == v[1] && u[2] == v[2] && u[3] == v[3];
    HexDigitInjective(n / 4096 % 16, m / 4096 % 16);
    HexDigitInjective(n / 256 % 16, m / 256 % 16);
    HexDigitInjective(n / 16 % 16, m / 16 % 16);
    HexDigitInjective(n % 16, m % 16);
    Nibbles(n);
    Nibbles(m);
  }

  lemma Nibbles(n: int)
    requires 0 <= n < 0x10000
    ensures n == 4096 * (n / 4096 % 16) + 256 * (n / 256 % 16) + 16 * (n / 16 % 16) + n % 16
  {
    var a, b := n / 16, n / 256;
    assert b == a / 16 && n / 4096 == b / 16;
  }

  /** The first code unit of a character that is escaped by number. */
  function FirstUnit(ch: char): int {
    if ch as int < 0x10000 then ch as int else 0xD800 + (ch as int - 0x10000) / 1024
  }

  predicate ByNumber(ch: char) {
    |Escaped(ch)| > 2
  }

  lemma ByNumberStarts(ch: char, r: string)
    requires ByNumber(ch)
    ensures var s := Escaped(ch) + r; |s| >= 6 && s[..2] == "\\u" && s[2..6] == Unit(FirstUnit(ch))
    ensures 0 <= FirstUnit(ch) < 0x10000
    ensures ch as int >= 0x10000 ==>
              var s := Escaped(ch) + r; |s| >= 12 && s[8..12] == Unit(0xDC00 + (ch as int - 0x10000) % 1024)
  {
  }

  lemma ByNumberUnique(c: char, d: char, r: string, q: string)
    requires ByNumber(c) && ByNumber(d) && Escaped(c) + r == Escaped(d) + q
    ensures c == d
  {
    ByNumberStarts(c, r);
    ByNumberStarts(d, q);
    UnitInjective(FirstUnit(c), FirstUnit(d));
    if c as int >= 0x10000 && d as int >= 0x10000 {
      var x, y := c as int - 0x10000, d as int - 0x10000;
      UnitInjective(0xDC00 + x % 1024, 0xDC00 + y % 1024);
      assert x == 1024 * (x / 1024) + x % 1024 && y == 1024 * (y / 1024) + y % 1024;
    }
  }

  /** No escaped character begins another, or begins with a quote. */
  lemma EscapedUnique(c: char, d: char, r: string, q: string)
    requires Escaped(c) + r == Escaped(d) + q
    ensures c == d && r == q
  {
    var s := Escaped(c) + r;
    if ByNumber(c) && ByNumber(d) {
      ByNumberUnique(c, d, r, q);
    } else {
      assert s[0] == Escaped(c)[0] == Escaped(d)[0];
      if |Escaped(c)| > 1 || |Escaped(d)| > 1 {
        EscapeLetter(c);
        EscapeLetter(d);
        assert s[1] == Escaped(c)[1] == Escaped(d)[1];
      }
    }
    assert s[|Escaped(c)|..] == r && s[|Escaped(d)|..] == q;
  }

  lemma EscapeLetter(c: char)
    ensures |Escaped(c)| > 1 <==> Escaped(c)[0] == '\\'
    ensures |Escaped(c)| > 1 ==> (Escaped(c)[1] == 'u' <==> ByNumber(c))
    ensures Escaped(c)[0] != '"'
  {
  }

  lemma Cancel(p: string, x: string, y: string)
    requires p + x == p + y
    ensures x == y
  {
    assert (p + x)[|p|..] == x && (p + y)[|p|..] == y;
  }

  /** Of two ways to cut a text, the shorter head is followed by the next character of the longer. */
  lemma ShorterHead(s: string, x: string, t: string, y: string)
    requires s + x == t + y && |s| < |t|
    ensures x != "" && x[0] == t[|s|]
  {
    assert |s| + |x| == |t| + |y|;
    assert (s + x)[|s|] == x[0] && (t + y)[|s|] == t[|s|];
  }

  lemma EscapedAllSplit(s: string, z: string)
    requires s != ""
    ensures EscapedAll(s) + z == Escaped(s[0]) + (EscapedAll(s[1..]) + z)
    ensures (EscapedAll(s) + z)[0] != '"'
  {
    EscapeLetter(s[0]);
  }

  predicate Closes(z: string, ch: char) {
    z != "" && z[0] == ch
  }

  lemma {:induction false} QuotedUnique(s: string, t: string, z: string, z': string)
    requires Closes(z, '"') && Closes(z', '"') && EscapedAll(s) + z == EscapedAll(t) + z'
    ensures s == t && z == z'
  {
    if s != "" {
      EscapedAllSplit(s, z);
    }
    if t != "" {
      EscapedAllSplit(t, z');
    }
    assert EscapedAll("") + z == z && EscapedAll("") + z' == z';
    if s != "" && t != "" {
      EscapedUnique(s[0], t[0], EscapedAll(s[1..]) + z, EscapedAll(t[1..]) + z');
      QuotedUnique(s[1..], t[1..], z, z');
      assert s == [s[0]] + s[1..] && t == [t[0]] + t[1..];
    }
  }

  lemma QuoteUnique(s: string, t: string, x: string, y: string)
    requires Quote(s) + x == Quote(t) + y
    ensures s == t && x == y
  {
    var z, z' := "\"" + x, "\"" + y;
    Regroup("\"", EscapedAll(s), "\"", x);
    Regroup("\"", EscapedAll(t), "\"", y);
    Cancel("\"", EscapedAll(s) + z, EscapedAll(t) + z');
    QuotedUnique(s, t, z, z');
    Cancel("\"", x, y);
  }

  /** What may follow a value. */
  predicate Follows(x: string) {
    x == "" || x[0] == ',' || x[0] == ']' || x[0] == '}'
  }

  lemma AtomUnique(s: string, t: string, x: string, y: string)
    requires IsJson(Atom(s)) && IsJson(Atom(t)) && Follows(x) && Follows(y) && s + x == t + y
    ensures s == t && x == y
  {
    assert forall i :: 0 <= i < |s| ==> s[i] in s && Plain(s[i]);
    assert forall i :: 0 <= i < |t| ==> t[i] in t && Plain(t[i]);
    if |s| < |t| {
      ShorterHead(s, x, t, y);
    } else if |t| < |s| {
      ShorterHead(t, y, s, x);
    } else {
      var w := s + x;
      assert w[..|s|] == s && (t + y)[..|t|] == t;
      Cancel(s, x, y);
    }
  }

  lemma FirstChar(j: Json)
    requires IsJson(j)
    ensures Dump(j) != "" && !Follows(Dump(j))
    ensures j.Atom? <==> Plain(Dump(j)[0])
    ensures j.Str? <==> Dump(j)[0] == '"'
    ensures j.List? <==> Dump(j)[0] == '['
    ensures j.Object? <==> Dump(j)[0] == '{'
  {
    if j.Atom? {
      assert Plain(j.text[0]) && j.text[0] in j.text;
    }
  }

  lemma SameKind(j: Json, k: Json, x: string, y: string)
    requires IsJson(j) && IsJson(k) && Dump(j) + x == Dump(k) + y
    ensures (j.Atom? <==> k.Atom?) && (j.Str? <==> k.Str?) && (j.List? <==> k.List?) && (j.Object? <==> k.Object?)
  {
    FirstChar(j);
    FirstChar(k);
    assert (Dump(j) + x)[0] == Dump(j)[0] && (Dump(k) + y)[0] == Dump(k)[0];
  }

  /** A printed value, and what follows it, can be told apart in one way only. */
  lemma {:induction false} DumpUnique(j: Json, k: Json, x: string, y: string)
    requires IsJson(j) && IsJson(k) && Follows(x) && Follows(y) && Dump(j) + x == Dump(k) + y
    ensures j == k && x == y
    decreases j, 1, 0
  {
    SameKind(j, k, x, y);
    match j
    case Atom(text) => AtomUnique(text, k.text, x, y);
    case Str(chars) => QuoteUnique(chars, k.chars, x, y);
    case List(items) =>
      Unwrap("[", DumpItems(items), "]", x, DumpItems(k.items), y);
      ItemsUnique(j, items, k.items, "]" + x, "]" + y);
      Cancel("]", x, y);
    case Object(members) =>
      Unwrap("{", DumpMembers(members), "}", x, DumpMembers(k.members), y);
      MembersUnique(j, members, k.members, "}" + x, "}" + y);
      Cancel("}", x, y);
  }

  lemma Unwrap(open: string, a: string, close: string, x: string, b: string, y: string)
    requires open + a + close + x == open + b + close + y
    ensures a + (close + x) == b + (close + y)
  {
    Regroup(open, a, close, x);
    Regroup(open, b, close, y);
    Cancel(open, a + (close + x), b + (close + y));
  }

  /** What follows the first item: the end, or a comma and the others. */
  function ItemTail(a: seq<Json>, x: string): string
    requires a != []
  {
    if |a| == 1 then x else "," + (DumpItems(a[1..]) + x)
  }

  lemma ItemsSplit(a: seq<Json>, x: string)
    requires a != [] && IsJson(a[0]) && Closes(x, ']')
    ensures DumpItems(a) + x == Dump(a[0]) + ItemTail(a, x)
    ensures !Closes(DumpItems(a) + x, ']') && Follows(ItemTail(a, x)) && (ItemTail(a, x)[0] == ']' <==> |a| == 1)
  {
    FirstChar(a[0]);
    ItemsUnfold(a);
    Regroup(Dump(a[0]), if |a| == 1 then "" else ",", DumpItems(a[1..]), x);
    HeadOf(Dump(a[0]), ItemTail(a, x));
  }

  lemma ItemsUnfold(a: seq<Json>)
    requires a != []
    ensures DumpItems(a) == Dump(a[0]) + (if |a| == 1 then "" else ",") + DumpItems(a[1..])
    ensures |a| == 1 ==> DumpItems(a[1..]) == ""
  {
  }

  lemma HeadOf(a: string, b: string)
    requires a != ""
    ensures (a + b)[0] == a[0]
  {
  }

  /** Three pieces and a tail, regrouped; an empty middle and end leave the tail. */
  lemma Regroup(a: string, b: string, c: string, x: string)
    ensures a + b + c + x == a + (b + (c + x))
    ensures b == "" && c == "" ==> b + (c + x) == x
  {
  }

  lemma {:induction false} ItemsUnique(j: Json, a: seq<Json>, b: seq<Json>, x: string, y: string)
    requires forall i :: 0 <= i < |a| ==> IsJson(a[i]) && a[i] < j
    requires forall i :: 0 <= i < |b| ==> IsJson(b[i])
    requires Closes(x, ']') && Closes(y, ']') && DumpItems(a) + x == DumpItems(b) + y
    ensures a == b && x == y
    decreases j, 0, |a|
  {
    if a != [] {
      ItemsSplit(a, x);
    }
    if b != [] {
      ItemsSplit(b, y);
    }
    assert DumpItems([]) + x == x && DumpItems([]) + y == y;
    if a != [] && b != [] {
      DumpUnique(a[0], b[0], ItemTail(a, x), ItemTail(b, y));
      assert a == [a[0]] + a[1..] && b == [b[0]] + b[1..];
      if |a| > 1 {
        Cancel(",", DumpItems(a[1..]) + x, DumpItems(b[1..]) + y);
        ItemsUnique(j, a[1..], b[1..], x, y);
      }
    }
  }

  /** What follows a member's value, and what follows its key. */
  function MemberTail(a: seq<Member>, x: string): string
    requires a != []
  {
    if |a| == 1 then x else "," + (DumpMembers(a[1..]) + x)
  }

  function ValueTail(a: seq<Member>, x: string): string
    requires a != []
  {
    ":" + (Dump(a[0].value) + MemberTail(a, x))
  }

  lemma MembersSplit(a: seq<Member>, x: string)
    requires a != [] && Closes(x, '}')
    ensures DumpMembers(a) + x == Quote(a[0].key) + ValueTail(a, x)
    ensures !Closes(DumpMembers(a) + x, '}') && Follows(MemberTail(a, x)) && (MemberTail(a, x)[0] == '}' <==> |a| == 1)
  {
    var k, v, comma, r := Quote(a[0].key), Dump(a[0].value), if |a| == 1 then "" else ",", DumpMembers(a[1..]);
    MembersUnfold(a);
    RegroupMember(k, v, comma, r, x);
    QuoteHead(a[0].key);
    HeadOf(k, ValueTail(a, x));
    TailHead(a, x);
  }

  lemma RegroupMember(k: string, v: string, comma: string, r: string, x: string)
    ensures k + ":" + v + comma + r + x == k + (":" + (v + (comma + (r + x))))
    ensures comma == "" && r == "" ==> comma + (r + x) == x
  {
    Regroup(k + ":" + v, comma, r, x);
    Regroup(k, ":", v, comma + (r + x));
  }

  lemma QuoteHead(key: string)
    ensures Quote(key) != "" && Quote(key)[0] == '"'
  {
  }

  lemma TailHead(a: seq<Member>, x: string)
    requires a != [] && Closes(x, '}')
    ensures Follows(MemberTail(a, x)) && (MemberTail(a, x)[0] == '}' <==> |a| == 1)
  {
  }

  lemma MembersUnfold(a: seq<Member>)
    requires a != []
    ensures DumpMembers(a)
            == Quote(a[0].key) + ":" + Dump(a[0].value) + (if |a| == 1 then "" else ",") + DumpMembers(a[1..])
    ensures |a| == 1 ==> DumpMembers(a[1..]) == ""
  {
  }

  lemma KeysUnique(a: seq<Member>, b: seq<Member>, x: string, y: string)
    requires a != [] && b != [] && Quote(a[0].key) + ValueTail(a, x) == Quote(b[0].key) + ValueTail(b, y)
    ensures a[0].key == b[0].key && Dump(a[0].value) + MemberTail(a, x) == Dump(b[0].value) + MemberTail(b, y)
  {
    QuoteUnique(a[0].key, b[0].key, ValueTail(a, x), ValueTail(b, y));
    Cancel(":", Dump(a[0].value) + MemberTail(a, x), Dump(b[0].value) + MemberTail(b, y));
  }

  lemma {:induction false} MembersUnique(j: Json, a: seq<Member>, b: seq<Member>, x: string, y: string)
    requires forall i :: 0 <= i < |a| ==> IsJson(a[i].value) && a[i].value < j
    requires forall i :: 0 <= i < |b| ==> IsJson(b[i].value)
    requires Closes(x, '}') && Closes(y, '}') && DumpMembers(a) + x == DumpMembers(b) + y
    ensures a == b && x == y
    decreases j, 0, |a|
  {
    if a != [] {
      MembersSplit(a, x);
    }
    if b != [] {
      MembersSplit(b, y);
    }
    assert DumpMembers([]) + x == x && DumpMembers([]) + y == y;
    if a != [] && b != [] {
      KeysUnique(a, b, x, y);
      DumpUnique(a[0].value, b[0].value, MemberTail(a, x), MemberTail(b, y));
      if |a| > 1 {
        Cancel(",", DumpMembers(a[1..]) + x, DumpMembers(b[1..]) + y);
        MembersUnique(j, a[1..], b[1..], x, y);
      }
      SameMembers(a, b);
    }
  }

  lemma SameMembers(a: seq<Member>, b: seq<Member>)
    requires a != [] && b != [] && a[0].key == b[0].key && a[0].value == b[0].value && a[1..] == b[1..]
    ensures a == b
  {
    assert a == [a[0]] + a[1..] && b == [b[0]] + b[1..];
  }

  /** Different values print different texts. */
  lemma DumpInjective(j: Json, k: Json)
    requires IsJson(j) && IsJson(k) && Dump(j) == Dump(k)
    ensures j == k
  {
    assert Dump(j) + "" == Dump(k) + "";
    DumpUnique(j, k, "", "");
  }
}
