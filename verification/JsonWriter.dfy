/** `Quote` and `QuoteArray` (core/src/json.cpp), the compact texts the writers put together from
    them, and the proof that the parser reads every such text back. */
module JsonWriter {
  import opened Options
  import opened JsonText
  import opened JsonParser

  // ----- Strings -----

  function HexChar(n: nat): char
    requires n < 16
  {
    if n < 10 then '0' + n as char else 'a' + (n - 10) as char
  }

  /** How one byte goes inside a string. */
  function Escaped(c: char): string {
    if c == '"' then "\\\""
    else if c == '\\' then "\\\\"
    else if c == '\U{8}' then "\\b"
    else if c == '\U{C}' then "\\f"
    else if c == '\n' then "\\n"
    else if c == '\r' then "\\r"
    else if c == '\t' then "\\t"
    else if c < ' ' then "\\u00" + [HexChar(c as nat / 16), HexChar(c as nat % 16)]
    else [c]
  }

  function EscapedAll(s: string): string {
    if s == [] then [] else Escaped(s[0]) + EscapedAll(s[1..])
  }

  function Quoted(s: string): string { "\"" + EscapedAll(s) + "\"" }

  method Quote(value: string) returns (out: string)
    ensures out == Quoted(value)
  {
    out := "\"";
    for i := 0 to |value|
      invariant out + EscapedAll(value[i..]) == "\"" + EscapedAll(value)
    {
      var piece;
      match value[i] {
        case '"' => piece := "\\\"";
        case '\\' => piece := "\\\\";
        case '\n' => piece := "\\n";
        case '\r' => piece := "\\r";
        case '\t' => piece := "\\t";
        case c =>
          if c == '\U{8}' {
            piece := "\\b";
          } else if c == '\U{C}' {
            piece := "\\f";
          } else if c < ' ' {
            piece := "\\u00" + [HexChar(c as nat / 16), HexChar(c as nat % 16)];
          } else {
            piece := [c];
          }
      }
      OneMore(value, i, out, piece);
      out := out + piece;
    }
    assert value[|value|..] == [];
    out := out + "\"";
  }

  lemma OneMore(value: string, i: nat, out: string, piece: string)
    requires i < |value| && piece == Escaped(value[i])
    ensures out + EscapedAll(value[i..]) == (out + piece) + EscapedAll(value[i + 1..])
  {
    assert value[i..][1..] == value[i + 1..];
    assert out + (piece + EscapedAll(value[i + 1..])) == (out + piece) + EscapedAll(value[i + 1..]);
  }

  function Strings(values: seq<string>): (r: seq<Value>)
    ensures |r| == |values| && forall i :: 0 <= i < |r| ==> r[i] == String(values[i])
  {
    seq(|values|, i requires 0 <= i < |values| => String(values[i]))
  }

  /** `[`, the quoted strings with `,` between them, and `]`. */
  method QuoteArray(values: seq<string>) returns (out: string)
    ensures out == Show(Array(Strings(values)))
  {
    hide Show, ShowElements;
    ghost var vs := Strings(values);
    NothingShown();
    out := "[";
    for i := 0 to |values|
      invariant out == "[" + ShowElements(vs[..i], true)
    {
      assert vs[..i + 1] == vs[..i] + [vs[i]];
      OneMoreElement(vs[..i], vs[i], true);
      if i != 0 {
        out := out + ",";
      }
      var quoted := Quote(values[i]);
      out := out + quoted;
      ShowsString(values[i]);
    }
    assert vs[..|values|] == vs;
    out := out + "]";
    ShowsArray(vs);
  }

  lemma ShowsString(s: string)
    ensures Show(String(s)) == Quoted(s)
  {
  }

  lemma ShowsArray(vs: seq<Value>)
    ensures Show(Array(vs)) == "[" + ShowElements(vs, true) + "]"
  {
  }

  // ----- Whole values -----

  function Digits(n: nat): string {
    if n < 10 then ['0' + n as char] else Digits(n / 10) + ['0' + (n % 10) as char]
  }

  function ShowInt(n: int): string {
    if n < 0 then "-" + Digits(-n) else Digits(n)
  }

  /** A value as the writers put it: nothing between its tokens. */
  function Show(v: Value): string {
    match v
    case Null => "null"
    case Bool(b) => if b then "true" else "false"
    case Number(n) => if n.Some? then ShowInt(n.value) else "0.5"
    case String(s) => Quoted(s)
    case Array(es) => "[" + ShowElements(es, true) + "]"
    case Object(ms) => "{" + ShowMembers(ms, true) + "}"
  }

  function ShowElements(es: seq<Value>, first: bool): string {
    if es == [] then "" else (if first then "" else ",") + Show(es[0]) + ShowElements(es[1..], false)
  }

  function ShowMembers(ms: seq<Member>, first: bool): string {
    if ms == [] then ""
    else (if first then "" else ",") + (Quoted(ms[0].key) + ":" + Show(ms[0].value)) + ShowMembers(ms[1..], false)
  }

  lemma {:induction false} OneMoreMember(ms: seq<Member>, m: Member, first: bool)
    ensures ShowMembers(ms + [m], first)
            == ShowMembers(ms, first) + (if ms == [] && first then "" else ",") + (Quoted(m.key) + ":" + Show(m.value))
  {
    hide Show, Quoted;
    if ms == [] {
      assert ms + [m] == [m] && [m][1..] == [];
    } else {
      assert (ms + [m])[0] == ms[0] && (ms + [m])[1..] == ms[1..] + [m];
      OneMoreMember(ms[1..], m, false);
    }
  }

  lemma {:induction false} OneMoreElement(vs: seq<Value>, v: Value, first: bool)
    ensures ShowElements(vs + [v], first) == ShowElements(vs, first) + (if vs == [] && first then "" else ",") + Show(v)
  {
    hide Show;
    if vs == [] {
      assert vs + [v] == [v] && [v][1..] == [];
    } else {
      assert (vs + [v])[0] == vs[0] && (vs + [v])[1..] == vs[1..] + [v];
      OneMoreElement(vs[1..], v, false);
    }
  }

  lemma NothingShown()
    ensures ShowMembers([], true) == "" && ShowElements([], true) == ""
  {
  }

  /** Its numbers are 64-bit integers, and it nests no deeper than `room`. */
  ghost predicate Writable(v: Value, room: int) {
    && room > 0
    && match v
       case Number(n) => n.Some? && -0x8000_0000_0000_0000 <= n.value <= 0x7FFF_FFFF_FFFF_FFFF
       case Array(es) => forall i :: 0 <= i < |es| ==> Writable(es[i], room - 1)
       case Object(ms) => forall i :: 0 <= i < |ms| ==> Writable(ms[i].value, room - 1)
       case _ => true
  }

  // ----- Reading back what was written -----

  /** `w` stands in `t` at `at`. */
  ghost predicate At(t: string, at: nat, w: string) {
    at + |w| <= |t| && t[at..at + |w|] == w
  }

  lemma AtSplit(t: string, at: nat, a: string, b: string)
    requires At(t, at, a + b)
    ensures At(t, at, a) && At(t, at + |a|, b) && at + |a| + |b| <= |t|
  {
    var w := t[at..at + |a + b|];
    assert t[at..at + |a|] == w[..|a|] == (a + b)[..|a|];
    assert t[at + |a|..at + |a| + |b|] == w[|a|..] == (a + b)[|a|..];
  }

  lemma AtChar(t: string, at: nat, w: string, i: nat)
    requires At(t, at, w) && i < |w|
    ensures at + i < |t| && t[at + i] == w[i]
  {
    assert t[at..at + |w|][i] == w[i];
  }

  lemma HexCharReads(n: nat)
    requires n < 16
    ensures HexDigit(HexChar(n)) == Some(n)
  {
  }

  lemma ControlReads(t: string, at: nat, c: char)
    requires c < ' ' && At(t, at, "\\u00" + [HexChar(c as nat / 16), HexChar(c as nat % 16)])
    ensures ReadEscape(t, at + 1) == Got([c], at + 6)
  {
    var high, low := HexChar(c as nat / 16), HexChar(c as nat % 16);
    var w := "\\u00" + [high, low];
    forall i: nat | i < 6 ensures t[at + i] == w[i] { AtChar(t, at, w, i); }
    assert t[at + 1] == 'u' && t[at + 2] == '0' && t[at + 3] == '0' && t[at + 4] == high && t[at + 5] == low;
    HexCharReads(c as nat / 16);
    HexCharReads(c as nat % 16);
    assert HexValue(t, at + 2, 1) == Some(0);
    assert HexValue(t, at + 2, 2) == Some(0);
    assert HexValue(t, at + 2, 3) == Some(c as nat / 16);
    assert ReadHex4(t, at + 2) == Got(c as nat, at + 6);
  }

  lemma EscapedReads(t: string, at: nat, c: char)
    requires At(t, at, Escaped(c))
    ensures ReadChars(t, at) == Prepend([c], ReadChars(t, at + |Escaped(c)|))
  {
    hide ReadUnicode;
    var w := Escaped(c);
    AtChar(t, at, w, 0);
    if |w| == 2 {
      AtChar(t, at, w, 1);
    } else if |w| > 2 {
      ControlReads(t, at, c);
    }
  }

  lemma NoMoreChars(t: string, at: nat)
    requires At(t, at, "" + "\"")
    ensures ReadChars(t, at) == Got("", at + 1)
  {
    AtChar(t, at, "" + "\"", 0);
  }

  lemma {:induction false} CharsRead(t: string, at: nat, s: string)
    requires At(t, at, EscapedAll(s) + "\"")
    ensures ReadChars(t, at) == Got(s, at + |EscapedAll(s)| + 1)
    decreases |s|
  {
    hide At, ReadChars, Escaped;
    if s == [] {
      NoMoreChars(t, at);
    } else {
      assert EscapedAll(s) + "\"" == Escaped(s[0]) + (EscapedAll(s[1..]) + "\"");
      AtSplit(t, at, Escaped(s[0]), EscapedAll(s[1..]) + "\"");
      EscapedReads(t, at, s[0]);
      CharsRead(t, at + |Escaped(s[0])|, s[1..]);
      assert [s[0]] + s[1..] == s;
    }
  }

  lemma {:induction false} DigitsAre(n: nat)
    ensures AllDigits(Digits(n)) && DecimalValue(Digits(n)) == n && |Digits(n)| > 0
    ensures Digits(n)[0] == '0' ==> Digits(n) == "0"
  {
    if n >= 10 {
      DigitsAre(n / 10);
      var d := Digits(n);
      assert d[..|d| - 1] == Digits(n / 10);
    }
  }

  /** What may follow a value where the writers put one. */
  ghost predicate Ends(t: string, at: nat) {
    at <= |t| && (at < |t| ==> t[at] == ',' || t[at] == ']' || t[at] == '}' || t[at] == '\n')
  }

  lemma {:induction false} DigitsRun(t: string, at: nat, end: nat)
    requires at <= end <= |t| && (forall i :: at <= i < end ==> IsDigit(t[i])) && !DigitAt(t, end)
    ensures DigitsEnd(t, at) == end
    decreases end - at
  {
    if at < end { DigitsRun(t, at + 1, end); }
  }

  lemma NumberEnds(t: string, at: nat, n: int)
    requires At(t, at, ShowInt(n)) && Ends(t, at + |ShowInt(n)|)
    ensures at + |ShowInt(n)| <= |t| && IntegerEnd(t, at) == Some(at + |ShowInt(n)|)
  {
    var w, magnitude := ShowInt(n), if n < 0 then -n else n;
    var end := at + |w|;
    DigitsAre(magnitude);
    var s := if n < 0 then at + 1 else at;
    var digits := Digits(magnitude);
    forall i | s <= i < end ensures t[i] == digits[i - s] { AtChar(t, at, w, i - at); }
    AtChar(t, at, w, 0);
    assert IsDigit(digits[0]) && t[s] == digits[0];
    DigitsRun(t, s, end);
  }

  lemma Shown(t: string, at: nat, w: string)
    requires At(t, at, w)
    ensures at + |w| <= |t| && t[at..at + |w|] == w
  {
  }

  lemma NumberReads(t: string, at: nat, n: int)
    requires At(t, at, ShowInt(n)) && Ends(t, at + |ShowInt(n)|)
    requires -0x8000_0000_0000_0000 <= n <= 0x7FFF_FFFF_FFFF_FFFF
    ensures ReadNumber(t, at) == Got(Number(Some(n)), at + |ShowInt(n)|)
  {
    hide IntegerEnd, At, DigitsEnd;
    var w, magnitude := ShowInt(n), if n < 0 then -n else n;
    var end, digits := at + |w|, Digits(magnitude);
    NumberEnds(t, at, n);
    DigitsAre(magnitude);
    assert t[at..end] == w by { Shown(t, at, w); }
    assert n < 0 ==> w[1..] == digits;
    assert n >= 0 ==> w == digits && IsDigit(w[0]);
  }

  lemma TokenAt(t: string, at: nat, c: char)
    requires At(t, at, [c])
    ensures CharAt(t, at, c)
  {
    AtChar(t, at, [c], 0);
  }

  lemma LiteralReads(t: string, at: nat, word: string, v: Value)
    requires word != [] && At(t, at, word)
    ensures ReadLiteral(t, at, word, v) == Got(v, at + |word|) && t[at] == word[0]
  {
    AtChar(t, at, word, 0);
  }

  lemma NoBlank(t: string, at: nat)
    requires at < |t| && !IsBlank(t[at])
    ensures SkipBlanks(t, at) == at
  {
  }

  /** The first byte of a written value. */
  lemma ShowStarts(v: Value)
    ensures Show(v) != [] && StartsValue(Show(v)[0]) && !IsBlank(Show(v)[0])
  {
    match v
    case Number(n) =>
      if n.Some? { DigitsAre(if n.value < 0 then -n.value else n.value); }
    case _ =>
  }

  lemma {:induction false} ValueReads(t: string, at: nat, v: Value, depth: nat)
    requires At(t, at, Show(v)) && Ends(t, at + |Show(v)|) && Writable(v, MAX_DEPTH - depth)
    ensures ReadValue(t, at, depth) == Got(v, at + |Show(v)|)
    decreases v, 0
  {
    hide ReadNumber, ReadChars;
    ShowStarts(v);
    AtChar(t, at, Show(v), 0);
    match v
    case Null => LiteralReads(t, at, "null", v);
    case Bool(b) => LiteralReads(t, at, if b then "true" else "false", v);
    case Number(n) =>
      NumberReads(t, at, n.value);
      IntStarts(n.value);
    case String(s) =>
      StringReads(t, at, s);
    case Array(es) =>
      ArrayReads(t, at, es, depth);
    case Object(ms) =>
      ObjectReads(t, at, ms, depth);
  }

  lemma IntStarts(n: int)
    ensures ShowInt(n) != [] && (ShowInt(n)[0] == '-' || IsDigit(ShowInt(n)[0]))
  {
    DigitsAre(if n < 0 then -n else n);
  }

  lemma StringReads(t: string, at: nat, s: string)
    requires At(t, at, Quoted(s))
    ensures ReadChars(t, at + 1) == Got(s, at + |Quoted(s)|) && CharAt(t, at, '"')
  {
    hide At;
    assert Quoted(s) == "\"" + (EscapedAll(s) + "\"");
    AtSplit(t, at, "\"", EscapedAll(s) + "\"");
    TokenAt(t, at, '"');
    CharsRead(t, at + 1, s);
  }

  lemma {:induction false} ArrayReads(t: string, at: nat, es: seq<Value>, depth: nat)
    requires At(t, at, "[" + ShowElements(es, true) + "]") && Writable(Array(es), MAX_DEPTH - depth)
    ensures CharAt(t, at, '[') && ReadArray(t, at + 1, depth) == Got(es, at + |ShowElements(es, true)| + 2)
    decreases es, 1
  {
    hide At;
    var w := ShowElements(es, true) + "]";
    assert "[" + ShowElements(es, true) + "]" == "[" + w;
    AtSplit(t, at, "[", w);
    TokenAt(t, at, '[');
    if es == [] {
      assert w == "]";
      TokenAt(t, at + 1, ']');
      NoBlank(t, at + 1);
    } else {
      ElementsRead(t, at + 1, es, depth, true);
      AtChar(t, at + 1, w, 0);
      ShowStarts(es[0]);
      assert w[0] == Show(es[0])[0];
      NoBlank(t, at + 1);
    }
  }

  /** Where the first of the written elements stands, and what follows it. */
  lemma ElementPlaced(t: string, at: nat, es: seq<Value>, first: bool) returns (s: nat, next: nat)
    requires es != [] && At(t, at, ShowElements(es, first) + "]")
    ensures s == (if first then at else at + 1) && (!first ==> CharAt(t, at, ','))
    ensures At(t, s, Show(es[0])) && next == s + |Show(es[0])| && Ends(t, next)
    ensures SkipBlanks(t, s) == s && SkipBlanks(t, next) == next
    ensures CharAt(t, next, if |es| == 1 then ']' else ',')
    ensures |es| > 1 ==> At(t, next, ShowElements(es[1..], false) + "]")
    ensures next + |ShowElements(es[1..], false)| == at + |ShowElements(es, first)|
  {
    hide At, SkipBlanks, Show, StartsValue;
    var comma := if first then "" else ",";
    var head, rest := Show(es[0]), ShowElements(es[1..], false) + "]";
    assert ShowElements(es, first) + "]" == comma + (head + rest);
    AtSplit(t, at, comma, head + rest);
    s := at + |comma|;
    if !first { TokenAt(t, at, ','); }
    AtSplit(t, s, head, rest);
    next := s + |head|;
    AtChar(t, next, rest, 0);
    ShowStarts(es[0]);
    AtChar(t, s, head, 0);
    NoBlank(t, s);
    NoBlank(t, next);
  }

  lemma {:induction false} ElementsRead(t: string, at: nat, es: seq<Value>, depth: nat, first: bool)
    requires es != [] && At(t, at, ShowElements(es, first) + "]")
    requires forall i :: 0 <= i < |es| ==> Writable(es[i], MAX_DEPTH - depth - 1)
    ensures var s := if first then at else at + 1;
            && (!first ==> CharAt(t, at, ','))
            && s <= |t| && ReadElements(t, s, depth) == Got(es, at + |ShowElements(es, first)| + 1)
    decreases es, 0
  {
    hide At, ReadValue, SkipBlanks, Show, Writable, ShowElements;
    var s, next := ElementPlaced(t, at, es, first);
    ValueReads(t, s, es[0], depth + 1);
    if |es| == 1 {
      assert es == [es[0]] && es[1..] == [];
      NoElements();
    } else {
      ElementsRead(t, next, es[1..], depth, false);
      assert [es[0]] + es[1..] == es;
    }
  }

  lemma NoElements()
    ensures ShowElements([], false) == "" && ShowMembers([], false) == ""
  {
  }

  lemma {:induction false} ObjectReads(t: string, at: nat, ms: seq<Member>, depth: nat)
    requires At(t, at, "{" + ShowMembers(ms, true) + "}") && Writable(Object(ms), MAX_DEPTH - depth)
    ensures CharAt(t, at, '{') && ReadObject(t, at + 1, depth) == Got(ms, at + |ShowMembers(ms, true)| + 2)
    decreases ms, 1
  {
    hide At;
    var w := ShowMembers(ms, true) + "}";
    assert "{" + ShowMembers(ms, true) + "}" == "{" + w;
    AtSplit(t, at, "{", w);
    TokenAt(t, at, '{');
    AtChar(t, at + 1, w, 0);
    if ms == [] {
      assert w == "}";
      TokenAt(t, at + 1, '}');
      NoBlank(t, at + 1);
    } else {
      MembersRead(t, at + 1, ms, depth, true);
      assert w[0] == '"';
      NoBlank(t, at + 1);
    }
  }

  lemma KeyReads(t: string, at: nat, key: string, v: Value)
    requires At(t, at, Quoted(key) + ":" + Show(v))
    ensures var next := at + |Quoted(key)| + 1; ReadKey(t, at) == Got(key, next) && At(t, next, Show(v))
  {
    hide At, ReadChars, SkipBlanks, Quoted, EscapedAll, Show, StartsValue;
    var q := Quoted(key);
    assert q + ":" + Show(v) == q + (":" + Show(v));
    AtSplit(t, at, q, ":" + Show(v));
    StringReads(t, at, key);
    AtSplit(t, at + |q|, ":", Show(v));
    TokenAt(t, at + |q|, ':');
    NoBlank(t, at);
    NoBlank(t, at + |q|);
    ShowStarts(v);
    AtChar(t, at + |q| + 1, Show(v), 0);
    NoBlank(t, at + |q| + 1);
  }

  /** Where the first of the written members stands, and what follows it. */
  lemma MemberPlaced(t: string, at: nat, ms: seq<Member>, first: bool) returns (s: nat, start: nat, next: nat)
    requires ms != [] && At(t, at, ShowMembers(ms, first) + "}")
    ensures s == (if first then at else at + 1) && s <= |t| && (!first ==> CharAt(t, at, ','))
    ensures ReadKey(t, s) == Got(ms[0].key, start)
    ensures At(t, start, Show(ms[0].value)) && next == start + |Show(ms[0].value)| && Ends(t, next)
    ensures SkipBlanks(t, next) == next
    ensures CharAt(t, next, if |ms| == 1 then '}' else ',')
    ensures |ms| > 1 ==> At(t, next, ShowMembers(ms[1..], false) + "}")
    ensures next + |ShowMembers(ms[1..], false)| == at + |ShowMembers(ms, first)|
  {
    hide At, SkipBlanks, Show, ReadKey, Quoted, EscapedAll;
    var comma := if first then "" else ",";
    var head, rest := Quoted(ms[0].key) + ":" + Show(ms[0].value), ShowMembers(ms[1..], false) + "}";
    assert ShowMembers(ms, first) + "}" == comma + (head + rest);
    AtSplit(t, at, comma, head + rest);
    s := at + |comma|;
    if !first { TokenAt(t, at, ','); }
    AtSplit(t, s, head, rest);
    start, next := s + |Quoted(ms[0].key)| + 1, s + |head|;
    AtChar(t, next, rest, 0);
    KeyReads(t, s, ms[0].key, ms[0].value);
    NoBlank(t, next);
  }

  lemma {:induction false} MembersRead(t: string, at: nat, ms: seq<Member>, depth: nat, first: bool)
    requires ms != [] && At(t, at, ShowMembers(ms, first) + "}")
    requires forall i :: 0 <= i < |ms| ==> Writable(ms[i].value, MAX_DEPTH - depth - 1)
    ensures var s := if first then at else at + 1;
            && (!first ==> CharAt(t, at, ','))
            && s <= |t| && ReadMembers(t, s, depth) == Got(ms, at + |ShowMembers(ms, first)| + 1)
    decreases ms, 0
  {
    hide At, ReadValue, ReadKey, SkipBlanks, Show, Writable, ShowMembers;
    var s, start, next := MemberPlaced(t, at, ms, first);
    ValueReads(t, start, ms[0].value, depth + 1);
    if |ms| == 1 {
      assert ms == [ms[0]] && ms[1..] == [];
      NoElements();
    } else {
      MembersRead(t, next, ms[1..], depth, false);
      assert [ms[0]] + ms[1..] == ms;
    }
  }

  /** Every value the writers can express is read back as itself. */
  lemma ParseUndoesShow(v: Value)
    requires Writable(v, MAX_DEPTH) && Strict(v)
    ensures Parsed(Show(v)) == Some(v)
  {
    var t := Show(v);
    assert At(t, 0, t);
    ShowStarts(v);
    NoBlank(t, 0);
    ValueReads(t, 0, v, 0);
    assert SkipBlanks(t, |t|) == |t|;
  }

  /** And a line feed after it changes nothing. */
  lemma ParseUndoesLine(v: Value)
    requires Writable(v, MAX_DEPTH) && Strict(v)
    ensures Parsed(Show(v) + "\n") == Some(v)
  {
    var t := Show(v) + "\n";
    assert At(t, 0, Show(v));
    ShowStarts(v);
    assert t[0] == Show(v)[0];
    NoBlank(t, 0);
    ValueReads(t, 0, v, 0);
    assert t[|Show(v)|] == '\n' && SkipBlanks(t, |t|) == |t|;
  }

  /** So any byte string survives `Quote`, and any list of them `QuoteArray`. */
  lemma ParseUndoesQuote(s: string)
    ensures Parsed(Quoted(s)) == Some(String(s))
  {
    ParseUndoesShow(String(s));
  }

  lemma ParseUndoesQuoteArray(values: seq<string>)
    ensures Parsed(Show(Array(Strings(values)))) == Some(Array(Strings(values)))
  {
    ParseUndoesShow(Array(Strings(values)));
  }

  /** And every 64-bit integer survives its decimal form. */
  lemma ParseUndoesDecimal(n: int)
    requires -0x8000_0000_0000_0000 <= n <= 0x7FFF_FFFF_FFFF_FFFF
    ensures Parsed(ShowInt(n)) == Some(Number(Some(n)))
  {
    ParseUndoesShow(Number(Some(n)));
  }
}
