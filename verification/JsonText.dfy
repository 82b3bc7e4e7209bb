/** The JSON texts `core/src/json.cpp` accepts and what each of them means, as functions of the
    text. This is the reference the parser's loops and its streaming, keeping and skipping forms
    are proved against; it does not enforce the duplicate-key rule, which is stated apart as
    `Strict`, because the forms apply that rule to different parts of a document. */
module JsonText {
  import opened Options

  /** Nesting past this is refused rather than recursed into. */
  const MAX_DEPTH: nat := 16

  /** A number carries its value only when it is an integer that fits 64 bits. A string's
      characters stand for its bytes. */
  datatype Value =
    | Null
    | Bool(truth: bool)
    | Number(integer: Option<int>)
    | String(text: string)
    | Array(elements: seq<Value>)
    | Object(members: seq<Member>)

  datatype Member = Member(key: string, value: Value)

  /** What reading at a position came to: nothing there, or a result and where it ends. */
  datatype Read<+T> = Bad | Got(value: T, next: nat)

  // ----- Blanks, literals and numbers -----

  predicate IsBlank(c: char) { c == ' ' || c == '\t' || c == '\n' || c == '\r' }

  predicate IsDigit(c: char) { '0' <= c <= '9' }

  function SkipBlanks(t: string, at: nat): (r: nat)
    requires at <= |t|
    ensures at <= r <= |t|
    ensures r < |t| ==> !IsBlank(t[r])
    decreases |t| - at
  {
    if at < |t| && IsBlank(t[at]) then SkipBlanks(t, at + 1) else at
  }

  /** Where the digits that start at `at` end. */
  function DigitsEnd(t: string, at: nat): (r: nat)
    requires at <= |t|
    ensures at <= r <= |t|
    decreases |t| - at
  {
    if at < |t| && IsDigit(t[at]) then DigitsEnd(t, at + 1) else at
  }

  predicate DigitAt(t: string, at: nat) { at < |t| && IsDigit(t[at]) }

  predicate CharAt(t: string, at: nat, c: char) { at < |t| && t[at] == c }

  /** Past the integer digits, or nothing when none is there. */
  function IntegerEnd(t: string, at: nat): (r: Option<nat>)
    requires at <= |t|
    ensures r.Some? ==> at < r.value <= |t|
  {
    var s := if CharAt(t, at, '-') then at + 1 else at;
    if !DigitAt(t, s) then None
    else if t[s] == '0' then Some(s + 1)
    else
      assert DigitsEnd(t, s) == DigitsEnd(t, s + 1);
      Some(DigitsEnd(t, s))
  }

  function FractionEnd(t: string, at: nat): (r: Option<nat>)
    requires at <= |t|
    ensures r.Some? ==> at <= r.value <= |t|
  {
    if !CharAt(t, at, '.') then Some(at)
    else if !DigitAt(t, at + 1) then None
    else Some(DigitsEnd(t, at + 1))
  }

  function ExponentEnd(t: string, at: nat): (r: Option<nat>)
    requires at <= |t|
    ensures r.Some? ==> at <= r.value <= |t|
  {
    if !CharAt(t, at, 'e') && !CharAt(t, at, 'E') then Some(at)
    else
      var s := if CharAt(t, at + 1, '+') || CharAt(t, at + 1, '-') then at + 2 else at + 1;
      if !DigitAt(t, s) then None else Some(DigitsEnd(t, s))
  }

  predicate AllDigits(s: string) { forall i :: 0 <= i < |s| ==> IsDigit(s[i]) }

  function DecimalValue(s: string): nat
    requires AllDigits(s)
  {
    if s == [] then 0
    else
      assert IsDigit(s[|s| - 1]);
      10 * DecimalValue(s[..|s| - 1]) + (s[|s| - 1] as nat - '0' as nat)
  }

  /** The value of an optional sign and digits, when 64 bits hold it. */
  function Integer64(s: string): Option<int> {
    var digits := if CharAt(s, 0, '-') then s[1..] else s;
    if !AllDigits(digits) then None
    else
      var n := if CharAt(s, 0, '-') then -(DecimalValue(digits) as int) else DecimalValue(digits) as int;
      if -0x8000_0000_0000_0000 <= n <= 0x7FFF_FFFF_FFFF_FFFF then Some(n) else None
  }

  function ReadNumber(t: string, at: nat): (r: Read<Value>)
    requires at <= |t|
    ensures r.Got? ==> at < r.next <= |t|
  {
    var i := IntegerEnd(t, at);
    if i.None? then Bad
    else
      var f := FractionEnd(t, i.value);
      if f.None? then Bad
      else
        var e := ExponentEnd(t, f.value);
        if e.None? then Bad
        else Got(Number(if e.value == i.value then Integer64(t[at..i.value]) else None), e.value)
  }

  function ReadLiteral(t: string, at: nat, word: string, v: Value): (r: Read<Value>)
    requires at <= |t| && word != []
    ensures r.Got? ==> at < r.next <= |t|
  {
    if at + |word| <= |t| && t[at..at + |word|] == word then Got(v, at + |word|) else Bad
  }

  // ----- Strings -----

  function HexDigit(c: char): (r: Option<nat>)
    ensures r.Some? ==> r.value < 16
  {
    if '0' <= c <= '9' then Some(c as nat - '0' as nat)
    else if 'a' <= c <= 'f' then Some(c as nat - 'a' as nat + 10)
    else if 'A' <= c <= 'F' then Some(c as nat - 'A' as nat + 10)
    else None
  }

  const HEX_LIMITS: seq<nat> := [1, 0x10, 0x100, 0x1000, 0x1_0000]

  /** The value of the `k` hexadecimal digits at `at`. */
  function HexValue(t: string, at: nat, k: nat): (r: Option<nat>)
    requires k <= 4
    ensures r.Some? ==> (k > 0 ==> at + k <= |t|) && r.value < HEX_LIMITS[k]
  {
    if k == 0 then Some(0)
    else
      var before := HexValue(t, at, k - 1);
      if before.None? || at + k > |t| then None
      else
        var digit := HexDigit(t[at + k - 1]);
        if digit.None? then None else Some(before.value * 16 + digit.value)
  }

  /** Four hexadecimal digits. */
  function ReadHex4(t: string, at: nat): (r: Read<nat>)
    ensures r.Got? ==> r.next == at + 4 <= |t| && r.value < 0x1_0000
  {
    var v := HexValue(t, at, 4);
    if v.None? then Bad else Got(v.value, at + 4)
  }

  /** The bytes of one scalar value in UTF-8. */
  function Utf8(code: nat): string
    requires code < 0x11_0000
  {
    if code < 0x80 then [code as char]
    else if code < 0x800 then [(0xC0 + code / 64) as char, (0x80 + code % 64) as char]
    else if code < 0x1_0000 then [(0xE0 + code / 4096) as char, (0x80 + code / 64 % 64) as char, (0x80 + code % 64) as char]
    else [(0xF0 + code / 262144) as char, (0x80 + code / 4096 % 64) as char, (0x80 + code / 64 % 64) as char, (0x80 + code % 64) as char]
  }

  /** One `\u` escape past its `u`: a scalar value, or a surrogate pair. */
  function ReadUnicode(t: string, at: nat): (r: Read<string>)
    ensures r.Got? ==> at < r.next <= |t|
  {
    var unit := ReadHex4(t, at);
    if unit.Bad? || 0xDC00 <= unit.value <= 0xDFFF then Bad
    else if unit.value < 0xD800 || unit.value > 0xDBFF then Got(Utf8(unit.value), unit.next)
    else if !CharAt(t, unit.next, '\\') || !CharAt(t, unit.next + 1, 'u') then Bad
    else
      var low := ReadHex4(t, unit.next + 2);
      if low.Bad? || low.value < 0xDC00 || low.value > 0xDFFF then Bad
      else Got(Utf8(0x1_0000 + (unit.value - 0xD800) * 1024 + (low.value - 0xDC00)), low.next)
  }

  /** What one plain escape stands for. */
  function PlainEscape(c: char): Option<char> {
    if c == '"' || c == '\\' || c == '/' then Some(c)
    else if c == 'b' then Some('\U{8}')
    else if c == 'f' then Some('\U{C}')
    else if c == 'n' then Some('\n')
    else if c == 'r' then Some('\r')
    else if c == 't' then Some('\t')
    else None
  }

  /** One escape past its backslash. */
  function ReadEscape(t: string, at: nat): (r: Read<string>)
    ensures r.Got? ==> at < r.next <= |t|
  {
    if at >= |t| then Bad
    else if t[at] == 'u' then ReadUnicode(t, at + 1)
    else if PlainEscape(t[at]).Some? then Got([PlainEscape(t[at]).value], at + 1)
    else Bad
  }

  function Prepend<T>(front: seq<T>, r: Read<seq<T>>): Read<seq<T>> {
    if r.Bad? then Bad else Got(front + r.value, r.next)
  }

  /** A string from past its opening quote. */
  function ReadChars(t: string, at: nat): (r: Read<string>)
    ensures r.Got? ==> at < r.next <= |t|
    decreases |t| - at
  {
    if at >= |t| then Bad
    else if t[at] == '"' then Got([], at + 1)
    else if t[at] < ' ' then Bad
    else if t[at] != '\\' then Prepend([t[at]], ReadChars(t, at + 1))
    else
      var escape := ReadEscape(t, at + 1);
      if escape.Bad? then Bad else Prepend(escape.value, ReadChars(t, escape.next))
  }

  // ----- Values -----

  function ReadValue(t: string, at: nat, depth: nat): (r: Read<Value>)
    requires at <= |t|
    ensures r.Got? ==> at < r.next <= |t|
    decreases |t| - at, 0
  {
    if depth >= MAX_DEPTH || at >= |t| then Bad
    else if t[at] == 'n' then ReadLiteral(t, at, "null", Null)
    else if t[at] == 't' then ReadLiteral(t, at, "true", Bool(true))
    else if t[at] == 'f' then ReadLiteral(t, at, "false", Bool(false))
    else if t[at] == '"' then
      var s := ReadChars(t, at + 1);
      if s.Bad? then Bad else Got(String(s.value), s.next)
    else if t[at] == '[' then
      var es := ReadArray(t, at + 1, depth);
      if es.Bad? then Bad else Got(Array(es.value), es.next)
    else if t[at] == '{' then
      var ms := ReadObject(t, at + 1, depth);
      if ms.Bad? then Bad else Got(Object(ms.value), ms.next)
    else ReadNumber(t, at)
  }

  /** An array's elements from past its `[`. */
  function ReadArray(t: string, at: nat, depth: nat): (r: Read<seq<Value>>)
    requires at <= |t|
    ensures r.Got? ==> at < r.next <= |t|
    decreases |t| - at, 3
  {
    var s := SkipBlanks(t, at);
    if CharAt(t, s, ']') then Got([], s + 1) else ReadElements(t, s, depth)
  }

  /** One element and all that follow it, to past the `]`. */
  function ReadElements(t: string, at: nat, depth: nat): (r: Read<seq<Value>>)
    requires at <= |t|
    ensures r.Got? ==> at < r.next <= |t|
    decreases |t| - at, 2
  {
    var v := ReadValue(t, SkipBlanks(t, at), depth + 1);
    if v.Bad? then Bad
    else
      var s := SkipBlanks(t, v.next);
      if CharAt(t, s, ',') then Prepend([v.value], ReadElements(t, s + 1, depth))
      else if CharAt(t, s, ']') then Got([v.value], s + 1)
      else Bad
  }

  /** An object's members from past its `{`. */
  function ReadObject(t: string, at: nat, depth: nat): (r: Read<seq<Member>>)
    requires at <= |t|
    ensures r.Got? ==> at < r.next <= |t|
    decreases |t| - at, 3
  {
    var s := SkipBlanks(t, at);
    if CharAt(t, s, '}') then Got([], s + 1) else ReadMembers(t, s, depth)
  }

  /** A key and the `:` after it, to where its value starts. */
  function ReadKey(t: string, at: nat): (r: Read<string>)
    requires at <= |t|
    ensures r.Got? ==> at < r.next <= |t|
  {
    var s := SkipBlanks(t, at);
    if !CharAt(t, s, '"') then Bad
    else
      var key := ReadChars(t, s + 1);
      if key.Bad? then Bad
      else
        var colon := SkipBlanks(t, key.next);
        if !CharAt(t, colon, ':') then Bad else Got(key.value, SkipBlanks(t, colon + 1))
  }

  /** One member and all that follow it, to past the `}`. */
  function ReadMembers(t: string, at: nat, depth: nat): (r: Read<seq<Member>>)
    requires at <= |t|
    ensures r.Got? ==> at < r.next <= |t|
    decreases |t| - at, 2
  {
    var key := ReadKey(t, at);
    if key.Bad? then Bad
    else
      var v := ReadValue(t, key.next, depth + 1);
      if v.Bad? then Bad
      else
        var s := SkipBlanks(t, v.next);
        if CharAt(t, s, ',') then Prepend([Member(key.value, v.value)], ReadMembers(t, s + 1, depth))
        else if CharAt(t, s, '}') then Got([Member(key.value, v.value)], s + 1)
        else Bad
  }

  /** A whole document: one value and nothing but blanks around it. */
  function ReadDocument(t: string): Option<Value> {
    var v := ReadValue(t, SkipBlanks(t, 0), 0);
    if v.Got? && SkipBlanks(t, v.next) == |t| then Some(v.value) else None
  }

  // ----- The duplicate-key rule, and what the keeping form keeps -----

  predicate DistinctKeys(ms: seq<Member>) {
    forall i, j :: 0 <= i < j < |ms| ==> ms[i].key != ms[j].key
  }

  /** No object anywhere in the value names two members alike. */
  predicate Strict(v: Value) {
    match v
    case Array(es) => forall i :: 0 <= i < |es| ==> Strict(es[i])
    case Object(ms) => DistinctKeys(ms) && forall i :: 0 <= i < |ms| ==> Strict(ms[i].value)
    case _ => true
  }

  /** What a reader builds: everything, or only the members it names. */
  datatype Keep = All | Only(names: seq<string>) {
    predicate Keeps(key: string) { All? || key in names }
  }

  /** The value with the members that are not kept removed at every depth. */
  function Trim(keep: Keep, v: Value): Value {
    match v
    case Array(es) => Array(TrimElements(keep, es))
    case Object(ms) => Object(TrimMembers(keep, ms))
    case _ => v
  }

  function TrimElements(keep: Keep, es: seq<Value>): (r: seq<Value>)
    ensures |r| == |es|
    ensures forall i :: 0 <= i < |es| ==> r[i] == Trim(keep, es[i])
  {
    if es == [] then [] else [Trim(keep, es[0])] + TrimElements(keep, es[1..])
  }

  function TrimMembers(keep: Keep, ms: seq<Member>): seq<Member> {
    if ms == [] then []
    else
      var rest := TrimMembers(keep, ms[1..]);
      if keep.Keeps(ms[0].key) then [Member(ms[0].key, Trim(keep, ms[0].value))] + rest else rest
  }

  // ----- What each form of the parser builds of an object -----

  /** Whether a member is built: it is kept, or it is the one streamed. */
  predicate Builds(stream: Option<string>, keep: Keep, key: string) {
    keep.Keeps(key) || stream == Some(key)
  }

  /** The members built: the streamed one is left an empty array. */
  function BuildMembers(stream: Option<string>, keep: Keep, ms: seq<Member>): seq<Member> {
    if ms == [] then []
    else
      var m, rest := ms[0], BuildMembers(stream, keep, ms[1..]);
      if !Builds(stream, keep, m.key) then rest
      else [Member(m.key, if stream == Some(m.key) then Array([]) else Trim(keep, m.value))] + rest
  }

  /** What the streamed member hands over. */
  function Handed(stream: Option<string>, keep: Keep, ms: seq<Member>): seq<Value> {
    if ms == [] then []
    else
      (if stream == Some(ms[0].key) && ms[0].value.Array? then TrimElements(keep, ms[0].value.elements) else [])
      + Handed(stream, keep, ms[1..])
  }

  /** Every element keeps the duplicate-key rule in what is built of it, and is accepted. */
  predicate ElementsOk(keep: Keep, accept: (Value, nat) -> bool, es: seq<Value>) {
    forall i :: 0 <= i < |es| ==> Strict(Trim(keep, es[i])) && accept(Trim(keep, es[i]), i)
  }

  predicate MemberOk(stream: Option<string>, keep: Keep, accept: (Value, nat) -> bool, m: Member) {
    if stream == Some(m.key) then m.value.Array? && ElementsOk(keep, accept, m.value.elements)
    else keep.Keeps(m.key) ==> Strict(Trim(keep, m.value))
  }

  predicate MembersOk(stream: Option<string>, keep: Keep, accept: (Value, nat) -> bool, ms: seq<Member>) {
    forall i :: 0 <= i < |ms| ==> MemberOk(stream, keep, accept, ms[i])
  }

  lemma {:induction false} BuildConcat(stream: Option<string>, keep: Keep, a: seq<Member>, b: seq<Member>)
    ensures BuildMembers(stream, keep, a + b) == BuildMembers(stream, keep, a) + BuildMembers(stream, keep, b)
    ensures Handed(stream, keep, a + b) == Handed(stream, keep, a) + Handed(stream, keep, b)
  {
    if a == [] {
      assert a + b == b;
    } else {
      assert (a + b)[1..] == a[1..] + b;
      BuildConcat(stream, keep, a[1..], b);
    }
  }

  lemma BuildOne(stream: Option<string>, keep: Keep, m: Member)
    ensures BuildMembers(stream, keep, [m]) == if !Builds(stream, keep, m.key) then [] else
              [Member(m.key, if stream == Some(m.key) then Array([]) else Trim(keep, m.value))]
    ensures Handed(stream, keep, [m]) == if stream == Some(m.key) && m.value.Array? then TrimElements(keep, m.value.elements) else []
  {
    assert [m][1..] == [];
  }

  /** Without a streamed member, what is built of an object is its trimming. */
  lemma {:induction false} BuildIsTrim(keep: Keep, ms: seq<Member>)
    ensures BuildMembers(None, keep, ms) == TrimMembers(keep, ms)
    ensures Handed(None, keep, ms) == []
  {
    if ms != [] {
      BuildIsTrim(keep, ms[1..]);
    }
  }

  lemma {:induction false} TrimMembersStrict(keep: Keep, ms: seq<Member>)
    ensures (forall i :: 0 <= i < |ms| && keep.Keeps(ms[i].key) ==> Strict(Trim(keep, ms[i].value)))
            <==> forall i :: 0 <= i < |TrimMembers(keep, ms)| ==> Strict(TrimMembers(keep, ms)[i].value)
  {
    if ms != [] {
      var head, tail := ms[0], ms[1..];
      TrimMembersStrict(keep, tail);
      var rest, all := TrimMembers(keep, tail), TrimMembers(keep, ms);
      assert forall i :: 0 < i < |ms| ==> ms[i] == tail[i - 1];
      assert forall i :: 0 <= i < |tail| ==> tail[i] == ms[i + 1];
      if keep.Keeps(head.key) {
        assert all == [Member(head.key, Trim(keep, head.value))] + rest;
        assert forall i :: 0 <= i < |rest| ==> rest[i] == all[i + 1];
        assert forall i :: 0 < i < |all| ==> all[i] == rest[i - 1];
        assert all[0].value == Trim(keep, head.value);
      }
    }
  }

  /** The rule for an object's trimming, in terms of its members. */
  lemma StrictObject(keep: Keep, accept: (Value, nat) -> bool, ms: seq<Member>)
    ensures Strict(Trim(keep, Object(ms))) <==> DistinctKeys(BuildMembers(None, keep, ms)) && MembersOk(None, keep, accept, ms)
  {
    BuildIsTrim(keep, ms);
    TrimMembersStrict(keep, ms);
  }

  lemma PrependNothing<T>(r: Read<seq<T>>)
    ensures Prepend([], r) == r
  {
    if r.Got? {
      assert [] + r.value == r.value;
    }
  }

  lemma PrependPrepend<T>(a: seq<T>, b: seq<T>, r: Read<seq<T>>)
    ensures Prepend(a, Prepend(b, r)) == Prepend(a + b, r)
  {
    if r.Got? {
      assert a + (b + r.value) == (a + b) + r.value;
    }
  }
}
