/** The recursive-descent parser of `core/src/json.cpp`: one position that every method moves,
    proved against what the text means. */
module JsonParser {
  import opened Options
  import opened JsonText
  import JsonGrammar

  class Parser {
    const text: string
    const eachKey: string
    const keep: Keep
    /** Whether the caller's callback takes an element. */
    const accept: (Value, nat) -> bool
    var at: nat
    /** The elements the callback was given, in order. */
    var handed: seq<Value>

    constructor (text: string, eachKey: string, keep: Keep, accept: (Value, nat) -> bool)
      ensures this.text == text && this.eachKey == eachKey && this.keep == keep && this.accept == accept
      ensures at == 0 && handed == []
    {
      this.text, this.eachKey, this.keep, this.accept := text, eachKey, keep, accept;
      at, handed := 0, [];
    }

    method SkipWhitespace()
      requires at <= |text|
      modifies this`at
      ensures at <= |text| && at == SkipBlanks(text, old(at))
    {
      while at < |text| && IsBlank(text[at])
        invariant at <= |text| && SkipBlanks(text, old(at)) == SkipBlanks(text, at)
      {
        at := at + 1;
      }
    }

    method Literal(word: string, v: Value) returns (ok: bool)
      requires at <= |text| && word != []
      modifies this`at
      ensures ok <==> ReadLiteral(text, old(at), word, v).Got?
      ensures at <= |text| && (ok ==> at == ReadLiteral(text, old(at), word, v).next)
    {
      ok := at + |word| <= |text| && text[at..at + |word|] == word;
      if ok {
        at := at + |word|;
      }
    }

    method ParseHex4() returns (ok: bool, unit: nat)
      requires at <= |text|
      modifies this`at
      ensures ok <==> ReadHex4(text, old(at)).Got?
      ensures at <= |text| && (ok ==> at == old(at) + 4 && unit == ReadHex4(text, old(at)).value)
    {
      unit := 0;
      if at + 4 > |text| {
        return false, unit;
      }
      for i := 0 to 4
        invariant at == old(at) && at + 4 <= |text|
        invariant HexValue(text, at, i) == Some(unit)
      {
        var digit := HexDigit(text[at + i]);
        if digit.None? {
          assert HexValue(text, at, i + 1).None?;
          NotHex(text, at, i + 1);
          return false, unit;
        }
        unit := unit * 16 + digit.value;
      }
      at := at + 4;
      ok := true;
    }

    method ParseUnicodeEscape() returns (ok: bool, s: string)
      requires at <= |text|
      modifies this`at
      ensures ok <==> ReadUnicode(text, old(at)).Got?
      ensures at <= |text| && (ok ==> at == ReadUnicode(text, old(at)).next && s == ReadUnicode(text, old(at)).value)
    {
      s := [];
      var unit;
      ok, unit := ParseHex4();
      if !ok {
        return;
      }
      if 0xD800 <= unit <= 0xDBFF {
        if at + 1 >= |text| || text[at] != '\\' || text[at + 1] != 'u' {
          return false, s;
        }
        at := at + 2;
        var low;
        ok, low := ParseHex4();
        if !ok {
          return;
        }
        if low < 0xDC00 || low > 0xDFFF {
          return false, s;
        }
        unit := 0x1_0000 + (unit - 0xD800) * 1024 + (low - 0xDC00);
      } else if 0xDC00 <= unit <= 0xDFFF {
        return false, s;
      }
      s := Utf8(unit);
    }

    /** A string, built, or -- when nothing wants it -- only checked. */
    method ParseString(build: bool) returns (ok: bool, s: string)
      requires at < |text|
      modifies this`at
      ensures ok <==> ReadChars(text, old(at) + 1).Got?
      ensures at <= |text|
      ensures ok ==> at == ReadChars(text, old(at) + 1).next && s == if build then ReadChars(text, old(at) + 1).value else []
    {
      hide ReadUnicode, PlainEscape;
      ghost var start := at + 1;
      ghost var seen: string := [];
      at := at + 1;
      s := [];
      PrependNothing(ReadChars(text, at));
      while true
        invariant start <= at <= |text|
        invariant ReadChars(text, start) == Prepend(seen, ReadChars(text, at))
        invariant s == if build then seen else []
        decreases |text| - at
      {
        if at >= |text| {
          return false, s;
        }
        var c := text[at];
        ghost var from := at;
        if c == '"' {
          at := at + 1;
          return true, s;
        }
        if c < ' ' {
          return false, s;
        }
        if c != '\\' {
          if build {
            s := s + [c];
          }
          PrependPrepend(seen, [c], ReadChars(text, at + 1));
          seen := seen + [c];
          at := at + 1;
          continue;
        }
        at := at + 1;
        if at >= |text| {
          return false, s;
        }
        var escape := text[at];
        at := at + 1;
        var piece := [];
        if escape == 'u' {
          ok, piece := ParseUnicodeEscape();
          if !ok {
            return;
          }
        } else if PlainEscape(escape).Some? {
          piece := [PlainEscape(escape).value];
        } else {
          return false, s;
        }
        assert ReadEscape(text, from + 1) == Got(piece, at);
        if build {
          s := s + piece;
        }
        PrependPrepend(seen, piece, ReadChars(text, at));
        seen := seen + piece;
      }
    }

    method SkipDigits()
      requires at <= |text|
      modifies this`at
      ensures at <= |text| && at == DigitsEnd(text, old(at))
    {
      while at < |text| && IsDigit(text[at])
        invariant at <= |text| && DigitsEnd(text, old(at)) == DigitsEnd(text, at)
      {
        at := at + 1;
      }
    }

    method ParseInteger() returns (ok: bool)
      requires at <= |text|
      modifies this`at
      ensures ok <==> IntegerEnd(text, old(at)).Some?
      ensures at <= |text| && (ok ==> IntegerEnd(text, old(at)) == Some(at))
    {
      var start := at;
      if at < |text| && text[at] == '-' {
        at := at + 1;
      }
      if at >= |text| || !IsDigit(text[at]) {
        at := start;
        return false;
      }
      if text[at] == '0' {
        at := at + 1;
      } else {
        SkipDigits();
      }
      ok := true;
    }

    method ParseFraction() returns (ok: bool)
      requires at <= |text|
      modifies this`at
      ensures ok <==> FractionEnd(text, old(at)).Some?
      ensures at <= |text| && (ok ==> FractionEnd(text, old(at)) == Some(at))
    {
      if at < |text| && text[at] == '.' {
        at := at + 1;
        if at >= |text| || !IsDigit(text[at]) {
          return false;
        }
        SkipDigits();
      }
      ok := true;
    }

    method ParseExponent() returns (ok: bool)
      requires at <= |text|
      modifies this`at
      ensures ok <==> ExponentEnd(text, old(at)).Some?
      ensures at <= |text| && (ok ==> ExponentEnd(text, old(at)) == Some(at))
    {
      if at < |text| && (text[at] == 'e' || text[at] == 'E') {
        at := at + 1;
        if at < |text| && (text[at] == '+' || text[at] == '-') {
          at := at + 1;
        }
        if at >= |text| || !IsDigit(text[at]) {
          return false;
        }
        SkipDigits();
      }
      ok := true;
    }

    method ParseNumber() returns (ok: bool, v: Value)
      requires at <= |text|
      modifies this`at
      ensures ok <==> ReadNumber(text, old(at)).Got?
      ensures at <= |text| && (ok ==> at == ReadNumber(text, old(at)).next && v == ReadNumber(text, old(at)).value)
    {
      var start := at;
      v := Null;
      ok := ParseInteger();
      if !ok {
        return;
      }
      var last := at;
      ok := ParseFraction();
      if !ok {
        return;
      }
      var integral := at == last;
      ok := ParseExponent();
      if !ok {
        return;
      }
      integral := integral && at == last;
      v := Number(if integral then Integer64(text[start..at]) else None);
    }

    // ----- Values -----

    /** What a form of the parser builds: the keeping form what its reader names. */
    function Wanted(keeps: bool): Keep { if keeps then keep else All }

    method ParseValue(keeps: bool, depth: nat) returns (ok: bool, v: Value)
      requires at <= |text|
      modifies this
      ensures at <= |text| && handed == old(handed)
      ensures ok <==> Builds1(ReadValue(text, old(at), depth), Wanted(keeps))
      ensures ok ==> at == ReadValue(text, old(at), depth).next && v == Trim(Wanted(keeps), ReadValue(text, old(at), depth).value)
      decreases |text| - at, 1
    {
      ok, v := false, Null;
      if depth >= MAX_DEPTH || at >= |text| {
        return;
      }
      match text[at] {
        case 'n' =>
          ok := Literal("null", Null);
        case 't' =>
          ok := Literal("true", Bool(true));
          v := Bool(true);
        case 'f' =>
          ok := Literal("false", Bool(false));
          v := Bool(false);
        case '"' =>
          var s;
          ok, s := ParseString(true);
          v := String(s);
        case '[' =>
          ok, v := ParseArray(keeps, depth);
        case '{' =>
          ok, v := ParseObject(false, keeps, depth);
          StrictIfRead(ReadObject(text, old(at) + 1, depth), Wanted(keeps), accept);
        case _ =>
          ok, v := ParseNumber();
      }
    }

    method ParseArray(keeps: bool, depth: nat) returns (ok: bool, v: Value)
      requires at < |text| && text[at] == '['
      modifies this
      ensures at <= |text| && handed == old(handed)
      ensures ok <==> ElementsBuild(ReadArray(text, old(at) + 1, depth), Wanted(keeps))
      ensures ok ==> at == ReadArray(text, old(at) + 1, depth).next
                     && v == Array(TrimElements(Wanted(keeps), ReadArray(text, old(at) + 1, depth).value))
      decreases |text| - at, 0
    {
      hide ReadElements, ReadValue, Strict, Trim, TrimElements, Prepend, SkipBlanks, IsDigit;
      var elements: seq<Value> := [];
      v := Array([]);
      at := at + 1;
      SkipWhitespace();
      if at < |text| && text[at] == ']' {
        at := at + 1;
        return true, v;
      }
      ghost var from, read := at, [];
      ghost var whole := ReadElements(text, from, depth);
      PrependNothing(whole);
      while true
        invariant old(at) < at <= |text| && handed == old(handed)
        invariant whole == Prepend(read, ReadElements(text, at, depth))
        invariant elements == TrimElements(Wanted(keeps), read)
        invariant forall i :: 0 <= i < |read| ==> Strict(Trim(Wanted(keeps), read[i]))
        decreases |text| - at
      {
        ghost var here := at;
        SkipWhitespace();
        ghost var lax := ReadValue(text, at, depth + 1);
        var element;
        ok, element := ParseValue(keeps, depth + 1);
        if !ok {
          RefusedElement(text, here, depth, whole, read, lax);
          return;
        }
        elements := elements + [element];
        SkipWhitespace();
        ReadOnElements(text, here, depth, whole, read, lax, at);
        read := read + [lax.value];
        if at >= |text| {
          return false, v;
        }
        if text[at] == ',' {
          at := at + 1;
          continue;
        }
        if text[at] == ']' {
          at := at + 1;
          return true, Array(elements);
        }
        return false, v;
      }
    }

    /** Pass over a value: it ends where reading it would, and nothing is kept of it. */
    method SkipValue(depth: nat) returns (ok: bool)
      requires at <= |text|
      modifies this`at
      ensures at <= |text|
      ensures ok <==> ReadValue(text, old(at), depth).Got?
      ensures ok ==> at == ReadValue(text, old(at), depth).next
      decreases |text| - at, 1
    {
      ok := false;
      if depth >= MAX_DEPTH || at >= |text| {
        return;
      }
      var dropped, number;
      match text[at] {
        case 'n' =>
          ok := Literal("null", Null);
          return;
        case 't' =>
          ok := Literal("true", Bool(true));
          return;
        case 'f' =>
          ok := Literal("false", Bool(false));
          return;
        case '"' =>
          ok, dropped := ParseString(false);
          return;
        case '[' =>
        case '{' =>
        case _ =>
          ok, number := ParseNumber();
          return;
      }
      ok := SkipRest(text[at] == '{', depth);
    }

    /** An array or an object from its opening bracket, the same loop for both. */
    method SkipRest(isObject: bool, depth: nat) returns (ok: bool)
      requires at < |text| && text[at] == (if isObject then '{' else '[')
      modifies this`at
      ensures at <= |text|
      ensures ok <==> NestEnd(text, old(at), depth, isObject).Some?
      ensures ok ==> NestEnd(text, old(at), depth, isObject) == Some(at)
      decreases |text| - at, 0
    {
      hide ReadElements, ReadMembers, ReadValue, ReadKey, RestEnd, SkipBlanks, NestEnd;
      NestStarts(text, at, depth, isObject);
      var dropped;
      var close := if isObject then '}' else ']';
      at := at + 1;
      SkipWhitespace();
      if at < |text| && text[at] == close {
        at := at + 1;
        return true;
      }
      ghost var whole := RestEnd(text, at, depth, isObject);
      while true
        invariant old(at) < at <= |text|
        invariant whole == RestEnd(text, at, depth, isObject)
        decreases |text| - at
      {
        RestOn(text, at, depth, isObject);
        if isObject {
          ok, dropped := ParseKey(false);
          if !ok {
            return;
          }
        } else {
          SkipWhitespace();
        }
        ok := SkipValue(depth + 1);
        if !ok {
          return;
        }
        SkipWhitespace();
        if at >= |text| {
          return false;
        }
        if text[at] == ',' {
          at := at + 1;
          continue;
        }
        ok := text[at] == close;
        if ok {
          at := at + 1;
        }
        return;
      }
    }

    /** A key and its `:`, to where the value starts. */
    method ParseKey(build: bool) returns (ok: bool, key: string)
      requires at <= |text|
      modifies this`at
      ensures at <= |text|
      ensures ok <==> ReadKey(text, old(at)).Got?
      ensures ok ==> at == ReadKey(text, old(at)).next && key == if build then ReadKey(text, old(at)).value else []
    {
      SkipWhitespace();
      key := [];
      if at >= |text| || text[at] != '"' {
        return false, key;
      }
      ok, key := ParseString(build);
      if !ok {
        return;
      }
      SkipWhitespace();
      if at >= |text| || text[at] != ':' {
        return false, key;
      }
      at := at + 1;
      SkipWhitespace();
    }

    /** An object. If it `streams`, the elements of its member `eachKey` are handed over as they are read. */
    method ParseObject(streams: bool, keeps: bool, depth: nat) returns (ok: bool, v: Value)
      requires at < |text|
      modifies this
      ensures at <= |text| && (!streams ==> handed == old(handed))
      ensures ok <==> MembersBuild(ReadObject(text, old(at) + 1, depth), Streamed(streams), Wanted(keeps), accept)
      ensures ok ==> at == ReadObject(text, old(at) + 1, depth).next
                     && v == Object(BuildMembers(Streamed(streams), Wanted(keeps), ReadObject(text, old(at) + 1, depth).value))
                     && handed == old(handed) + Handed(Streamed(streams), Wanted(keeps), ReadObject(text, old(at) + 1, depth).value)
      ensures streams ==> HandsOverSome(old(handed), handed, Wanted(keeps), Streamable(text, SkipBlanks(text, old(at) + 1), depth, eachKey))
      decreases |text| - at, 0
    {
      hide HandsOverSome, Reachable, Streamable, StreamsOn, ObjectSoFar, MembersBuild, IsBlank, IsDigit, ReadObject, ReadMembers, ReadValue, ReadKey,
           Strict, Trim, TrimElements, Prepend, SkipBlanks, BuildMembers, Handed, DistinctKeys, SameKey, ElementsOk, MemberOk, Builds;
      ghost var stream, keep1, first := Streamed(streams), Wanted(keeps), handed;
      v := Object([]);
      at := at + 1;
      ghost var whole := ReadObject(text, at, depth);
      ObjectStarts(text, at, depth, stream, keep1, accept, handed);
      SkipWhitespace();
      StreamsStart(text, at, depth, stream, handed, keep1, eachKey);
      if at < |text| && text[at] == '}' {
        at := at + 1;
        return true, v;
      }
      var members: seq<Member> := [];
      ghost var from, read: seq<Member> := at, [];
      while true
        invariant old(at) < at <= |text| && (!streams ==> handed == first)
        invariant ObjectSoFar(text, at, depth, stream, keep1, accept, whole, read, members, first, handed)
        invariant StreamsOn(text, from, at, depth, stream, first, handed, keep1, members)
        invariant streams ==> HandsOverSome(first, handed, keep1, Streamable(text, from, depth, eachKey))
        decreases |text| - at
      {
        ghost var here, was, before := at, handed, members;
        var key;
        ok, key := ParseKey(true);
        if !ok {
          NoKeyIn(text, here, depth, stream, keep1, accept, whole, read, members, first, handed);
          return;
        }
        if SameKey(members, key) {
          TwiceIn(text, here, depth, stream, keep1, accept, whole, read, members, first, handed);
          return false, v;
        }
        var kept, value;
        ok, kept, value := ParseMember(streams, keeps, depth, key);
        StreamsMember(text, from, here, depth, stream, first, was, handed, keep1, members, key);
        if !ok {
          ValueIn(text, here, depth, stream, keep1, accept, whole, read, members, first, was);
          return;
        }
        if kept {
          members := members + [Member(key, value)];
        }
        SkipWhitespace();
        read := MemberIn(text, here, depth, stream, keep1, accept, whole, read, before, first, was, handed, value, members, at);
        if at >= |text| {
          return false, v;
        }
        if text[at] == ',' {
          StreamsNext(text, from, here, at, depth, stream, first, was, handed, keep1, before, members, key, value);
          at := at + 1;
          continue;
        }
        if text[at] == '}' {
          at := at + 1;
          return true, Object(members);
        }
        return false, v;
      }
    }

    /** One member's value: skipped, streamed or built. */
    method ParseMember(streams: bool, keeps: bool, depth: nat, key: string) returns (ok: bool, kept: bool, value: Value)
      requires at <= |text|
      modifies this
      ensures at <= |text| && (!streams ==> handed == old(handed))
      ensures kept == Builds(Streamed(streams), Wanted(keeps), key)
      ensures var r := ReadValue(text, old(at), depth + 1);
              && (ok <==> r.Got? && MemberOk(Streamed(streams), Wanted(keeps), accept, Member(key, r.value)))
              && (ok ==> at == r.next
                         && (kept ==> value == if Streamed(streams) == Some(key) then Array([]) else Trim(Wanted(keeps), r.value))
                         && handed == old(handed) + if Streamed(streams) == Some(key) then TrimElements(Wanted(keeps), r.value.elements) else [])
      ensures if Streamed(streams) == Some(key) then HandsOverSome(old(handed), handed, Wanted(keeps), Reachable(text, old(at), depth + 1))
              else handed == old(handed)
      decreases |text| - at, 3
    {
      hide ReadValue, Strict, Trim, TrimElements, ElementsOk, HandsOverSome, Reachable;
      kept, value := Builds(if streams then Some(eachKey) else None, Wanted(keeps), key), Null;
      if !kept {
        ok := SkipValue(depth + 1);
      } else if streams && key == eachKey {
        ok, value := ParseEach(keeps, depth + 1);
      } else {
        ok, value := ParseValue(keeps, depth + 1);
      }
    }

    /** `ParseArray` for the one array that is streamed: each element is handed over before the
        next is read. Any other value there is refused before it is parsed. */
    method ParseEach(keeps: bool, depth: nat) returns (ok: bool, v: Value)
      requires at <= |text|
      modifies this
      ensures at <= |text|
      ensures ok <==> HandsOver(ReadValue(text, old(at), depth), Wanted(keeps), accept)
      ensures ok ==> at == ReadValue(text, old(at), depth).next && v == Array([])
                     && handed == old(handed) + TrimElements(Wanted(keeps), ReadValue(text, old(at), depth).value.elements)
      ensures HandsOverSome(old(handed), handed, Wanted(keeps), Reachable(text, old(at), depth))
      decreases |text| - at, 2
    {
      hide ReadElements, ReadValue, Strict, Trim, TrimElements, Prepend, SkipBlanks, SoFar, SoFarAfter, HandsOverSome, Reachable, ElementsOk,
           StartsValue, IsBlank, HandsOver, ArraySoFar;
      v := Array([]);
      ghost var keep1, first, whole, all := Wanted(keeps), handed, ReadValue(text, at, depth), Reachable(text, at, depth);
      NoneYet(handed, keep1, all);
      if depth >= MAX_DEPTH || at >= |text| || text[at] != '[' {
        NoArray(text, at, depth, keep1, accept);
        if depth < MAX_DEPTH && at < |text| && StartsValue(text[at]) {
          return false, v;
        }
        ok, v := ParseValue(keeps, depth);
        return;
      }
      ArrayStarts(text, at, depth, keep1, accept, handed);
      at := at + 1;
      SkipWhitespace();
      if at < |text| && text[at] == ']' {
        at := at + 1;
        return true, v;
      }
      var index := 0;
      ghost var read: seq<Value> := [];
      while true
        invariant old(at) < at <= |text| && index == |read|
        invariant ArraySoFar(text, at, depth, keep1, accept, whole, all, read, first, handed)
        invariant HandsOverSome(first, handed, keep1, all)
        decreases |text| - at
      {
        ghost var here, was := at, handed;
        SkipWhitespace();
        var element;
        ok, element := ParseValue(keeps, depth + 1);
        if !ok {
          ElementRefused(text, here, depth, keep1, accept, whole, all, read, first, was);
          return;
        }
        ElementIn(text, here, depth, keep1, accept, whole, all, read, first, was, element);
        handed := handed + [element];
        if !accept(element, index) {
          ElementRefused(text, here, depth, keep1, accept, whole, all, read, first, was);
          return false, v;
        }
        SkipWhitespace();
        read := ElementNext(text, here, depth, keep1, accept, whole, all, read, first, was, element, at);
        index := index + 1;
        if at >= |text| {
          return false, v;
        }
        if text[at] == ',' {
          at := at + 1;
          continue;
        }
        if text[at] == ']' {
          at := at + 1;
          return true, v;
        }
        return false, v;
      }
    }

    function Streamed(streams: bool): Option<string> { if streams then Some(eachKey) else None }
  }

  // ----- Whole documents -----

  method Parse(text: string) returns (result: Option<Value>)
    ensures result == Parsed(text)
  {
    var parser := new Parser(text, "", All, (v, i) => true);
    parser.SkipWhitespace();
    if parser.at >= |text| {
      return None;
    }
    ghost var lax := ReadValue(text, parser.at, 0);
    if lax.Got? {
      TrimAll(lax.value);
    }
    var ok, root := parser.ParseValue(false, 0);
    if !ok {
      return None;
    }
    parser.SkipWhitespace();
    if parser.at < |text| {
      return None;
    }
    result := Some(root);
  }

  /** The streaming form: the array at `key`, or the root when `key` is empty, is handed over. */
  method ParseEach(text: string, key: string, keep: Keep, accept: (Value, nat) -> bool) returns (result: Option<Value>, handed: seq<Value>)
    ensures result.Some? <==> Streams(text, key, keep, accept)
    ensures result.Some? ==> result.value == StreamedValue(text, key, keep) && handed == StreamedElements(text, key, keep)
    ensures HandsOverSome([], handed, keep, InReach(text, key))
  {
    hide HandsOverSome, Reachable, Streamable;
    NoneYet([], keep, InReach(text, key));
    var parser := new Parser(text, key, keep, accept);
    result, handed := None, [];
    parser.SkipWhitespace();
    if parser.at >= |text| {
      return;
    }
    var wanted := if key == [] then '[' else '{';
    if text[parser.at] != wanted && StartsValue(text[parser.at]) {
      return;
    }
    var ok, root;
    if key == [] {
      ok, root := parser.ParseEach(keep.Only?, 0);
    } else {
      ok, root := parser.ParseObject(true, keep.Only?, 0);
    }
    handed := parser.handed;
    if !ok {
      return;
    }
    parser.SkipWhitespace();
    if parser.at < |text| {
      return;
    }
    result := Some(root);
  }

  /** What can be read of the array that is streamed. */
  ghost function InReach(t: string, key: string): seq<Value> {
    var s := SkipBlanks(t, 0);
    if key == [] then Reachable(t, s, 0) else if s < |t| then Streamable(t, SkipBlanks(t, s + 1), 0, key) else []
  }

  /** What parsing the whole text gives. */
  ghost function Parsed(t: string): Option<Value> {
    var d := ReadDocument(t);
    if d.Some? && Strict(d.value) then d else None
  }

  /** It gives the value of every text of RFC 8259 that nests no deeper than sixteen and names no member twice in one
      object, and nothing for any other text. */
  lemma ParsedIsDocument(t: string, v: Value)
    ensures Parsed(t) == Some(v) <==> JsonGrammar.Document(t, v) && Strict(v)
  {
    hide ReadDocument, JsonGrammar.Document, Strict;
    JsonGrammar.DocumentIsRead(t, v);
  }

  /** One escape gives the bytes that UTF-8 encodes its code unit with. */
  lemma EscapeParses(t: string, unit: nat, bytes: string)
    requires |t| == 8 && t[0] == t[7] == '"' && JsonGrammar.Unit(t, 1, unit)
    requires JsonGrammar.Scalar(unit) && JsonGrammar.Decoded(bytes) == Some(unit)
    ensures Parsed(t) == Some(String(bytes))
  {
    hide JsonGrammar.Unit, JsonGrammar.Decoded, JsonGrammar.Document;
    JsonGrammar.EscapeIsDocument(t, unit, bytes);
    ParsedIsDocument(t, String(bytes));
  }

  /** A surrogate pair gives the bytes of the one character it stands for. */
  lemma PairParses(t: string, high: nat, low: nat, bytes: string)
    requires |t| == 14 && t[0] == t[13] == '"' && JsonGrammar.Unit(t, 1, high) && JsonGrammar.Unit(t, 7, low)
    requires 0xD800 <= high <= 0xDBFF && 0xDC00 <= low <= 0xDFFF
    requires JsonGrammar.Decoded(bytes) == Some(0x1_0000 + (high - 0xD800) * 0x400 + (low - 0xDC00))
    ensures Parsed(t) == Some(String(bytes))
  {
    hide JsonGrammar.Unit, JsonGrammar.Decoded, JsonGrammar.Document;
    JsonGrammar.PairIsDocument(t, high, low, bytes);
    ParsedIsDocument(t, String(bytes));
  }

  /** The members the streaming form reads: its caller checks the first byte only when a value
      could start with it, and that byte is passed over unread. */
  ghost function TopMembers(t: string): Read<seq<Member>> {
    var s := SkipBlanks(t, 0);
    if s < |t| then ReadObject(t, s + 1, 0) else Bad
  }

  ghost function TopArray(t: string): Read<Value> { ReadValue(t, SkipBlanks(t, 0), 0) }

  /** Exactly the texts the streaming form accepts. */
  ghost predicate Streams(t: string, key: string, keep: Keep, accept: (Value, nat) -> bool) {
    var s := SkipBlanks(t, 0);
    && s < |t| && (t[s] == (if key == [] then '[' else '{') || !StartsValue(t[s]))
    && if key == [] then HandsOver(TopArray(t), keep, accept) && SkipBlanks(t, TopArray(t).next) == |t|
       else MembersBuild(TopMembers(t), Some(key), keep, accept) && SkipBlanks(t, TopMembers(t).next) == |t|
  }

  ghost function StreamedValue(t: string, key: string, keep: Keep): Value
    requires key != [] ==> TopMembers(t).Got?
  {
    if key == [] then Array([]) else Object(BuildMembers(Some(key), keep, TopMembers(t).value))
  }

  ghost function StreamedElements(t: string, key: string, keep: Keep): seq<Value>
    requires if key == [] then TopArray(t).Got? && TopArray(t).value.Array? else TopMembers(t).Got?
  {
    if key == [] then TrimElements(keep, TopArray(t).value.elements) else Handed(Some(key), keep, TopMembers(t).value)
  }

  // ----- What the methods promise, in terms of what was read -----

  /** A value was read, and what is built of it keeps the duplicate-key rule. */
  ghost predicate Builds1(r: Read<Value>, keep: Keep) {
    r.Got? && Strict(Trim(keep, r.value))
  }

  ghost predicate MembersBuild(r: Read<seq<Member>>, stream: Option<string>, keep: Keep, accept: (Value, nat) -> bool) {
    r.Got? && DistinctKeys(BuildMembers(stream, keep, r.value)) && MembersOk(stream, keep, accept, r.value)
  }

  /** An array was read, every element of it can be built, and every one is accepted. */
  ghost predicate HandsOver(r: Read<Value>, keep: Keep, accept: (Value, nat) -> bool) {
    r.Got? && r.value.Array? && ElementsOk(keep, accept, r.value.elements)
  }

  /** The elements that can be read from `at` on, however the text goes wrong after them. */
  ghost function SoFar(t: string, at: nat, depth: nat): seq<Value>
    requires at <= |t|
    decreases |t| - at, 1
  {
    var v := ReadValue(t, SkipBlanks(t, at), depth + 1);
    if v.Bad? then [] else [v.value] + SoFarAfter(t, v.next, depth)
  }

  ghost function SoFarAfter(t: string, at: nat, depth: nat): seq<Value>
    requires at <= |t|
    decreases |t| - at, 2
  {
    var s := SkipBlanks(t, at);
    if CharAt(t, s, ',') then SoFar(t, s + 1, depth) else []
  }

  /** What can be read of the array at `at`, if there is one. */
  ghost function Reachable(t: string, at: nat, depth: nat): seq<Value> {
    if depth < MAX_DEPTH && CharAt(t, at, '[') then SoFar(t, SkipBlanks(t, at + 1), depth) else []
  }

  lemma SoFarNext(t: string, at: nat, depth: nat, all: seq<Value>, read: seq<Value>)
    requires at <= |t| && ReadValue(t, SkipBlanks(t, at), depth + 1).Got? && all == read + SoFar(t, at, depth)
    ensures var v := ReadValue(t, SkipBlanks(t, at), depth + 1);
            var s := SkipBlanks(t, v.next);
            && read + [v.value] <= all
            && (CharAt(t, s, ',') ==> s < |t| && all == read + [v.value] + SoFar(t, s + 1, depth))
  {
  }

  /** What can be read of the first member named `key`, if it is an array: members from `at` on. */
  ghost function Streamable(t: string, at: nat, depth: nat, key: string): seq<Value>
    requires at <= |t|
    decreases |t| - at
  {
    var k := ReadKey(t, at);
    if k.Bad? then []
    else if k.value == key then Reachable(t, k.next, depth + 1)
    else
      var v := ReadValue(t, k.next, depth + 1);
      if v.Bad? then []
      else
        var s := SkipBlanks(t, v.next);
        if CharAt(t, s, ',') then Streamable(t, s + 1, depth, key) else []
  }

  /** With the members before `at` behind: the streamed one is among them, or still to come and nothing handed over. */
  ghost predicate StreamsOn(t: string, from: nat, at: nat, depth: nat, stream: Option<string>, before: seq<Value>, now: seq<Value>,
                            keep: Keep, members: seq<Member>) {
    && from <= |t| && at <= |t|
    && match stream
       case None => now == before
       case Some(key) =>
         if SameKey(members, key) then HandsOverSome(before, now, keep, Streamable(t, from, depth, key))
         else now == before && Streamable(t, from, depth, key) == Streamable(t, at, depth, key)
  }

  lemma StreamsStart(t: string, at: nat, depth: nat, stream: Option<string>, handed: seq<Value>, keep: Keep, key: string)
    requires at <= |t|
    ensures StreamsOn(t, at, at, depth, stream, handed, handed, keep, []) && HandsOverSome(handed, handed, keep, Streamable(t, at, depth, key))
  {
    NoneYet(handed, keep, Streamable(t, at, depth, key));
  }

  lemma StreamsMember(t: string, from: nat, here: nat, depth: nat, stream: Option<string>, before: seq<Value>, was: seq<Value>, now: seq<Value>,
                      keep: Keep, members: seq<Member>, key: string)
    requires StreamsOn(t, from, here, depth, stream, before, was, keep, members) && !SameKey(members, key)
    requires ReadKey(t, here).Got? && ReadKey(t, here).value == key
    requires if stream == Some(key) then HandsOverSome(was, now, keep, Reachable(t, ReadKey(t, here).next, depth + 1)) else now == was
    ensures stream.Some? ==> HandsOverSome(before, now, keep, Streamable(t, from, depth, stream.value))
  {
    hide HandsOverSome, Reachable, SameKey, ReadKey, ReadValue;
    if stream.Some? && stream != Some(key) && !SameKey(members, stream.value) {
      NoneYet(before, keep, Streamable(t, from, depth, stream.value));
    }
  }

  lemma StreamsNext(t: string, from: nat, here: nat, at: nat, depth: nat, stream: Option<string>, before: seq<Value>, was: seq<Value>, now: seq<Value>,
                    keep: Keep, members: seq<Member>, more: seq<Member>, key: string, value: Value)
    requires StreamsOn(t, from, here, depth, stream, before, was, keep, members)
    requires ReadKey(t, here).Got? && ReadKey(t, here).value == key && ReadValue(t, ReadKey(t, here).next, depth + 1).Got?
    requires at == SkipBlanks(t, ReadValue(t, ReadKey(t, here).next, depth + 1).next) && CharAt(t, at, ',')
    requires stream != Some(key) ==> now == was
    requires stream.Some? ==> HandsOverSome(before, now, keep, Streamable(t, from, depth, stream.value))
    requires more == if Builds(stream, keep, key) then members + [Member(key, value)] else members
    ensures StreamsOn(t, from, at + 1, depth, stream, before, now, keep, more)
  {
    hide HandsOverSome, Reachable, ReadKey, ReadValue;
    if stream.Some? { StillThere(members, Member(key, value), stream.value); }
  }

  lemma StillThere(members: seq<Member>, m: Member, key: string)
    ensures SameKey(members + [m], key) <==> SameKey(members, key) || m.key == key
  {
    assert forall i :: 0 <= i < |members| ==> (members + [m])[i] == members[i];
    assert (members + [m])[|members|] == m;
  }

  /** An array that can be read is what can be read of it. */
  lemma {:induction false} SoFarIsAll(t: string, at: nat, depth: nat)
    requires at <= |t| && ReadElements(t, at, depth).Got?
    ensures SoFar(t, at, depth) == ReadElements(t, at, depth).value
    decreases |t| - at
  {
    hide ReadValue;
    var v := ReadValue(t, SkipBlanks(t, at), depth + 1);
    var s := SkipBlanks(t, v.next);
    if CharAt(t, s, ',') { SoFarIsAll(t, s + 1, depth); }
  }

  lemma ReachableIsAll(t: string, at: nat, depth: nat)
    requires CharAt(t, at, '[') && at < |t| && ReadValue(t, at, depth).Got?
    ensures ReadValue(t, at, depth).value.Array? && Reachable(t, at, depth) == ReadValue(t, at, depth).value.elements
  {
    var s := SkipBlanks(t, at + 1);
    if CharAt(t, s, ']') {
      assert SkipBlanks(t, s) == s && ReadValue(t, s, depth + 1).Bad?;
    } else {
      SoFarIsAll(t, s, depth);
    }
  }

  /** What was handed over is, as it is kept, the start of `all`. */
  ghost predicate HandsOverSome(before: seq<Value>, now: seq<Value>, keep: Keep, all: seq<Value>) {
    exists n :: 0 <= n <= |all| && now == before + TrimElements(keep, all[..n])
  }

  lemma NoneYet(before: seq<Value>, keep: Keep, all: seq<Value>)
    ensures HandsOverSome(before, before, keep, all)
  {
    assert all[..0] == [] && TrimElements(keep, []) == [] && before + [] == before;
  }

  lemma OneMoreOver(before: seq<Value>, now: seq<Value>, element: Value, keep: Keep, all: seq<Value>, read: seq<Value>, v: Value)
    requires now == before + TrimElements(keep, read) && read + [v] <= all && element == Trim(keep, v)
    ensures HandsOverSome(before, now + [element], keep, all) && now + [element] == before + TrimElements(keep, read + [v])
  {
    assert TrimElements(keep, read + [v]) == TrimElements(keep, read) + [element];
    assert all[..|read| + 1] == read + [v];
  }

  /** Where there is no array none is handed over, and what starts no value is none. */
  lemma NoArray(t: string, at: nat, depth: nat, keep: Keep, accept: (Value, nat) -> bool)
    requires at <= |t| && !(depth < MAX_DEPTH && CharAt(t, at, '['))
    ensures !HandsOver(ReadValue(t, at, depth), keep, accept)
    ensures depth >= MAX_DEPTH || at >= |t| || !StartsValue(t[at]) ==> ReadValue(t, at, depth).Bad?
  {
    ReadsArray(t, at, depth);
  }

  /** With the elements in `read` behind: what is still to be read of the array, and what was handed over of it. */
  ghost predicate ArraySoFar(t: string, at: nat, depth: nat, keep: Keep, accept: (Value, nat) -> bool,
                             whole: Read<Value>, all: seq<Value>, read: seq<Value>, before: seq<Value>, now: seq<Value>) {
    && at <= |t| && whole == AsArray(Prepend(read, ReadElements(t, at, depth)))
    && all == read + SoFar(t, at, depth) && now == before + TrimElements(keep, read) && ElementsOk(keep, accept, read)
  }

  ghost function AsArray(es: Read<seq<Value>>): Read<Value> { if es.Bad? then Bad else Got(Array(es.value), es.next) }

  lemma ArrayStarts(t: string, at: nat, depth: nat, keep: Keep, accept: (Value, nat) -> bool, handed: seq<Value>)
    requires depth < MAX_DEPTH && CharAt(t, at, '[')
    ensures at < |t|
    ensures var s, whole := SkipBlanks(t, at + 1), ReadValue(t, at, depth);
            if CharAt(t, s, ']') then
              && HandsOver(whole, keep, accept) && whole == Got(Array([]), s + 1) && handed == handed + TrimElements(keep, [])
            else ArraySoFar(t, s, depth, keep, accept, whole, Reachable(t, at, depth), [], handed, handed)
  {
    hide ReadValue, ReadElements, SoFar;
    ReadsArray(t, at, depth);
    var s := SkipBlanks(t, at + 1);
    if !CharAt(t, s, ']') { PrependNothing(ReadElements(t, s, depth)); }
  }

  lemma ElementRefused(t: string, here: nat, depth: nat, keep: Keep, accept: (Value, nat) -> bool,
                       whole: Read<Value>, all: seq<Value>, read: seq<Value>, before: seq<Value>, now: seq<Value>)
    requires ArraySoFar(t, here, depth, keep, accept, whole, all, read, before, now)
    requires var lax := ReadValue(t, SkipBlanks(t, here), depth + 1);
             lax.Got? ==> !(Strict(Trim(keep, lax.value)) && accept(Trim(keep, lax.value), |read|))
    ensures !HandsOver(whole, keep, accept)
  {
    hide ReadValue, Strict, Trim, SoFar, TrimElements;
    RefusedElement(t, here, depth, Prepend(read, ReadElements(t, here, depth)), read, ReadValue(t, SkipBlanks(t, here), depth + 1));
  }

  lemma ElementIn(t: string, here: nat, depth: nat, keep: Keep, accept: (Value, nat) -> bool,
                  whole: Read<Value>, all: seq<Value>, read: seq<Value>, before: seq<Value>, was: seq<Value>, element: Value)
    requires ArraySoFar(t, here, depth, keep, accept, whole, all, read, before, was)
    requires var lax := ReadValue(t, SkipBlanks(t, here), depth + 1); lax.Got? && element == Trim(keep, lax.value)
    ensures HandsOverSome(before, was + [element], keep, all)
  {
    hide ReadValue, Strict, Trim, ReadElements, SoFar, ElementsOk, HandsOverSome, TrimElements;
    SoFarNext(t, here, depth, all, read);
    OneMoreOver(before, was, element, keep, all, read, ReadValue(t, SkipBlanks(t, here), depth + 1).value);
  }

  /** One element more, and what comes after it. */
  lemma ElementNext(t: string, here: nat, depth: nat, keep: Keep, accept: (Value, nat) -> bool,
                    whole: Read<Value>, all: seq<Value>, read: seq<Value>, before: seq<Value>, was: seq<Value>, element: Value, at: nat)
    returns (further: seq<Value>)
    requires ArraySoFar(t, here, depth, keep, accept, whole, all, read, before, was)
    requires var lax := ReadValue(t, SkipBlanks(t, here), depth + 1);
             lax.Got? && element == Trim(keep, lax.value) && Strict(element) && accept(element, |read|) && at == SkipBlanks(t, lax.next)
    ensures |further| == |read| + 1
    ensures if CharAt(t, at, ',') then ArraySoFar(t, at + 1, depth, keep, accept, whole, all, further, before, was + [element])
            else if CharAt(t, at, ']') then
              && HandsOver(whole, keep, accept) && whole == Got(Array(further), at + 1)
              && was + [element] == before + TrimElements(keep, further)
            else !HandsOver(whole, keep, accept)
  {
    hide ReadValue, Strict, Trim, ReadElements, SoFar, HandsOverSome, TrimElements, SkipBlanks;
    var lax := ReadValue(t, SkipBlanks(t, here), depth + 1);
    further := read + [lax.value];
    SoFarNext(t, here, depth, all, read);
    OneMoreOver(before, was, element, keep, all, read, lax.value);
    ReadOnElements(t, here, depth, Prepend(read, ReadElements(t, here, depth)), read, lax, at);
  }

  /** What a value may start with. */
  predicate StartsValue(c: char) {
    c == '{' || c == '[' || c == '"' || c == 't' || c == 'f' || c == 'n' || c == '-' || IsDigit(c)
  }

  predicate SameKey(ms: seq<Member>, key: string) {
    exists i :: 0 <= i < |ms| && ms[i].key == key
  }

  /** Where the rest of an array or an object ends. */
  ghost function RestEnd(t: string, at: nat, depth: nat, isObject: bool): Option<nat>
    requires at <= |t|
  {
    if isObject then
      var r := ReadMembers(t, at, depth);
      if r.Bad? then None else Some(r.next)
    else
      var r := ReadElements(t, at, depth);
      if r.Bad? then None else Some(r.next)
  }

  /** Where an array or an object that opens at `at` ends. */
  ghost function NestEnd(t: string, at: nat, depth: nat, isObject: bool): Option<nat>
    requires at < |t|
  {
    if isObject then
      var r := ReadObject(t, at + 1, depth);
      if r.Bad? then None else Some(r.next)
    else
      var r := ReadArray(t, at + 1, depth);
      if r.Bad? then None else Some(r.next)
  }

  lemma NestStarts(t: string, at: nat, depth: nat, isObject: bool)
    requires at < |t|
    ensures var s := SkipBlanks(t, at + 1);
            NestEnd(t, at, depth, isObject) ==
              if CharAt(t, s, if isObject then '}' else ']') then Some(s + 1) else RestEnd(t, s, depth, isObject)
  {
  }

  /** One turn of the skipping loop. */
  lemma RestOn(t: string, at: nat, depth: nat, isObject: bool)
    requires at <= |t|
    ensures isObject && ReadKey(t, at).Bad? ==> RestEnd(t, at, depth, isObject).None?
    ensures !isObject || ReadKey(t, at).Got? ==>
              var lax := ReadValue(t, if isObject then ReadKey(t, at).next else SkipBlanks(t, at), depth + 1);
              if lax.Bad? then RestEnd(t, at, depth, isObject).None?
              else
                var s := SkipBlanks(t, lax.next);
                RestEnd(t, at, depth, isObject) ==
                  if CharAt(t, s, ',') then RestEnd(t, s + 1, depth, isObject)
                  else if CharAt(t, s, if isObject then '}' else ']') then Some(s + 1)
                  else None
  {
    hide ReadValue, ReadKey, SkipBlanks;
  }

  /** What a value that starts with `[`, or does not, is read as. */
  lemma ReadsArray(t: string, at: nat, depth: nat)
    requires at <= |t|
    ensures depth < MAX_DEPTH && CharAt(t, at, '[') ==>
              ReadValue(t, at, depth) == var es := ReadArray(t, at + 1, depth);
                                         if es.Bad? then Bad else Got(Array(es.value), es.next)
    ensures (depth < MAX_DEPTH && CharAt(t, at, '[')) || ReadValue(t, at, depth).Bad? || !ReadValue(t, at, depth).value.Array?
    ensures depth >= MAX_DEPTH || at >= |t| || !StartsValue(t[at]) ==> ReadValue(t, at, depth).Bad?
  {
  }

  /** With the members in `read` behind: what is built and handed over of them, and what the whole object comes to. */
  ghost predicate ObjectSoFar(t: string, at: nat, depth: nat, stream: Option<string>, keep: Keep, accept: (Value, nat) -> bool,
                              whole: Read<seq<Member>>, read: seq<Member>, members: seq<Member>, before: seq<Value>, now: seq<Value>) {
    && at <= |t| && whole == Prepend(read, ReadMembers(t, at, depth))
    && members == BuildMembers(stream, keep, read) && DistinctKeys(members) && MembersOk(stream, keep, accept, read)
    && now == before + Handed(stream, keep, read)
  }

  lemma ObjectStarts(t: string, at: nat, depth: nat, stream: Option<string>, keep: Keep, accept: (Value, nat) -> bool, handed: seq<Value>)
    requires at <= |t|
    ensures var s, whole := SkipBlanks(t, at), ReadObject(t, at, depth);
            if CharAt(t, s, '}') then
              && MembersBuild(whole, stream, keep, accept) && whole == Got([], s + 1)
              && BuildMembers(stream, keep, []) == [] && handed + Handed(stream, keep, []) == handed
            else ObjectSoFar(t, s, depth, stream, keep, accept, whole, [], [], handed, handed)
  {
    NothingBuilt(stream, keep, accept);
    PrependNothing(ReadMembers(t, SkipBlanks(t, at), depth));
  }

  lemma NoKeyIn(t: string, here: nat, depth: nat, stream: Option<string>, keep: Keep, accept: (Value, nat) -> bool,
                whole: Read<seq<Member>>, read: seq<Member>, members: seq<Member>, before: seq<Value>, now: seq<Value>)
    requires ObjectSoFar(t, here, depth, stream, keep, accept, whole, read, members, before, now) && ReadKey(t, here).Bad?
    ensures !MembersBuild(whole, stream, keep, accept)
  {
  }

  lemma TwiceIn(t: string, here: nat, depth: nat, stream: Option<string>, keep: Keep, accept: (Value, nat) -> bool,
                whole: Read<seq<Member>>, read: seq<Member>, members: seq<Member>, before: seq<Value>, now: seq<Value>)
    requires ObjectSoFar(t, here, depth, stream, keep, accept, whole, read, members, before, now)
    requires ReadKey(t, here).Got? && SameKey(members, ReadKey(t, here).value)
    ensures !MembersBuild(whole, stream, keep, accept)
  {
    hide ReadValue, ReadKey, ReadMembers, BuildMembers, SameKey, DistinctKeys, Prepend, Handed;
    var key := ReadKey(t, here);
    var lax := ReadValue(t, key.next, depth + 1);
    RefusedTwice(t, here, depth, whole, read, Member(key.value, if lax.Got? then lax.value else Null), stream, keep);
  }

  lemma ValueIn(t: string, here: nat, depth: nat, stream: Option<string>, keep: Keep, accept: (Value, nat) -> bool,
                whole: Read<seq<Member>>, read: seq<Member>, members: seq<Member>, before: seq<Value>, now: seq<Value>)
    requires ObjectSoFar(t, here, depth, stream, keep, accept, whole, read, members, before, now) && ReadKey(t, here).Got?
    requires var lax := ReadValue(t, ReadKey(t, here).next, depth + 1);
             lax.Got? ==> !MemberOk(stream, keep, accept, Member(ReadKey(t, here).value, lax.value))
    ensures !MembersBuild(whole, stream, keep, accept)
  {
    hide ReadValue, ReadKey, ReadMembers, BuildMembers, DistinctKeys, Prepend, Handed, MemberOk;
    var key := ReadKey(t, here);
    var lax := ReadValue(t, key.next, depth + 1);
    RefusedValue(t, here, depth, whole, read, Member(key.value, if lax.Got? then lax.value else Null), stream, keep, accept);
  }

  /** One member more, and what comes after it. */
  lemma MemberIn(t: string, here: nat, depth: nat, stream: Option<string>, keep: Keep, accept: (Value, nat) -> bool,
                 whole: Read<seq<Member>>, read: seq<Member>, members: seq<Member>, before: seq<Value>, was: seq<Value>, now: seq<Value>,
                 value: Value, more: seq<Member>, at: nat) returns (further: seq<Member>)
    requires ObjectSoFar(t, here, depth, stream, keep, accept, whole, read, members, before, was)
    requires ReadKey(t, here).Got? && !SameKey(members, ReadKey(t, here).value)
    requires var key, lax := ReadKey(t, here).value, ReadValue(t, ReadKey(t, here).next, depth + 1);
             && lax.Got? && MemberOk(stream, keep, accept, Member(key, lax.value)) && at == SkipBlanks(t, lax.next)
             && (Builds(stream, keep, key) ==> value == if stream == Some(key) then Array([]) else Trim(keep, lax.value))
             && more == (if Builds(stream, keep, key) then members + [Member(key, value)] else members)
             && now == was + if stream == Some(key) then TrimElements(keep, lax.value.elements) else []
    ensures if CharAt(t, at, ',') then ObjectSoFar(t, at + 1, depth, stream, keep, accept, whole, further, more, before, now)
            else if CharAt(t, at, '}') then
              && MembersBuild(whole, stream, keep, accept) && whole == Got(further, at + 1)
              && more == BuildMembers(stream, keep, whole.value) && now == before + Handed(stream, keep, whole.value)
            else !MembersBuild(whole, stream, keep, accept)
  {
    hide ReadValue, ReadKey, ReadMembers, BuildMembers, SameKey, DistinctKeys, Prepend, Handed, MemberOk, MembersOk, Builds, Trim, TrimElements, SkipBlanks;
    var key := ReadKey(t, here);
    var m := Member(key.value, ReadValue(t, key.next, depth + 1).value);
    further := read + [m];
    AddMember(stream, keep, accept, read, m);
    ReadOn(t, here, depth, whole, read, m, at);
    assert members + [] == members;
  }

  lemma StrictIfRead(r: Read<seq<Member>>, keep: Keep, accept: (Value, nat) -> bool)
    ensures MembersBuild(r, None, keep, accept) <==> r.Got? && Strict(Trim(keep, Object(r.value)))
    ensures r.Got? ==> BuildMembers(None, keep, r.value) == TrimMembers(keep, r.value)
  {
    if r.Got? {
      StrictObject(keep, accept, r.value);
      BuildIsTrim(keep, r.value);
    }
  }

  // ----- One turn of each loop -----

  /** The element at `here` is one of the whole array's. */
  lemma RefusedElement(t: string, here: nat, depth: nat, whole: Read<seq<Value>>, read: seq<Value>, lax: Read<Value>)
    requires here <= |t| && whole == Prepend(read, ReadElements(t, here, depth))
    requires lax == ReadValue(t, SkipBlanks(t, here), depth + 1)
    ensures whole.Got? ==> lax.Got? && |read| < |whole.value| && whole.value[|read|] == lax.value
  {
  }

  lemma ReadOnElements(t: string, here: nat, depth: nat, whole: Read<seq<Value>>, read: seq<Value>, lax: Read<Value>, at: nat)
    requires here <= |t| && whole == Prepend(read, ReadElements(t, here, depth))
    requires lax == ReadValue(t, SkipBlanks(t, here), depth + 1) && lax.Got? && at == SkipBlanks(t, lax.next)
    ensures if CharAt(t, at, ',') then whole == Prepend(read + [lax.value], ReadElements(t, at + 1, depth))
            else if CharAt(t, at, ']') then whole == Got(read + [lax.value], at + 1)
            else whole.Bad?
  {
    if CharAt(t, at, ',') {
      PrependPrepend(read, [lax.value], ReadElements(t, at + 1, depth));
    }
  }

  lemma ReadOn(t: string, here: nat, depth: nat, whole: Read<seq<Member>>, read: seq<Member>, m: Member, at: nat)
    requires here <= |t| && whole == Prepend(read, ReadMembers(t, here, depth))
    requires ReadKey(t, here).Got? && m.key == ReadKey(t, here).value
    requires var lax := ReadValue(t, ReadKey(t, here).next, depth + 1);
             lax.Got? && m.value == lax.value && at == SkipBlanks(t, lax.next)
    ensures if CharAt(t, at, ',') then whole == Prepend(read + [m], ReadMembers(t, at + 1, depth))
            else if CharAt(t, at, '}') then whole == Got(read + [m], at + 1)
            else whole.Bad?
  {
    if CharAt(t, at, ',') {
      PrependPrepend(read, [m], ReadMembers(t, at + 1, depth));
    }
  }

  /** The member at `here` is one of the whole object's. */
  lemma MemberRead(t: string, here: nat, depth: nat, whole: Read<seq<Member>>, read: seq<Member>, m: Member)
    requires here <= |t| && whole == Prepend(read, ReadMembers(t, here, depth))
    requires ReadKey(t, here).Got? && m.key == ReadKey(t, here).value
    requires var lax := ReadValue(t, ReadKey(t, here).next, depth + 1);
             m.value == if lax.Got? then lax.value else Null
    ensures whole.Got? ==> ReadValue(t, ReadKey(t, here).next, depth + 1).Got? && |read| < |whole.value|
                           && whole.value == read + [m] + whole.value[|read| + 1..]
  {
    if whole.Got? {
      assert ReadMembers(t, here, depth).value[0] == m;
    }
  }

  lemma RefusedTwice(t: string, here: nat, depth: nat, whole: Read<seq<Member>>, read: seq<Member>, m: Member, stream: Option<string>, keep: Keep)
    requires here <= |t| && whole == Prepend(read, ReadMembers(t, here, depth))
    requires ReadKey(t, here).Got? && m.key == ReadKey(t, here).value
    requires var lax := ReadValue(t, ReadKey(t, here).next, depth + 1);
             m.value == if lax.Got? then lax.value else Null
    requires SameKey(BuildMembers(stream, keep, read), m.key)
    ensures whole.Got? ==> !DistinctKeys(BuildMembers(stream, keep, whole.value))
  {
    if whole.Got? {
      MemberRead(t, here, depth, whole, read, m);
      var after := whole.value[|read| + 1..];
      BuildConcat(stream, keep, read + [m], after);
      BuildConcat(stream, keep, read, [m]);
      BuildOne(stream, keep, m);
      var built := BuildMembers(stream, keep, read);
      var i :| 0 <= i < |built| && built[i].key == m.key;
      BuiltIsWanted(stream, keep, read, i);
      var all := BuildMembers(stream, keep, whole.value);
      assert all[i].key == all[|built|].key;
    }
  }

  lemma {:induction false} BuiltIsWanted(stream: Option<string>, keep: Keep, ms: seq<Member>, i: nat)
    requires i < |BuildMembers(stream, keep, ms)|
    ensures Builds(stream, keep, BuildMembers(stream, keep, ms)[i].key)
  {
    var head := ms[0];
    if !Builds(stream, keep, head.key) {
      BuiltIsWanted(stream, keep, ms[1..], i);
    } else if i > 0 {
      BuiltIsWanted(stream, keep, ms[1..], i - 1);
    }
  }

  lemma RefusedValue(t: string, here: nat, depth: nat, whole: Read<seq<Member>>, read: seq<Member>, m: Member, stream: Option<string>, keep: Keep,
                     accept: (Value, nat) -> bool)
    requires here <= |t| && whole == Prepend(read, ReadMembers(t, here, depth))
    requires ReadKey(t, here).Got? && m.key == ReadKey(t, here).value
    requires var lax := ReadValue(t, ReadKey(t, here).next, depth + 1);
             m.value == (if lax.Got? then lax.value else Null) && (lax.Got? ==> !MemberOk(stream, keep, accept, m))
    ensures whole.Got? ==> !MembersOk(stream, keep, accept, whole.value)
  {
    MemberRead(t, here, depth, whole, read, m);
    if whole.Got? {
      assert whole.value[|read|] == m;
    }
  }

  lemma {:induction false} TrimAll(v: Value)
    ensures Trim(All, v) == v
  {
    match v
    case Array(es) =>
      forall i | 0 <= i < |es| ensures Trim(All, es[i]) == es[i] { TrimAll(es[i]); }
      assert TrimElements(All, es) == es;
    case Object(ms) =>
      forall i | 0 <= i < |ms| ensures Trim(All, ms[i].value) == ms[i].value { TrimAll(ms[i].value); }
      TrimAllMembers(ms);
    case _ =>
  }

  lemma {:induction false} TrimAllMembers(ms: seq<Member>)
    requires forall i :: 0 <= i < |ms| ==> Trim(All, ms[i].value) == ms[i].value
    ensures TrimMembers(All, ms) == ms
  {
    if ms != [] {
      TrimAllMembers(ms[1..]);
    }
  }

  lemma NothingBuilt(stream: Option<string>, keep: Keep, accept: (Value, nat) -> bool)
    ensures BuildMembers(stream, keep, []) == [] && Handed(stream, keep, []) == []
    ensures MembersOk(stream, keep, accept, []) && DistinctKeys([])
  {
  }

  lemma AddMember(stream: Option<string>, keep: Keep, accept: (Value, nat) -> bool, read: seq<Member>, m: Member)
    requires DistinctKeys(BuildMembers(stream, keep, read)) && !SameKey(BuildMembers(stream, keep, read), m.key)
    requires MembersOk(stream, keep, accept, read) && MemberOk(stream, keep, accept, m)
    ensures BuildMembers(stream, keep, read + [m]) == BuildMembers(stream, keep, read) + BuildMembers(stream, keep, [m])
    ensures BuildMembers(stream, keep, [m]) == if !Builds(stream, keep, m.key) then [] else
              [Member(m.key, if stream == Some(m.key) then Array([]) else Trim(keep, m.value))]
    ensures Handed(stream, keep, read + [m]) == Handed(stream, keep, read)
              + if stream == Some(m.key) then TrimElements(keep, m.value.elements) else []
    ensures DistinctKeys(BuildMembers(stream, keep, read + [m]))
    ensures MembersOk(stream, keep, accept, read + [m])
  {
    BuildConcat(stream, keep, read, [m]);
    BuildOne(stream, keep, m);
  }

  ghost predicate ElementsBuild(r: Read<seq<Value>>, keep: Keep) {
    r.Got? && forall i :: 0 <= i < |r.value| ==> Strict(Trim(keep, r.value[i]))
  }

  lemma {:induction false} NotHex(t: string, at: nat, k: nat)
    requires 0 < k <= 4 && HexValue(t, at, k).None?
    ensures HexValue(t, at, 4).None?
    decreases 4 - k
  {
    if k < 4 {
      NotHex(t, at, k + 1);
    }
  }
}
