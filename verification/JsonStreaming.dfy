/** What the streaming and keeping forms of the parser have to do with the plain one. */
module JsonStreaming {
  import opened Options
  import opened JsonText
  import opened JsonParser

  const ALWAYS: (Value, nat) -> bool := (v, i) => true

  /** The first member named `key`. */
  function Named(ms: seq<Member>, key: string): Option<Value> {
    if ms == [] then None
    else if ms[0].key == key then Some(ms[0].value)
    else Named(ms[1..], key)
  }

  lemma {:induction false} NamedIs(ms: seq<Member>, i: nat)
    requires i < |ms| && DistinctKeys(ms)
    ensures Named(ms, ms[i].key) == Some(ms[i].value)
  {
    if i > 0 {
      assert ms[1..][i - 1] == ms[i] && ms[0].key != ms[i].key;
      NamedIs(ms[1..], i - 1);
    }
  }

  ghost predicate ArrayOrAbsent(ms: seq<Member>, key: string) {
    Named(ms, key).Some? ==> Named(ms, key).value.Array?
  }

  /** The document with the streamed array emptied, every other member in place. */
  ghost predicate IsEmptied(ms: seq<Member>, key: string, r: seq<Member>) {
    && |r| == |ms|
    && forall i :: 0 <= i < |ms| ==> r[i] == if ms[i].key == key then Member(key, Array([])) else ms[i]
  }

  lemma {:induction false} TrimStrict(keep: Keep, v: Value)
    requires Strict(v)
    ensures Strict(Trim(keep, v))
  {
    match v
    case Array(es) =>
      forall i | 0 <= i < |es| ensures Strict(Trim(keep, es[i])) { TrimStrict(keep, es[i]); }
    case Object(ms) =>
      forall i | 0 <= i < |ms| ensures Strict(Trim(keep, ms[i].value)) { TrimStrict(keep, ms[i].value); }
      BuildIsTrim(keep, ms);
      TrimMembersStrict(keep, ms);
      BuildDistinct(None, keep, ms);
    case _ =>
  }

  lemma {:induction false} BuiltFrom(stream: Option<string>, keep: Keep, ms: seq<Member>, i: nat) returns (j: nat)
    requires i < |BuildMembers(stream, keep, ms)|
    ensures j < |ms| && BuildMembers(stream, keep, ms)[i].key == ms[j].key
  {
    if Builds(stream, keep, ms[0].key) && i == 0 {
      j := 0;
    } else {
      j := BuiltFrom(stream, keep, ms[1..], if Builds(stream, keep, ms[0].key) then i - 1 else i);
      j := j + 1;
    }
  }

  lemma {:induction false} BuildDistinct(stream: Option<string>, keep: Keep, ms: seq<Member>)
    requires DistinctKeys(ms)
    ensures DistinctKeys(BuildMembers(stream, keep, ms))
  {
    if ms != [] {
      assert forall i :: 0 <= i < |ms| - 1 ==> ms[1..][i] == ms[i + 1];
      BuildDistinct(stream, keep, ms[1..]);
      var rest := BuildMembers(stream, keep, ms[1..]);
      forall i | 0 <= i < |rest| ensures rest[i].key != ms[0].key {
        var j := BuiltFrom(stream, keep, ms[1..], i);
      }
    }
  }

  /** With distinct keys, the one streamed member is all that is handed over. */
  lemma {:induction false} HandedIsNamed(key: string, keep: Keep, ms: seq<Member>)
    requires DistinctKeys(ms) && ArrayOrAbsent(ms, key)
    ensures Handed(Some(key), keep, ms) == if Named(ms, key).Some? then TrimElements(keep, Named(ms, key).value.elements) else []
  {
    if ms != [] {
      assert forall i :: 0 <= i < |ms| - 1 ==> ms[1..][i] == ms[i + 1];
      if ms[0].key == key {
        NotNamed(ms[1..], key);
      }
      HandedIsNamed(key, keep, ms[1..]);
    }
  }

  lemma {:induction false} NotNamed(ms: seq<Member>, key: string)
    requires forall i :: 0 <= i < |ms| ==> ms[i].key != key
    ensures Named(ms, key).None?
  {
    if ms != [] {
      assert forall i :: 0 <= i < |ms| - 1 ==> ms[1..][i] == ms[i + 1];
      NotNamed(ms[1..], key);
    }
  }

  lemma {:induction false} EmptiedIsBuilt(ms: seq<Member>, key: string)
    ensures IsEmptied(ms, key, BuildMembers(Some(key), All, ms))
  {
    if ms != [] {
      assert forall i :: 0 <= i < |ms| - 1 ==> ms[1..][i] == ms[i + 1];
      EmptiedIsBuilt(ms[1..], key);
      TrimAll(ms[0].value);
    }
  }

  lemma StrictElementsOk(keep: Keep, es: seq<Value>)
    requires forall i :: 0 <= i < |es| ==> Strict(es[i])
    ensures ElementsOk(keep, ALWAYS, es)
  {
    forall i | 0 <= i < |es| ensures Strict(Trim(keep, es[i])) { TrimStrict(keep, es[i]); }
  }

  lemma StrictMembersOk(key: string, keep: Keep, ms: seq<Member>)
    requires Strict(Object(ms)) && ArrayOrAbsent(ms, key)
    ensures MembersOk(Some(key), keep, ALWAYS, ms)
  {
    forall i | 0 <= i < |ms| ensures MemberOk(Some(key), keep, ALWAYS, ms[i]) {
      if ms[i].key == key {
        NamedIs(ms, i);
        StrictElementsOk(keep, ms[i].value.elements);
      } else {
        TrimStrict(keep, ms[i].value);
      }
    }
  }

  /** An object's document, by its members. */
  lemma TopIsDocument(t: string)
    requires CharAt(t, SkipBlanks(t, 0), '{')
    ensures ReadDocument(t).Some? <==> TopMembers(t).Got? && SkipBlanks(t, TopMembers(t).next) == |t|
    ensures ReadDocument(t).Some? ==> ReadDocument(t) == Some(Object(TopMembers(t).value))
  {
  }

  /** Whatever the plain parser accepts, the keeping form accepts, and builds the same document
      with the members its reader does not name gone at every depth and the streamed array emptied,
      having handed over exactly that array's elements in order. */
  lemma KeepingRefinesParse(t: string, key: string, keep: Keep)
    requires CharAt(t, SkipBlanks(t, 0), '{') && key != []
    requires Parsed(t).Some? && ArrayOrAbsent(Parsed(t).value.members, key)
    ensures Streams(t, key, keep, ALWAYS)
    ensures StreamedValue(t, key, keep) == Object(BuildMembers(Some(key), keep, Parsed(t).value.members))
    ensures StreamedElements(t, key, keep) ==
              var named := Named(Parsed(t).value.members, key);
              if named.Some? then TrimElements(keep, named.value.elements) else []
  {
    TopIsDocument(t);
    var ms := TopMembers(t).value;
    StrictMembersOk(key, keep, ms);
    BuildDistinct(Some(key), keep, ms);
    HandedIsNamed(key, keep, ms);
  }

  /** When nothing is left out, the streaming form accepts a text that starts an object exactly
      when the plain parser does and the streamed member is an array or absent; and it then
      returns the plain parser's document with that array emptied. */
  lemma StreamingIsParse(t: string, key: string)
    requires CharAt(t, SkipBlanks(t, 0), '{') && key != []
    ensures Streams(t, key, All, ALWAYS) <==> Parsed(t).Some? && ArrayOrAbsent(Parsed(t).value.members, key)
    ensures Streams(t, key, All, ALWAYS) ==>
              && var ms := Parsed(t).value.members;
              && StreamedValue(t, key, All).Object? && IsEmptied(ms, key, StreamedValue(t, key, All).members)
              && StreamedElements(t, key, All) == if Named(ms, key).Some? then Named(ms, key).value.elements else []
  {
    TopIsDocument(t);
    if Streams(t, key, All, ALWAYS) {
      var ms := TopMembers(t).value;
      EmptiedIsBuilt(ms, key);
      var built := BuildMembers(Some(key), All, ms);
      assert DistinctKeys(ms) by {
        assert forall i :: 0 <= i < |ms| ==> built[i].key == ms[i].key;
      }
      forall i | 0 <= i < |ms| ensures Strict(ms[i].value) && (ms[i].key == key ==> ms[i].value.Array?) {
        assert MemberOk(Some(key), All, ALWAYS, ms[i]);
        TrimAll(ms[i].value);
        if ms[i].key == key {
          forall j | 0 <= j < |ms[i].value.elements| ensures Strict(ms[i].value.elements[j]) { TrimAll(ms[i].value.elements[j]); }
        }
      }
      if Named(ms, key).Some? {
        var i := NamedFrom(ms, key);
      }
    }
    if Parsed(t).Some? && ArrayOrAbsent(Parsed(t).value.members, key) {
      var ms := Parsed(t).value.members;
      KeepingRefinesParse(t, key, All);
      EmptiedIsBuilt(ms, key);
      if Named(ms, key).Some? {
        var es := Named(ms, key).value.elements;
        forall j | 0 <= j < |es| ensures Trim(All, es[j]) == es[j] { TrimAll(es[j]); }
        assert TrimElements(All, es) == es;
      }
    }
  }

  /** The streamed root array, likewise. */
  lemma StreamingRootIsParse(t: string)
    ensures Streams(t, "", All, ALWAYS) <==> Parsed(t).Some? && Parsed(t).value.Array?
    ensures Streams(t, "", All, ALWAYS) ==> StreamedElements(t, "", All) == Parsed(t).value.elements
  {
    ReadsArray(t, SkipBlanks(t, 0), 0);
    var top := TopArray(t);
    if top.Got? && top.value.Array? {
      var es := top.value.elements;
      forall j | 0 <= j < |es| ensures Trim(All, es[j]) == es[j] { TrimAll(es[j]); }
      assert TrimElements(All, es) == es;
      assert Strict(top.value) <==> ElementsOk(All, ALWAYS, es);
    }
  }

  lemma {:induction false} NamedFrom(ms: seq<Member>, key: string) returns (i: nat)
    requires Named(ms, key).Some?
    ensures i < |ms| && ms[i].key == key && Named(ms, key).value == ms[i].value
  {
    if ms[0].key == key {
      i := 0;
    } else {
      i := NamedFrom(ms[1..], key);
      i := i + 1;
    }
  }

  // ----- Reading looks at nothing before the position it is given -----

  ghost predicate SameFrom(t: string, u: string, from: nat) {
    |t| == |u| && forall i :: from <= i < |t| ==> t[i] == u[i]
  }

  lemma {:induction false} BlanksSame(t: string, u: string, from: nat, at: nat)
    requires SameFrom(t, u, from) && from <= at <= |t|
    ensures SkipBlanks(t, at) == SkipBlanks(u, at)
    decreases |t| - at
  {
    if at < |t| { BlanksSame(t, u, from, at + 1); }
  }

  lemma {:induction false} DigitsSame(t: string, u: string, from: nat, at: nat)
    requires SameFrom(t, u, from) && from <= at <= |t|
    ensures DigitsEnd(t, at) == DigitsEnd(u, at)
    decreases |t| - at
  {
    if at < |t| { DigitsSame(t, u, from, at + 1); }
  }

  lemma IntegerSame(t: string, u: string, from: nat, at: nat)
    requires SameFrom(t, u, from) && from <= at <= |t|
    ensures IntegerEnd(t, at) == IntegerEnd(u, at)
  {
    DigitsSame(t, u, from, at);
    if at < |t| { DigitsSame(t, u, from, at + 1); }
  }

  lemma FractionSame(t: string, u: string, from: nat, at: nat)
    requires SameFrom(t, u, from) && from <= at <= |t|
    ensures FractionEnd(t, at) == FractionEnd(u, at)
  {
    if at < |t| { DigitsSame(t, u, from, at + 1); }
  }

  lemma ExponentSame(t: string, u: string, from: nat, at: nat)
    requires SameFrom(t, u, from) && from <= at <= |t|
    ensures ExponentEnd(t, at) == ExponentEnd(u, at)
  {
    if at + 1 <= |t| { DigitsSame(t, u, from, at + 1); }
    if at + 2 <= |t| { DigitsSame(t, u, from, at + 2); }
  }

  lemma NumberSame(t: string, u: string, from: nat, at: nat)
    requires SameFrom(t, u, from) && from <= at <= |t|
    ensures ReadNumber(t, at) == ReadNumber(u, at)
  {
    hide IntegerEnd, FractionEnd, ExponentEnd, Integer64;
    IntegerSame(t, u, from, at);
    var i := IntegerEnd(t, at);
    if i.Some? {
      assert t[at..i.value] == u[at..i.value];
      FractionSame(t, u, from, i.value);
      var f := FractionEnd(t, i.value);
      if f.Some? { ExponentSame(t, u, from, f.value); }
    }
  }

  lemma HexSame(t: string, u: string, from: nat, at: nat)
    requires SameFrom(t, u, from) && from <= at
    ensures ReadHex4(t, at) == ReadHex4(u, at)
  {
    assert forall i :: at <= i < |t| ==> t[i] == u[i];
    HexValueSame(t, u, from, at, 4);
  }

  lemma {:induction false} HexValueSame(t: string, u: string, from: nat, at: nat, k: nat)
    requires SameFrom(t, u, from) && from <= at && k <= 4
    ensures HexValue(t, at, k) == HexValue(u, at, k)
  {
    if k > 0 { HexValueSame(t, u, from, at, k - 1); }
  }

  lemma EscapeSame(t: string, u: string, from: nat, at: nat)
    requires SameFrom(t, u, from) && from <= at
    ensures ReadEscape(t, at) == ReadEscape(u, at)
  {
    HexSame(t, u, from, at + 1);
    var unit := ReadHex4(t, at + 1);
    if unit.Got? {
      HexSame(t, u, from, unit.next + 2);
    }
  }

  lemma {:induction false} CharsSame(t: string, u: string, from: nat, at: nat)
    requires SameFrom(t, u, from) && from <= at
    ensures ReadChars(t, at) == ReadChars(u, at)
    decreases |t| - at
  {
    if at < |t| {
      CharsSame(t, u, from, at + 1);
      EscapeSame(t, u, from, at + 1);
      var escape := ReadEscape(t, at + 1);
      if escape.Got? { CharsSame(t, u, from, escape.next); }
    }
  }

  lemma KeySame(t: string, u: string, from: nat, at: nat)
    requires SameFrom(t, u, from) && from <= at <= |t|
    ensures ReadKey(t, at) == ReadKey(u, at)
  {
    BlanksSame(t, u, from, at);
    var s := SkipBlanks(t, at);
    CharsSame(t, u, from, s + 1);
    var key := ReadChars(t, s + 1);
    if key.Got? {
      BlanksSame(t, u, from, key.next);
      var colon := SkipBlanks(t, key.next);
      if colon < |t| { BlanksSame(t, u, from, colon + 1); }
    }
  }

  lemma LiteralSame(t: string, u: string, from: nat, at: nat, word: string, v: Value)
    requires SameFrom(t, u, from) && from <= at <= |t| && word != []
    ensures ReadLiteral(t, at, word, v) == ReadLiteral(u, at, word, v)
  {
    if at + |word| <= |t| { assert t[at..at + |word|] == u[at..at + |word|]; }
  }

  lemma {:induction false} ValueSame(t: string, u: string, from: nat, at: nat, depth: nat)
    requires SameFrom(t, u, from) && from <= at <= |t|
    ensures ReadValue(t, at, depth) == ReadValue(u, at, depth)
    decreases |t| - at, 0
  {
    hide ReadLiteral, ReadNumber, ReadChars, ReadArray, ReadObject;
    LiteralSame(t, u, from, at, "null", Null);
    LiteralSame(t, u, from, at, "true", Bool(true));
    LiteralSame(t, u, from, at, "false", Bool(false));
    NumberSame(t, u, from, at);
    CharsSame(t, u, from, at + 1);
    if at < |t| {
      ArraySame(t, u, from, at + 1, depth);
      ObjectSame(t, u, from, at + 1, depth);
    }
  }

  lemma {:induction false} ArraySame(t: string, u: string, from: nat, at: nat, depth: nat)
    requires SameFrom(t, u, from) && from <= at <= |t|
    ensures ReadArray(t, at, depth) == ReadArray(u, at, depth)
    decreases |t| - at, 3
  {
    BlanksSame(t, u, from, at);
    ElementsSame(t, u, from, SkipBlanks(t, at), depth);
  }

  lemma {:induction false} ElementsSame(t: string, u: string, from: nat, at: nat, depth: nat)
    requires SameFrom(t, u, from) && from <= at <= |t|
    ensures ReadElements(t, at, depth) == ReadElements(u, at, depth)
    decreases |t| - at, 2
  {
    hide ReadValue;
    BlanksSame(t, u, from, at);
    ValueSame(t, u, from, SkipBlanks(t, at), depth + 1);
    var v := ReadValue(t, SkipBlanks(t, at), depth + 1);
    if v.Got? {
      BlanksSame(t, u, from, v.next);
      var s := SkipBlanks(t, v.next);
      if s < |t| { ElementsSame(t, u, from, s + 1, depth); }
    }
  }

  lemma {:induction false} ObjectSame(t: string, u: string, from: nat, at: nat, depth: nat)
    requires SameFrom(t, u, from) && from <= at <= |t|
    ensures ReadObject(t, at, depth) == ReadObject(u, at, depth)
    decreases |t| - at, 3
  {
    BlanksSame(t, u, from, at);
    MembersSame(t, u, from, SkipBlanks(t, at), depth);
  }

  lemma {:induction false} MembersSame(t: string, u: string, from: nat, at: nat, depth: nat)
    requires SameFrom(t, u, from) && from <= at <= |t|
    ensures ReadMembers(t, at, depth) == ReadMembers(u, at, depth)
    decreases |t| - at, 2
  {
    hide ReadValue, ReadKey;
    KeySame(t, u, from, at);
    var key := ReadKey(t, at);
    if key.Got? {
      ValueSame(t, u, from, key.next, depth + 1);
      var v := ReadValue(t, key.next, depth + 1);
      if v.Got? {
        BlanksSame(t, u, from, v.next);
        var s := SkipBlanks(t, v.next);
        if s < |t| { MembersSame(t, u, from, s + 1, depth); }
      }
    }
  }

  // ----- A first byte that starts no value -----

  /** The text with its first byte that is not a blank replaced by `{`. */
  function Braced(t: string): string
    requires SkipBlanks(t, 0) < |t|
  {
    t[SkipBlanks(t, 0) := '{']
  }

  lemma {:induction false} BlanksBraced(t: string, at: nat)
    requires at <= |t| && SkipBlanks(t, at) < |t|
    ensures SkipBlanks(t[SkipBlanks(t, at) := '{'], at) == SkipBlanks(t, at)
    decreases |t| - at
  {
    if IsBlank(t[at]) {
      BlanksBraced(t, at + 1);
    }
  }

  /** Exactly what the streaming form accepts: it refuses a first byte that starts some other
      value, and takes any byte that starts none as the `{`. */
  lemma StreamingIsBraced(t: string, key: string, keep: Keep, accept: (Value, nat) -> bool)
    requires key != []
    ensures Streams(t, key, keep, accept) <==>
              var s := SkipBlanks(t, 0);
              s < |t| && (t[s] == '{' || !StartsValue(t[s])) && Streams(Braced(t), key, keep, accept)
    ensures Streams(t, key, keep, accept) ==>
              && StreamedValue(t, key, keep) == StreamedValue(Braced(t), key, keep)
              && StreamedElements(t, key, keep) == StreamedElements(Braced(t), key, keep)
  {
    var s := SkipBlanks(t, 0);
    if s < |t| {
      var u := Braced(t);
      BlanksBraced(t, 0);
      assert SameFrom(t, u, s + 1);
      ObjectSame(t, u, s + 1, s + 1, 0);
      var top := TopMembers(t);
      if top.Got? {
        BlanksSame(t, u, s + 1, top.next);
      }
    }
  }

  /** Where the first byte that is not a blank is no `{`, at most one of the two forms reads an object: the
      streaming form refuses a byte that starts another kind of value, and the plain form one that starts none. */
  lemma OtherFirstByteIsRefused(t: string, key: string, keep: Keep, accept: (Value, nat) -> bool)
    requires SkipBlanks(t, 0) < |t| && t[SkipBlanks(t, 0)] != '{' && key != []
    ensures StartsValue(t[SkipBlanks(t, 0)]) ==> !Streams(t, key, keep, accept) && (Parsed(t).Some? ==> !Parsed(t).value.Object?)
    ensures !StartsValue(t[SkipBlanks(t, 0)]) ==> Parsed(t).None?
  {
    hide ReadObject, ReadElements;
  }

  lemma AcceptsWhatParseRefuses()
    ensures Streams("x}", "a", All, ALWAYS) && Parsed("x}").None?
  {
    var t := "x}";
    assert SkipBlanks(t, 0) == 0 && SkipBlanks(t, 1) == 1;
    assert TopMembers(t) == Got([], 2);
    assert BuildMembers(Some("a"), All, []) == [];
    OtherFirstByteIsRefused(t, "a", All, ALWAYS);
  }
}
