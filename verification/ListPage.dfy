/** A page of a list as it crosses the wire (core/src/ipc.cpp): written and sized by one writer, and
    read back as the page it was. */
module ListPage {
  import opened Options
  import opened JsonText
  import opened JsonParser
  import opened JsonStreaming
  import opened JsonWriter

  datatype Scalar = Text(text: string) | Integer(number: int) | Flag(flag: bool)

  datatype Field = Field(key: string, value: Scalar)

  type Item = seq<Field>

  datatype Page = Page(items: seq<Item>, hasMore: bool, pending: bool)

  datatype Limits = Limits(items: nat, fields: nat, bytes: nat)

  const ITEMS := "items"
  const HAS_MORE := "has_more"
  const PENDING := "pending"

  // ----- What a page looks like -----

  function ScalarValue(v: Scalar): Value {
    match v
    case Text(text) => String(text)
    case Integer(number) => Number(Some(number))
    case Flag(flag) => Bool(flag)
  }

  function Members(item: Item): (ms: seq<Member>)
    ensures |ms| == |item| && forall i :: 0 <= i < |ms| ==> ms[i] == Member(item[i].key, ScalarValue(item[i].value))
  {
    seq(|item|, i requires 0 <= i < |item| => Member(item[i].key, ScalarValue(item[i].value)))
  }

  function Items(items: seq<Item>): (vs: seq<Value>)
    ensures |vs| == |items| && forall i :: 0 <= i < |vs| ==> vs[i] == Object(Members(items[i]))
  {
    seq(|items|, i requires 0 <= i < |items| => Object(Members(items[i])))
  }

  function PageMembers(page: Page): seq<Member> {
    [Member(ITEMS, Array(Items(page.items))), Member(HAS_MORE, Bool(page.hasMore)), Member(PENDING, Bool(page.pending))]
  }

  function PageText(page: Page): string { Show(Object(PageMembers(page))) }

  // ----- Writing -----

  /** Anything that takes text: the text itself, and its length. */
  class Out {
    var text: string
    var bytes: nat

    constructor ()
      ensures text == "" && Counts()
    {
      text, bytes := "", 0;
    }

    ghost predicate Counts()
      reads this
    {
      bytes == |text|
    }

    method Add(more: string)
      requires Counts()
      modifies this
      ensures Counts() && text == old(text) + more
    {
      text, bytes := text + more, bytes + |more|;
    }

    /** A member's name, and a comma ahead of it when it is not the first. */
    method Key(name: string, first: bool)
      requires Counts()
      modifies this
      ensures Counts() && text == old(text) + (if first then "" else ",") + (Quoted(name) + ":")
    {
      if !first {
        Add(",");
      }
      var quoted := Quote(name);
      Add(quoted);
      Add(":");
    }

    method AddScalar(v: Scalar)
      requires Counts()
      modifies this
      ensures Counts() && text == old(text) + Show(ScalarValue(v))
    {
      match v {
        case Text(t) =>
          var quoted := Quote(t);
          Add(quoted);
        case Integer(n) => Add(ShowInt(n));
        case Flag(flag) => Add(if flag then "true" else "false");
      }
    }

    method AddItem(item: Item)
      requires Counts()
      modifies this
      ensures Counts() && text == old(text) + Show(Object(Members(item)))
    {
      hide Quoted, ShowMembers, Show, ScalarValue;
      ghost var start, ms := text, Members(item);
      NothingShown();
      Add("{");
      for i := 0 to |item|
        invariant Counts() && text == start + "{" + ShowMembers(ms[..i], true)
      {
        ghost var was := text;
        Key(item[i].key, i == 0);
        AddScalar(item[i].value);
        OneMoreShown(start, was, text, ms, i);
      }
      assert ms[..|item|] == ms;
      Add("}");
      ShowObject(ms);
      assert text == start + ("{" + ShowMembers(ms, true) + "}");
    }

    method AddItems(items: seq<Item>)
      requires Counts()
      modifies this
      ensures Counts() && text == old(text) + Show(Array(Items(items)))
    {
      hide ShowElements, Show;
      ghost var start, vs := text, Items(items);
      NothingShown();
      Add("[");
      for i := 0 to |items|
        invariant Counts() && text == start + "[" + ShowElements(vs[..i], true)
      {
        assert vs[..i + 1] == vs[..i] + [vs[i]];
        OneMoreElement(vs[..i], vs[i], true);
        if i > 0 {
          Add(",");
        }
        AddItem(items[i]);
      }
      assert vs[..|items|] == vs;
      Add("]");
      ShowsArray(vs);
      assert text == start + ("[" + ShowElements(vs, true) + "]");
    }
  }

  lemma ShowObject(ms: seq<Member>)
    ensures Show(Object(ms)) == "{" + ShowMembers(ms, true) + "}"
  {
  }

  method WriteListPage(out: Out, page: Page)
    requires out.Counts()
    modifies out
    ensures out.Counts() && out.text == old(out.text) + PageText(page)
  {
    hide Quoted, ShowElements, ShowMembers, Show, Items;
    ghost var start, ms := out.text, PageMembers(page);
    NothingShown();
    out.Add("{");
    assert out.text == start + "{" + ShowMembers(ms[..0], true);
    ghost var was := out.text;
    out.Key(ITEMS, true);
    out.AddItems(page.items);
    OneMoreShown(start, was, out.text, ms, 0);
    was := out.text;
    out.Key(HAS_MORE, false);
    out.AddScalar(Flag(page.hasMore));
    OneMoreShown(start, was, out.text, ms, 1);
    was := out.text;
    out.Key(PENDING, false);
    out.AddScalar(Flag(page.pending));
    OneMoreShown(start, was, out.text, ms, 2);
    assert ms[..3] == ms;
    out.Add("}");
    ShowObject(ms);
    assert out.text == start + ("{" + ShowMembers(ms, true) + "}");
  }

  lemma OneMoreShown(start: string, was: string, now: string, ms: seq<Member>, i: nat)
    requires i < |ms| && was == start + "{" + ShowMembers(ms[..i], true)
    requires now == was + (if i == 0 then "" else ",") + (Quoted(ms[i].key) + ":") + Show(ms[i].value)
    ensures now == start + "{" + ShowMembers(ms[..i + 1], true)
  {
    hide Quoted, ShowMembers, Show;
    assert ms[..i + 1] == ms[..i] + [ms[i]];
    OneMoreMember(ms[..i], ms[i], true);
    var sep, key, value := if i == 0 then "" else ",", Quoted(ms[i].key) + ":", Show(ms[i].value);
    assert was + sep + key + value == start + "{" + (ShowMembers(ms[..i], true) + sep + (key + value));
    assert Quoted(ms[i].key) + ":" + Show(ms[i].value) == key + value;
  }

  /** One writer for both: a page is judged by the size it is sent at. */
  method EncodedSize(page: Page) returns (bytes: nat)
    ensures bytes == |PageText(page)|
  {
    hide PageText;
    var length := new Out();
    WriteListPage(length, page);
    bytes := length.bytes;
    assert "" + PageText(page) == PageText(page);
  }

  method EncodeListPage(page: Page) returns (text: string)
    ensures text == PageText(page)
  {
    hide PageText;
    var out := new Out();
    WriteListPage(out, page);
    text := out.text;
    assert "" + PageText(page) == PageText(page);
  }

  /** An item is added only when the page still fits with it. */
  method AppendIfItFits(limits: Limits, page: Page, item: Item) returns (fits: bool, now: Page)
    ensures fits <==> |page.items| < limits.items && |PageText(page.(items := page.items + [item]))| <= limits.bytes
    ensures now == if fits then page.(items := page.items + [item]) else page
  {
    hide PageText;
    fits, now := false, page;
    if |page.items| >= limits.items {
      return;
    }
    now := page.(items := page.items + [item]);
    var bytes := EncodedSize(now);
    fits := bytes <= limits.bytes;
    if !fits {
      now := page;
    }
  }

  // ----- Reading -----

  function ScalarOf(v: Value): Option<Scalar> {
    match v
    case String(text) => if '\0' in text then None else Some(Text(text))
    case Number(n) => if n.Some? then Some(Integer(n.value)) else None
    case Bool(b) => Some(Flag(b))
    case _ => None
  }

  /** A flat object of scalars: one that is not refuses the page. */
  function FieldsOf(ms: seq<Member>): Option<Item> {
    if ms == [] then Some([])
    else
      var before, value := FieldsOf(ms[..|ms| - 1]), ScalarOf(ms[|ms| - 1].value);
      if before.Some? && value.Some? then Some(before.value + [Field(ms[|ms| - 1].key, value.value)]) else None
  }

  function ItemsOf(limits: Limits, vs: seq<Value>): Option<seq<Item>> {
    if vs == [] then Some([])
    else
      var before, v := ItemsOf(limits, vs[..|vs| - 1]), vs[|vs| - 1];
      if before.None? || !v.Object? || |v.members| > limits.fields then None
      else
        var item := FieldsOf(v.members);
        if item.Some? then Some(before.value + [item.value]) else None
  }

  function PageOf(limits: Limits, v: Value): Option<Page> {
    if !v.Object? then None else
      var items, hasMore, pending := Named(v.members, ITEMS), Named(v.members, HAS_MORE), Named(v.members, PENDING);
      if items.None? || !items.value.Array? || |items.value.elements| > limits.items then None
      else
        var read := ItemsOf(limits, items.value.elements);
        if read.None? || hasMore.None? || !hasMore.value.Bool? || pending.None? || !pending.value.Bool? then None
        else Some(Page(read.value, hasMore.value.truth, pending.value.truth))
  }

  ghost function Decoded(limits: Limits, text: string): Option<Page> {
    var v := Parsed(text);
    if |text| <= limits.bytes && v.Some? then PageOf(limits, v.value) else None
  }

  method DecodeListPage(limits: Limits, text: string) returns (page: Option<Page>)
    ensures page == Decoded(limits, text)
  {
    hide PageOf;
    page := None;
    if |text| > limits.bytes {
      return;
    }
    var document := Parse(text);
    if document.Some? {
      page := PageOf(limits, document.value);
    }
  }

  // ----- What was sent is what arrives -----

  predicate Sendable(limits: Limits, item: Item) {
    && |item| <= limits.fields
    && (forall i, j :: 0 <= i < j < |item| ==> item[i].key != item[j].key)
    && (forall i :: 0 <= i < |item| ==>
          match item[i].value
          case Text(text) => '\0' !in text
          case Integer(n) => -0x8000_0000_0000_0000 <= n <= 0x7FFF_FFFF_FFFF_FFFF
          case Flag(_) => true)
  }

  lemma {:induction false} FieldsRead(limits: Limits, item: Item)
    requires forall i :: 0 <= i < |item| ==> ScalarOf(ScalarValue(item[i].value)) == Some(item[i].value)
    ensures FieldsOf(Members(item)) == Some(item)
  {
    hide ScalarOf, ScalarValue;
    if item != [] {
      var n := |item| - 1;
      assert Members(item)[..n] == Members(item[..n]);
      FieldsRead(limits, item[..n]);
      assert item == item[..n] + [item[n]];
    }
  }

  lemma {:induction false} ItemsRead(limits: Limits, items: seq<Item>)
    requires forall i :: 0 <= i < |items| ==> Sendable(limits, items[i])
    ensures ItemsOf(limits, Items(items)) == Some(items)
  {
    hide FieldsOf, Members;
    if items != [] {
      var n := |items| - 1;
      assert Items(items)[..n] == Items(items[..n]);
      ItemsRead(limits, items[..n]);
      FieldsRead(limits, items[n]);
      assert items == items[..n] + [items[n]];
    }
  }

  lemma ItemIsWritable(limits: Limits, item: Item)
    requires Sendable(limits, item)
    ensures Writable(Object(Members(item)), MAX_DEPTH - 2) && Strict(Object(Members(item)))
  {
  }

  lemma PageIsWritable(limits: Limits, page: Page)
    requires forall i :: 0 <= i < |page.items| ==> Sendable(limits, page.items[i])
    ensures Writable(Object(PageMembers(page)), MAX_DEPTH) && Strict(Object(PageMembers(page)))
  {
    hide Sendable, Members;
    var vs := Items(page.items);
    forall i | 0 <= i < |vs| ensures Writable(vs[i], MAX_DEPTH - 2) && Strict(vs[i]) { ItemIsWritable(limits, page.items[i]); }
    KeysDiffer();
    assert Strict(Array(vs)) && Writable(Array(vs), MAX_DEPTH - 1);
  }

  lemma KeysDiffer()
    ensures ITEMS != HAS_MORE && ITEMS != PENDING && HAS_MORE != PENDING
  {
    assert |ITEMS| == 5 && |HAS_MORE| == 8 && |PENDING| == 7;
  }

  /** A page within its limits, whose items name no key twice and carry no NUL, arrives as it was sent. */
  lemma PageRoundTrip(limits: Limits, page: Page)
    requires |page.items| <= limits.items && |PageText(page)| <= limits.bytes
    requires forall i :: 0 <= i < |page.items| ==> Sendable(limits, page.items[i])
    ensures Decoded(limits, PageText(page)) == Some(page)
  {
    hide Show, Parsed, Writable, Strict, ItemsOf, Sendable, Items;
    var ms := PageMembers(page);
    PageIsWritable(limits, page);
    ParseUndoesShow(Object(ms));
    ItemsRead(limits, page.items);
    KeysDiffer();
    NamedIs(ms, 0);
    NamedIs(ms, 1);
    NamedIs(ms, 2);
  }
}
