/** A text on which the keeping form and the plain form of the JSON reader (core/src/json.cpp) disagree. */
module JsonWitness {
  import opened Options
  import opened JsonText
  import opened JsonParser
  import opened JsonStreaming
  import opened JsonWriter

  function Twice(): Value { Object([Member("k", Number(Some(1))), Member("k", Number(Some(2)))]) }

  function Nested(): Value { Object([Member("a", Twice())]) }

  const TWICE := "{\"a\":{\"k\":1,\"k\":2}}"

  lemma OneShown(key: string, v: Value, shown: string, first: bool)
    requires |key| == 1 && 'a' <= key[0] <= 'z' && Show(v) == shown
    ensures ShowMembers([Member(key, v)], first) == (if first then "" else ",") + ("\"" + key + "\":" + shown)
  {
    var ms := [Member(key, v)];
    assert ms[1..] == [] && key[1..] == "" && EscapedAll(key) == key;
    assert "\"" + key + "\"" + ":" + shown == "\"" + key + "\":" + shown;
  }

  lemma TwiceShown()
    ensures Show(Twice()) == "{\"k\":1,\"k\":2}"
  {
    var one, two := Member("k", Number(Some(1))), Member("k", Number(Some(2)));
    OneShown("k", one.value, "1", true);
    OneShown("k", two.value, "2", false);
    assert [one, two][1..] == [two] && [one][1..] == [];
    assert ShowMembers([one, two], true) == ShowMembers([one], true) + ShowMembers([two], false);
    assert "\"k\":1" + ",\"k\":2" == "\"k\":1,\"k\":2";
  }

  lemma TwiceIsShown()
    ensures Show(Nested()) == TWICE && Writable(Nested(), MAX_DEPTH)
  {
    hide ShowMembers;
    TwiceShown();
    OneShown("a", Twice(), "{\"k\":1,\"k\":2}", true);
    assert "{" + ("\"a\":{\"k\":1,\"k\":2}") + "}" == TWICE;
  }

  /** A key twice in an object that is passed over: the keeping form takes the text, the plain form does not. */
  lemma KeepsWhatParseRefuses()
    ensures Parsed(TWICE).None?
    ensures Streams(TWICE, "b", Only(["b"]), ALWAYS) && StreamedValue(TWICE, "b", Only(["b"])) == Object([])
  {
    hide Show, ReadValue, ReadObject;
    var ms := [Member("a", Twice())];
    TwiceIsShown();
    ShowStarts(Nested());
    NoBlank(TWICE, 0);
    assert JsonWriter.At(TWICE, 0, TWICE);
    ValueReads(TWICE, 0, Nested(), 0);
    assert SkipBlanks(TWICE, |TWICE|) == |TWICE|;
    assert ReadDocument(TWICE) == Some(Nested());
    TopIsDocument(TWICE);
    assert ms[1..] == [] && BuildMembers(Some("b"), Only(["b"]), ms) == [];
    NotStrict();
  }

  lemma NotStrict()
    ensures !Strict(Nested())
  {
    assert Twice().members[0].key == Twice().members[1].key;
    assert !Strict(Twice());
    assert Nested().members[0].value == Twice();
  }
}
