/** Which citations are derived from extracted data: by the keys, the items and the texts that hold them. */
module Mentions {
  import opened Options
  import opened Text
  import opened Whitespace
  import opened Values
  import opened CitationCompleteness

  /** A value holds a text: as an item of a list, alone or under its key, or between semicolons. */
  ghost predicate Holds(val: Json, text: string) {
    match val
    case List(items) => exists item :: item in items && ItemHolds(item, text)
    case Str(all) => text in SplitAtSemicolons(all)
    case _ => false
  }

  predicate ItemHolds(item: Json, text: string) {
    item == Str(text) || (item.Dict? && "citation_text" in item.entries && item.entries["citation_text"] == Str(text))
  }

  /** Splitting is undone by joining, and no part has a semicolon: that is, it is the only such split. */
  lemma {:induction false} SplitIsJoined(text: string)
    ensures Join(";", SplitAtSemicolons(text)) == text
    ensures forall i :: 0 <= i < |SplitAtSemicolons(text)| ==> ';' !in SplitAtSemicolons(text)[i]
  {
    if text != "" {
      var rest, parts := SplitAtSemicolons(text[1..]), SplitAtSemicolons(text);
      SplitIsJoined(text[1..]);
      if text[0] == ';' {
        assert parts[1..] == rest;
      } else if |rest| > 1 {
        assert parts[1..] == rest[1..];
        assert [text[0]] + (rest[0] + ";" + Join(";", rest[1..])) == [text[0]] + rest[0] + ";" + Join(";", rest[1..]);
      }
      assert text == [text[0]] + text[1..];
    }
  }

  lemma StrippedCollapses(s: string)
    ensures Collapse(Strip(s)) == Collapse(s)
  {
    NormalizeForDedupCollapses(s);
    if Strip(s) == "" { assert Split(Strip(s)) == []; }
  }

  /** Some text among these collapses to c. */
  ghost predicate Among(texts: seq<string>, c: string) {
    exists i :: 0 <= i < |texts| && Collapse(texts[i]) == c
  }

  ghost predicate Named(val: Json, c: string) {
    exists text :: Holds(val, text) && Collapse(text) == c
  }

  lemma AmongAppend(a: seq<string>, b: seq<string>, c: string)
    ensures Among(a + b, c) <==> Among(a, c) || Among(b, c)
  {
    forall i | 0 <= i < |a| ensures (a + b)[i] == a[i] { }
    forall i | 0 <= i < |b| ensures (a + b)[|a| + i] == b[i] { }
    if i :| 0 <= i < |a| && Collapse(a[i]) == c { assert Collapse((a + b)[i]) == c; }
    if i :| 0 <= i < |b| && Collapse(b[i]) == c { assert Collapse((a + b)[|a| + i]) == c; }
  }

  lemma ItemMentions(item: Json, text: string)
    ensures ItemHolds(item, text) <==> ItemMention(item) == Mentions(text)
  {
  }

  lemma {:induction false} ListNames(items: seq<Json>, c: string)
    requires ListMentions(items).Some?
    ensures Among(ListMentions(items).value, c) <==> Named(List(items), c)
  {
    if items != [] {
      var init, last := items[..|items| - 1], items[|items| - 1];
      assert items == init + [last];
      ListNames(init, c);
      ItemNames(init, last, c);
      if ItemMention(last).Mentions? { AmongAppend(ListMentions(init).value, [ItemMention(last).text], c); }
    }
  }

  lemma ItemNames(init: seq<Json>, last: Json, c: string)
    ensures Named(List(init + [last]), c)
            <==> Named(List(init), c) || (ItemMention(last).Mentions? && Among([ItemMention(last).text], c))
  {
    forall text ensures Holds(List(init + [last]), text) <==> Holds(List(init), text) || ItemHolds(last, text) {
      ItemMentions(last, text);
      assert (init + [last])[|init|] == last;
      if Holds(List(init), text) {
        var item :| item in init && ItemHolds(item, text);
        assert item in init + [last];
      }
    }
    forall text ensures ItemHolds(last, text) <==> ItemMention(last) == Mentions(text) { ItemMentions(last, text); }
    if ItemMention(last).Mentions? { assert [ItemMention(last).text][0] == ItemMention(last).text; }
  }

  lemma TextNames(all: string, c: string)
    ensures Among(Stripped(SplitAtSemicolons(all)), c) <==> Named(Str(all), c)
  {
    var parts := SplitAtSemicolons(all);
    forall i | 0 <= i < |parts| ensures Collapse(Stripped(parts)[i]) == Collapse(parts[i]) {
      StrippedCollapses(parts[i]);
    }
    if text :| Holds(Str(all), text) && Collapse(text) == c {
      var i :| 0 <= i < |parts| && parts[i] == text;
      assert Collapse(Stripped(parts)[i]) == c;
    }
    if i :| 0 <= i < |parts| && Collapse(Stripped(parts)[i]) == c { assert Holds(Str(all), parts[i]); }
  }

  lemma ValueNames(val: Json, c: string)
    requires ValueMentions(val).Some?
    ensures Among(ValueMentions(val).value, c) <==> Named(val, c)
  {
    match val
    case List(items) => ListNames(items, c);
    case Str(text) => TextNames(text, c);
    case _ =>
  }

  lemma {:induction false} AllNames(vals: seq<Json>, c: string)
    requires AllMentions(vals).Some?
    ensures Among(AllMentions(vals).value, c) <==> exists v :: v in vals && Named(v, c)
  {
    if vals != [] {
      var init, last := vals[..|vals| - 1], vals[|vals| - 1];
      assert vals == init + [last];
      AllNames(init, c);
      ValueNames(last, c);
      AmongAppend(AllMentions(init).value, ValueMentions(last).value, c);
    }
  }

  /** What is derived is exactly what the searched values hold, collapsed, except for blank texts. */
  lemma DerivedIff(data: map<string, Json>, c: string)
    requires AllMentions(Searched(data)).Some?
    ensures c in FirstOccurrences(AllMentions(Searched(data)).value)
            <==> c != "" && exists v :: v in Searched(data) && Named(v, c)
  {
    AllNames(Searched(data), c);
    DerivedAre(AllMentions(Searched(data)).value);
  }

  /** Everything under one of the three keys of the data is derived. */
  lemma KeyIsDerived(data: map<string, Json>, key: string, text: string)
    requires AllMentions(Searched(data)).Some?
    requires key in ["Citations", "citations", "regulations"] && key in data && Holds(data[key], text)
    requires Collapse(text) != ""
    ensures Collapse(text) in FirstOccurrences(AllMentions(Searched(data)).value)
  {
    DerivedIff(data, Collapse(text));
    assert data[key] in Searched(data) by {
      var vals := Searched(data);
      assert vals[1] == Get(data, "Citations") && vals[2] == Get(data, "citations")
             && vals[3] == Get(data, "regulations");
    }
    assert Named(data[key], Collapse(text));
  }

  /** Of the structured fields only the first of the keys with a value that is not empty is searched. */
  lemma StructuredIsDerived(data: map<string, Json>, sf: map<string, Json>, key: string, text: string)
    requires AllMentions(Searched(data)).Some? && "structured_fields" in data && data["structured_fields"] == Dict(sf)
    requires key in sf && Truthy(sf[key]) && Holds(sf[key], text) && Collapse(text) != ""
    requires || key == "regulations"
             || (key == "Citations" && !Truthy(Get(sf, "regulations")))
             || (key == "citations" && !Truthy(Get(sf, "regulations")) && !Truthy(Get(sf, "Citations")))
    ensures Collapse(text) in FirstOccurrences(AllMentions(Searched(data)).value)
  {
    DerivedIff(data, Collapse(text));
    assert sf[key] in Searched(data) by { assert Searched(data)[0] == Regulations(Dict(sf)) == sf[key]; }
    assert Named(sf[key], Collapse(text));
  }

  /** Nothing else is searched. */
  lemma NothingElseIsDerived(data: map<string, Json>, c: string)
    requires AllMentions(Searched(data)).Some? && c in FirstOccurrences(AllMentions(Searched(data)).value)
    ensures exists fields, key :: Holder(data, fields, key) && Named(fields[key], c)
  {
    DerivedIff(data, c);
    var v :| v in Searched(data) && Named(v, c);
    SearchedAre(data, v);
    var fields, key :| Holder(data, fields, key) && fields[key] == v;
  }

  /** The data itself, or its structured fields, under one of the three keys. */
  predicate Holder(data: map<string, Json>, fields: map<string, Json>, key: string) {
    && key in ["Citations", "citations", "regulations"] && key in fields
    && (fields == data || ("structured_fields" in data && data["structured_fields"] == Dict(fields)))
  }

  lemma SearchedAre(data: map<string, Json>, v: Json)
    requires v in Searched(data) && v != Null
    ensures exists fields, key :: Holder(data, fields, key) && fields[key] == v
  {
    var sf := Fields(data);
    if v == Regulations(sf) && sf.Dict? {
      var key := if Truthy(Get(sf.entries, "regulations")) then "regulations"
                 else if Truthy(Get(sf.entries, "Citations")) then "Citations" else "citations";
      assert Holder(data, sf.entries, key) && sf.entries[key] == v;
    } else {
      var key := if v == Get(data, "Citations") then "Citations"
                 else if v == Get(data, "citations") then "citations" else "regulations";
      assert Holder(data, data, key) && data[key] == v;
    }
  }

  /**
   A report is about the structured fields alone if the data has any, whatever stands beside them; about the data
   itself if not; and about nothing if the text cannot be read as an object.
   */
  lemma ReportIsAbout(parsed: Option<Json>)
    ensures parsed.None? || !parsed.value.Dict? ==> ExtractedData(parsed) == map[]
    ensures parsed.Some? && parsed.value.Dict? && "structured_fields" in parsed.value.entries
            && parsed.value.entries["structured_fields"].Dict?
            ==> ExtractedData(parsed) == parsed.value.entries["structured_fields"].entries
    ensures parsed.Some? && parsed.value.Dict? && "structured_fields" !in parsed.value.entries ==>
              ExtractedData(parsed) == parsed.value.entries
  {
  }
}
