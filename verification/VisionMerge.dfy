/** The page results of a vision extraction, merged batch by batch. */
module VisionMerge {
  import opened Text
  import opened Values

  /** What a page gives: its text and the items of its fields in order, or the error that stopped it. */
  datatype Page = Extracted(text: string, fields: seq<(string, Json)>) | Failed(error: string)

  function PartText(index: nat, page: Page): string {
    "--- Page " + Decimal(index + 1) + " ---\n"
    + match page case Extracted(text, _) => text case Failed(error) => "[extraction failed: " + error + "]"
  }

  function FieldsOf(page: Page): seq<(string, Json)> {
    if page.Extracted? then page.fields else []
  }

  /** A field is set unless it already has a value that is not empty. */
  function MergeField(all: map<string, Json>, item: (string, Json)): map<string, Json> {
    if item.0 !in all || !Truthy(all[item.0]) then all[item.0 := item.1] else all
  }

  function Merge(all: map<string, Json>, items: seq<(string, Json)>): map<string, Json> {
    if items == [] then all else MergeField(Merge(all, items[..|items| - 1]), items[|items| - 1])
  }

  /** The text parts and the fields of the first n pages, one page after the other. */
  function TextParts(extract: nat -> Page, n: nat): seq<string> {
    if n == 0 then [] else TextParts(extract, n - 1) + [PartText(n - 1, extract(n - 1))]
  }

  function MergedFields(extract: nat -> Page, n: nat): map<string, Json> {
    if n == 0 then map[] else Merge(MergedFields(extract, n - 1), FieldsOf(extract(n - 1)))
  }

  /** All their items in order. */
  function Items(extract: nat -> Page, n: nat): seq<(string, Json)> {
    if n == 0 then [] else Items(extract, n - 1) + FieldsOf(extract(n - 1))
  }

  lemma {:induction false} MergeAppend(all: map<string, Json>, a: seq<(string, Json)>, b: seq<(string, Json)>)
    ensures Merge(all, a + b) == Merge(Merge(all, a), b)
    decreases |b|
  {
    if b == [] {
      assert a + b == a;
    } else {
      assert (a + b)[..|a + b| - 1] == a + b[..|b| - 1];
      MergeAppend(all, a, b[..|b| - 1]);
    }
  }

  method MergePage(all: map<string, Json>, items: seq<(string, Json)>) returns (r: map<string, Json>)
    ensures r == Merge(all, items)
  {
    r := all;
    for i := 0 to |items|
      invariant r == Merge(all, items[..i])
    {
      var (key, value) := items[i];
      assert items[..i + 1][..i] == items[..i];
      if key !in r || !Truthy(r[key]) {
        r := r[key := value];
      }
    }
    assert items[..|items|] == items;
  }

  /** One result: its part, and its fields unless it failed. */
  method MergeResult(index: nat, result: Page, parts: seq<string>, all: map<string, Json>)
    returns (textParts: seq<string>, fields: map<string, Json>)
    ensures textParts == parts + [PartText(index, result)] && fields == Merge(all, FieldsOf(result))
  {
    textParts, fields := parts + [PartText(index, result)], all;
    if result.Extracted? { fields := MergePage(all, result.fields); }
  }

  /** The results of a batch, in the order of its pages. */
  method GatherBatch(extract: nat -> Page, start: nat, end: nat) returns (results: seq<Page>)
    requires start <= end
    ensures |results| == end - start && forall k :: 0 <= k < |results| ==> results[k] == extract(start + k)
  {
    results := seq(end - start, i requires 0 <= i < end - start => extract(start + i));
  }

  /** The loop over the results of a batch. */
  method MergeBatch(extract: nat -> Page, start: nat, end: nat, results: seq<Page>, parts: seq<string>,
                    all: map<string, Json>)
    returns (textParts: seq<string>, fields: map<string, Json>)
    requires end == start + |results| && forall k :: 0 <= k < |results| ==> results[k] == extract(start + k)
    requires parts == TextParts(extract, start) && all == MergedFields(extract, start)
    ensures textParts == TextParts(extract, end) && fields == MergedFields(extract, end)
  {
    textParts, fields := parts, all;
    for index := start to end
      invariant textParts == TextParts(extract, index)
      invariant fields == MergedFields(extract, index)
    {
      assert results[index - start] == extract(index);
      textParts, fields := MergeResult(index, results[index - start], textParts, fields);
    }
  }

  /** The loop over the batches. */
  method ExtractBatches(extract: nat -> Page, pages: nat, batchSize: nat)
    returns (textParts: seq<string>, fields: map<string, Json>)
    requires batchSize >= 1
    ensures textParts == TextParts(extract, pages) && fields == MergedFields(extract, pages)
  {
    textParts, fields := [], map[];
    var batchStart := 0;
    while batchStart < pages
      invariant 0 <= batchStart <= pages
      invariant textParts == TextParts(extract, batchStart) && fields == MergedFields(extract, batchStart)
    {
      var batchEnd := if batchStart + batchSize <= pages then batchStart + batchSize else pages;
      var results := GatherBatch(extract, batchStart, batchEnd);
      textParts, fields := MergeBatch(extract, batchStart, batchEnd, results, textParts, fields);
      batchStart := batchEnd;
    }
  }

  /**
   The loops of `gemini_vision_extract`: the pages are extracted in batches, and the result does not
   depend on the size of the batches.
   */
  method ExtractPages(extract: nat -> Page, totalPages: nat, maxPages: int, batchSize: nat)
    returns (pages: int, fullText: string, fields: map<string, Json>)
    requires batchSize >= 1
    ensures pages == if totalPages <= maxPages then totalPages else maxPages
    ensures var n := if pages >= 0 then pages else 0;
            fullText == Join("\n\n", TextParts(extract, n)) && fields == MergedFields(extract, n)
  {
    pages := if totalPages <= maxPages then totalPages else maxPages;
    var textParts: seq<string>;
    textParts, fields := ExtractBatches(extract, if pages >= 0 then pages else 0, batchSize);
    fullText := Join("\n\n", textParts);
  }

  /** Every page has its part, whether it failed or not. */
  lemma {:induction false} PartOfEveryPage(extract: nat -> Page, n: nat, i: nat)
    requires i < n
    ensures |TextParts(extract, n)| == n && TextParts(extract, n)[i] == PartText(i, extract(i))
  {
    PartCount(extract, n);
    PartCount(extract, n - 1);
    if i < n - 1 { PartOfEveryPage(extract, n - 1, i); }
  }

  lemma {:induction false} PartCount(extract: nat -> Page, n: nat)
    ensures |TextParts(extract, n)| == n
  {
    if n > 0 { PartCount(extract, n - 1); }
  }

  // ----- The text -----

  /** The number that a text of digits is. */
  function Value(digits: string): int {
    if digits == "" then 0
    else 10 * Value(digits[..|digits| - 1]) + (digits[|digits| - 1] as int - '0' as int)
  }

  lemma {:induction false} DecimalHasValue(n: nat)
    ensures Value(Decimal(n)) == n && forall i :: 0 <= i < |Decimal(n)| ==> '0' <= Decimal(n)[i] <= '9'
  {
    var digit := "0123456789"[n % 10];
    assert digit as int - '0' as int == n % 10 && '0' <= digit <= '9' by { DigitIs(n % 10); }
    if n < 10 {
      assert [digit][..0] == "";
    } else {
      DecimalHasValue(n / 10);
      assert (Decimal(n / 10) + [digit])[..|Decimal(n / 10)|] == Decimal(n / 10);
    }
  }

  lemma DigitIs(k: nat)
    requires k < 10
    ensures "0123456789"[k] as int - '0' as int == k && '0' <= "0123456789"[k] <= '9'
  {
  }

  lemma {:induction false} JoinContains(separator: string, parts: seq<string>, i: nat)
    requires i < |parts|
    ensures Contains(Join(separator, parts), parts[i])
  {
    if |parts| == 1 {
      ContainsFront(parts[0], "");
      assert parts[0] + "" == parts[0];
    } else if i == 0 {
      ContainsFront(parts[0], separator + Join(separator, parts[1..]));
      assert parts[0] + (separator + Join(separator, parts[1..])) == Join(separator, parts);
    } else {
      JoinContains(separator, parts[1..], i - 1);
      ContainsBehind(parts[0] + separator, Join(separator, parts[1..]), parts[i]);
    }
  }

  /** The text has a part with this number and this content. */
  ghost predicate Shows(s: string, number: int, content: string) {
    exists digits :: Value(digits) == number && (forall i :: 0 <= i < |digits| ==> '0' <= digits[i] <= '9')
                     && Contains(s, "--- Page " + digits + " ---\n" + content)
  }

  /** Every page shows in the full text, under its number counted from one, with its text or its error. */
  lemma PageShows(extract: nat -> Page, n: nat, i: nat)
    requires i < n
    ensures var full, page := Join("\n\n", TextParts(extract, n)), extract(i);
            Shows(full, i + 1, if page.Extracted? then page.text else "[extraction failed: " + page.error + "]")
  {
    PartOfEveryPage(extract, n, i);
    JoinContains("\n\n", TextParts(extract, n), i);
    DecimalHasValue(i + 1);
  }

  // ----- The fields -----

  /** Merging page by page is merging all items. */
  lemma {:induction false} MergedItems(extract: nat -> Page, n: nat)
    ensures MergedFields(extract, n) == Merge(map[], Items(extract, n))
  {
    if n > 0 {
      MergedItems(extract, n - 1);
      MergeAppend(map[], Items(extract, n - 1), FieldsOf(extract(n - 1)));
    }
  }

  /** The item at i gives the field its value: the first that is not empty, or else the last one. */
  ghost predicate Decides(items: seq<(string, Json)>, i: nat, key: string)
    requires i < |items|
  {
    && items[i].0 == key
    && if Truthy(items[i].1) then forall k :: 0 <= k < i && items[k].0 == key ==> !Truthy(items[k].1)
       else forall k :: 0 <= k < |items| && items[k].0 == key ==> !Truthy(items[k].1) && k <= i
  }

  /** A merged field is its first value that is not empty in page order, or else its last empty one. */
  lemma {:induction false} MergedFieldIs(items: seq<(string, Json)>, key: string) returns (i: nat)
    ensures key in Merge(map[], items) <==> exists k :: 0 <= k < |items| && items[k].0 == key
    ensures key in Merge(map[], items) ==>
              i < |items| && Decides(items, i, key) && Merge(map[], items)[key] == items[i].1
  {
    i := 0;
    if items != [] {
      var init, last := items[..|items| - 1], items[|items| - 1];
      i := MergedFieldIs(init, key);
      if key in Merge(map[], init) {
        assert items[i] == init[i];
        if last.0 == key && !Truthy(init[i].1) { i := |items| - 1; }
      } else {
        assert forall k :: 0 <= k < |init| ==> init[k].0 != key;
        if last.0 == key { i := |items| - 1; }
      }
    }
  }
}
