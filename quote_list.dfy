/**
 * The list operations buried in the DOM handlers of script.js: the maximum
 * id, the Fisher-Yates shuffle, import renumbering, delete and update by
 * id, the category list, the category and search filters, and the
 * "next quote" index.
 */
module QuoteList {
  import opened Wrappers
  import opened JsString
  import opened QuoteModel
  import opened MergeEngine
  import opened RemoteClient

  /** `s.filter(keep)`: the elements that pass, in their order. */
  function Filter<T>(s: seq<T>, keep: T -> bool): seq<T>
    decreases |s|
  {
    if s == [] then []
    else
      var i := |s| - 1;
      Filter(s[..i], keep) + (if keep(s[i]) then [s[i]] else [])
  }

  /** A filter keeps exactly the elements that pass, in their original order. */
  lemma {:induction false} FilterSpec<T>(s: seq<T>, keep: T -> bool)
    ensures forall x :: x in Filter(s, keep) <==> x in s && keep(x)
    ensures IsSubsequence(Filter(s, keep), s)
    ensures |Filter(s, keep)| <= |s|
    decreases |s|
  {
    if s != [] {
      var i := |s| - 1;
      assert s == s[..i] + [s[i]];
      FilterSpec(s[..i], keep);
      var r, r0 := Filter(s, keep), Filter(s[..i], keep);
      if keep(s[i]) {
        assert r[..|r| - 1] == r0 && r[|r| - 1] == s[i];
      } else {
        assert r == r0;
      }
      assert IsSubsequence(r, s);
    }
  }

  /** A filter that every element passes is a copy. */
  lemma {:induction false} FilterKeepsAll<T>(s: seq<T>, keep: T -> bool)
    requires forall x :: x in s ==> keep(x)
    ensures Filter(s, keep) == s
    decreases |s|
  {
    if s != [] {
      assert s == s[..|s| - 1] + [s[|s| - 1]];
      FilterKeepsAll(s[..|s| - 1], keep);
    }
  }

  // ---------------------------------------------------------------- findMaxID

  /** The largest id, 0 for no ids. */
  function MaxId(ids: seq<nat>): nat
    decreases |ids|
  {
    if ids == [] then 0
    else
      var m := MaxId(ids[..|ids| - 1]);
      if ids[|ids| - 1] > m then ids[|ids| - 1] else m
  }

  /** On a non-empty list MaxId is one of the ids and no id exceeds it. */
  lemma {:induction false} MaxIdIsMax(ids: seq<nat>)
    ensures ids != [] ==> MaxId(ids) in ids
    ensures forall i :: 0 <= i < |ids| ==> ids[i] <= MaxId(ids)
    decreases |ids|
  {
    if ids != [] {
      var init := ids[..|ids| - 1];
      MaxIdIsMax(init);
      assert ids == init + [ids[|ids| - 1]];
    }
  }

  /**
   * findMaxID over numeric ids: 0 for an empty list, otherwise the largest.
   * max starts below every id, as -Infinity does in the source.
   */
  method FindMaxID(ids: seq<nat>) returns (max: int)
    ensures max == MaxId(ids)
    ensures ids == [] ==> max == 0
    ensures ids != [] ==> max in ids && forall i :: 0 <= i < |ids| ==> ids[i] <= max
  {
    if |ids| == 0 {
      return 0;
    }
    max := -1;
    var i := 0;
    while i < |ids|
      invariant 0 <= i <= |ids|
      invariant max == if i == 0 then -1 else MaxId(ids[..i])
    {
      assert ids[..i + 1][..i] == ids[..i];
      if ids[i] > max {
        max := ids[i];
      }
      i := i + 1;
    }
    assert ids[..i] == ids;
    MaxIdIsMax(ids);
  }

  /** `a < b` on strings is a strict total order. */
  lemma {:induction false} LexLessIrreflexive(a: string)
    ensures !LexLess(a, a)
    decreases |a|
  {
    if a != [] {
      LexLessIrreflexive(a[1..]);
    }
  }

  lemma {:induction false} LexLessTransitive(a: string, b: string, c: string)
    requires LexLess(a, b) && LexLess(b, c)
    ensures LexLess(a, c)
    decreases |a|
  {
    if a != [] && a[0] == b[0] && b[0] == c[0] {
      LexLessTransitive(a[1..], b[1..], c[1..]);
    }
  }

  lemma {:induction false} LexLessTotal(a: string, b: string)
    ensures a == b || LexLess(a, b) || LexLess(b, a)
    decreases |a|
  {
    if a != [] && b != [] && a[0] == b[0] {
      LexLessTotal(a[1..], b[1..]);
      if a[1..] == b[1..] {
        assert a == [a[0]] + a[1..] && b == [b[0]] + b[1..];
      }
    }
  }

  /**
   * The maximum findMaxID computes on string ids: after the first id, each
   * comparison `arr[i] > max` is between two strings, hence lexicographic.
   * "0" stands for the 0 returned on an empty list (parseInt reads both as 0).
   */
  function LexMaxId(ids: seq<string>): string
    decreases |ids|
  {
    if ids == [] then "0"
    else if |ids| == 1 then ids[0]
    else
      var m := LexMaxId(ids[..|ids| - 1]);
      if LexLess(m, ids[|ids| - 1]) then ids[|ids| - 1] else m
  }

  /** On a non-empty list the result is one of the ids and no id is greater under string comparison. */
  lemma {:induction false} LexMaxIdIsMax(ids: seq<string>)
    requires ids != []
    ensures LexMaxId(ids) in ids
    ensures forall i :: 0 <= i < |ids| ==> !LexLess(LexMaxId(ids), ids[i])
    decreases |ids|
  {
    if |ids| == 1 {
      LexLessIrreflexive(ids[0]);
    } else {
      var init, x := ids[..|ids| - 1], ids[|ids| - 1];
      LexMaxIdIsMax(init);
      var m := LexMaxId(init);
      assert ids == init + [x];
      if LexLess(m, x) {
        forall i | 0 <= i < |ids| ensures !LexLess(x, ids[i]) {
          if i < |init| {
            LexLessTotal(m, ids[i]);
            if LexLess(ids[i], m) {
              LexLessTransitive(ids[i], m, x);
            }
            if LexLess(x, ids[i]) {
              LexLessTransitive(x, ids[i], x);
              LexLessIrreflexive(x);
            }
          } else {
            LexLessIrreflexive(x);
          }
        }
      } else {
        LexLessTotal(m, x);
      }
    }
  }

  /**
   * findMaxID as written, on ids that read as numbers (so the first one
   * beats -Infinity and becomes max); every later comparison is between
   * strings.
   */
  method FindMaxIDAsWritten(ids: seq<string>) returns (max: string)
    requires forall i :: 0 <= i < |ids| ==> IsDecimal(ids[i])
    ensures max == LexMaxId(ids)
  {
    if |ids| == 0 {
      return "0";
    }
    max := ids[0];
    var i := 1;
    while i < |ids|
      invariant 1 <= i <= |ids|
      invariant max == LexMaxId(ids[..i])
    {
      assert ids[..i + 1][..i] == ids[..i];
      if LexLess(max, ids[i]) {
        max := ids[i];
      }
      i := i + 1;
    }
    assert ids[..i] == ids;
  }

  /**
   * findMaxID as written finds the numeric maximum exactly when string
   * comparison agrees with numeric order on the ids (for instance when all
   * have the same number of digits).
   */
  lemma LexMaxIdAgreesWhenOrdered(ids: seq<string>)
    requires forall i, j :: 0 <= i < |ids| && 0 <= j < |ids| ==>
      (LexLess(ids[i], ids[j]) <==> IdValue(ids[i]) < IdValue(ids[j]))
    ensures IdValue(LexMaxId(ids)) == MaxId(IdValues(ids))
  {
    var values := IdValues(ids);
    MaxIdIsMax(values);
    if ids != [] {
      LexMaxIdIsMax(ids);
      var k :| 0 <= k < |ids| && ids[k] == LexMaxId(ids);
      var m :| 0 <= m < |values| && values[m] == MaxId(values);
      assert !LexLess(ids[k], ids[m]);
      assert !(IdValue(ids[k]) < IdValue(ids[m]));
      assert values[k] == IdValue(ids[k]) && values[m] == IdValue(ids[m]);
      assert values[k] <= values[m];
      assert IdValue(LexMaxId(ids)) == values[k] == MaxId(values);
    } else {
      assert IsDigit("0"[0]);
      assert DecimalValue("0") == 0;
    }
  }

  /**
   * String comparison disagrees with numeric order: of the ids "9" and
   * "10", findMaxID picks "9" while the numeric maximum is 10.
   */
  lemma LexMaxIdMisordersNumbers()
    ensures LexMaxId(["9", "10"]) == "9"
    ensures MaxId(IdValues(["9", "10"])) == 10
  {
    assert !LexLess("9", "10");
  }

  // ---------------------------------------------------------------- import


  /** The number a string id reads as: its decimal value, 0 when it is not a string of digits. */
  function IdValue(s: string): nat {
    if forall i :: 0 <= i < |s| ==> IsDigit(s[i]) then DecimalValue(s) else 0
  }

  function IdValues(ids: seq<string>): (r: seq<nat>)
    ensures |r| == |ids| && forall i :: 0 <= i < |ids| ==> r[i] == IdValue(ids[i])
  {
    seq(|ids|, i requires 0 <= i < |ids| => IdValue(ids[i]))
  }

  /** The number a record's id reads as, 0 when it has none. */
  function IdNumber(q: Quote): nat {
    if q.id.Some? then IdValue(q.id.value) else 0
  }

  function IdNumbers(qs: seq<Quote>): (r: seq<nat>)
    ensures |r| == |qs| && forall i :: 0 <= i < |qs| ==> r[i] == IdNumber(qs[i])
  {
    seq(|qs|, i requires 0 <= i < |qs| => IdNumber(qs[i]))
  }

  /** `importedQuotes.map((q, index) => ({ ...q, id: (maxID + index + 1).toString() }))`. */
  function Renumbered(imported: seq<Quote>, maxId: nat): (r: seq<Quote>)
    ensures |r| == |imported|
    ensures forall i :: 0 <= i < |imported| ==> r[i] == imported[i].(id := Some(DecimalString(maxId + i + 1)))
  {
    seq(|imported|, i requires 0 <= i < |imported| => imported[i].(id := Some(DecimalString(maxId + i + 1))))
  }

  /** The list an import saves: the stored quotes, then the renumbered imported ones. */
  function Imported(stored: seq<Quote>, imported: seq<Quote>, maxId: nat): seq<Quote> {
    stored + Renumbered(imported, maxId)
  }

  /**
   * The stored quotes come first, unchanged; the imported ones follow in
   * file order, each keeping its fields but the id, which becomes
   * maxId + 1, maxId + 2, ... as a string.
   */
  lemma ImportedLayout(stored: seq<Quote>, imported: seq<Quote>, maxId: nat)
    ensures var r := Imported(stored, imported, maxId);
      && |r| == |stored| + |imported|
      && r[..|stored|] == stored
      && forall i :: 0 <= i < |imported| ==>
        && r[|stored| + i].text == imported[i].text && r[|stored| + i].category == imported[i].category
        && r[|stored| + i].author == imported[i].author && r[|stored| + i].editable == imported[i].editable
        && r[|stored| + i].id.Some? && IsDecimal(r[|stored| + i].id.value)
        && DecimalValue(r[|stored| + i].id.value) == maxId + i + 1
  {
  }

  /**
   * Renumbered from the numeric maximum of the stored ids, the imported
   * quotes get ids that no stored quote has and that differ from each other.
   */
  lemma ImportIdsFresh(stored: seq<Quote>, imported: seq<Quote>)
    ensures var r := Renumbered(imported, MaxId(IdNumbers(stored)));
      && (forall i, q :: 0 <= i < |r| && q in stored ==> r[i].id != q.id)
      && (forall i, j :: 0 <= i < j < |r| ==> r[i].id != r[j].id)
  {
    var m := MaxId(IdNumbers(stored));
    var r := Renumbered(imported, m);
    MaxIdIsMax(IdNumbers(stored));
    forall i, q | 0 <= i < |r| && q in stored ensures r[i].id != q.id {
      var k :| 0 <= k < |stored| && stored[k] == q;
      assert IdNumbers(stored)[k] <= m;
      var newId := DecimalString(m + i + 1);
      assert q.id == Some(newId) ==> IdNumber(q) == m + i + 1;
    }
    forall i, j | 0 <= i < j < |r| ensures r[i].id != r[j].id {
      assert DecimalValue(r[i].id.value) != DecimalValue(r[j].id.value);
    }
  }

  /**
   * With stored ids "9" and "10", findMaxID as written yields "9", and the
   * first imported quote is numbered "10": a second quote with id 10.
   */
  lemma ImportCollidesAsWritten(q9: Quote, q10: Quote, imported: Quote)
    requires q9.id == Some("9") && q10.id == Some("10")
    ensures LexMaxId([q9.id.value, q10.id.value]) == "9"
    ensures Imported([q9, q10], [imported], DecimalValue("9"))[2].id == q10.id
  {
    LexMaxIdMisordersNumbers();
    assert DecimalString(10) == "10";
  }

  /** The corrected numbering for the same stored ids gives "11". */
  lemma ImportFreshForNineAndTen(q9: Quote, q10: Quote, imported: Quote)
    requires q9.id == Some("9") && q10.id == Some("10")
    ensures Imported([q9, q10], [imported], MaxId(IdNumbers([q9, q10])))[2].id == Some("11")
  {
    assert DecimalValue("9") == 9 && DecimalValue("10") == 10;
    assert IdNumber(q9) == 9 && IdNumber(q10) == 10;
    assert IdNumbers([q9, q10]) == [9, 10];
    assert MaxId([9, 10]) == 10;
    assert DecimalString(11) == "11";
  }

  // ---------------------------------------------------------------- shuffle

  /**
   * shuffleElements: for i from the last index down to 1, swap cell i with a
   * cell j in [0, i]. Math.random is replaced by an arbitrary choice of j.
   */
  method ShuffleElements<T>(elements: array<T>)
    modifies elements
    ensures multiset(elements[..]) == multiset(old(elements[..]))
  {
    var i := elements.Length - 1;
    while i > 0
      invariant -1 <= i < elements.Length
      invariant multiset(elements[..]) == multiset(old(elements[..]))
    {
      var j :| 0 <= j <= i;
      elements[i], elements[j] := elements[j], elements[i];
      i := i - 1;
    }
  }

  /** displayRandomQuotes: shuffles a copy, so the result is a rearrangement of the argument. */
  method DisplayRandomQuotes(quotesArray: seq<Quote>) returns (shuffled: seq<Quote>)
    ensures |shuffled| == |quotesArray|
    ensures multiset(shuffled) == multiset(quotesArray)
  {
    var copy := new Quote[|quotesArray|](i requires 0 <= i < |quotesArray| => quotesArray[i]);
    assert copy[..] == quotesArray;
    ShuffleElements(copy);
    shuffled := copy[..];
    assert |shuffled| == |multiset(shuffled)| == |multiset(quotesArray)| == |quotesArray|;
  }

  // ---------------------------------------------------------------- delete and update

  /** `quotes.filter((quote) => quote.id !== id)`. */
  function WithoutId(quotes: seq<Quote>, id: Option<string>): seq<Quote> {
    Filter(quotes, (q: Quote) => q.id != id)
  }

  /** Deleting removes exactly the records with that id and keeps the others in order. */
  lemma WithoutIdSpec(quotes: seq<Quote>, id: Option<string>)
    ensures forall x :: x in WithoutId(quotes, id) <==> x in quotes && x.id != id
    ensures IsSubsequence(WithoutId(quotes, id), quotes)
    ensures (forall x :: x in quotes ==> x.id != id) ==> WithoutId(quotes, id) == quotes
  {
    FilterSpec(quotes, (q: Quote) => q.id != id);
    if forall x :: x in quotes ==> x.id != id {
      FilterKeepsAll(quotes, (q: Quote) => q.id != id);
    }
  }

  /** `Math.min(currentIndex, shuffled.length - 1)`; -1 when the list is empty. */
  function ClampIndex(currentIndex: int, length: nat): int {
    if currentIndex < length - 1 then currentIndex else length - 1
  }

  /** The clamped index is below the length, is the old index when that was in range, and is -1 only for an empty list or index -1. */
  lemma ClampIndexRange(currentIndex: int, length: nat)
    ensures ClampIndex(currentIndex, length) < length || length == 0
    ensures ClampIndex(currentIndex, length) <= currentIndex
    ensures currentIndex < length ==> ClampIndex(currentIndex, length) == currentIndex
    ensures currentIndex >= 0 && length > 0 ==> ClampIndex(currentIndex, length) >= 0
  {
  }

  /** `{ ...quote, ...updatedFields }`: every field updatedFields carries overrides the record's. */
  function ApplyFields(q: Quote, f: Fields): Quote {
    q.(text := f.text, category := f.category, author := f.author, editable := f.editable)
  }

  /** `quotes.map((quote) => quote.id === id ? { ...quote, ...updatedFields } : quote)`. */
  function UpdateById(quotes: seq<Quote>, id: Option<string>, f: Fields): (r: seq<Quote>)
    ensures |r| == |quotes|
    ensures forall i :: 0 <= i < |quotes| ==> r[i] == if quotes[i].id == id then ApplyFields(quotes[i], f) else quotes[i]
  {
    seq(|quotes|, i requires 0 <= i < |quotes| => if quotes[i].id == id then ApplyFields(quotes[i], f) else quotes[i])
  }

  /**
   * An update keeps length and order, leaves every record with another id
   * as it was, gives each matching record the new fields and keeps its id;
   * applying it twice is applying it once.
   */
  lemma UpdateByIdSpec(quotes: seq<Quote>, id: Option<string>, f: Fields)
    ensures var r := UpdateById(quotes, id, f);
      && (forall i :: 0 <= i < |quotes| && quotes[i].id != id ==> r[i] == quotes[i])
      && (forall i :: 0 <= i < |quotes| && quotes[i].id == id ==>
            r[i].id == id && r[i].text == f.text && r[i].category == f.category
            && r[i].author == f.author && r[i].editable == f.editable)
      && UpdateById(r, id, f) == r
  {
  }

  // ---------------------------------------------------------------- categories

  /** Position of the first occurrence of x in s. */
  function FirstIndex<T(==)>(s: seq<T>, x: T): (k: nat)
    requires x in s
    ensures k < |s| && s[k] == x && forall j :: 0 <= j < k ==> s[j] != x
  {
    if s[0] == x then 0 else 1 + FirstIndex(s[1..], x)
  }

  /** `[...new Set(values)]`: each value once, at its first occurrence. */
  function Dedup<T(==)>(values: seq<T>): seq<T>
    decreases |values|
  {
    if values == [] then []
    else
      var d := Dedup(values[..|values| - 1]);
      if values[|values| - 1] in d then d else d + [values[|values| - 1]]
  }

  lemma {:induction false} FirstIndexOfPrefix<T>(s: seq<T>, x: T, y: T)
    requires x in s
    ensures FirstIndex(s + [y], x) == FirstIndex(s, x)
  {
    var k := FirstIndex(s, x);
    var k' := FirstIndex(s + [y], x);
    assert (s + [y])[k] == x;
    assert k' <= k;
    assert s[k'] == (s + [y])[k'];
  }

  /**
   * The category list holds every value exactly once, and lists them in the
   * order of their first occurrence.
   */
  lemma {:induction false} DedupSpec<T>(values: seq<T>)
    ensures forall x :: x in Dedup(values) <==> x in values
    ensures Distinct(Dedup(values))
    ensures forall i, j :: 0 <= i < j < |Dedup(values)| ==>
      FirstIndex(values, Dedup(values)[i]) < FirstIndex(values, Dedup(values)[j])
    decreases |values|
  {
    if values != [] {
      var init, x := values[..|values| - 1], values[|values| - 1];
      assert values == init + [x];
      DedupSpec(init);
      var d := Dedup(init);
      forall y | y in init ensures FirstIndex(values, y) == FirstIndex(init, y) {
        FirstIndexOfPrefix(init, y, x);
      }
      if x !in d {
        assert x !in init;
        assert FirstIndex(values, x) == |init|;
      }
    }
  }

  /** `[...new Set(quotes.map((quote) => quote.category))]`. */
  function DistinctCategories(quotes: seq<Quote>): seq<Option<string>> {
    Dedup(seq(|quotes|, i requires 0 <= i < |quotes| => quotes[i].category))
  }

  /** Every stored category appears in the list, once, and nothing else does. */
  lemma DistinctCategoriesSpec(quotes: seq<Quote>)
    ensures forall c :: c in DistinctCategories(quotes) <==> exists q :: q in quotes && q.category == c
    ensures Distinct(DistinctCategories(quotes))
  {
    var cats := seq(|quotes|, i requires 0 <= i < |quotes| => quotes[i].category);
    DedupSpec(cats);
    forall c ensures c in cats <==> exists q :: q in quotes && q.category == c {
      if c in cats {
        var i :| 0 <= i < |cats| && cats[i] == c;
        assert quotes[i] in quotes;
      }
      if exists q :: q in quotes && q.category == c {
        var q :| q in quotes && q.category == c;
        var i :| 0 <= i < |quotes| && quotes[i] == q;
        assert cats[i] == c;
      }
    }
  }

  // ---------------------------------------------------------------- filters

  /** filterQuote's list: a copy of everything for "all", otherwise the quotes of that category. */
  function ByCategory(quotes: seq<Quote>, selectedCategory: string): seq<Quote> {
    if selectedCategory == "all" then quotes
    else Filter(quotes, (q: Quote) => q.category == Some(selectedCategory))
  }

  /** "all" keeps everything; another category keeps exactly its quotes, in order. */
  lemma ByCategorySpec(quotes: seq<Quote>, selectedCategory: string)
    ensures selectedCategory == "all" ==> ByCategory(quotes, selectedCategory) == quotes
    ensures selectedCategory != "all" ==>
      && (forall x :: x in ByCategory(quotes, selectedCategory) <==> x in quotes && x.category == Some(selectedCategory))
      && IsSubsequence(ByCategory(quotes, selectedCategory), quotes)
  {
    FilterSpec(quotes, (q: Quote) => q.category == Some(selectedCategory));
  }

  /**
   * searchQuotes' predicate for one record, with searchItem already trimmed
   * and lower-cased. None is the TypeError of calling toLowerCase on a
   * missing text, or on a missing category once text and author failed.
   */
  function Matches(q: Quote, searchItem: string): Option<bool> {
    if q.text.None? then None
    else if Includes(ToLower(q.text.value), searchItem) then Some(true)
    else if Includes(ToLower(AuthorOrUnknown(q.author)), searchItem) then Some(true)
    else if q.category.None? then None
    else Some(Includes(ToLower(q.category.value), searchItem))
  }

  /** `quotesInStorage.filter(...)` with the search predicate; None when the predicate throws on some record. */
  function SearchFilter(quotes: seq<Quote>, searchItem: string): Option<seq<Quote>>
    decreases |quotes|
  {
    if quotes == [] then Some([])
    else
      var q := quotes[|quotes| - 1];
      match SearchFilter(quotes[..|quotes| - 1], searchItem)
      case None => None
      case Some(r) =>
        match Matches(q, searchItem)
        case None => None
        case Some(b) => Some(r + if b then [q] else [])
  }

  /**
   * The search throws exactly when some record makes the predicate throw;
   * otherwise it keeps, in order, exactly the records whose text, author
   * (or "Unknown") or category contains the term, ignoring case.
   */
  lemma {:induction false} SearchFilterSpec(quotes: seq<Quote>, searchItem: string)
    ensures SearchFilter(quotes, searchItem).None? <==> exists q :: q in quotes && Matches(q, searchItem).None?
    ensures SearchFilter(quotes, searchItem).Some? ==>
      && (forall x :: x in SearchFilter(quotes, searchItem).value <==> x in quotes && Matches(x, searchItem) == Some(true))
      && IsSubsequence(SearchFilter(quotes, searchItem).value, quotes)
    decreases |quotes|
  {
    if quotes != [] {
      var init, q := quotes[..|quotes| - 1], quotes[|quotes| - 1];
      assert quotes == init + [q];
      SearchFilterSpec(init, searchItem);
      var s := SearchFilter(quotes, searchItem);
      if s.Some? {
        var r, r0 := s.value, SearchFilter(init, searchItem).value;
        if Matches(q, searchItem) == Some(true) {
          assert r[..|r| - 1] == r0 && r[|r| - 1] == q;
        } else {
          assert r == r0;
        }
        assert IsSubsequence(r, quotes);
      }
    }
  }

  /** An empty search term matches every record that has a text, so it keeps the whole list when all have one. */
  lemma EmptySearchKeepsAll(quotes: seq<Quote>)
    requires forall q :: q in quotes ==> q.text.Some?
    ensures SearchFilter(quotes, "") == Some(quotes)
  {
    forall q | q in quotes ensures Matches(q, "") == Some(true) {
      EmptyIncluded(ToLower(q.text.value));
    }
    SearchAllMatch(quotes, "");
  }

  lemma {:induction false} SearchAllMatch(quotes: seq<Quote>, searchItem: string)
    requires forall q :: q in quotes ==> Matches(q, searchItem) == Some(true)
    ensures SearchFilter(quotes, searchItem) == Some(quotes)
    decreases |quotes|
  {
    if quotes != [] {
      assert quotes == quotes[..|quotes| - 1] + [quotes[|quotes| - 1]];
      SearchAllMatch(quotes[..|quotes| - 1], searchItem);
    }
  }

  /** Upper-case letters in a record do not hide it: the comparison is on lower-cased text. */
  lemma SearchIgnoresCase(q: Quote, searchItem: string)
    requires q.text.Some?
    ensures Matches(q.(text := Some(ToLower(q.text.value))), searchItem) == Matches(q, searchItem)
  {
    var t := q.text.value;
    assert ToLower(ToLower(t)) == ToLower(t) by {
      forall i | 0 <= i < |t| ensures LowerChar(LowerChar(t[i])) == LowerChar(t[i]) {
      }
    }
  }

  // ---------------------------------------------------------------- next quote

  /** The index shown by a "new quote" click: 0 once the index has run past the list. */
  function ShownIndex(currentIndex: int, length: nat): int {
    if currentIndex >= length then 0 else currentIndex
  }

  /** The index after a "new quote" click. */
  function NextIndex(currentIndex: int, length: nat): int {
    ShownIndex(currentIndex, length) + 1
  }

  /** The index after k clicks, starting from 0, over a list of fixed length. */
  function IndexAfterClicks(length: nat, k: nat): int
    decreases k
  {
    if k == 0 then 0 else NextIndex(IndexAfterClicks(length, k - 1), length)
  }

  /** In the first round the k-th click shows position k. */
  lemma {:induction false} ClicksFirstRound(length: nat, k: nat)
    requires k <= length
    ensures IndexAfterClicks(length, k) == k
    ensures k < length ==> ShownIndex(IndexAfterClicks(length, k), length) == k
    decreases k
  {
    if k > 0 {
      ClicksFirstRound(length, k - 1);
    }
  }

  /**
   * Over a non-empty list of fixed length, clicks repeat with period
   * length: after the last position the index wraps to 0 (with a reshuffle)
   * and every position is shown again in turn.
   */
  lemma {:induction false} ClicksCycle(length: nat, k: nat)
    requires length > 0
    ensures ShownIndex(IndexAfterClicks(length, k + length), length) == ShownIndex(IndexAfterClicks(length, k), length)
    ensures k >= 1 ==> IndexAfterClicks(length, k + length) == IndexAfterClicks(length, k)
    decreases k
  {
    if k == 0 {
      ClicksFirstRound(length, length);
    } else if k == 1 {
      ClicksFirstRound(length, length);
      assert IndexAfterClicks(length, 1 + length) == NextIndex(IndexAfterClicks(length, length), length);
    } else {
      ClicksCycle(length, k - 1);
      assert IndexAfterClicks(length, k + length) == NextIndex(IndexAfterClicks(length, k - 1 + length), length);
    }
  }
}
