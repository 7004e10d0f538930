/**
 * The page state of script.js: the closure variables its DOM handlers
 * reassign (the displayed list, its shuffled copy, the position in it, the
 * current quote and the category list) and the handlers themselves, with
 * the DOM reduced to what is on screen.
 */
module QuoteBrowser {
  import opened Wrappers
  import opened JsString
  import opened QuoteModel
  import opened RemoteClient
  import opened QuoteList

  /**
   * What showRandomQuote puts on screen: the quote at currentIndex, or None
   * for "There are no quotes to display." when there is none there.
   */
  function ShownQuote(shuffled: seq<Quote>, currentIndex: int): (r: Option<Quote>)
    ensures r.Some? <==> 0 <= currentIndex < |shuffled|
    ensures r.Some? ==> r.value in shuffled
  {
    if 0 <= currentIndex < |shuffled| then Some(shuffled[currentIndex]) else None
  }

  /**
   * The screen after an update as written: showRandomQuote runs on the
   * reshuffled list at the already advanced index. With a single quote,
   * shown once (index now 1), the edited quote is in the list but the
   * screen says there are no quotes.
   */
  lemma UpdateHidesEditedQuoteAsWritten(q: Quote, f: Fields)
    ensures var reshuffled := UpdateById([q], q.id, f);
      && ApplyFields(q, f) in reshuffled
      && ShownQuote(reshuffled, NextIndex(0, 1)) == None
  {
    assert UpdateById([q], q.id, f)[0] == ApplyFields(q, f);
  }

  /**
   * The screen after an update as intended: the edited quote. Whatever the
   * index, it is one of the reshuffled quotes whenever the quote being
   * edited was in the displayed list, so the screen never falls back to
   * "no quotes" while the list holds the edit.
   */
  lemma EditedQuoteShownIsListed(quotes: seq<Quote>, reshuffled: seq<Quote>, q: Quote, f: Fields)
    requires q in quotes
    requires multiset(reshuffled) == multiset(UpdateById(quotes, q.id, f))
    ensures ApplyFields(q, f) in reshuffled
    ensures |reshuffled| > 0
  {
    var i :| 0 <= i < |quotes| && quotes[i] == q;
    var updated := UpdateById(quotes, q.id, f);
    assert updated[i] == ApplyFields(q, f);
    assert ApplyFields(q, f) in multiset(updated);
  }

  class Browser {
    var shuffled: seq<Quote>
    var currentIndex: int
    var currentQuote: Option<Quote>
    /** What is on screen; None is the "no quotes" message. */
    var displayed: Option<Quote>
    var quoteCategories: seq<Option<string>>
    var serverQuotes: seq<Quote>
    var categoryFilter: seq<Quote>
    const store: LocalStore
    const client: Client

    constructor (store: LocalStore, client: Client)
      ensures shuffled == [] && currentIndex == 0 && currentQuote == None && displayed == None
      ensures quoteCategories == [] && serverQuotes == [] && categoryFilter == []
      ensures this.store == store && this.client == client
    {
      shuffled := [];
      currentIndex := 0;
      currentQuote := None;
      displayed := None;
      quoteCategories := [];
      serverQuotes := [];
      categoryFilter := [];
      this.store := store;
      this.client := client;
    }

    /** showRandomQuote: the quote at currentIndex becomes current and is shown, if there is one. */
    method ShowRandomQuote()
      modifies this
      ensures displayed == ShownQuote(shuffled, currentIndex)
      ensures currentQuote == if displayed.Some? then displayed else old(currentQuote)
      ensures shuffled == old(shuffled) && currentIndex == old(currentIndex) && categoryFilter == old(categoryFilter)
      ensures serverQuotes == old(serverQuotes) && quoteCategories == old(quoteCategories)
    {
      if |shuffled| == 0 || !(0 <= currentIndex < |shuffled|) {
        displayed := None;
        return;
      }
      currentQuote := Some(shuffled[currentIndex]);
      displayed := currentQuote;
    }

    /**
     * The "new quote" button: once the index has run past the list, a
     * fresh shuffle of the displayed list starts again at 0; the quote at
     * the index is shown and the index moves on.
     */
    method NewQuote()
      modifies this
      ensures old(currentIndex) >= old(|shuffled|) ==> multiset(shuffled) == multiset(categoryFilter)
      ensures old(currentIndex) < old(|shuffled|) ==> shuffled == old(shuffled)
      ensures displayed == ShownQuote(shuffled, ShownIndex(old(currentIndex), old(|shuffled|)))
      ensures currentIndex == NextIndex(old(currentIndex), old(|shuffled|))
      ensures currentQuote == if displayed.Some? then displayed else old(currentQuote)
      ensures categoryFilter == old(categoryFilter) && serverQuotes == old(serverQuotes)
      ensures quoteCategories == old(quoteCategories)
    {
      if currentIndex >= |shuffled| {
        shuffled := DisplayRandomQuotes(categoryFilter);
        currentIndex := 0;
      }
      ShowRandomQuote();
      currentIndex := currentIndex + 1;
    }

    /** populateCategories: a stored array's categories replace the list; otherwise nothing changes. */
    method PopulateCategories()
      modifies this
      ensures store.savedQuotes.Array? ==> quoteCategories == DistinctCategories(store.savedQuotes.items)
      ensures !store.savedQuotes.Array? ==> quoteCategories == old(quoteCategories)
      ensures shuffled == old(shuffled) && currentIndex == old(currentIndex) && categoryFilter == old(categoryFilter)
      ensures serverQuotes == old(serverQuotes) && currentQuote == old(currentQuote) && displayed == old(displayed)
    {
      if store.savedQuotes.Array? {
        quoteCategories := DistinctCategories(store.savedQuotes.items);
      }
    }

    /**
     * The Delete button built for displayedQuote, the quote that was
     * current when the buttons were drawn (only a quote whose flag is
     * `true` gets them). The button outlives later changes of the current
     * quote, so the captured quote is a parameter. When the server call
     * succeeds the quote leaves both lists and storage, the list is
     * reshuffled and the index is clamped to it; a failed call changes
     * nothing here (the client queues it).
     */
    method DeleteDisplayed(displayedQuote: Quote, ok: bool, now: int)
      requires displayedQuote.editable == Some(Bool(true))
      modifies this, store, client
      ensures var s := Submitted(old(client.State()), DeleteQuote(displayedQuote.id), ok, now);
        client.State() == s.link
        && (s.success ==>
          var id := displayedQuote.id;
          && serverQuotes == WithoutId(old(serverQuotes), id)
          && categoryFilter == WithoutId(old(categoryFilter), id)
          && store.savedQuotes == Array(categoryFilter)
          && multiset(shuffled) == multiset(categoryFilter)
          && currentIndex == ClampIndex(old(currentIndex), |categoryFilter|)
          && displayed == ShownQuote(shuffled, currentIndex)
          && currentQuote == (if |shuffled| > 0 then (if displayed.Some? then displayed else old(currentQuote)) else None))
        && (!s.success ==>
          && serverQuotes == old(serverQuotes) && categoryFilter == old(categoryFilter)
          && store.savedQuotes == old(store.savedQuotes) && shuffled == old(shuffled)
          && currentIndex == old(currentIndex) && currentQuote == old(currentQuote) && displayed == old(displayed))
      ensures quoteCategories == old(quoteCategories)
    {
      var id := displayedQuote.id;
      var success, _ := client.DeleteQuoteFromServer(id, ok, now);
      if success {
        serverQuotes := WithoutId(serverQuotes, id);
        categoryFilter := WithoutId(categoryFilter, id);
        store.savedQuotes := Array(categoryFilter);
        shuffled := DisplayRandomQuotes(categoryFilter);
        currentIndex := ClampIndex(currentIndex, |shuffled|);
        if |shuffled| > 0 {
          ShowRandomQuote();
        } else {
          displayed := None;
          currentQuote := None;
        }
      }
    }

    /**
     * The update form of the current quote, with the values as typed. Text
     * and category must be non-blank after trimming. With no current quote
     * (the last quote was deleted while the form stayed open) reading its id
     * throws and nothing changes. On a successful server
     * call the fields replace those of every record with the current id in
     * both lists and storage, the list is reshuffled, and the edited quote
     * stays current and on screen.
     */
    method UpdateCurrent(text: string, category: string, author: string, ok: bool, now: int)
      modifies this, store, client
      ensures Blank(text) || Blank(category) || old(currentQuote).None? ==>
        && client.State() == old(client.State()) && store.savedQuotes == old(store.savedQuotes)
        && serverQuotes == old(serverQuotes) && categoryFilter == old(categoryFilter) && shuffled == old(shuffled)
        && currentQuote == old(currentQuote) && displayed == old(displayed)
      ensures !Blank(text) && !Blank(category) && old(currentQuote).Some? ==>
        var f := Fields(Some(Trim(text)), Some(Trim(category)), Some(Trim(author)), Some(Bool(true)));
        var id := old(currentQuote).value.id;
        var s := Submitted(old(client.State()), UpdateQuote(id, f), ok, now);
        && client.State() == s.link
        && (s.success ==>
          && serverQuotes == UpdateById(old(serverQuotes), id, f)
          && categoryFilter == UpdateById(old(categoryFilter), id, f)
          && store.savedQuotes == Array(categoryFilter)
          && multiset(shuffled) == multiset(categoryFilter)
          && currentQuote == Some(ApplyFields(old(currentQuote).value, f))
          && displayed == currentQuote)
        && (!s.success ==>
          && store.savedQuotes == old(store.savedQuotes) && serverQuotes == old(serverQuotes)
          && categoryFilter == old(categoryFilter) && shuffled == old(shuffled)
          && currentQuote == old(currentQuote) && displayed == old(displayed))
      ensures currentIndex == old(currentIndex) && quoteCategories == old(quoteCategories)
    {
      var quoteValue, categoryValue, authorValue := Trim(text), Trim(category), Trim(author);
      if quoteValue == [] || categoryValue == [] {
        return;
      }
      if currentQuote.None? {
        // currentQuote.id throws a TypeError, caught by the handler: nothing changes.
        return;
      }
      var f := Fields(Some(quoteValue), Some(categoryValue), Some(authorValue), Some(Bool(true)));
      var id := currentQuote.value.id;
      var success, _ := client.UpdateQuoteOnServer(id, f, ok, now);
      if success {
        serverQuotes := UpdateById(serverQuotes, id, f);
        categoryFilter := UpdateById(categoryFilter, id, f);
        store.savedQuotes := Array(categoryFilter);
        shuffled := DisplayRandomQuotes(categoryFilter);
        currentQuote := Some(ApplyFields(currentQuote.value, f));
        displayed := currentQuote;
      }
    }

    /**
     * The category selector: the index restarts at 0 and the stored list,
     * narrowed to the chosen category ("all" keeps it whole), becomes the
     * displayed list. Storage that holds no array makes the handler throw
     * after the index reset.
     */
    method FilterQuote(selectedCategory: string)
      modifies this
      ensures currentIndex == 0
      ensures store.savedQuotes.Array? ==>
        && categoryFilter == ByCategory(store.savedQuotes.items, selectedCategory)
        && multiset(shuffled) == multiset(categoryFilter)
        && displayed == ShownQuote(shuffled, 0)
        && currentQuote == (if displayed.Some? then displayed else old(currentQuote))
      ensures !store.savedQuotes.Array? ==>
        && categoryFilter == old(categoryFilter) && shuffled == old(shuffled)
        && currentQuote == old(currentQuote) && displayed == old(displayed)
      ensures serverQuotes == old(serverQuotes) && quoteCategories == old(quoteCategories)
    {
      currentIndex := 0;
      if !store.savedQuotes.Array? {
        return;
      }
      categoryFilter := ByCategory(store.savedQuotes.items, selectedCategory);
      shuffled := DisplayRandomQuotes(categoryFilter);
      if |shuffled| > 0 {
        ShowRandomQuote();
      } else {
        displayed := None;
      }
    }

    /**
     * The search box: the typed term is trimmed and lower-cased, the index
     * restarts at 0 and the stored records matching the term become the
     * displayed list. A record without text (or without category, when
     * text and author do not match) makes the handler throw.
     */
    method SearchQuotes(input: string)
      modifies this
      ensures currentIndex == 0
      ensures var found := if store.savedQuotes.Array? then SearchFilter(store.savedQuotes.items, ToLower(Trim(input))) else None;
        && (found.Some? ==>
          && categoryFilter == found.value
          && multiset(shuffled) == multiset(categoryFilter)
          && displayed == ShownQuote(shuffled, 0)
          && currentQuote == (if displayed.Some? then displayed else old(currentQuote)))
        && (found.None? ==>
          && categoryFilter == old(categoryFilter) && shuffled == old(shuffled)
          && currentQuote == old(currentQuote) && displayed == old(displayed))
      ensures serverQuotes == old(serverQuotes) && quoteCategories == old(quoteCategories)
    {
      var searchItem := ToLower(Trim(input));
      currentIndex := 0;
      if !store.savedQuotes.Array? {
        return;
      }
      var found := SearchFilter(store.savedQuotes.items, searchItem);
      if found.None? {
        return;
      }
      categoryFilter := found.value;
      shuffled := DisplayRandomQuotes(categoryFilter);
      if |shuffled| > 0 {
        ShowRandomQuote();
      } else {
        displayed := None;
      }
    }

    /**
     * The import of a parsed file. Unparsable file or storage, and storage
     * that holds no array, change nothing. Otherwise the displayed list is
     * emptied first; a file that holds an array is then appended to the
     * stored quotes, renumbered after the largest stored id, saved,
     * reshuffled and its categories listed. A file that holds no array
     * throws at that point and leaves the displayed list empty.
     */
    method ImportFromJson(file: Storage)
      modifies this, store
      ensures var ok := !file.Unparsable? && old(store.savedQuotes).Array?;
        && (!ok ==>
          categoryFilter == old(categoryFilter) && store.savedQuotes == old(store.savedQuotes)
          && shuffled == old(shuffled) && quoteCategories == old(quoteCategories))
        && (ok && !file.Array? ==>
          categoryFilter == [] && store.savedQuotes == old(store.savedQuotes)
          && shuffled == old(shuffled) && quoteCategories == old(quoteCategories))
        && (ok && file.Array? ==>
          var stored := old(store.savedQuotes).items;
          && categoryFilter == Imported(stored, file.items, MaxId(IdNumbers(stored)))
          && store.savedQuotes == Array(categoryFilter)
          && multiset(shuffled) == multiset(categoryFilter)
          && quoteCategories == DistinctCategories(categoryFilter))
      ensures currentIndex == old(currentIndex) && currentQuote == old(currentQuote) && displayed == old(displayed)
      ensures serverQuotes == old(serverQuotes)
    {
      if file.Unparsable? || !store.savedQuotes.Array? {
        return;
      }
      var quotesInStorage := store.savedQuotes.items;
      var maxID := FindMaxID(IdNumbers(quotesInStorage));
      categoryFilter := [];
      if !file.Array? {
        return;
      }
      categoryFilter := Imported(quotesInStorage, file.items, maxID);
      store.savedQuotes := Array(categoryFilter);
      shuffled := DisplayRandomQuotes(categoryFilter);
      PopulateCategories();
    }
  }
}
