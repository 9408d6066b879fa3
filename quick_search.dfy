/** `QuickSearch`: a search panel opened by pressing Shift twice within 400 ms and closed by
    Escape. While it is open, a query of at least two non-blank characters is sent to the
    search service; a shorter one clears the results. Picking a result opens the folder or
    the note it names. Clock readings are parameters; the 250 ms debounce and the focus
    timer are not modelled. */
module QuickSearch {
  import opened Wrappers
  import opened Strings

  /** Two Shift presses closer than this many milliseconds open the panel. */
  const DoubleShiftMillis: int := 400

  /** Queries shorter than this (after trimming) are not sent. */
  const MinQueryLength: nat := 2

  /** `SearchResultItem`, reduced to what routing uses: `type` is `"FOLDER"`, `"NOTE"`,
      `"NOTE_CONTENT"` or any other string. */
  datatype SearchResultItem = SearchResultItem(itemType: string, id: int, folderId: Option<int>)

  /** Which callback a picked result calls: `onOpenFolder(id)` or `onOpenNote(id, folderId)`. */
  datatype Navigation = OpenFolder(folderId: int) | OpenNote(noteId: int, noteFolderId: Option<int>)

  /** The call `searchService.quickSearch(query, userId)`. */
  datatype SearchRequest = SearchRequest(query: string, userId: int)

  /** How the search call ends: with results, or by throwing (an `Error` carries its message;
      anything else thrown carries none). */
  datatype SearchOutcome = Found(results: seq<SearchResultItem>) | Threw(message: Option<string>)

  /** The keys the window listener tells apart. `OtherKey`'s `name` stands for a key other
      than `"Escape"` and `"Shift"`: those two are the other constructors. */
  datatype Key = Escape | Shift | OtherKey(name: string)

  /** JavaScript truthiness of the `userId` prop (`number | null | undefined`). */
  predicate Truthy(userId: Option<int>)
  {
    userId.Some? && userId.value != 0
  }

  /** What the search effect does for a given panel state. */
  datatype SearchStep = Skip | ClearResults | Send(request: SearchRequest)

  /** The search effect's decision: nothing unless the panel is open for a positive user id;
      then a query shorter than two characters once trimmed clears the results, and a longer
      one is sent, trimmed. */
  function SearchDecision(isOpen: bool, userId: Option<int>, query: string): (step: SearchStep)
    ensures step.Send? <==> isOpen && userId.Some? && userId.value > 0 && |Trim(query)| >= MinQueryLength
    ensures step.ClearResults? <==> isOpen && userId.Some? && userId.value > 0 && |Trim(query)| < MinQueryLength
    ensures step.Send? ==> step.request == SearchRequest(Trim(query), userId.value)
  {
    if !isOpen || !Truthy(userId) || userId.value <= 0 then Skip
    else if |Trim(query)| < MinQueryLength then ClearResults
    else Send(SearchRequest(Trim(query), userId.value))
  }

  /** A query that is sent has no whitespace at either end and at least two characters. */
  lemma SentQueryIsTrimmed(isOpen: bool, userId: Option<int>, query: string)
    requires SearchDecision(isOpen, userId, query).Send?
    ensures var q := SearchDecision(isOpen, userId, query).request.query;
            |q| >= MinQueryLength && !IsSpace(q[0]) && !IsSpace(q[|q| - 1])
  {
    TrimSlice(query);
  }

  /** A query of only whitespace is never sent, however long. */
  lemma BlankQueryIsNotSent(isOpen: bool, userId: Option<int>, query: string)
    requires AllSpace(query)
    ensures !SearchDecision(isOpen, userId, query).Send?
  {
    TrimEmptyIffAllSpace(query);
  }

  /** `handleResultClick`'s choice: a `"FOLDER"` result opens the folder, any other type
      opens the note in its folder. */
  function Route(item: SearchResultItem): (nav: Navigation)
    ensures nav.OpenFolder? <==> item.itemType == "FOLDER"
    ensures nav.OpenFolder? ==> nav.folderId == item.id
    ensures nav.OpenNote? ==> nav.noteId == item.id && nav.noteFolderId == item.folderId
  {
    if item.itemType == "FOLDER" then OpenFolder(item.id) else OpenNote(item.id, item.folderId)
  }

  /** The message shown when the search call throws. */
  function ErrorText(message: Option<string>): (text: string)
    ensures message.Some? ==> text == message.value
    ensures message.None? ==> text == "Erreur inconnue"
  {
    if message.Some? then message.value else "Erreur inconnue"
  }

  class QuickSearchPanel {
    /** The `userId` prop. */
    var userId: Option<int>
    var isOpen: bool
    var query: string
    var results: seq<SearchResultItem>
    var loading: bool
    var error: Option<string>
    /** `lastShiftRef.current`: when Shift was last pressed. */
    var lastShift: int

    /** The first render: closed, empty, and no Shift seen (time 0). */
    constructor (userId: Option<int>)
      ensures this.userId == userId && !isOpen && query == "" && results == []
      ensures !loading && error == None && lastShift == 0
    {
      this.userId := userId;
      isOpen := false;
      query := "";
      results := [];
      loading := false;
      error := None;
      lastShift := 0;
    }

    /** The window `keydown` listener at time `now`. Escape closes an open panel and does
        nothing else. Every Shift records `now`; a Shift less than 400 ms after the
        previous one, with a truthy `userId`, also opens the panel with an empty query, no
        results and no error. Other keys, and Escape on a closed panel, change nothing. */
    method HandleKeyDown(key: Key, now: int)
      modifies this
      ensures userId == old(userId) && loading == old(loading)
      ensures key.Escape? && old(isOpen) ==>
                !isOpen && query == old(query) && results == old(results)
                && error == old(error) && lastShift == old(lastShift)
      ensures key.Shift? ==> lastShift == now
      ensures key.Shift? && now - old(lastShift) < DoubleShiftMillis && Truthy(userId) ==>
                isOpen && query == "" && results == [] && error == None
      ensures key.Shift? && !(now - old(lastShift) < DoubleShiftMillis && Truthy(userId)) ==>
                isOpen == old(isOpen) && query == old(query) && results == old(results) && error == old(error)
      ensures (key.OtherKey? || (key.Escape? && !old(isOpen))) ==> unchanged(this)
    {
      if key.Escape? && isOpen {
        isOpen := false;
        return;
      }
      if key.Shift? {
        if now - lastShift < DoubleShiftMillis && Truthy(userId) {
          isOpen := true;
          query := "";
          results := [];
          error := None;
        }
        lastShift := now;
      }
    }

    /** The input's `onChange`. */
    method SetQuery(q: string)
      modifies this
      ensures query == q
      ensures isOpen == old(isOpen) && results == old(results) && userId == old(userId)
      ensures loading == old(loading) && error == old(error) && lastShift == old(lastShift)
    {
      query := q;
    }

    /** The search effect, run after the query, the panel or the user id changed: returns the
        call it makes to the search service, if any. */
    method RunSearchEffect() returns (request: Option<SearchRequest>)
      modifies this
      ensures var step := SearchDecision(old(isOpen), old(userId), old(query));
              && (step.Skip? ==> request == None && unchanged(this))
              && (step.ClearResults? ==> request == None && results == [] && !loading)
              && (step.Send? ==> request == Some(step.request) && loading && results == old(results))
      ensures isOpen == old(isOpen) && query == old(query) && userId == old(userId)
      ensures error == old(error) && lastShift == old(lastShift)
    {
      var step := SearchDecision(isOpen, userId, query);
      match step {
        case Skip =>
          request := None;
        case ClearResults =>
          results := [];
          loading := false;
          request := None;
        case Send(r) =>
          loading := true;
          request := Some(r);
      }
    }

    /** The end of a search call: results replace the old ones and clear the error, or the
        error message is shown; either way loading stops. */
    method CompleteSearch(outcome: SearchOutcome)
      modifies this
      ensures !loading
      ensures outcome.Found? ==> results == outcome.results && error == None
      ensures outcome.Threw? ==> results == old(results) && error == Some(ErrorText(outcome.message))
      ensures isOpen == old(isOpen) && query == old(query) && userId == old(userId)
      ensures lastShift == old(lastShift)
    {
      match outcome {
        case Found(rs) =>
          results := rs;
          error := None;
        case Threw(m) =>
          error := Some(ErrorText(m));
      }
      loading := false;
    }

    /** `handleResultClick(item)`: calls the callback `Route` picks and closes the panel. */
    method HandleResultClick(item: SearchResultItem) returns (nav: Navigation)
      modifies this
      ensures nav == Route(item) && !isOpen
      ensures query == old(query) && results == old(results) && userId == old(userId)
      ensures loading == old(loading) && error == old(error) && lastShift == old(lastShift)
    {
      nav := Route(item);
      isOpen := false;
    }

    /** Enter in the input: picks the first result when there is one, and does nothing
        otherwise. */
    method HandleInputEnter() returns (nav: Option<Navigation>)
      modifies this
      ensures |old(results)| > 0 ==> nav == Some(Route(old(results)[0])) && !isOpen
      ensures |old(results)| == 0 ==> nav == None && unchanged(this)
      ensures query == old(query) && results == old(results) && userId == old(userId)
      ensures loading == old(loading) && error == old(error) && lastShift == old(lastShift)
    {
      if |results| > 0 {
        var n := HandleResultClick(results[0]);
        nav := Some(n);
      } else {
        nav := None;
      }
    }

    /** A click on the overlay outside the panel closes it. */
    method CloseOverlay()
      modifies this
      ensures !isOpen
      ensures query == old(query) && results == old(results) && userId == old(userId)
      ensures loading == old(loading) && error == old(error) && lastShift == old(lastShift)
    {
      isOpen := false;
    }
  }
}
