/** The suggestion settings of the `@mention` plugin: the trigger character and the
    `items` filter over the notes the getter returns. */
module MentionSuggestion {
  import opened Seqs
  import opened Strings
  import opened MentionList

  /** `char`: typing `@` opens the suggestions. */
  const TriggerChar: char := '@'

  /** `slice(0, 8)`: at most eight suggestions. */
  const MaxSuggestions: nat := 8

  /** `note.title?.toLowerCase().includes(query.toLowerCase())`: false for a missing title. */
  function TitleMatches(query: string): (r: MentionItem -> bool)
    ensures forall note: MentionItem :: note.title.None? ==> !r(note)
    ensures query == [] ==> forall note: MentionItem :: note.title.Some? ==> r(note)
    ensures forall note: MentionItem :: note.title.Some? && ToLower(note.title.value) == ToLower(query) ==> r(note)
  {
    assert forall t: string :: OccursAt(t, [], 0);
    assert forall t: string :: OccursAt(t, t, 0);
    (note: MentionItem) => note.title.Some? && Contains(ToLower(note.title.value), ToLower(query))
  }

  /** `items({ query })` over the getter's list `notes`. The list is a value here, so it
      cannot be changed by the call. */
  function Items(notes: seq<MentionItem>, query: string): (r: seq<MentionItem>)
    ensures |r| <= MaxSuggestions
    ensures forall i :: 0 <= i < |r| ==>
              && r[i] in notes && r[i].title.Some?
              && Contains(ToLower(r[i].title.value), ToLower(query))
  {
    FilterMembers(notes, TitleMatches(query));
    Take(Filter(notes, TitleMatches(query)), MaxSuggestions)
  }

  /** The suggestions are the first matching notes, in the getter's order: a prefix of all
      matches, the whole of it when there are at most eight. */
  lemma ItemsArePrefixOfMatches(notes: seq<MentionItem>, query: string)
    ensures var all := Filter(notes, TitleMatches(query));
            Items(notes, query) == all[..|Items(notes, query)|]
            && (|all| <= MaxSuggestions ==> Items(notes, query) == all)
            && (|all| > MaxSuggestions ==> |Items(notes, query)| == MaxSuggestions)
    ensures IsSubsequence(Items(notes, query), notes)
  {
    var all := Filter(notes, TitleMatches(query));
    FilterIsSubsequence(notes, TitleMatches(query));
    var idx :| SubsequenceVia(all, notes, idx);
    var r := Items(notes, query);
    assert SubsequenceVia(r, notes, idx[..|r|]);
  }

  /** A note without a title is never suggested; every note with a matching title is
      among the matches. */
  lemma MatchingIsExact(notes: seq<MentionItem>, query: string, note: MentionItem)
    requires note in notes
    ensures note.title.None? ==> note !in Items(notes, query)
    ensures note in Filter(notes, TitleMatches(query)) <==>
              note.title.Some? && Contains(ToLower(note.title.value), ToLower(query))
  {
    var i :| 0 <= i < |notes| && notes[i] == note;
  }

  function HasTitle(note: MentionItem): bool
  {
    note.title.Some?
  }

  /** An empty query matches every note that has a title. */
  lemma EmptyQueryMatchesEveryTitle(notes: seq<MentionItem>)
    ensures Items(notes, "") == Take(Filter(notes, HasTitle), MaxSuggestions)
  {
    forall i | 0 <= i < |notes| ensures TitleMatches("")(notes[i]) == HasTitle(notes[i]) {
      if notes[i].title.Some? {
        assert OccursAt(ToLower(notes[i].title.value), ToLower(""), 0);
      }
    }
    FilterSameTest(notes, TitleMatches(""), HasTitle);
  }
}
