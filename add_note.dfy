/** `AddNote`'s `handleSubmit`: a blank title makes it a no-op; otherwise a note with the
    trimmed title and content and the counters of the untrimmed content is added to the
    note store, and the form is cleared. */
module AddNote {
  import opened Seqs
  import opened Strings

  /** `Note` as `handleSubmit` builds it. */
  datatype Note = Note(
    id: int,
    id_user: int,
    id_folder: int,
    title: string,
    content: string,
    created_at: string,
    updated_at: string,
    size_bytes: nat,
    line_count: nat,
    word_count: nat,
    char_count: nat)

  /** `content.split("\n").length`. */
  function LineCount(content: string): (n: nat)
    ensures n == CountChar(content, '\n') + 1
  {
    |SplitOn(content, '\n')|
  }

  /** The longest prefix of `s` without whitespace. */
  function WordPrefix(s: string): (w: string)
    ensures |w| <= |s| && w == s[..|w|]
    ensures forall i :: 0 <= i < |w| ==> !IsSpace(w[i])
    ensures |w| == |s| || IsSpace(s[|w|])
    decreases |s|
  {
    if s == [] || IsSpace(s[0]) then []
    else [s[0]] + WordPrefix(s[1..])
  }

  /** A piece of the split: no whitespace in it. */
  predicate NoSpace(w: string)
  {
    forall k :: 0 <= k < |w| ==> !IsSpace(w[k])
  }

  /** `s.split(/\s+/)`: the pieces between maximal whitespace runs; a leading or trailing
      run gives an empty first or last piece. */
  function SplitOnSpaces(s: string): (r: seq<string>)
    ensures |r| >= 1 && r[0] == WordPrefix(s)
    decreases |s|
  {
    var w := WordPrefix(s);
    if |w| == |s| then [w]
    else
      var t := TrimStart(s[|w|..]);
      assert |t| < |s| - |w|;
      [w] + SplitOnSpaces(t)
  }

  /** No piece holds whitespace, and only the first and the last piece can be empty. */
  lemma {:induction false} SplitOnSpacesPiece(s: string, i: nat)
    requires i < |SplitOnSpaces(s)|
    ensures NoSpace(SplitOnSpaces(s)[i])
    ensures 0 < i < |SplitOnSpaces(s)| - 1 ==> SplitOnSpaces(s)[i] != []
    decreases |s|
  {
    var w := WordPrefix(s);
    if i == 0 {
      assert NoSpace(w);
    } else {
      var t := TrimStart(s[|w|..]);
      assert |t| < |s| - |w|;
      var rest := SplitOnSpaces(t);
      assert SplitOnSpaces(s) == [w] + rest;
      SplitOnSpacesPiece(t, i - 1);
      if i == 1 && |rest| > 1 {
        assert t != [] && !IsSpace(t[0]);
      }
    }
  }

  function NonEmpty(w: string): bool
  {
    w != []
  }

  /** `content.split(/\s+/).filter(w => w).length`. */
  function WordCount(content: string): (n: nat)
    ensures n <= |SplitOnSpaces(content)|
    ensures content != [] && !IsSpace(content[0]) ==> n >= 1
  {
    var pieces := SplitOnSpaces(content);
    assert Filter(pieces, NonEmpty) == (if NonEmpty(pieces[0]) then [pieces[0]] else []) + Filter(pieces[1..], NonEmpty);
    |Filter(pieces, NonEmpty)|
  }

  /** An independent count of words: the number of positions where a non-space follows a
      space or the start of the text. `afterSpace` says whether the position before `s`
      counts as a space. */
  function RunStarts(s: string, afterSpace: bool): nat
    decreases |s|
  {
    if s == [] then 0
    else (if afterSpace && !IsSpace(s[0]) then 1 else 0) + RunStarts(s[1..], IsSpace(s[0]))
  }

  lemma {:induction false} RunStartsAppend(a: string, b: string, afterSpace: bool)
    ensures RunStarts(a + b, afterSpace)
            == RunStarts(a, afterSpace) + RunStarts(b, if a == [] then afterSpace else IsSpace(a[|a| - 1]))
    decreases |a|
  {
    if a == [] {
      assert a + b == b;
    } else {
      assert (a + b)[1..] == a[1..] + b;
      RunStartsAppend(a[1..], b, IsSpace(a[0]));
      if |a| > 1 { assert a[1..][|a[1..]| - 1] == a[|a| - 1]; }
    }
  }

  lemma {:induction false} RunStartsOfWord(w: string, afterSpace: bool)
    requires forall i :: 0 <= i < |w| ==> !IsSpace(w[i])
    ensures RunStarts(w, afterSpace) == if w != [] && afterSpace then 1 else 0
    decreases |w|
  {
    if w != [] {
      RunStartsOfWord(w[1..], false);
    }
  }

  lemma {:induction false} RunStartsOfSpaces(sp: string, afterSpace: bool)
    requires AllSpace(sp)
    ensures RunStarts(sp, afterSpace) == 0
    decreases |sp|
  {
    if sp != [] {
      RunStartsOfSpaces(sp[1..], true);
    }
  }

  /** One step of the split: the first piece, then the split of what follows the first
      whitespace run. */
  lemma WordCountStep(s: string)
    requires |WordPrefix(s)| < |s|
    ensures var w := WordPrefix(s);
            WordCount(s) == (if w != [] then 1 else 0) + WordCount(TrimStart(s[|w|..]))
  {
    var w := WordPrefix(s);
    var pieces := SplitOnSpaces(s);
    assert pieces == [w] + SplitOnSpaces(TrimStart(s[|w|..]));
    assert pieces[1..] == SplitOnSpaces(TrimStart(s[|w|..]));
  }

  /** The same step for the independent count. */
  lemma RunStartsStep(s: string)
    requires |WordPrefix(s)| < |s|
    ensures var w := WordPrefix(s);
            RunStarts(s, true) == (if w != [] then 1 else 0) + RunStarts(TrimStart(s[|w|..]), true)
  {
    var w := WordPrefix(s);
    var rest := s[|w|..];
    var t := TrimStart(rest);
    var sp := rest[..|rest| - |t|];
    assert rest == sp + t;
    assert sp != [] by { assert sp[0] == s[|w|]; }
    assert s == w + (sp + t);
    assert AllSpace(sp) by {
      forall k | 0 <= k < |sp| ensures IsSpace(sp[k]) { assert sp[k] == rest[k]; }
    }
    var before := if w == [] then true else IsSpace(w[|w| - 1]);
    RunStartsAppend(w, sp + t, true);
    RunStartsAppend(sp, t, before);
    RunStartsOfWord(w, true);
    RunStartsOfSpaces(sp, before);
    assert IsSpace(sp[|sp| - 1]);
  }

  /** The word count is the number of maximal non-whitespace runs. */
  lemma {:induction false} WordCountIsRunCount(s: string)
    ensures WordCount(s) == RunStarts(s, true)
    decreases |s|
  {
    var w := WordPrefix(s);
    if |w| == |s| {
      assert w == s;
      assert SplitOnSpaces(s) == [s];
      assert Filter([s], NonEmpty) == (if s != [] then [s] else []) + Filter([s][1..], NonEmpty);
      RunStartsOfWord(s, true);
    } else {
      WordCountStep(s);
      RunStartsStep(s);
      WordCountIsRunCount(TrimStart(s[|w|..]));
    }
  }

  /** Empty or all-whitespace content has no words. */
  lemma BlankContentHasNoWords(s: string)
    requires AllSpace(s)
    ensures WordCount(s) == 0
  {
    WordCountIsRunCount(s);
    RunStartsOfSpaces(s, true);
  }

  /** The note `handleSubmit` builds. `id` stands for `Date.now()`; `createdAt` and
      `updatedAt` for the two separate `new Date().toISOString()` readings, which can
      differ when a millisecond passes between them. */
  function NewNote(id: int, userId: int, folderId: int, title: string, content: string,
                   createdAt: string, updatedAt: string): (n: Note)
    ensures n.id == id && n.id_user == userId && n.id_folder == folderId
    ensures n.created_at == createdAt && n.updated_at == updatedAt
    ensures n.title == Trim(title) && n.content == Trim(content)
    ensures n.char_count == n.size_bytes == |content|
    ensures n.line_count == CountChar(content, '\n') + 1
    ensures n.word_count == RunStarts(content, true)
  {
    WordCountIsRunCount(content);
    Note(id, userId, folderId, Trim(title), Trim(content), createdAt, updatedAt,
         |content|, LineCount(content), WordCount(content), |content|)
  }

  /** The counters describe the content as typed, before trimming: when the content starts
      or ends with whitespace, the stored content is shorter than `char_count` says. */
  lemma CountersUseUntrimmedContent(id: int, userId: int, folderId: int, title: string, content: string,
                                    createdAt: string, updatedAt: string)
    requires content != [] && (IsSpace(content[0]) || IsSpace(content[|content| - 1]))
    ensures |NewNote(id, userId, folderId, title, content, createdAt, updatedAt).content|
            < NewNote(id, userId, folderId, title, content, createdAt, updatedAt).char_count
  {
    TrimSlice(content);
  }

  /** The form of `AddNote`, together with the module-level note store of the fake note
      service that `addNote` pushes onto. */
  class AddNoteForm {
    const userId: int
    const folderId: int
    var title: string
    var content: string
    var store: seq<Note>

    constructor (userId: int, folderId: int, store: seq<Note>)
      ensures this.userId == userId && this.folderId == folderId && this.store == store
      ensures title == "" && content == ""
    {
      this.userId := userId;
      this.folderId := folderId;
      this.store := store;
      title := "";
      content := "";
    }

    /** Typing into the inputs. */
    method Edit(newTitle: string, newContent: string)
      modifies this
      ensures title == newTitle && content == newContent && store == old(store)
    {
      title := newTitle;
      content := newContent;
    }

    /** `handleSubmit`: does nothing when the trimmed title is empty; otherwise appends the
        new note to the store and resets both inputs to the empty string. */
    method HandleSubmit(id: int, createdAt: string, updatedAt: string)
      modifies this
      ensures Trim(old(title)) == [] ==> unchanged(this)
      ensures Trim(old(title)) != [] ==>
                && store == old(store) + [NewNote(id, userId, folderId, old(title), old(content), createdAt, updatedAt)]
                && title == "" && content == ""
    {
      if Trim(title) == [] {
        return;
      }
      store, title, content := store + [NewNote(id, userId, folderId, title, content, createdAt, updatedAt)], "", "";
    }
  }

  /** A title of only whitespace (or none at all) is refused. */
  lemma BlankTitleIsRefused(title: string)
    ensures Trim(title) == [] <==> AllSpace(title)
  {
    TrimEmptyIffAllSpace(title);
  }
}
