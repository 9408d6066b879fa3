/** The download name chosen by `exportFolderToZip` and `exportNoteToPdf`. Both services
    derive it the same way: a failed response throws first; otherwise the name is a default
    unless the `content-disposition` header matches `/filename=([^;]+)/`, in which case it is
    the captured text with every `"` removed. One function serves both, given the default
    name and the error message. */
module ExportFilename {
  import opened Wrappers
  import opened Seqs
  import opened Strings

  const ParamName: string := "filename="

  /** The pattern `/filename=([^;]+)/` matches at index `i`: `filename=` starts there and is
      followed by at least one character other than `;`, so that the greedy `[^;]+` after it
      captures something. */
  predicate MatchesAt(h: string, i: int): (r: bool)
    ensures r <==> OccursAt(h, ParamName, i) && RunToSemicolon(h, i + |ParamName|) != []
  {
    OccursAt(h, ParamName, i) && i + |ParamName| < |h| && h[i + |ParamName|] != ';'
  }

  /** The leftmost index, from `from` on, where the pattern matches. */
  function FindMatch(h: string, from: nat): (r: Option<nat>)
    ensures r.Some? ==> from <= r.value && MatchesAt(h, r.value)
                        && forall j :: from <= j < r.value ==> !MatchesAt(h, j)
    ensures r.None? ==> forall j :: from <= j ==> !MatchesAt(h, j)
    decreases |h| - from
  {
    if from + |ParamName| >= |h| then None
    else if MatchesAt(h, from) then Some(from)
    else FindMatch(h, from + 1)
  }

  /** `[^;]+` taken greedily from index `i`: the text up to the next `;` or the end. */
  function RunToSemicolon(h: string, i: nat): (r: string)
    requires i <= |h|
    ensures i + |r| <= |h| && r == h[i..i + |r|]
    ensures ';' !in r
    ensures i + |r| == |h| || h[i + |r|] == ';'
    decreases |h| - i
  {
    if i == |h| || h[i] == ';' then []
    else
      var rest := RunToSemicolon(h, i + 1);
      assert h[i..i + 1 + |rest|] == [h[i]] + rest;
      [h[i]] + rest
  }

  /** `match[1]`: the captured text, when the header matches. */
  function Capture(h: string): (r: Option<string>)
    ensures r.Some? ==> |r.value| >= 1 && ';' !in r.value
  {
    match FindMatch(h, 0)
    case None => None
    case Some(i) => Some(RunToSemicolon(h, i + |ParamName|))
  }

  function NotQuote(c: char): bool
  {
    c != '"'
  }

  /** Dropping the quotes shortens `s` by the number of quotes in it. */
  lemma {:induction false} QuotesDropped(s: string)
    ensures |Filter(s, NotQuote)| == |s| - CountChar(s, '"')
    decreases |s|
  {
    if s != [] {
      QuotesDropped(s[1..]);
    }
  }

  /** `replace(/"/g, "")`. */
  function WithoutQuotes(s: string): (r: string)
    ensures '"' !in r
    ensures forall c :: c in r <==> c in s && c != '"'
    ensures |r| == |s| - CountChar(s, '"')
  {
    FilterMembers(s, NotQuote);
    QuotesDropped(s);
    var r := Filter(s, NotQuote);
    assert forall c :: c in s && c != '"' ==> c in r by {
      forall c | c in s && c != '"' ensures c in r {
        var i :| 0 <= i < |s| && s[i] == c;
      }
    }
    r
  }

  /** The name derived from the header (`null` when absent), or `defaultName`. */
  function Filename(header: Option<string>, defaultName: string): (name: string)
    ensures header.None? || header.value == [] ==> name == defaultName
    ensures header.Some? && Capture(header.value).None? ==> name == defaultName
    ensures header.Some? && Capture(header.value).Some? ==> '"' !in name
  {
    if header.None? || header.value == [] then defaultName
    else
      match Capture(header.value)
      case None => defaultName
      case Some(c) => WithoutQuotes(c)
  }

  /** When the header matches, the name is the leftmost captured run with its quotes
      removed: every other character of the run, spaces included, kept in order. */
  lemma NameFromMatch(h: string, defaultName: string, i: nat)
    requires FindMatch(h, 0) == Some(i)
    ensures var run := RunToSemicolon(h, i + |ParamName|);
            && Filename(Some(h), defaultName) == WithoutQuotes(run)
            && |run| >= 1 && (i + |ParamName| + |run| == |h| || h[i + |ParamName| + |run|] == ';')
            && IsSubsequence(Filename(Some(h), defaultName), run)
            && (forall c :: c in run && c != '"' ==> c in Filename(Some(h), defaultName))
  {
    var run := RunToSemicolon(h, i + |ParamName|);
    assert Capture(h) == Some(run);
    assert Filename(Some(h), defaultName) == WithoutQuotes(run);
    FilterIsSubsequence(run, NotQuote);
  }

  /** A `filename=` followed by `;` or by the end is no match: the default name stays unless
      a later `filename=` is followed by some other character. */
  lemma EmptyParamIsSkipped(h: string, i: nat)
    requires OccursAt(h, ParamName, i)
    requires i + |ParamName| == |h| || h[i + |ParamName|] == ';'
    ensures FindMatch(h, 0) != Some(i)
  {
  }

  /** A captured run made only of quotes gives the empty name. */
  lemma OnlyQuotesGiveEmptyName(h: string, defaultName: string)
    requires Capture(h).Some?
    requires forall k :: 0 <= k < |Capture(h).value| ==> Capture(h).value[k] == '"'
    ensures Filename(Some(h), defaultName) == ""
  {
    FilterMembers(Capture(h).value, NotQuote);
  }

  /** What the export services read from the response. */
  datatype ExportResponse = ExportResponse(ok: bool, contentDisposition: Option<string>)

  /** The shared derivation: a failed response throws `failure` before any name is
      derived; otherwise the name from the header or `defaultName`. */
  function DownloadName(response: ExportResponse, defaultName: string, failure: string): (r: Result<string, string>)
    ensures !response.ok <==> r == Failure(failure)
    ensures response.ok ==> r.Success? && r.value == Filename(response.contentDisposition, defaultName)
  {
    if !response.ok then Failure(failure) else Success(Filename(response.contentDisposition, defaultName))
  }

  /** `exportFolderToZip(folderId)`: default name `folder_<folderId>.zip`. */
  function ZipDownloadName(folderId: int, response: ExportResponse): (r: Result<string, string>)
    ensures !response.ok ==> r == Failure("Erreur lors de l'export ZIP")
    ensures response.ok && response.contentDisposition.None? ==>
              r == Success("folder_" + IntToString(folderId) + ".zip")
    ensures r.Success? && response.contentDisposition.Some? && Capture(response.contentDisposition.value).Some? ==>
              '"' !in r.value
  {
    DownloadName(response, "folder_" + IntToString(folderId) + ".zip", "Erreur lors de l'export ZIP")
  }

  /** `exportNoteToPdf(noteId)`: default name `note_<noteId>.pdf`. */
  function PdfDownloadName(noteId: int, response: ExportResponse): (r: Result<string, string>)
    ensures !response.ok ==> r == Failure("Error during PDF export")
    ensures response.ok && response.contentDisposition.None? ==>
              r == Success("note_" + IntToString(noteId) + ".pdf")
    ensures r.Success? && response.contentDisposition.Some? && Capture(response.contentDisposition.value).Some? ==>
              '"' !in r.value
  {
    DownloadName(response, "note_" + IntToString(noteId) + ".pdf", "Error during PDF export")
  }
}
