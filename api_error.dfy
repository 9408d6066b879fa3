/** `ApiError`: the error raised for a failed API response. Its message is
    `"<title>: <detail>"`; `fromResponse` reads the title and the detail from the JSON body,
    falling back to French defaults. */
module ApiErrors {
  import opened Wrappers

  /** An `ApiError`: the `Error` message plus the `status` and `detail` fields. */
  datatype ApiError = ApiError(message: string, status: int, detail: string)

  /** `new ApiError(status, title, detail)`. */
  function NewApiError(status: int, title: string, detail: string): (e: ApiError)
    ensures e.status == status && e.detail == detail
    ensures |e.message| == |title| + 2 + |detail|
  {
    ApiError(title + ": " + detail, status, detail)
  }

  /** The message can be read back: the title, then `": "`, then the detail. */
  lemma MessageSplitsBack(status: int, title: string, detail: string)
    ensures var m := NewApiError(status, title, detail).message;
            m[..|title|] == title && m[|title|..|title| + 2] == ": " && m[|title| + 2..] == detail
  {
    var m := NewApiError(status, title, detail).message;
    assert m == title + ": " + detail;
    assert m[..|title|] == title;
    assert m[|title| + 2..] == detail;
  }

  /** What `response.json()` gives: a body that does not parse (the `catch` turns it into
      `{}`), the JSON value `null`, an object with the three string fields the code reads
      (absent or `null` fields as `None`), or any other JSON value, which has none of them. */
  datatype ErrorBody =
    | Unparsable
    | JsonNull
    | JsonObject(title: Option<string>, detail: Option<string>, message: Option<string>)
    | OtherJson

  /** JavaScript truthiness of a string field: present and non-empty. */
  predicate Truthy(v: Option<string>)
  {
    v.Some? && v.value != ""
  }

  const DefaultTitle: string := "Erreur"
  const DefaultDetail: string := "Une erreur est survenue"

  /** `a || b` on string fields. */
  function Or(a: Option<string>, b: string): (r: string)
    ensures Truthy(a) ==> r == a.value
    ensures !Truthy(a) ==> r == b
  {
    if Truthy(a) then a.value else b
  }

  /** `ApiError.fromResponse(response)` for a response with this status and body. Reading a
      field of `null` throws a `TypeError`, which rejects the returned promise. */
  function FromResponse(status: int, body: ErrorBody): (r: Result<ApiError, string>)
    ensures body.JsonNull? <==> r.Failure?
    ensures r.Success? ==> r.value.status == status
    ensures body.JsonObject? ==>
              r == Success(NewApiError(status, Or(body.title, DefaultTitle),
                                       Or(body.detail, Or(body.message, DefaultDetail))))
    ensures body.Unparsable? || body.OtherJson? ==>
              r == Success(NewApiError(status, DefaultTitle, DefaultDetail))
  {
    match body
    case JsonNull => Failure("TypeError")
    case JsonObject(t, d, m) => Success(NewApiError(status, Or(t, DefaultTitle), Or(d, Or(m, DefaultDetail))))
    case _ => Success(NewApiError(status, DefaultTitle, DefaultDetail))
  }

  /** The fallback chain: the title is `json.title` when truthy, else `"Erreur"`; the detail
      is `json.detail` when truthy, else `json.message` when truthy, else
      `"Une erreur est survenue"`; the message joins them. */
  lemma FallbackChain(status: int, t: Option<string>, d: Option<string>, m: Option<string>)
    ensures var e := FromResponse(status, JsonObject(t, d, m)).value;
            && e.status == status
            && (Truthy(d) ==> e.detail == d.value)
            && (!Truthy(d) && Truthy(m) ==> e.detail == m.value)
            && (!Truthy(d) && !Truthy(m) ==> e.detail == DefaultDetail)
            && e.message == (if Truthy(t) then t.value else DefaultTitle) + ": " + e.detail
  {
  }

  /** A body that does not parse is read as `{}`: both defaults apply. */
  lemma UnparsableBodyUsesDefaults(status: int)
    ensures FromResponse(status, Unparsable) == FromResponse(status, JsonObject(None, None, None))
    ensures FromResponse(status, Unparsable).value.message == "Erreur: Une erreur est survenue"
  {
  }
}
