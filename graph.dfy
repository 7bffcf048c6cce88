/** What the OneNote scripts see of Microsoft Graph: JSON objects restricted to the keys the
    scripts read, the `(json, None) | (None, error)` pair returned by `make_graph_request`,
    and Python's truthiness of the values the scripts branch on. The network itself is an
    oracle: a total function from endpoint (or URL) to reply. */
module Graph {
  import opened Base

  /** A JSON object, keeping only the keys the scripts read. A key that is absent is `None`;
      `otherKeys` records whether the object has any further key (it decides truthiness). */
  datatype Obj = Obj(
    id: Option<string>,
    displayName: Option<string>,
    name: Option<string>,
    title: Option<string>,
    webUrl: Option<string>,
    userPrincipalName: Option<string>,
    mimeType: Option<string>,          // `file.mimeType` of a drive item
    sections: Option<seq<Obj>>,        // `sections` of an expanded notebook
    resource: Option<Obj>,             // `resource` of a recent item or a search hit
    value: Option<seq<Obj>>,           // `value` of a listing
    nextLink: Option<string>,          // `@odata.nextLink` of a listing
    hitsContainers: Option<seq<Obj>>,  // `hitsContainers` of a search result
    hits: Option<seq<Obj>>,            // `hits` of a hits container
    otherKeys: bool)

  /** `{}`. */
  const EmptyObj := Obj(None, None, None, None, None, None, None, None, None, None, None, None, None, false)

  /** `bool(d)` for a dict: false exactly for the empty object. */
  predicate Truthy(o: Obj)
  {
    o.id.Some? || o.displayName.Some? || o.name.Some? || o.title.Some? || o.webUrl.Some?
    || o.userPrincipalName.Some? || o.mimeType.Some? || o.sections.Some? || o.resource.Some?
    || o.value.Some? || o.nextLink.Some? || o.hitsContainers.Some? || o.hits.Some? || o.otherKeys
  }

  /** `bool(x)` for an optional string: `None` and `''` are false. */
  predicate Present(s: Option<string>)
  {
    s.Some? && s.value != ""
  }

  /** `f'{x}'` for an optional string: `None` prints as `None`. */
  function Show(s: Option<string>): string
  {
    s.GetOr("None")
  }

  /** `data.get('value', [])`. */
  function Items(o: Obj): seq<Obj>
  {
    o.value.GetOr([])
  }

  /** The outcome of one `make_graph_request`: the decoded body of a 200 reply, or the error
      text (`"{status} - {text}"` or the exception message). */
  datatype Reply = Ok(body: Obj) | Fail(message: string)

  /** `if result:` after `result, error = make_graph_request(...)`. */
  predicate Succeeded(r: Reply)
  {
    r.Ok? && Truthy(r.body)
  }

  /** `str(error)`: on a falsy success the error is `None`. */
  function ErrorText(r: Reply): string
  {
    if r.Fail? then r.message else "None"
  }

  /** The outcome of one `make_graph_request_raw`: the page HTML as text, or the error text. */
  datatype RawReply = Text(content: string) | RawFail(message: string)

  /** `if content_result:`: a reply with empty text counts as a failure. */
  predicate RawSucceeded(r: RawReply)
  {
    r.Text? && r.content != ""
  }

  /** The `error` of a raw request: `None` when the text was empty. */
  function RawError(r: RawReply): Option<string>
  {
    if r.RawFail? then Some(r.message) else None
  }

  /** Graph, as seen through `make_graph_request`, keyed by endpoint path (or by URL). */
  type Provider = string -> Reply

  /** Graph, as seen through `make_graph_request_raw`, keyed by endpoint path. */
  type RawProvider = string -> RawReply
}
