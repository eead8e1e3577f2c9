/**
 * `lookupWord`: one dictionary lookup, with the network abstracted into
 * the outcome of the GET request. The model fixes the order in which the
 * client inspects that outcome and the error each outcome produces.
 */
module Lookup {
  import opened Wrappers
  import opened Text
  import opened Entries

  /** The endpoint; the cleaned word is appended as it is. */
  const ApiBase: string := "https://api.dictionaryapi.dev/api/v2/entries/en/"
  const StatusOK: int := 200
  const StatusNotFound: int := 404

  /** What decoding the body as a JSON array of entries gave. */
  datatype Decoding = Decoded(entries: seq<WordEntry>) | Malformed(cause: string)

  /** Whether the body could be read to the end, and what it decodes to. */
  datatype Body = Read(decoding: Decoding) | ReadFailed(cause: string)

  /** The outcome of one GET with the client's 10-second timeout. */
  datatype Response = TransportFailed(cause: string) | Received(status: int, body: Body)

  /** The network, as seen by the client: the outcome a GET of a URL has. */
  type Network = string -> Response

  /** The errors `lookupWord` returns; causes are the wrapped errors' texts. */
  datatype LookupError =
    | EmptyInput
    | NetworkError(cause: string)
    | ReadError(cause: string)
    | NotFound(word: string)
    | StatusError(code: int)
    | ParseError(cause: string)
    | NoData(word: string)

  /** The error's text, as the client formats it. */
  function Message(e: LookupError): string {
    match e
    case EmptyInput => "please enter a word to search"
    case NetworkError(c) => "network error: " + c
    case ReadError(c) => "failed to read response body: " + c
    case NotFound(w) => "definition for '" + w + "' not found"
    case StatusError(code) => "API returned status code " + IntToDecimal(code)
    case ParseError(c) => "failed to parse API response: " + c
    case NoData(w) => "no data found for '" + w + "'"
  }

  /** The word as it is sent: lower-cased, then trimmed. */
  function CleanWord(word: string): string {
    TrimSpace(ToLower(word))
  }

  function RequestUrl(word: string): string {
    ApiBase + CleanWord(word)
  }

  /**
   * The checks made once a request was sent, in the client's order:
   * transport, body read, 404, other non-200 status, decoding, empty
   * array. Errors that name the word name it as the caller gave it.
   */
  function Classify(word: string, resp: Response): (r: Result<seq<WordEntry>, LookupError>)
    ensures r.Failure? && r.error.NetworkError? <==> resp.TransportFailed?
    ensures r.Failure? && r.error.NetworkError? ==> r.error.cause == resp.cause
    ensures r.Failure? && r.error.ReadError? <==> resp.Received? && resp.body.ReadFailed?
    ensures r.Failure? && r.error.ReadError? ==> r.error.cause == resp.body.cause
    ensures r == Failure(NotFound(word)) <==>
      resp.Received? && resp.body.Read? && resp.status == StatusNotFound
    ensures r.Failure? && r.error.StatusError? <==>
      resp.Received? && resp.body.Read? && resp.status != StatusNotFound && resp.status != StatusOK
    ensures r.Failure? && r.error.StatusError? ==> r.error.code == resp.status
    ensures r.Failure? && r.error.ParseError? <==>
      resp.Received? && resp.body.Read? && resp.status == StatusOK && resp.body.decoding.Malformed?
    ensures r.Failure? && r.error.ParseError? ==> r.error.cause == resp.body.decoding.cause
    ensures r == Failure(NoData(word)) <==>
      resp.Received? && resp.body.Read? && resp.status == StatusOK && resp.body.decoding == Decoded([])
    ensures r.Success? <==>
      resp.Received? && resp.body.Read? && resp.status == StatusOK
      && resp.body.decoding.Decoded? && resp.body.decoding.entries != []
    ensures r.Success? ==> r.value == resp.body.decoding.entries
    ensures r != Failure(EmptyInput)
  {
    match resp
    case TransportFailed(c) => Failure(NetworkError(c))
    case Received(status, body) =>
      match body
      case ReadFailed(c) => Failure(ReadError(c))
      case Read(decoding) =>
        if status == StatusNotFound then Failure(NotFound(word))
        else if status != StatusOK then Failure(StatusError(status))
        else match decoding
          case Malformed(c) => Failure(ParseError(c))
          case Decoded(entries) =>
            if |entries| == 0 then Failure(NoData(word)) else Success(entries)
  }

  /**
   * Which check wins when several would fail: a body that cannot be read
   * is reported even on a 404 or another error status, a 404 is reported
   * whatever the body holds, and any other non-200 status is reported
   * before the body is decoded.
   */
  lemma ChecksInOrder(word: string, status: int, readCause: string, d: Decoding)
    ensures Classify(word, Received(status, ReadFailed(readCause))) == Failure(ReadError(readCause))
    ensures Classify(word, Received(StatusNotFound, Read(d))) == Failure(NotFound(word))
    ensures status != StatusNotFound && status != StatusOK ==>
      Classify(word, Received(status, Read(d))) == Failure(StatusError(status))
    ensures Classify(word, Received(StatusOK, Read(d))).Success? ==> d.Decoded? && d.entries != []
  {
  }

  /**
   * `lookupWord`: a blank word fails with `EmptyInput` before any request;
   * otherwise the outcome of the one GET of `RequestUrl(word)` decides.
   */
  function LookupWord(word: string, net: Network): (r: Result<seq<WordEntry>, LookupError>)
    ensures r == Failure(EmptyInput) <==> IsBlank(word)
    ensures !IsBlank(word) ==> r == Classify(word, net(RequestUrl(word)))
    ensures r.Success? ==> r.value != []
  {
    ToLowerKeepsBlankness(word);
    if CleanWord(word) == [] then Failure(EmptyInput)
    else Classify(word, net(RequestUrl(word)))
  }

  /** A blank word never reaches the network: the result is the same whatever it would answer. */
  lemma BlankWordMakesNoRequest(word: string, net1: Network, net2: Network)
    requires IsBlank(word)
    ensures LookupWord(word, net1) == LookupWord(word, net2) == Failure(EmptyInput)
  {
  }

  /** Nothing but the answer to the one request URL influences the result. */
  lemma OnlyTheRequestUrlMatters(word: string, net1: Network, net2: Network)
    requires net1(RequestUrl(word)) == net2(RequestUrl(word))
    ensures LookupWord(word, net1) == LookupWord(word, net2)
  {
  }

  /**
   * The request is for the cleaned word, while the not-found error quotes
   * the word as given: " Xyzzy " is requested as ".../xyzzy".
   */
  lemma NotFoundQuotesWordAsGiven(net: Network)
    requires net(ApiBase + "xyzzy") == Received(StatusNotFound, Read(Malformed("not JSON")))
    ensures RequestUrl(" Xyzzy ") == ApiBase + "xyzzy"
    ensures LookupWord(" Xyzzy ", net) == Failure(NotFound(" Xyzzy "))
  {
    CleanXyzzy();
    var resp := net(RequestUrl(" Xyzzy "));
    assert LookupWord(" Xyzzy ", net) == Classify(" Xyzzy ", resp);
  }

  lemma CleanXyzzy()
    ensures CleanWord(" Xyzzy ") == "xyzzy" && !IsBlank(" Xyzzy ")
  {
    LowerXyzzy();
    TrimXyzzy();
    assert !IsSpace(" Xyzzy "[1]);
  }

  lemma LowerXyzzy()
    ensures ToLower(" Xyzzy ") == " xyzzy "
  {
  }

  lemma TrimXyzzy()
    ensures TrimSpace(" xyzzy ") == "xyzzy"
  {
    LeadingXyzzy();
    TrailingXyzzy();
  }

  lemma LeadingXyzzy()
    ensures TrimLeadingSpace(" xyzzy ") == "xyzzy "
  {
    assert " xyzzy "[1..] == "xyzzy ";
    assert !IsSpace('x');
  }

  lemma TrailingXyzzy()
    ensures TrimTrailingSpace("xyzzy ") == "xyzzy"
  {
    assert "xyzzy "[..5] == "xyzzy";
    assert !IsSpace('y');
  }

  /** An empty array with status 200 is "no data", naming the word. */
  lemma EmptyArrayIsNoData(word: string, net: Network)
    requires !IsBlank(word)
    requires net(RequestUrl(word)) == Received(StatusOK, Read(Decoded([])))
    ensures LookupWord(word, net) == Failure(NoData(word))
    ensures Message(LookupWord(word, net).error) == "no data found for '" + word + "'"
  {
    var resp := net(RequestUrl(word));
    assert LookupWord(word, net) == Classify(word, resp);
    assert LookupWord(word, net).error == NoData(word);
  }
}
