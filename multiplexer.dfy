/**
 * The multiplexed request handler: admission of an envelope request (method,
 * content type, body, request count), the error it answers with, and the
 * aggregated response of an admitted one.
 *
 * What the handler gets from code outside this model is a parameter:
 * `classify` is `ContentTypeUtil.getContentType` as a classification of the
 * Content-Type header, `readRequests` is the decoding of the body into the
 * request tree (`DataMapUtils.readMap` and `MultiplexedRequestContent`),
 * and `respond` and `decode` are as in `Execution`.
 */
module Multiplexer {
  import opened Wrappers
  import opened Strings
  import opened Cookies
  import opened IndividualRequests
  import opened ExecutionPlans
  import opened Execution

  const MUX_URI_PATH: string := "/mux"

  const S_200_OK: int := 200
  const S_400_BAD_REQUEST: int := 400
  const S_405_METHOD_NOT_ALLOWED: int := 405
  const S_415_UNSUPPORTED_MEDIA_TYPE: int := 415

  datatype HttpMethod = GET | PUT | POST | DELETE | HEAD | OPTIONS | TRACE | CONNECT

  /** What `ContentTypeUtil.getContentType` makes of the Content-Type header. */
  datatype ContentClass =
    | Unparsable  // it throws `MimeTypeParseException`
    | Json        // it returns `ContentType.JSON`
    | OtherType   // it returns any other content type

  /** The exceptions admission can raise. */
  datatype Exception =
    | RestLiServiceException(status: int, message: Option<string>)
    /** `IllegalArgumentException("No individual requests to process")` */
    | NoIndividualRequests
    /** `IllegalArgumentException("The server is configured to serve up to <maximum> requests, but received <received>")` */
    | TooManyRequests(maximum: int, received: nat)
    /** Any other exception the body decoding throws. */
    | OtherException

  /** The envelope request, reduced to what the handler looks at. */
  datatype RestRequest = RestRequest(httpMethod: HttpMethod, path: string, contentType: Option<string>, entity: seq<int>)

  /** The aggregated response: its status, the responses by id, and the cookies it sets. */
  datatype RestResponse = RestResponse(status: int, responses: map<string, IndividualResponse>, cookies: set<Cookie>)

  /** What the handler passes to its callback. */
  datatype Reply = OnError(error: Exception) | OnSuccess(response: RestResponse)

  /** `isMultiplexedRequest`: the path alone decides; the method is checked later. */
  function IsMultiplexedRequest(request: RestRequest): (r: bool)
  {
    request.path == MUX_URI_PATH
  }

  /** Whatever the method, a request to `/mux` is recognised as multiplexed, and one elsewhere is not. */
  lemma IsMultiplexedRequestIgnoresMethod(request: RestRequest, httpMethod: HttpMethod)
    ensures IsMultiplexedRequest(request.(httpMethod := httpMethod)) == IsMultiplexedRequest(request)
    ensures IsMultiplexedRequest(request) <==> request.path == "/mux"
  {
  }

  /** `validateHeaders`: the error it throws, if any. */
  function ValidateHeaders(contentClass: ContentClass): Option<Exception>
  {
    match contentClass
    case Unparsable => Some(RestLiServiceException(S_400_BAD_REQUEST, Some("Invalid content type")))
    case OtherType => Some(RestLiServiceException(S_415_UNSUPPORTED_MEDIA_TYPE, Some("Unsupported content type")))
    case Json => None
  }

  /**
   * `extractIndividualRequests`: the headers are validated before the body
   * is read; a tree whose total count is zero or above the maximum is
   * refused.
   */
  function Admission(request: RestRequest, classify: Option<string> -> ContentClass,
                     readRequests: seq<int> -> Result<seq<Entry>, Exception>, maximumRequestsNumber: int)
    : Result<seq<Entry>, Exception>
  {
    match ValidateHeaders(classify(request.contentType))
    case Some(e) => Failure(e)
    case None =>
      match readRequests(request.entity)
      case Failure(e) => Failure(e)
      case Success(individualRequests) =>
        var totalCount := |Flatten(individualRequests)|;
        if totalCount == 0 then Failure(NoIndividualRequests)
        else if totalCount > maximumRequestsNumber then Failure(TooManyRequests(maximumRequestsNumber, totalCount))
        else Success(individualRequests)
  }

  /** The two `catch` clauses of `handleRequest`: a service exception as it is, anything else as a bare 400. */
  function ErrorReply(e: Exception): (r: Exception)
    ensures r.RestLiServiceException?
  {
    if e.RestLiServiceException? then e else RestLiServiceException(S_400_BAD_REQUEST, None)
  }

  /** `aggregateResponses`: status 200, the collected responses, and the merged cookies. */
  function AggregateResponses(responses: map<string, IndividualResponse>, responseCookies: map<string, Cookie>): RestResponse
  {
    RestResponse(S_200_OK, responses, responseCookies.Values)
  }

  /** What `handleRequest` passes to its callback. */
  function Handle(request: RestRequest, classify: Option<string> -> ContentClass,
                  readRequests: seq<int> -> Result<seq<Entry>, Exception>, maximumRequestsNumber: int,
                  respond: Entry -> IndividualResponseWithCookies, decode: seq<string> -> seq<Cookie>): Reply
  {
    if request.httpMethod != POST then OnError(RestLiServiceException(S_405_METHOD_NOT_ALLOWED, None))
    else
      match Admission(request, classify, readRequests, maximumRequestsNumber)
      case Failure(e) => OnError(ErrorReply(e))
      case Success(individualRequests) =>
        var collected := Replay(Empty, Trace(ParallelPlan(individualRequests)), respond, decode);
        OnSuccess(AggregateResponses(collected.responses, collected.cookies))
  }

  /**
   * The header whitelist: a `TreeSet` ordered by `CASE_INSENSITIVE_ORDER`,
   * represented by the lower-cased names it holds. A null argument leaves
   * it empty.
   */
  function Whitelist(individualRequestHeaderWhitelist: Option<set<string>>): (r: set<string>)
    ensures individualRequestHeaderWhitelist.None? ==> r == {}
    ensures forall h :: ToLower(h) in r <==>
              individualRequestHeaderWhitelist.Some? &&
              exists w :: w in individualRequestHeaderWhitelist.value && EqualsIgnoreCase(w, h)
  {
    match individualRequestHeaderWhitelist
    case None => {}
    case Some(names) => set w | w in names :: ToLower(w)
  }

  class MultiplexedRequestHandler {
    const maximumRequestsNumber: int
    const individualRequestHeaderWhitelist: set<string>

    constructor (maximumRequestsNumber: int, individualRequestHeaderWhitelist: Option<set<string>>)
      ensures this.maximumRequestsNumber == maximumRequestsNumber
      ensures this.individualRequestHeaderWhitelist == Whitelist(individualRequestHeaderWhitelist)
    {
      this.maximumRequestsNumber := maximumRequestsNumber;
      var whitelist: set<string> := {};
      if individualRequestHeaderWhitelist.Some? {
        whitelist := set w | w in individualRequestHeaderWhitelist.value :: ToLower(w);
      }
      this.individualRequestHeaderWhitelist := whitelist;
    }

    /** `extractIndividualRequests`. */
    method ExtractIndividualRequests(request: RestRequest, classify: Option<string> -> ContentClass,
                                     readRequests: seq<int> -> Result<seq<Entry>, Exception>)
      returns (r: Result<seq<Entry>, Exception>)
      ensures r == Admission(request, classify, readRequests, maximumRequestsNumber)
    {
      var invalid := ValidateHeaders(classify(request.contentType));
      if invalid.Some? {
        return Failure(invalid.value);
      }
      var data := readRequests(request.entity);
      if data.Failure? {
        return Failure(data.error);
      }
      var individualRequests := data.value;
      var totalCount := TotalRequestCount(individualRequests);
      if totalCount == 0 {
        return Failure(NoIndividualRequests);
      }
      if totalCount > maximumRequestsNumber {
        return Failure(TooManyRequests(maximumRequestsNumber, totalCount));
      }
      return Success(individualRequests);
    }

    /**
     * `handleRequest`: a non-POST request is refused with 405; a request
     * that fails admission gets its error; otherwise the plan of the tree
     * is run against fresh response and cookie maps, and the aggregated
     * response is sent.
     */
    method HandleRequest(request: RestRequest, classify: Option<string> -> ContentClass,
                         readRequests: seq<int> -> Result<seq<Entry>, Exception>,
                         respond: Entry -> IndividualResponseWithCookies, decode: seq<string> -> seq<Cookie>)
      returns (reply: Reply)
      ensures reply == Handle(request, classify, readRequests, maximumRequestsNumber, respond, decode)
    {
      if request.httpMethod != POST {
        return OnError(RestLiServiceException(S_405_METHOD_NOT_ALLOWED, None));
      }
      var individualRequests := ExtractIndividualRequests(request, classify, readRequests);
      if individualRequests.Failure? {
        return OnError(ErrorReply(individualRequests.error));
      }
      var collector := new ResponseCollector();
      var requestProcessingTask := CreateParallelRequestsTask(individualRequests.value);
      collector.Execute(requestProcessingTask, respond, decode);
      reply := OnSuccess(AggregateResponses(collector.individualResponses, collector.responseCookies));
    }
  }

  /**
   * A request that is not a POST is refused with a bare 405, whatever its
   * content type and body: neither is looked at.
   */
  lemma NonPostRejected(request: RestRequest, maximumRequestsNumber: int,
                        classify: Option<string> -> ContentClass, readRequests: seq<int> -> Result<seq<Entry>, Exception>,
                        respond: Entry -> IndividualResponseWithCookies, decode: seq<string> -> seq<Cookie>,
                        classify': Option<string> -> ContentClass, readRequests': seq<int> -> Result<seq<Entry>, Exception>,
                        entity': seq<int>)
    requires request.httpMethod != POST
    ensures Handle(request, classify, readRequests, maximumRequestsNumber, respond, decode)
            == OnError(RestLiServiceException(S_405_METHOD_NOT_ALLOWED, None))
    ensures Handle(request, classify, readRequests, maximumRequestsNumber, respond, decode)
            == Handle(request.(entity := entity'), classify', readRequests', maximumRequestsNumber, respond, decode)
  {
  }

  /**
   * The content type is checked before the body is read: an unparsable one
   * gives 400 "Invalid content type", one that is not JSON gives 415
   * "Unsupported content type", whatever the body.
   */
  lemma ContentTypeCheckedFirst(request: RestRequest, maximumRequestsNumber: int,
                                classify: Option<string> -> ContentClass, readRequests: seq<int> -> Result<seq<Entry>, Exception>,
                                respond: Entry -> IndividualResponseWithCookies, decode: seq<string> -> seq<Cookie>,
                                readRequests': seq<int> -> Result<seq<Entry>, Exception>, entity': seq<int>)
    requires request.httpMethod == POST
    requires classify(request.contentType) != Json
    ensures classify(request.contentType) == Unparsable ==>
              Handle(request, classify, readRequests, maximumRequestsNumber, respond, decode)
              == OnError(RestLiServiceException(S_400_BAD_REQUEST, Some("Invalid content type")))
    ensures classify(request.contentType) == OtherType ==>
              Handle(request, classify, readRequests, maximumRequestsNumber, respond, decode)
              == OnError(RestLiServiceException(S_415_UNSUPPORTED_MEDIA_TYPE, Some("Unsupported content type")))
    ensures Handle(request, classify, readRequests, maximumRequestsNumber, respond, decode)
            == Handle(request.(entity := entity'), classify, readRequests', maximumRequestsNumber, respond, decode)
  {
  }

  /**
   * A body that cannot be decoded is refused: a service exception the
   * decoding throws reaches the callback as it is, any other exception as
   * a bare 400.
   */
  lemma UndecodableBodyRejected(request: RestRequest, maximumRequestsNumber: int,
                                classify: Option<string> -> ContentClass, readRequests: seq<int> -> Result<seq<Entry>, Exception>,
                                respond: Entry -> IndividualResponseWithCookies, decode: seq<string> -> seq<Cookie>)
    requires request.httpMethod == POST && classify(request.contentType) == Json
    requires readRequests(request.entity).Failure?
    ensures var e := readRequests(request.entity).error;
            Handle(request, classify, readRequests, maximumRequestsNumber, respond, decode)
            == OnError(if e.RestLiServiceException? then e else RestLiServiceException(S_400_BAD_REQUEST, None))
  {
  }

  /**
   * A decoded tree is admitted exactly when its total count is between 1
   * and the maximum, bounds included; an empty tree and a tree above the
   * maximum are both answered with a bare 400.
   */
  lemma CountBounds(request: RestRequest, maximumRequestsNumber: int,
                    classify: Option<string> -> ContentClass, readRequests: seq<int> -> Result<seq<Entry>, Exception>,
                    respond: Entry -> IndividualResponseWithCookies, decode: seq<string> -> seq<Cookie>)
    requires request.httpMethod == POST && classify(request.contentType) == Json
    requires readRequests(request.entity).Success?
    ensures var individualRequests := readRequests(request.entity).value;
            var reply := Handle(request, classify, readRequests, maximumRequestsNumber, respond, decode);
            && (reply.OnSuccess? <==> 1 <= |Flatten(individualRequests)| <= maximumRequestsNumber)
            && (individualRequests == [] ==> reply == OnError(RestLiServiceException(S_400_BAD_REQUEST, None)))
            && (|Flatten(individualRequests)| > maximumRequestsNumber ==>
                  reply == OnError(RestLiServiceException(S_400_BAD_REQUEST, None)))
  {
    CountZeroIffEmpty(readRequests(request.entity).value);
  }

  /**
   * The response to an admitted request: status 200; a response under
   * exactly the ids used anywhere in the tree, each the one recorded last
   * for its id; and the cookies of all responses, merged in pre-order.
   */
  lemma AdmittedResponse(request: RestRequest, maximumRequestsNumber: int,
                         classify: Option<string> -> ContentClass, readRequests: seq<int> -> Result<seq<Entry>, Exception>,
                         respond: Entry -> IndividualResponseWithCookies, decode: seq<string> -> seq<Cookie>)
    requires Handle(request, classify, readRequests, maximumRequestsNumber, respond, decode).OnSuccess?
    ensures var all := Flatten(readRequests(request.entity).value);
            var response := Handle(request, classify, readRequests, maximumRequestsNumber, respond, decode).response;
            && response.status == S_200_OK
            && response.responses.Keys == Ids(readRequests(request.entity).value)
            && response.responses == RecordAll(Empty, all, respond, decode).responses
            && response.cookies == MergeCookies(map[], CookiesOf(all, respond, decode)).Values
  {
    var individualRequests := readRequests(request.entity).value;
    var all := Flatten(individualRequests);
    PlanRecordsTree(Empty, individualRequests, respond, decode);
    RecordAllKeys(Empty, all, respond, decode);
    RecordAllCookies(Empty, all, respond, decode);
  }

  /** In an admitted request's response, an id maps to the response recorded last for it in pre-order. */
  lemma AdmittedResponseLastWins(request: RestRequest, maximumRequestsNumber: int,
                                 classify: Option<string> -> ContentClass, readRequests: seq<int> -> Result<seq<Entry>, Exception>,
                                 respond: Entry -> IndividualResponseWithCookies, decode: seq<string> -> seq<Cookie>, i: nat)
    requires Handle(request, classify, readRequests, maximumRequestsNumber, respond, decode).OnSuccess?
    requires var all := Flatten(readRequests(request.entity).value);
             i < |all| && forall j :: i < j < |all| ==> all[j].id != all[i].id
    ensures var all := Flatten(readRequests(request.entity).value);
            var response := Handle(request, classify, readRequests, maximumRequestsNumber, respond, decode).response;
            all[i].id in response.responses && response.responses[all[i].id] == respond(all[i]).individualResponse
  {
    var all := Flatten(readRequests(request.entity).value);
    AdmittedResponse(request, maximumRequestsNumber, classify, readRequests, respond, decode);
    RecordAllLastWins(Empty, all, i, respond, decode);
  }

  /** A GET (or any other non-POST) to `/mux` is recognised as multiplexed and then refused with 405. */
  lemma MuxNonPostIsRefused(request: RestRequest, maximumRequestsNumber: int,
                            classify: Option<string> -> ContentClass, readRequests: seq<int> -> Result<seq<Entry>, Exception>,
                            respond: Entry -> IndividualResponseWithCookies, decode: seq<string> -> seq<Cookie>)
    requires request.path == MUX_URI_PATH && request.httpMethod != POST
    ensures IsMultiplexedRequest(request)
    ensures Handle(request, classify, readRequests, maximumRequestsNumber, respond, decode).error.status == S_405_METHOD_NOT_ALLOWED
  {
  }
}
