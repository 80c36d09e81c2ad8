/**
 * GET /api/user/search?query=...: the search handler, which derives the index keys from the
 * query and asks the store for matching users, and the exported GET, which wraps it with the
 * auth middleware.
 *
 * `decode` stands for `decodeURIComponent` (it may throw, for a malformed escape), `send` for the
 * client's QueryCommand call (it answers the marshalled items or throws), `unmarshall` and
 * `stringify` for the conversions of the items into the JSON body.
 */
module UserSearch {
  import opened Wrappers
  import opened JsStrings
  import opened Http
  import opened DynamoDb
  import opened FirebaseToken
  import opened Middleware
  import opened Auth

  const SearchTable := "sbm-user"
  const SearchIndex := "GSISearchPK-GSISearchSK-index"
  const SearchKeyCondition := "GSISearchPK = :pk AND begins_with(GSISearchSK, :sk)"
  const SearchLimit := 10
  const SearchProjection := "UID, UserFirstName, UserLastName, UserLocationCountry, UserAvatar"
  const MissingQueryBody := "{\"error\":\"Search value is required\"}"
  const SearchFailedBody := "{\"error\":\"An error occurred while searching users\"}"

  datatype QueryRequest = QueryRequest(
    tableName: string,
    indexName: string,
    keyConditionExpression: string,
    expressionAttributeValues: map<string, AttributeValue>,
    limit: nat,
    projectionExpression: string)

  /** The sort-key value: the decoded query, lower-cased, then trimmed. */
  function SortKeyValue(decoded: string): string {
    Trim(ToLowerAscii(decoded))
  }

  /** The partition key: `sortKey.slice(0, 3).trim()`. */
  function PartitionKeyPrefix(sortKey: string): string {
    Trim(sortKey[..if |sortKey| < 3 then |sortKey| else 3])
  }

  /** The partition key is at most three characters long and a prefix of the sort-key value,
      so every item the `begins_with` condition selects lies in the queried partition. */
  lemma PartitionKeyIsPrefix(decoded: string)
    ensures |PartitionKeyPrefix(SortKeyValue(decoded))| <= 3
    ensures PartitionKeyPrefix(SortKeyValue(decoded)) <= SortKeyValue(decoded)
  {
    var sortKey := SortKeyValue(decoded);
    assert sortKey == [] || !IsWhitespace(sortKey[0]);
    HeadPrefix(sortKey);
  }

  lemma HeadPrefix(sortKey: string)
    requires sortKey == [] || !IsWhitespace(sortKey[0])
    ensures |PartitionKeyPrefix(sortKey)| <= 3 && PartitionKeyPrefix(sortKey) <= sortKey
  {
    var head := sortKey[..if |sortKey| < 3 then |sortKey| else 3];
    assert head == [] || head[0] == sortKey[0];
    TrimIsPrefix(head);
    assert Trim(head) <= head && head <= sortKey;
  }

  /** A query of white space only passes the emptiness check but searches with empty keys. */
  lemma WhitespaceQueryGivesEmptyKeys(decoded: string)
    requires AllWhitespace(decoded)
    ensures SortKeyValue(decoded) == "" && PartitionKeyPrefix(SortKeyValue(decoded)) == ""
  {
    LowerKeepsWhitespace(decoded);
  }

  function QueryFor(decoded: string): QueryRequest {
    var sortKey := SortKeyValue(decoded);
    QueryRequest(SearchTable, SearchIndex, SearchKeyCondition,
                 map[":pk" := S(PartitionKeyPrefix(sortKey)), ":sk" := S(sortKey)],
                 SearchLimit, SearchProjection)
  }

  /** What the handler does once the query parameter is known: answer at once, throw, or query the store. */
  datatype SearchPlan = Respond(response: Response) | Raise(error: string) | Send(request: QueryRequest)

  function PlanSearch(query: Option<string>, decode: string -> Outcome<string>): (p: SearchPlan)
    ensures p.Respond? <==> !Truthy(query)
    ensures p.Respond? ==> p.response == JsonResponse(400, MissingQueryBody)
    ensures p.Raise? <==> Truthy(query) && decode(query.value).Threw?
    ensures p.Raise? ==> p.error == decode(query.value).error
    ensures p.Send? ==> p.request == QueryFor(decode(query.value).value)
  {
    if !Truthy(query) then Respond(JsonResponse(400, MissingQueryBody))
    else match decode(query.value)
      case Threw(e) => Raise(e)
      case Returned(decoded) => Send(QueryFor(decoded))
  }

  /** The store's answer becomes a 200 with the unmarshalled items, or a 500. */
  function AnswerQuery<Raw, Item>(answer: Outcome<seq<Raw>>, unmarshall: Raw -> Item,
                                  stringify: seq<Item> -> string): (r: Response)
    ensures r.status == 200 || r == JsonResponse(500, SearchFailedBody)
    ensures r.status == 200 <==> answer.Returned?
    ensures answer.Returned? ==>
              r == JsonResponse(200, stringify(seq(|answer.value|, i requires 0 <= i < |answer.value| => unmarshall(answer.value[i]))))
  {
    match answer
    case Returned(items) =>
      JsonResponse(200, stringify(seq(|items|, i requires 0 <= i < |items| => unmarshall(items[i]))))
    case Threw(_) => JsonResponse(500, SearchFailedBody)
  }

  /** handlerGET(req, context), for the request's `query` search parameter. */
  function HandleGet<Raw, Item>(query: Option<string>, decode: string -> Outcome<string>,
                                send: QueryRequest -> Outcome<seq<Raw>>, unmarshall: Raw -> Item,
                                stringify: seq<Item> -> string): (r: Outcome<Response>)
    ensures !Truthy(query) ==> r == Returned(JsonResponse(400, MissingQueryBody))
    ensures r.Threw? <==> Truthy(query) && decode(query.value).Threw?
    ensures r.Threw? ==> r.error == decode(query.value).error
    ensures r.Returned? ==> r.value.status in {200, 400, 500}
    ensures Truthy(query) && decode(query.value).Returned? ==>
              r == Returned(AnswerQuery(send(QueryFor(decode(query.value).value)), unmarshall, stringify))
  {
    match PlanSearch(query, decode)
    case Respond(response) => Returned(response)
    case Raise(e) => Threw(e)
    case Send(request) => Returned(AnswerQuery(send(request), unmarshall, stringify))
  }

  /** A missing or empty query is answered without decoding and without asking the store. */
  lemma MissingQueryMakesNoStoreCall<Raw, Item>(query: Option<string>,
                                                decode1: string -> Outcome<string>, decode2: string -> Outcome<string>,
                                                send1: QueryRequest -> Outcome<seq<Raw>>, send2: QueryRequest -> Outcome<seq<Raw>>,
                                                unmarshall: Raw -> Item, stringify: seq<Item> -> string)
    requires !Truthy(query)
    ensures HandleGet(query, decode1, send1, unmarshall, stringify) == HandleGet(query, decode2, send2, unmarshall, stringify)
  {
  }

  /** The request sent: fixed table, index, condition, limit of 10 and projection of the five user
      attributes, with `:pk` a prefix of at most three characters of `:sk`. */
  lemma QueryShape(decoded: string)
    ensures var q := QueryFor(decoded);
            && q.tableName == "sbm-user" && q.indexName == "GSISearchPK-GSISearchSK-index"
            && q.keyConditionExpression == "GSISearchPK = :pk AND begins_with(GSISearchSK, :sk)"
            && q.limit == 10
            && q.projectionExpression == "UID, UserFirstName, UserLastName, UserLocationCountry, UserAvatar"
            && q.expressionAttributeValues.Keys == {":pk", ":sk"}
            && q.expressionAttributeValues[":sk"] == S(SortKeyValue(decoded))
            && |q.expressionAttributeValues[":pk"].s| <= 3
            && q.expressionAttributeValues[":pk"].s <= q.expressionAttributeValues[":sk"].s
  {
    PartitionKeyIsPrefix(decoded);
    KeyValuesShape(PartitionKeyPrefix(SortKeyValue(decoded)), SortKeyValue(decoded));
  }

  lemma KeyValuesShape(pk: string, sk: string)
    ensures var values := map[":pk" := S(pk), ":sk" := S(sk)];
            values.Keys == {":pk", ":sk"} && values[":pk"] == S(pk) && values[":sk"] == S(sk)
  {
    assert ":pk"[1] != ":sk"[1];
  }

  // ---------------------------------------------------------------------------------------------
  // The exported GET = withMiddleware(handlerGET, authMiddleware)

  function Get<Raw, Item>(s: RequestState, testToken: Option<string>, verify: string -> Outcome<DecodedToken>,
                          decode: string -> Outcome<string>, send: QueryRequest -> Outcome<seq<Raw>>,
                          unmarshall: Raw -> Item, stringify: seq<Item> -> string): Run<RequestState, Response>
  {
    WithMiddleware((t: RequestState) => Run(HandleGet(t.query, decode, send, unmarshall, stringify), t),
                   (t: RequestState) => AuthStep(t, testToken, verify),
                   s)
  }

  /** The exported GET answers exactly as the bare handler does, whatever the authorization header. */
  lemma GetIgnoresAuthentication<Raw, Item>(s: RequestState, testToken: Option<string>,
                                            verify: string -> Outcome<DecodedToken>, decode: string -> Outcome<string>,
                                            send: QueryRequest -> Outcome<seq<Raw>>, unmarshall: Raw -> Item,
                                            stringify: seq<Item> -> string)
    ensures Get(s, testToken, verify, decode, send, unmarshall, stringify).outcome
         == HandleGet(s.query, decode, send, unmarshall, stringify)
  {
  }

  /** A request with no authorization header gets its 401 from the middleware, and yet the store
      is queried and its answer returned. */
  lemma UnauthenticatedSearchReachesStore<Raw, Item>(s: RequestState, testToken: Option<string>,
                                                     verify: string -> Outcome<DecodedToken>, decode: string -> Outcome<string>,
                                                     send: QueryRequest -> Outcome<seq<Raw>>, unmarshall: Raw -> Item,
                                                     stringify: seq<Item> -> string)
    requires s.authorization == None && Truthy(s.query) && decode(s.query.value).Returned?
    ensures AuthStep(s, testToken, verify).outcome == Returned(Some(NoTokenResponse))
    ensures Get(s, testToken, verify, decode, send, unmarshall, stringify).outcome
         == Returned(AnswerQuery(send(QueryFor(decode(s.query.value).value)), unmarshall, stringify))
  {
    GetIgnoresAuthentication(s, testToken, verify, decode, send, unmarshall, stringify);
  }

  /** GET under the intended wrapper, which returns the middleware's response when it gives one. */
  function GuardedGet<Raw, Item>(s: RequestState, testToken: Option<string>, verify: string -> Outcome<DecodedToken>,
                                 decode: string -> Outcome<string>, send: QueryRequest -> Outcome<seq<Raw>>,
                                 unmarshall: Raw -> Item, stringify: seq<Item> -> string): Run<RequestState, Response>
  {
    WithMiddlewareGuarded((t: RequestState) => Run(HandleGet(t.query, decode, send, unmarshall, stringify), t),
                          (t: RequestState) => AuthStep(t, testToken, verify),
                          s)
  }

  /** Under the intended wrapper an unauthenticated request gets its 401 and never reaches the store. */
  lemma GuardedGetRejectsUnauthenticated<Raw, Item>(s: RequestState, testToken: Option<string>,
                                                    verify: string -> Outcome<DecodedToken>, decode: string -> Outcome<string>,
                                                    send1: QueryRequest -> Outcome<seq<Raw>>, send2: QueryRequest -> Outcome<seq<Raw>>,
                                                    unmarshall: Raw -> Item, stringify: seq<Item> -> string)
    requires Authenticate(s.authorization, testToken, verify).Unauthorized?
    ensures GuardedGet(s, testToken, verify, decode, send1, unmarshall, stringify).outcome
         == Returned(Authenticate(s.authorization, testToken, verify).response)
    ensures GuardedGet(s, testToken, verify, decode, send1, unmarshall, stringify)
         == GuardedGet(s, testToken, verify, decode, send2, unmarshall, stringify)
  {
  }

  /** Under the intended wrapper an authenticated request is served by the handler, with `user` set. */
  lemma GuardedGetServesAuthenticated<Raw, Item>(s: RequestState, testToken: Option<string>,
                                                 verify: string -> Outcome<DecodedToken>, decode: string -> Outcome<string>,
                                                 send: QueryRequest -> Outcome<seq<Raw>>, unmarshall: Raw -> Item,
                                                 stringify: seq<Item> -> string)
    requires Authenticate(s.authorization, testToken, verify).Authenticated?
    ensures GuardedGet(s, testToken, verify, decode, send, unmarshall, stringify)
         == Run(HandleGet(s.query, decode, send, unmarshall, stringify),
                s.(user := Some(Authenticate(s.authorization, testToken, verify).user)))
  {
  }
}
