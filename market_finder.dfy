/**
 * The decision logic of marketfinder.py with the network, the MCP server
 * and the global coordinates taken out: choosing the cheapest depot of the
 * first search result, mapping the outcomes of geocoding and searching to
 * the tool's answer, and the module's own copy of `parse_prompt`.
 */
module MarketFinder {
  import opened Wrappers
  import opened PromptPatterns
  import ParserUtils

  // ---------------------------------------------------------------------------
  // Search results and the cheapest depot
  // ---------------------------------------------------------------------------

  /** An entry of `productDepotInfoList`; `None` stands for a key the entry lacks. */
  datatype Depot = Depot(price: Option<int>, market: Option<string>)

  /**
   * A record of `content`: its `title` and its `productDepotInfoList`,
   * `None` when the key is absent or null.
   */
  datatype ProductRecord = ProductRecord(title: Option<string>, depots: Option<seq<Depot>>)

  /** The decoded search response; `content` is `None` when absent or null. */
  datatype SearchResponse = SearchResponse(content: Option<seq<ProductRecord>>)

  /** The dictionary `search_market_product` returns: `title`, `price` and `market`. */
  datatype Offer = Offer(title: Option<string>, price: Option<int>, market: Option<string>)

  /** The key `min` sorts depots by: the price, or `float("inf")` when there is none. */
  datatype PriceKey = Finite(amount: int) | Infinity

  function Key(d: Depot): PriceKey {
    if d.price.Some? then Finite(d.price.value) else Infinity
  }

  /** `<` on keys: every price is below infinity, and infinity is below nothing. */
  predicate KeyLess(a: PriceKey, b: PriceKey) {
    a.Finite? && (b.Infinity? || a.amount < b.amount)
  }

  /** `KeyLess` is a strict total order, as `<` is on numbers extended by infinity. */
  lemma KeyLessOrder(a: PriceKey, b: PriceKey, c: PriceKey)
    ensures !KeyLess(a, a)
    ensures KeyLess(a, b) && KeyLess(b, c) ==> KeyLess(a, c)
    ensures KeyLess(a, b) || a == b || KeyLess(b, a)
    ensures KeyLess(a, Infinity) <==> a.Finite?
  { }

  /** `<=` on keys. */
  predicate KeyAtMost(a: PriceKey, b: PriceKey) {
    !KeyLess(b, a)
  }

  /**
   * Depot `k` is what `min` picks: its key is at most every key, and strictly
   * below the key of every depot before it.
   */
  predicate IsCheapestDepot(depots: seq<Depot>, k: nat) {
    && k < |depots|
    && (forall j | 0 <= j < |depots| :: KeyAtMost(Key(depots[k]), Key(depots[j])))
    && (forall j | 0 <= j < k :: KeyLess(Key(depots[k]), Key(depots[j])))
  }

  /**
   * `min(depots, key=...)`: the running best is replaced only by a depot whose
   * key is strictly smaller, so the first of several equal keys is kept.
   */
  function CheapestIndex(depots: seq<Depot>): (k: nat)
    requires depots != []
    ensures IsCheapestDepot(depots, k)
  {
    if |depots| == 1 then 0
    else
      var front := depots[..|depots| - 1];
      var k := CheapestIndex(front);
      assert forall j | 0 <= j < |front| :: front[j] == depots[j];
      if KeyLess(Key(depots[|depots| - 1]), Key(depots[k])) then |depots| - 1 else k
  }

  /** Only one depot fits `IsCheapestDepot`, so it pins down what `min` returns. */
  lemma CheapestDepotUnique(depots: seq<Depot>, k: nat)
    requires IsCheapestDepot(depots, k)
    ensures k == CheapestIndex(depots)
  {
    var m := CheapestIndex(depots);
    assert !KeyLess(Key(depots[m]), Key(depots[k]));
    assert !(k < m);
    assert !KeyLess(Key(depots[k]), Key(depots[m]));
    assert !(m < k);
  }

  /** A depot list without any price: every key is infinity and `min` keeps the first depot. */
  lemma AllPricesMissing(depots: seq<Depot>)
    requires depots != []
    requires forall j | 0 <= j < |depots| :: depots[j].price.None?
    ensures CheapestIndex(depots) == 0
  {
    var k := CheapestIndex(depots);
    assert !KeyLess(Key(depots[k]), Key(depots[0]));
  }

  /** `product.get("productDepotInfoList", [])`, with null read as empty as `not depots` does. */
  function DepotsOf(record: ProductRecord): seq<Depot> {
    if record.depots.Some? then record.depots.value else []
  }

  /** `content` is present and holds at least one record. */
  predicate HasContent(response: SearchResponse) {
    response.content.Some? && response.content.value != []
  }

  /**
   * The selection in `search_market_product`: nothing without content;
   * otherwise the first record's title with the price and market of its
   * cheapest depot, or with neither when it has no depots.
   */
  function SelectCheapest(response: SearchResponse): (r: Option<Offer>)
    ensures r.Some? <==> HasContent(response)
    ensures r.Some? ==> r.value.title == response.content.value[0].title
    ensures r.Some? && DepotsOf(response.content.value[0]) == [] ==>
      r.value.price.None? && r.value.market.None?
    ensures r.Some? && DepotsOf(response.content.value[0]) != [] ==>
      var depots := DepotsOf(response.content.value[0]);
      exists k: nat | IsCheapestDepot(depots, k) ::
        r.value.price == depots[k].price && r.value.market == depots[k].market
  {
    if !HasContent(response) then None
    else
      var record := response.content.value[0];
      var depots := DepotsOf(record);
      if depots == [] then Some(Offer(record.title, None, None))
      else
        var best := depots[CheapestIndex(depots)];
        Some(Offer(record.title, best.price, best.market))
  }

  /** The price offered is at most the price of every depot that has one. */
  lemma OfferedPriceIsLowest(response: SearchResponse, j: nat)
    requires HasContent(response)
    requires j < |DepotsOf(response.content.value[0])|
    requires DepotsOf(response.content.value[0])[j].price.Some?
    ensures SelectCheapest(response).value.price.Some?
    ensures SelectCheapest(response).value.price.value <= DepotsOf(response.content.value[0])[j].price.value
  {
    var depots := DepotsOf(response.content.value[0]);
    var k := CheapestIndex(depots);
    assert KeyAtMost(Key(depots[k]), Key(depots[j]));
  }

  /**
   * The offer has no price only when no depot has one, and then its market
   * is the first depot's.
   */
  lemma MissingPriceMeansFirstDepot(response: SearchResponse)
    requires HasContent(response)
    requires DepotsOf(response.content.value[0]) != []
    requires SelectCheapest(response).value.price.None?
    ensures forall j | 0 <= j < |DepotsOf(response.content.value[0])| ::
      DepotsOf(response.content.value[0])[j].price.None?
    ensures SelectCheapest(response).value.market == DepotsOf(response.content.value[0])[0].market
  {
    var depots := DepotsOf(response.content.value[0]);
    var k := CheapestIndex(depots);
    assert Key(depots[k]) == Infinity;
    forall j | 0 <= j < |depots|
      ensures depots[j].price.None?
    {
      assert KeyAtMost(Key(depots[k]), Key(depots[j]));
    }
    AllPricesMissing(depots);
  }

  /** Records after the first never change the selection. */
  lemma FirstRecordOnly(record: ProductRecord, rest: seq<ProductRecord>, other: seq<ProductRecord>)
    ensures SelectCheapest(SearchResponse(Some([record] + rest)))
         == SelectCheapest(SearchResponse(Some([record] + other)))
  {
    assert ([record] + rest)[0] == record;
    assert ([record] + other)[0] == record;
  }

  /**
   * A concrete list: the depot without a price is passed over and the earlier
   * of two depots with the lowest price wins.
   */
  lemma ExampleSelection(response: SearchResponse)
    requires response == SearchResponse(Some([ProductRecord(Some("ekmek"), Some([
      Depot(Some(30), Some("a101")), Depot(None, Some("bim")),
      Depot(Some(25), Some("migros")), Depot(Some(25), Some("şok"))]))]))
    ensures SelectCheapest(response) == Some(Offer(Some("ekmek"), Some(25), Some("migros")))
  {
    var depots := DepotsOf(response.content.value[0]);
    assert IsCheapestDepot(depots, 2);
    CheapestDepotUnique(depots, 2);
  }

  // ---------------------------------------------------------------------------
  // Geocoding
  // ---------------------------------------------------------------------------

  /** A place in the geocoder's answer: its `lat` and `lon`, already read as numbers. */
  datatype Place = Place(latitude: real, longitude: real)

  datatype Coordinates = Coordinates(latitude: real, longitude: real)

  /** What `get_coordinates_from_address` returns: the coordinates, or a message. */
  datatype Located = Located(coordinates: Coordinates) | LocationFailure(message: string)

  /** The message for a geocoding request that failed. */
  const GeocodeErrorMessage: string := "Error occurred while retrieving coordinates."
  /** The message for a geocoding answer without any place. */
  const LocationNotFoundMessage: string := "Location not found."

  /**
   * `get_coordinates_from_address` after the request: `None` is a request
   * that raised, an empty list a location the geocoder does not know, and
   * otherwise the first place gives the coordinates.
   */
  function GetCoordinates(places: Option<seq<Place>>): (r: Located)
    ensures r.LocationFailure? <==> places.None? || places.value == []
    ensures r.LocationFailure? ==>
      r.message == (if places.None? then GeocodeErrorMessage else LocationNotFoundMessage)
    ensures r.Located? ==>
      r.coordinates == Coordinates(places.value[0].latitude, places.value[0].longitude)
  {
    if places.None? then LocationFailure(GeocodeErrorMessage)
    else if places.value == [] then LocationFailure(LocationNotFoundMessage)
    else Located(Coordinates(places.value[0].latitude, places.value[0].longitude))
  }

  /** Places after the first never change the coordinates. */
  lemma FirstPlaceOnly(place: Place, rest: seq<Place>, other: seq<Place>)
    ensures GetCoordinates(Some([place] + rest)) == GetCoordinates(Some([place] + other))
  {
    assert ([place] + rest)[0] == place;
    assert ([place] + other)[0] == place;
  }

  // ---------------------------------------------------------------------------
  // Searching at the coordinates
  // ---------------------------------------------------------------------------

  /** The JSON payload of the search request. */
  datatype SearchRequest = SearchRequest(
    keywords: string, latitude: real, longitude: real, distance: int, pages: int, size: int)

  /** The payload `search_market_product` sends with its default `distance`, `page` and `size`. */
  function SearchRequestFor(keywords: string, at: Coordinates): SearchRequest {
    SearchRequest(keywords, at.latitude, at.longitude, 4, 0, 24)
  }

  /**
   * `search_market_product`, given the search service as a function from the
   * payload to the decoded response, `None` when the request raised.
   */
  function SearchMarketProduct(
    search: SearchRequest -> Option<SearchResponse>, keywords: string, at: Coordinates): (r: Option<Offer>)
    ensures r.Some? <==> search(SearchRequestFor(keywords, at)).Some? && HasContent(search(SearchRequestFor(keywords, at)).value)
    ensures search(SearchRequestFor(keywords, at)).Some? ==>
      r == SelectCheapest(search(SearchRequestFor(keywords, at)).value)
  {
    match search(SearchRequestFor(keywords, at))
    case None => None
    case Some(response) => SelectCheapest(response)
  }

  /** What the tools return: a dictionary or a message. */
  datatype MarketAnswer = Offered(offer: Offer) | Notice(text: string)

  /** The message `get_market_product` gives when the search yields nothing. */
  const ProductNotFoundMessage: string := "Product not found."

  /**
   * `get_market_product` with the coordinates passed in: an offer is returned
   * as it is, and no offer becomes the fixed message.
   */
  function GetMarketProduct(
    search: SearchRequest -> Option<SearchResponse>, keywords: string, at: Coordinates): (r: MarketAnswer)
    ensures r.Notice? <==> SearchMarketProduct(search, keywords, at).None?
    ensures r.Notice? ==> r.text == ProductNotFoundMessage
    ensures r.Offered? ==> Some(r.offer) == SearchMarketProduct(search, keywords, at)
  {
    match SearchMarketProduct(search, keywords, at)
    case None => Notice(ProductNotFoundMessage)
    case Some(offer) => Offered(offer)
  }

  /** A search answered without content comes back as "Product not found.". */
  lemma NoContentNotFound(
    search: SearchRequest -> Option<SearchResponse>, keywords: string, at: Coordinates)
    requires search(SearchRequestFor(keywords, at)).Some? ==> !HasContent(search(SearchRequestFor(keywords, at)).value)
    ensures GetMarketProduct(search, keywords, at) == Notice(ProductNotFoundMessage)
  {
  }

  // ---------------------------------------------------------------------------
  // The copy of parse_prompt and the orchestration
  // ---------------------------------------------------------------------------

  /** The phrasings of the `parse_prompt` defined in marketfinder.py, written out again. */
  const CopiedPatterns: seq<Pattern> := [
    Pattern(SpacesLitSpaces("konumu için"), SpacesAnything),
    Pattern(LitSpaces("'da"), SpacesLit("ne kadar")),
    Pattern(LitSpaces("'de"), SpacesLit("ne kadar")),
    Pattern(LitSpaces(" civarında"), LitOptional(" fiyat", "ıi"))
  ]

  /** The `parse_prompt` that `find_cheapest_product_by_location` calls. */
  function ParsePrompt(prompt: string): ParserUtils.ParseResult {
    ParserUtils.ParseWith(CopiedPatterns, prompt)
  }

  /** The copy agrees with the parser of parser_utils.py on every prompt. */
  lemma ParsePromptAgrees(prompt: string)
    ensures ParsePrompt(prompt) == ParserUtils.ParsePrompt(prompt)
  {
    assert CopiedPatterns == ParserUtils.Patterns;
  }

  /** The text of a geocoding failure as the orchestrator reports it. */
  function LocationErrorText(message: string): (t: string)
    ensures |t| == 16 + |message|
    ensures t[..16] == "Location error: " && t[16..] == message
  {
    "Location error: " + message
  }

  /**
   * `find_cheapest_product_by_location`, with the geocoder and the search
   * service as functions and the coordinates passed on instead of stored in
   * globals.
   */
  function FindCheapestProductByLocation(
    prompt: string,
    geocode: string -> Option<seq<Place>>,
    search: SearchRequest -> Option<SearchResponse>): (r: MarketAnswer)
    ensures r.Notice? ==>
      || r.text == ParserUtils.FailureMessage
      || r.text == LocationErrorText(GeocodeErrorMessage)
      || r.text == LocationErrorText(LocationNotFoundMessage)
      || r.text == ProductNotFoundMessage
  {
    match ParsePrompt(prompt)
    case Failure(message) => Notice(message)
    case Intent(location, product) =>
      match GetCoordinates(geocode(location))
      case LocationFailure(message) => Notice(LocationErrorText(message))
      case Located(at) => GetMarketProduct(search, product, at)
  }

  /** A prompt that does not parse is answered with the parser's message, and nothing is looked up. */
  lemma ParseFailureReturned(
    prompt: string,
    geocode: string -> Option<seq<Place>>,
    search: SearchRequest -> Option<SearchResponse>)
    requires ParserUtils.ParsePrompt(prompt).Failure?
    ensures FindCheapestProductByLocation(prompt, geocode, search) == Notice(ParserUtils.FailureMessage)
  {
    ParsePromptAgrees(prompt);
    ParserUtils.ParsePromptSpec(prompt);
  }

  /** A location the geocoder cannot resolve is reported with the `Location error: ` prefix. */
  lemma LocationErrorReported(
    prompt: string,
    geocode: string -> Option<seq<Place>>,
    search: SearchRequest -> Option<SearchResponse>)
    requires ParserUtils.ParsePrompt(prompt).Intent?
    requires GetCoordinates(geocode(ParserUtils.ParsePrompt(prompt).location)).LocationFailure?
    ensures FindCheapestProductByLocation(prompt, geocode, search)
         == Notice(LocationErrorText(GetCoordinates(geocode(ParserUtils.ParsePrompt(prompt).location)).message))
  {
    ParsePromptAgrees(prompt);
  }

  /**
   * With a location resolved, the answer is what searching for the parsed
   * product at the first place's coordinates gives.
   */
  lemma ProductSearchedAtLocation(
    prompt: string,
    geocode: string -> Option<seq<Place>>,
    search: SearchRequest -> Option<SearchResponse>)
    requires ParserUtils.ParsePrompt(prompt).Intent?
    requires GetCoordinates(geocode(ParserUtils.ParsePrompt(prompt).location)).Located?
    ensures FindCheapestProductByLocation(prompt, geocode, search)
         == GetMarketProduct(search, ParserUtils.ParsePrompt(prompt).product,
                             GetCoordinates(geocode(ParserUtils.ParsePrompt(prompt).location)).coordinates)
  {
    ParsePromptAgrees(prompt);
  }
}
