# market-price-finder: prompt parser and cheapest-depot selection in Dafny

The market finder is an MCP tool. It takes a Turkish sentence such as
"kadıköy'de ekmek ne kadar" and finds the location and the product in it.
It then geocodes the location, searches the Market Fiyatı API near those
coordinates for the product, and answers with the first product found, the
lowest price among its depots and the market of that depot.

This project models the logic of the tool, with the network taken out:

- **`Text`** (`text.dfy`) covers Python's `str.lower()` and `str.strip()`,
  and the normalisation `prompt.lower().strip()` built from them.
- **`PromptPatterns`** (`prompt_patterns.dfy`) models the regular-expression
  shape the four phrasings share: `(?P<location>.+?) LEAD (?P<product>.+?) TAIL`.
  `Match` is a search written to follow `re.match`'s backtracking order:
  - the match is anchored at index 0;
  - the lazy groups are tried shortest first;
  - each greedy `\s+` is tried longest first.

  `IsFirstMatch` then states which match is reported: the shortest location
  group that lets the rest match, then the first product start from which a
  product group can follow, then the shortest product group. It takes the
  order of the product starts from `ProductStarts`, the same sequence that
  `MatchFrom` tries. `ProductStartsShape` and `GreedyProductStart` describe
  that sequence apart from the search: every end of the whitespace run
  after the lead's literal, longest first.
  The module also proves template lemmas that compute the match of a
  concrete sentence shape.
- **`ParserUtils`** (`parser_utils.dfy`) models `parse_prompt`, covering:
  - the four phrasings, in order;
  - the first-match-wins search over them;
  - the two stripped groups, or the fixed failure message.

  It proves the function's general contract and its behaviour on each
  phrasing, including the priority between phrasings and the gap in the
  first phrasing (nothing after the product). It also proves worked
  examples.
- **`MarketFinder`** (`market_finder.dfy`) models:
  - the cheapest-depot selection of `search_market_product`, as Python's
    `min` with a key computes it;
  - the result mapping of `get_coordinates_from_address`, `get_market_product`
    and `find_cheapest_product_by_location`, with the geocoder and the search
    service passed in as functions;
  - marketfinder.py's own copy of `parse_prompt`, spelt out again and proved
    equal to the one in parser_utils.py.

Behaviour of the code that the model makes explicit:

- **The first phrasing's product ends at the first whitespace.** On
  "istanbul konumu için süt fiyatı nedir" the lazy product group stops at
  the first whitespace, so the product is "süt" (`ParserUtils.ExampleKonumu`).
- **Only the first record of `content` is used.** There is no mode that
  selects one offer per record (`MarketFinder.FirstRecordOnly`).
- **Every price missing.** When every depot lacks a price, `min` keeps the
  first depot. The offer then has no price but carries that depot's
  `marketAdi` (`MarketFinder.MissingPriceMeansFirstDepot`).
- **Trailing text can change the split.** The backtracking search tries
  longer runs of whitespace after the lead, and shorter location groups,
  before the one that finally matches. Text appended after a complete match
  can make one of those earlier tries succeed. For the `'da` phrasing,
  "x'da   ne kadar" (three spaces) matches with the product group " ",
  which strips to "". "x'da   ne kadar ne kadar" gives the product
  "ne kadar" instead. Trailing text is ignored only in the shapes the
  template lemmas state: a single-word location and product, with one
  space on each side of the product. `ParserUtils.ParseKonumu` then holds
  for an arbitrary `rest`. The `rest` of the other template lemmas may not
  hold characters that would let an earlier phrasing apply: 'ç' for
  `ParseDa`, and 'ç' or an apostrophe for `ParseDe` and `ParseCivarinda`.

## Model

| member | source | states |
|---|---|---|
| Text.IsSpace | parser_utils.py:15 | the whitespace set that `\s` and `str.strip()` share: the ASCII controls 9-13 and 28-32, U+0085, U+00A0, U+1680, U+2000-U+200A, U+2028, U+2029, U+202F, U+205F and U+3000 |
| Text.LowerChar | parser_utils.py:15 | `str.lower()` on one character: ASCII and Latin-1 capitals, Ğ and Ş map to their small letters, İ to "i̇", and every other character to itself |
| Text.Lower | parser_utils.py:15 | `str.lower()`: each character replaced by its lower-case mapping, in order; `LowerSpec` states its contract |
| Text.LowerSpec | parser_utils.py:15 | every character of `lower()`'s result is lower case, and any whitespace in it comes from the input |
| Text.LowerOfLowered | parser_utils.py:15 | lower-casing a lower-case string changes nothing |
| Text.Strip | parser_utils.py:28-29 | `strip()` returns the slice after the leading whitespace; everything after that slice is whitespace; the result neither starts nor ends with whitespace |
| Text.StripOfStripped | parser_utils.py:28-29 | stripping a string without surrounding whitespace changes nothing |
| Text.StripKeepsStart | parser_utils.py:28 | stripping a string that starts with a non-space keeps a non-empty prefix |
| Text.Normalize | parser_utils.py:15 | `prompt.lower().strip()`; `NormalizeSpec` and `NormalizeIdempotent` state its contract |
| Text.NormalizeSpec | parser_utils.py:15 | the normalised prompt is lower case and has no surrounding whitespace |
| Text.NormalizeIdempotent | parser_utils.py:15 | normalising twice is normalising once |
| Text.NormalizeOfNormal | parser_utils.py:15 | a lower-case string without surrounding whitespace is its own normalisation |
| PromptPatterns.ProductStarts | parser_utils.py:18-21 | where the product group may start once the location group ends, in the order the backtracking tries the leads `\s+konumu için\s+`, `'da\s+`, `'de\s+` and ` civarında\s+` with their greedy `\s+` longest first; `ProductStartsShape` and `GreedyProductStart` state its contract |
| PromptPatterns.ProductStartsShape | parser_utils.py:18-21 | the product starts are every end of the whitespace run after the lead's literal, longest first, and there are none when the literal is not where the lead needs it |
| PromptPatterns.TailMatches | parser_utils.py:18-21 | the tails `\s+.*`, `\s+ne kadar` and ` fiyat[ıi]?` matching right after the product group; `TailMatchesSpec`, `TailNeedsSpace` and `TailTextMatches` state its contract |
| PromptPatterns.TailMatchesSpec | parser_utils.py:18-20 | `\s+<lit>` matches exactly when a non-empty stretch of whitespace is followed by the literal, and `\s+.*` exactly when a non-empty stretch of whitespace comes first |
| PromptPatterns.TailTextMatches | parser_utils.py:18-21 | each tail matches where its plainest text occurs: a space before `ne kadar`, a space for `\s+.*`, or ` fiyat` |
| PromptPatterns.IsFirstMatch | parser_utils.py:25 | the match `re.match` reports: the shortest location group that lets the rest match, the first product start in `ProductStarts` order that has a product group, and the shortest such group; `MatchIsFirstMatch` ties it to `Match` and `FirstMatchUnique` shows there is only one |
| PromptPatterns.ProductEnd | parser_utils.py:18-21 | the lazy product group from a given start ends at the least end after which the tail matches, or there is none |
| PromptPatterns.FirstProductFrom | parser_utils.py:18-21 | the product starts are tried in order, and the first one with a product group is chosen |
| PromptPatterns.MatchFrom | parser_utils.py:25 | the lazy location group of `re.match`, tried with ends 1, 2, … up to the first line feed, with each end's product starts tried in turn; `MatchFromSpec` states its contract |
| PromptPatterns.MatchFromSpec | parser_utils.py:25 | when no shorter location group works, the search from a location end finds the first match, or none when nothing matches |
| PromptPatterns.Match | parser_utils.py:25 | `re.match(pattern, prompt)` reduced to the two groups' positions; a match has both groups non-empty and in order within the prompt, and `MatchSpec` states the rest |
| PromptPatterns.MatchSpec | parser_utils.py:25 | `Match` reports the first match, and reports none exactly when no location group lets the pattern match |
| PromptPatterns.MatchIsFirstMatch | parser_utils.py:25 | `Match` returns a split if and only if that split is the first match |
| PromptPatterns.FirstMatchUnique | parser_utils.py:25 | there is at most one first match |
| PromptPatterns.FirstMatchBounds | parser_utils.py:18-21 | in a first match both groups are non-empty and in order, and the tail matches after the product |
| PromptPatterns.GreedyProductStart | parser_utils.py:18-20 | the product starts inside the whitespace run after the lead's literal, and no later position in the run could start a product |
| PromptPatterns.TailNeedsSpace | parser_utils.py:18-21 | every tail of the four phrasings matches only where whitespace follows the product |
| PromptPatterns.ShortestProduct | parser_utils.py:18-21 | a run of non-space characters followed by a matching tail is the shortest product group |
| PromptPatterns.NoLeadNoMatch | parser_utils.py:25 | a pattern whose lead is found nowhere does not match |
| PromptPatterns.AbsentCharNoLead | parser_utils.py:18-21 | a lead containing a character absent from the prompt is found nowhere |
| PromptPatterns.NoSpaceAfterLeadNoMatch | parser_utils.py:18 | `\s+<lit>\s+(.+?)\s+.*` does not match when the only whitespace is around the literal |
| PromptPatterns.FirstMatchOfShape | parser_utils.py:18-21 | a location and product of the stated shape form the first match |
| PromptPatterns.LitLeadMatch | parser_utils.py:19-21 | for `<loc><lit> <prod><tail><rest>` with single-word groups and the literal's first character not in `loc`, the match is exactly those groups |
| PromptPatterns.SpacedLeadMatch | parser_utils.py:18 | for `<loc> <lit> <prod><tail><rest>` with single-word groups, the match is exactly those groups |
| ParserUtils.FirstMatch | parser_utils.py:24-30 | the loop over the phrasings with its early return: the index of the phrasing that matched and its match, with the index below the number of phrasings; `FirstMatchSpec` states which phrasing it is |
| ParserUtils.Groups | parser_utils.py:27-30 | the result built from a match: `location` and `product` as the two groups, each stripped |
| ParserUtils.ParseNormalized | parser_utils.py:24-32 | the phrasing search on an already normalised prompt: the first match's stripped groups, or `FailureMessage`, the text of line 32 |
| ParserUtils.FirstMatchSpec | parser_utils.py:24-30 | the phrasing search finds nothing exactly when no phrasing matches; otherwise it finds a matching phrasing, and no earlier phrasing matches |
| ParserUtils.FirstMatchIs | parser_utils.py:24-26 | the search reports phrasing `k` and its match when phrasing `k` matches and no earlier one does |
| ParserUtils.FirstMatchingPhrasingWins | parser_utils.py:24-30 | the first matching phrasing decides the result: its two groups, stripped |
| ParserUtils.ParseWith | parser_utils.py:15-32 | `parse_prompt` over a given list of phrasings: normalise, then `ParseNormalized`; `ParseWithSpec` states its contract |
| ParserUtils.ParseWithSpec | parser_utils.py:15-32 | failure happens exactly when no phrasing matches, and carries the fixed message; on success the location is a non-empty prefix of the normalised prompt, and both groups are trimmed |
| ParserUtils.ParsePrompt | parser_utils.py:5-32 | `parse_prompt` over `Patterns`, the four regular expressions of lines 17-22 in their order; `ParsePromptSpec` states its contract |
| ParserUtils.ParsePromptSpec | parser_utils.py:5-32 | the contract of `ParseWithSpec` for the four phrasings of `parse_prompt` |
| ParserUtils.ParseOfNormalized | parser_utils.py:15 | parsing the normalised prompt gives the same result as parsing the prompt |
| ParserUtils.KonumuNeedsCedilla | parser_utils.py:18 | the first phrasing does not match a prompt without 'ç' |
| ParserUtils.QuotedNeedQuote | parser_utils.py:19-20 | the second and third phrasings do not match a prompt without an apostrophe |
| ParserUtils.DaNeedsDa | parser_utils.py:19 | the `'da` phrasing does not match when the only apostrophe starts `'de` |
| ParserUtils.CivarindaNeedsV | parser_utils.py:21 | the fourth phrasing does not match a prompt without 'v' |
| ParserUtils.ParseByKonumu | parser_utils.py:24-30 | a match of the first phrasing decides the result whatever the later phrasings do |
| ParserUtils.ParseByDa | parser_utils.py:24-30 | when the first phrasing fails and the `'da` phrasing matches, its groups are the result |
| ParserUtils.ParseByDe | parser_utils.py:24-30 | when the first two phrasings fail and the `'de` phrasing matches, its groups are the result |
| ParserUtils.ParseByCivarinda | parser_utils.py:24-30 | when the first three phrasings fail and the fourth matches, its groups are the result |
| ParserUtils.ParseByNone | parser_utils.py:24-32 | when no phrasing matches, the result is the fixed failure message |
| ParserUtils.ParseKonumu | parser_utils.py:18 | a prompt normalising to `<loc> konumu için <prod> <rest>` gives `loc` and `prod` when both are single words, whatever `rest` is |
| ParserUtils.ParseDa | parser_utils.py:19 | a prompt normalising to `<loc>'da <prod> ne kadar<rest>` gives `loc` and `prod` when both are single words, `loc` has no apostrophe, and no 'ç' anywhere makes the first phrasing apply |
| ParserUtils.ParseDe | parser_utils.py:20 | a prompt normalising to `<loc>'de <prod> ne kadar<rest>` gives `loc` and `prod` when both are single words and no other apostrophe and no 'ç' make an earlier phrasing apply |
| ParserUtils.ParseCivarinda | parser_utils.py:21 | a prompt normalising to `<loc> civarında <prod> fiyat<rest>` gives `loc` and `prod` when both are single words and no apostrophe or 'ç' makes an earlier phrasing apply |
| ParserUtils.ParseBareKonumu | parser_utils.py:18 | a prompt normalising to `<loc> konumu için <prod>`, with nothing after the product, fails with the fixed message when `loc` and `prod` are single words without an apostrophe or a 'v' |
| ParserUtils.ExampleDe | parser_utils.py:20 | "kadıköy'de ekmek ne kadar" gives location "kadıköy" and product "ekmek" |
| ParserUtils.ExampleDa | parser_utils.py:19 | "ankara'da su ne kadar?" gives location "ankara" and product "su" |
| ParserUtils.ExampleKonumu | parser_utils.py:18 | "istanbul konumu için süt fiyatı nedir" gives location "istanbul" and product "süt" |
| ParserUtils.ExampleKonumuBeforeDe | parser_utils.py:24-26 | "kadıköy'de konumu için ekmek ne kadar" is read by the first phrasing, so the location is "kadıköy'de" |
| ParserUtils.ExampleCivarinda | parser_utils.py:21 | "beşiktaş civarında peynir fiyatı" gives location "beşiktaş" and product "peynir" |
| ParserUtils.ExampleBareKonumu | parser_utils.py:32 | "izmir konumu için çay" fails with the fixed message |
| MarketFinder.Key | marketfinder.py:62 | the key `lambda d: d.get("price", float("inf"))`: the price, or infinity when it is missing |
| MarketFinder.KeyLess | marketfinder.py:62 | the `<` that `min` applies to the keys: a price is below infinity, prices compare as numbers, and infinity is below nothing; `KeyLessOrder` states its contract |
| MarketFinder.KeyLessOrder | marketfinder.py:62 | that comparison is a strict total order, and infinity is above exactly the prices |
| MarketFinder.IsCheapestDepot | marketfinder.py:62 | depot `k` is `min`'s choice: its key is at most every key and strictly below the key of every earlier depot; `CheapestIndex` computes it and `CheapestDepotUnique` shows only one depot has it |
| MarketFinder.CheapestIndex | marketfinder.py:62 | `min` picks a depot whose key is at most every key and strictly below every earlier depot's key; a missing price counts as infinity |
| MarketFinder.CheapestDepotUnique | marketfinder.py:62 | only one depot has that property, so the choice is determined |
| MarketFinder.AllPricesMissing | marketfinder.py:62 | when no depot has a price, the first depot is chosen |
| MarketFinder.HasContent | marketfinder.py:52 | the negation of `not data.get("content")`: `content` is present and not empty |
| MarketFinder.DepotsOf | marketfinder.py:58-59 | `product.get("productDepotInfoList", [])`, where a null list counts as empty, as `not depots` does |
| MarketFinder.SelectCheapest | marketfinder.py:52-67 | no offer exactly when `content` is absent or empty; otherwise the first record's title; no price and no market without depots; otherwise the price and market of one cheapest depot |
| MarketFinder.OfferedPriceIsLowest | marketfinder.py:62-65 | the offered price is at most every price in the first record's depot list |
| MarketFinder.MissingPriceMeansFirstDepot | marketfinder.py:62-66 | the offer lacks a price only when every depot does, and its market is then the first depot's |
| MarketFinder.FirstRecordOnly | marketfinder.py:55 | records after the first never change the selection |
| MarketFinder.ExampleSelection | marketfinder.py:58-67 | from prices 30, none, 25, 25, the first depot priced 25 is chosen |
| MarketFinder.GetCoordinates | marketfinder.py:105-113 | failure exactly when the request raised or found no place, with the matching message; otherwise the first place's latitude and longitude |
| MarketFinder.FirstPlaceOnly | marketfinder.py:108-111 | places after the first never change the coordinates |
| MarketFinder.SearchRequestFor | marketfinder.py:32-39 | the payload sent: the keywords, the coordinates, `distance` 4, `pages` 0 and `size` 24 |
| MarketFinder.SearchMarketProduct | marketfinder.py:46-70 | no offer when the request raised; otherwise exactly the selection `SelectCheapest` makes from the response, so an offer exactly when the response has content |
| MarketFinder.GetMarketProduct | marketfinder.py:79-82 | "Product not found." exactly when the search yields nothing; otherwise the offer unchanged |
| MarketFinder.NoContentNotFound | marketfinder.py:52-53 | a failed search, or one without content, answers "Product not found." |
| MarketFinder.ParsePrompt | marketfinder.py:143-170 | the copy of `parse_prompt` that `find_cheapest_product_by_location` calls, over `CopiedPatterns`, the regular expressions of lines 155-160 written out again |
| MarketFinder.ParsePromptAgrees | marketfinder.py:143-170 | the copy of `parse_prompt` in marketfinder.py gives the same result as the one in parser_utils.py on every prompt |
| MarketFinder.LocationErrorText | marketfinder.py:133 | the reported text is "Location error: " followed by the geocoder's message |
| MarketFinder.FindCheapestProductByLocation | marketfinder.py:124-139 | every message the tool can answer with is the parser's failure message, one of the two geocoding errors after the prefix, or "Product not found." |
| MarketFinder.ParseFailureReturned | marketfinder.py:124-126 | a prompt that does not parse is answered with the parser's message unchanged |
| MarketFinder.LocationErrorReported | marketfinder.py:131-133 | an unresolved location is answered with "Location error: " followed by the geocoder's message |
| MarketFinder.ProductSearchedAtLocation | marketfinder.py:128-138 | with a resolved location, the answer is the search for the parsed product at the first place's coordinates |

## Left out

- HTTP requests to the search API and to the geocoder (marketfinder.py:46-50, 99-103). This is network I/O. The two services are parameters of the orchestration, as functions from the request to the decoded response, with `None` for a request that raised.
- The FastMCP server, tool registration and `mcp.run`. This is framework plumbing.
- test_httpx.py is not part of this model. It only prints one request.
- async/await and the global `LATITUDE`/`LONGITUDE`. They are never initialised, because their definitions are commented out. The coordinates are passed on as values instead of being stored.
- Floating point. Prices are integers, and `lat`/`lon` are reals that are already decoded. Prices are only compared, so only their order matters.
- The blanket `except Exception` handlers. They are modelled only where the outcome is visible: a failed request gives `None`, or the geocoding error message. Malformed JSON is not modelled.
- An explicit `"price": null`. It is read as a missing price. That matches the code for a lone depot, which `min` returns without comparing keys: the offer has no price and carries the depot's `marketAdi`. With two or more depots, `min` would compare `None` with a number and raise, and the search would return `None`. The model does not capture that case.
- Unicode case mapping. `Text.Lower` maps ASCII, Latin-1 and the Turkish capitals Ğ, Ş and İ (İ becomes "i̇", as in Python). It maps every other character to itself. Whitespace is the fixed set that `str.isspace` uses.
- ParserUtils.ParseDe, ParserUtils.ParseDa, ParserUtils.ParseKonumu, ParserUtils.ParseCivarinda: they require single-word groups and characters that keep earlier phrasings from applying. Prompts outside these shapes are still covered by `ParsePromptSpec` and `FirstMatchingPhrasingWins`, but not by an exact result.
- MarketFinder.SearchMarketProduct: the fixed HTTP headers and the URL are not modelled; only the JSON payload is (`SearchRequestFor`: distance 4, pages 0, size 24).
