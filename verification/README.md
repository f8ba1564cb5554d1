# Product Explorer listing, modelled in Dafny

Product Explorer is a browser catalogue. Its listing page fetches products from
its own products route twelve at a time. It accumulates the pages as the user
presses "Load More", narrows the list to one category when asked, and shows a
copy of the accumulation sorted by price or title. A filter bar formats the
category names and offers the sort options. A product modal steps through the
product's images. This project models those pieces and proves what they promise:

- `listing.dfy`: the listing page state (`ListingPage`) and its entry points:
  - `fetchProducts` as two atomic steps, `StartFetch` and `ResolveFetch`;
  - `loadMore`, `handleCategoryChange` and `onSortChange`;
  - refreshing the sorted projection and storing the category list;
  - the request each fetch writes (`PageRequest`).
- `sort_projection.dfy`: `filterAndSortProducts` as a stable sort by one of four keys. Unknown keys leave the order alone.
- `category_directory.dfy`: the category list kept from the categories payload.
- `filter_bar.dfy`: `formatCategoryName` and the two option lists of the filter bar.
- `product_modal.dfy`: the image carousel index (`ImageCarousel`).
- `products_route.dfy`: the products route. It defaults `limit` and `skip`, chooses the upstream URL, and shapes the answer.
- `request_flow.dfy`: what the route sends upstream for the request the page writes.
- `query_string.dfy`, `text.dfy`, `json.dfy`, `products.dfy`, `wrappers.dfy`: the query strings, split and join, ASCII upper-casing and decimal text, JSON values, the product record and `Option`.

Two places where the model follows the code and not the behaviour one might expect of such a page:

- `handleCategoryChange` (app/page.tsx:118-121) only selects the category and sets the page to 1. It does not empty the accumulation or reset `hasMore`. The old products stay on screen until page 1 of the new category arrives and replaces them.
- A fetch's result is merged according to the page number its request was started with (app/page.tsx:40-44). Nothing checks whether that page or category is still current. `LateAppendAfterCategoryChange` shows the consequence: a page-2 response that arrives after the user switched categories is appended to the new category's first page. Stale results are not discarded.

## Model

| member | source | states |
|---|---|---|
| Listing.ListingPage.constructor | app/page.tsx:10-20 | The page starts with no products, category "all", sort "default", loading, no error, page 1 and more pages expected |
| Listing.ListingPage.StartFetch | app/page.tsx:22-32 | Starting a fetch sets `loading` and sends a request for the current page and category, changing nothing else |
| Listing.ListingPage.ResolveFetch | app/page.tsx:34-51 | On success the products become the merged page, and more pages are expected exactly when 12 items came back. On failure the products and `hasMore` stay and the error is set. Either way loading ends, and a set error is never cleared |
| Listing.MergePage | app/page.tsx:40-44 | Page 1 replaces the accumulation with the items. A later page keeps the old products as a prefix, appends the items, and the lengths add up |
| Listing.ListingPage.HandleCategoryChange | app/page.tsx:118-121 | Selects the category and resets the page to 1. Products, `hasMore`, sort option and error are untouched |
| Listing.ListingPage.LoadMore | app/page.tsx:123-127 | The page goes up by exactly one when not loading and more pages are expected, and stays otherwise. Nothing else changes |
| Listing.ListingPage.ChangeSort | app/page.tsx:146 | The sort select sets the sort option and nothing else |
| Listing.ListingPage.RefreshProjection | app/page.tsx:84-107 | The displayed list becomes the projection of the products. The products themselves are not written |
| Listing.ListingPage.ReceiveCategories | app/page.tsx:55-82 | The stored categories are the sanitised payload |
| Listing.PageRequest.Skip | app/page.tsx:25 | Skip is a multiple of 12 whose quotient is the page number minus one |
| Listing.PageRequest.Params | app/page.tsx:25-30 | The request carries `limit=12` and `skip`, plus `category` exactly when the category is not "all" |
| Listing.PageRequest.Url | app/page.tsx:26-30 | The fetched URL is the products route followed by the encoding of the parameters |
| Listing.PageRequest.Query | app/page.tsx:26-30 | The template-literal query equals the encoding of the parameter list: the `&`-joined `name=value` pieces, in order |
| Listing.ParseQuery | app/page.tsx:26-30 | Reading the written query gives back exactly the parameter list, for a category the URL carries unchanged (`PlainValue`) |
| Listing.RequestParameters | app/page.tsx:25-30 | A reader of the query finds `limit` "12" and a `skip` denoting `(page-1)*12`. It finds `category` exactly when the category is not "all" |
| Listing.FullThenShortPage | app/page.tsx:40-46 | A full page and then a 5-item page give 17 products, and no further page is offered |
| Listing.FailureIsSticky | app/page.tsx:40-48 | When a fetch fails while a fetch for a newly selected category is in flight, the new category's page is stored in `products` once it arrives, but the error stays set, so the page keeps rendering only the error message (app/page.tsx:129-135) |
| Listing.LateAppendAfterCategoryChange | app/page.tsx:40-44 | A page-2 response arriving after a category change is appended to the new category's first page |
| Listing.LoadMoreWhileLoading | app/page.tsx:123-127 | "Load more" during a fetch leaves the page number unchanged |
| SortProjection.ParseSortOption | app/page.tsx:88-104 | Each of the four sort names selects its own key. Every other option string takes the default branch |
| SortProjection.ParseKeyName | app/page.tsx:88-104 | Every key's name parses back to that key |
| SortProjection.LexLeTotal | app/page.tsx:96 | Any two titles are comparable |
| SortProjection.LexLeTransitive | app/page.tsx:96 | The title order is transitive |
| SortProjection.LexLeAntisymmetric | app/page.tsx:96 | Titles ordered both ways are equal |
| SortProjection.KeyLe | app/page.tsx:90-99 | Two products that tie on the key are in order, and under the default key every pair is in order |
| SortProjection.KeyLeTotal | app/page.tsx:88-100 | For every key, any two products are comparable |
| SortProjection.KeyLeTransitive | app/page.tsx:88-100 | For every key, the comparison is transitive |
| SortProjection.SameKeyIffBothWays | app/page.tsx:88-100 | Two products tie exactly when each may come before the other |
| SortProjection.ClassOfMembers | app/page.tsx:84-107 | The tie group of a product holds exactly the elements tying with it |
| SortProjection.InsertSorted | app/page.tsx:84-107 | Inserting into a sorted list keeps it sorted |
| SortProjection.InsertClass | app/page.tsx:84-107 | Inserting after every element that may precede it adds the element at the end of its tie group |
| SortProjection.StableSort | app/page.tsx:84-107 | The sort is a permutation of its input |
| SortProjection.StableSortSorted | app/page.tsx:84-107 | The sort's result is ordered by the key |
| SortProjection.StableSortKeepsTies | app/page.tsx:84-107 | Products with equal keys keep their input order (stability) |
| SortProjection.StableSortUnique | app/page.tsx:84-107 | Every ordered, tie-preserving rearrangement equals the model's sort, so the sorting algorithm does not matter |
| SortProjection.Project | app/page.tsx:84-107 | The projection is a permutation of the products and is ordered by the selected key. It keeps the input order exactly for "default" and unknown options, and each tie group keeps its input order |
| SortProjection.ProjectContract | app/page.tsx:84-107 | The projection is a permutation. It is the input order for "default" and unknown options. It is non-decreasing or non-increasing in price, or ascending or descending in title, as selected. Ties keep their order |
| SortProjection.ProjectIdempotent | app/page.tsx:84-107 | Projecting a projection changes nothing |
| CategoryDirectory.StringItems | app/page.tsx:68 | Only the string entries are kept, and no others |
| CategoryDirectory.StringItemsAppend | app/page.tsx:68 | The filter works entry by entry, so the kept strings stay in their original order |
| CategoryDirectory.StringItemsOfStrings | app/page.tsx:66-69 | An array made only of strings is kept unchanged |
| CategoryDirectory.SanitizeCategories | app/page.tsx:66-81 | An array payload keeps exactly its strings, in their order and with their repetitions. A non-array payload or a failed fetch gives no categories |
| FilterBar.Capitalize | components/FilterBar.tsx:25 | A word keeps its length. Its first character is upper-cased and the rest is unchanged |
| FilterBar.CapitalizeAll | components/FilterBar.tsx:25 | Each word is capitalised in place |
| FilterBar.PipelineIsScan | components/FilterBar.tsx:23-26 | The split/capitalise/join chain equals a one-pass scan that turns `-` into a space and upper-cases each word start |
| FilterBar.FormatCategoryName | components/FilterBar.tsx:19-27 | The label equals the one-pass word-start scan of the identifier. It is as long as the identifier. Each `-` becomes a space. The first character and each one after a `-` are upper-cased. The rest are unchanged, so no hyphen is left |
| FilterBar.FormatWithoutHyphens | components/FilterBar.tsx:23-26 | An identifier without hyphens changes only in its first character |
| FilterBar.FormatIdempotent | components/FilterBar.tsx:23-26 | Formatting a label again leaves it unchanged |
| FilterBar.FormatWords | components/FilterBar.tsx:24-26 | For an identifier without spaces, the label's words are the identifier's words, each capitalised, so an empty word stays empty |
| FilterBar.CategoryOptions | components/FilterBar.tsx:41-46 | "All Categories" (value "all") comes first. Then each category follows in order, labelled by its formatted name |
| FilterBar.CategoryOptionValues | components/FilterBar.tsx:41-46 | The option values are "all" followed by the categories |
| FilterBar.SortOptionsSelectEachKey | components/FilterBar.tsx:60-64 | The five sort options are listed in display order. Each sends its key's name and selects that key, and every key is offered |
| ProductModal.NextIndex | components/ProductModal.tsx:60-64 | The next index stays within the images and is `(i+1) mod n` |
| ProductModal.PrevIndex | components/ProductModal.tsx:66-70 | The previous index stays within the images and is `(i-1) mod n` |
| ProductModal.ArrowsAreInverse | components/ProductModal.tsx:60-70 | Next after previous, and previous after next, return to the original image |
| ProductModal.SingleImageStays | components/ProductModal.tsx:60-70 | With one image both arrows stay on it |
| ProductModal.NextPressesInRange | components/ProductModal.tsx:60-64 | Any number of presses keeps the index on an image |
| ProductModal.NextPressesWithinTour | components/ProductModal.tsx:60-64 | Within one tour, k presses move k places and wrap past the last image once |
| ProductModal.FullTour | components/ProductModal.tsx:60-64 | n presses return to the starting image |
| ProductModal.NextPressesCompose | components/ProductModal.tsx:60-64 | a presses then b presses are a+b presses |
| ProductModal.NextPressesPeriodic | components/ProductModal.tsx:60-64 | Presses repeat with period n |
| ProductModal.ImageCarousel.constructor | components/ProductModal.tsx:15 | A modal opens on the first image |
| ProductModal.ImageCarousel.Next | components/ProductModal.tsx:60-64 | The right arrow moves to `(i+1) mod n` and keeps the index on an image |
| ProductModal.ImageCarousel.Prev | components/ProductModal.tsx:66-70 | The left arrow moves to `(i-1) mod n` and keeps the index on an image |
| ProductModal.ImageCarousel.Show | components/ProductModal.tsx:123 | Clicking dot k shows image k |
| ProductModal.NextThenPrev | components/ProductModal.tsx:60-70 | On three images, next then previous comes back to the first |
| ProductsRoute.OrDefault | app/api/products/route.ts:6-7 | A missing or empty parameter gives the default. Any other value passes through verbatim |
| ProductsRoute.ScopedCategory | app/api/products/route.ts:12 | The route scopes to a category exactly when one is present, non-empty and not "all" |
| ProductsRoute.ForwardedLimit | app/api/products/route.ts:6 | The forwarded `limit` is never empty. It is the first `limit` when that is present and non-empty, and "12" otherwise |
| ProductsRoute.ForwardedSkip | app/api/products/route.ts:7 | The forwarded `skip` is never empty. It is the first `skip` when that is present and non-empty, and "0" otherwise |
| ProductsRoute.UpstreamQuery | app/api/products/route.ts:10 | The forwarded query is a `?` followed by the encoding of the forwarded `limit` and then `skip` |
| ProductsRoute.UpstreamUrl | app/api/products/route.ts:10-14 | The upstream URL is the plain catalogue or the category path, with the same forwarded query. The character after the base tells the two apart |
| ProductsRoute.UpstreamQueryOfWindow | app/api/products/route.ts:6-7 | Non-empty `limit` and `skip` are forwarded as they are |
| ProductsRoute.ForwardedQueryReadsBack | app/api/products/route.ts:10 | The forwarded query reads back as exactly the forwarded `limit` and `skip` |
| ProductsRoute.Respond | app/api/products/route.ts:16-29 | A 2xx reply with a JSON body is passed on with status 200. Anything else becomes status 500 with `{error: "Failed to fetch products"}` |
| ProductsRoute.HandleGet | app/api/products/route.ts:3-31 | The answer has status 200 exactly when the upstream reply for the chosen URL is a 2xx with a JSON body, and then carries that body. Otherwise it is the fixed 500 error |
| RequestFlow.PageWindowForwarded | app/api/products/route.ts:5-10 | For the page's request the route forwards `limit=12` and the page's skip |
| RequestFlow.PageCategoryScoped | app/api/products/route.ts:12 | The route scopes to the page's category exactly when it is neither "all" nor empty |
| RequestFlow.PageRequestReachesUpstream | app/api/products/route.ts:5-14 | Page p of category c reaches the plain catalogue ("all" or empty c) or the category path, with `limit=12&skip=(p-1)*12` |
| RequestFlow.UpstreamSeesPageWindow | app/api/products/route.ts:10-13 | The upstream query reads back as `limit` "12" and the page's skip |
| QueryString.Get | app/api/products/route.ts:5-7 | `searchParams.get` gives the first value of that name, or nothing exactly when the name is absent |
| QueryString.Parse | app/api/products/route.ts:4 | Parsed names contain no `=`, no name or value contains `&`, and the empty query has no parameters |
| QueryString.ParseEncode | app/api/products/route.ts:4 | Parsing an encoded parameter list gives the list back |
| Text.Split | components/FilterBar.tsx:24 | Splitting gives at least one piece. No piece contains the separator, and every character of a piece comes from the text |
| Text.Join | components/FilterBar.tsx:26 | A join starts with its first word, and with two or more words the separator follows the first word |
| Text.JoinSplit | components/FilterBar.tsx:24-26 | Joining the split words with the separator gives the text back |
| Text.SplitJoin | components/FilterBar.tsx:24-26 | Splitting words joined by a separator they do not contain gives the words back |
| Text.ToUpper | components/FilterBar.tsx:25 | Upper-casing maps each of `a`..`z` to the letter 32 code points lower (`A`..`Z`) and leaves no lower-case ASCII letter. It changes exactly the lower-case letters and keeps `-` and spaces |
| Text.NatToDecimal | app/page.tsx:25-26 | The decimal text of a number is non-empty and made of digits only. It starts with `0` only for zero |
| Text.DecimalRoundTrip | app/page.tsx:25-26 | The decimal text of the skip reads back as the skip |

## Left out

- The network, `fetch`, `response.json()` and `NextResponse` are outside the model. A product fetch's outcome is an input to `Listing.ListingPage.ResolveFetch`; a category fetch is an input to `ReceiveCategories`; the route's upstream call is the `upstream` parameter of `ProductsRoute.HandleGet`.
- React's scheduling (`useEffect`, `useCallback`) is not modelled. The effects become explicit calls: `StartFetch`/`ResolveFetch` on page or category changes, and `RefreshProjection` on product or sort changes. Overlapping fetches are modelled by interleaving these calls in any order. The page has no guard against overlap, and the model adds none.
- `console` logging, GSAP animations, the Escape key, body scroll locking and every piece of rendering are not modelled. components/ProductCard.tsx, components/ProductGrid.tsx and app/api/categories/route.ts (a pass-through proxy) are not part of this model.
- The `'Unknown'` branch of `formatCategoryName` (components/FilterBar.tsx:20) is not modelled. Categories are strings by type, and the sanitised list holds only strings.
- SortProjection.ProjectContract: titles are compared in code-point lexicographic order, not `localeCompare`'s locale-dependent collation. Prices are exact reals, not IEEE doubles.
- Text.ToUpper: upper-cases ASCII letters only, and leaves every other character as it is. JavaScript's `toUpperCase` also maps other letters and can lengthen a string (`ß` becomes `SS`).
- QueryString.Parse: does no percent-decoding, does not read `+` as a space, and does not cut the URL at a `#` fragment. The URL parser behind `fetch` is not modelled either: it removes every tab, line feed and carriage return and strips control characters and spaces from the end of the URL. The page interpolates the category into the URL unencoded, as its last part, so a category containing `&`, `+`, `%`, `#`, a tab, a line feed or a carriage return, or ending in a control character or a space, reaches the route changed. `Listing.ParseQuery`, `Listing.RequestParameters` and the request-flow lemmas therefore cover only categories that avoid all of these (`QueryString.PlainValue`).
- Listing.ListingPage.ResolveFetch: an OK response whose body lacks a `products` array is treated as a failure, with the products kept. The source does not get that far cleanly. Its `.length` read (app/page.tsx:46) throws and sets the error, but the products update has already been queued. On page 1 it stores `undefined`, and the projection's `[...products]` (app/page.tsx:85) then throws. On a later page the updater at app/page.tsx:43 spreads `undefined` and throws. Either way the page crashes rather than showing the error. A hung fetch (loading forever) is simply a `StartFetch` never followed by `ResolveFetch`.
- ProductModal.ImageCarousel.Next: requires at least one image. With no images the source's arithmetic would leave the index range, but the arrows are only rendered for more than one image (components/ProductModal.tsx:104). The same holds for `Prev`.
