# React-query-advanced: the logic inside three components, in Dafny

The repository is a small React tutorial app built on a query library. Three of
its components hold logic of their own, and this project models and proves that
logic.

- **Products list** (`src/components/pagination.tsx`), module `Pagination`.
  - The page state lives in the URL search parameters `skip`, `limit`, `q` and
    `category`.
  - The model covers reading them with their fallbacks (`0`, `4`, `""`, `""`),
    the Prev/Next move clamped at zero, the category select and the search
    updater, the request URL that `fetchProducts` builds, the Prev/Next
    `disabled` rules, and the products query key.
  - The search parameters are a dictionary. Class `SearchParams` updates it in
    place with `set` and `delete`, and its handler methods are specified by
    pure transitions on the dictionary (`Moved`, `CategorySelected`,
    `Searched`).
  - The URL text is proved to decode back to its request through `DecodeUrl`,
    a decoder written independently that inverts the template.
- **Optimistic posts** (`src/components/optimistic.tsx`), module `Optimistic`.
  - The submit handler validates and trims the title.
  - `onMutate` snapshots the cache entry for `['posts']` and puts the new post
    in front.
  - `onError` puts the snapshot back when there is one.
  - Class `PostsCache` holds that cache entry, and class `PostForm` holds the
    controlled `title` input.
- **Parallel users** (`src/components/parallel.tsx`), module `Parallel`.
  - The id list starts at `[1, 2]`, and every click appends one more than its
    maximum.
  - Each id gets a query keyed `['user', id]`, and the i-th result is shown
    under the i-th id.

Module `JsText` models the JavaScript primitives the components rely on:
`String.prototype.trim`, `parseInt(s, 10)` and `Number.prototype.toString` on
integers. These follow ECMA-262: sections 22.1.3.32, 19.2.5 and 21.1.3.6 for the
operations, and sections 12.2 and 12.3 for white space and line terminators.
Module `Wrappers` holds `Option`.

Some JavaScript behaviour is written out in the model:

- `get(key) || fallback` also falls back on an empty value, because `""` is
  falsy.
- `parseInt` reads leading white space, an optional sign, and the longest run
  of digits. A string with no digits gives `NaN`, which the model writes as
  `None`.
- `context?.previousPosts` counts an empty array as present.

## Model

| member | source | states |
|---|---|---|
| JsText.Trim | src/components/optimistic.tsx:70-78 | `title.trim()` is `title` with white space removed at both ends. It starts and ends with no white space, and it is empty exactly when the title is all white space. |
| JsText.TrimIdempotent | src/components/optimistic.tsx:78 | Trimming an already trimmed title changes nothing. |
| JsText.TrimOfTrimmed | src/components/optimistic.tsx:78 | A string with no white space at either end is its own trim. |
| JsText.TrimStartSuffix | src/components/optimistic.tsx:70 | Dropping leading white space leaves a suffix that does not start with white space, and everything dropped is white space. |
| JsText.TrimEndPrefix | src/components/optimistic.tsx:70 | Dropping trailing white space leaves a prefix that does not end with white space, and everything dropped is white space. |
| JsText.LeadingDigitsPrefix | src/components/pagination.tsx:65-66 | The digit run `parseInt` reads is the longest prefix made only of digits. |
| JsText.UnsignedPart | src/components/pagination.tsx:65-66 | `parseInt` always drops one leading `+` or `-` when there is one, and leaves a text without a sign as it is. |
| JsText.ParseIntNaN | src/components/pagination.tsx:65-66 | `ParseInt` (`parseInt(s, 10)`) gives `NaN` exactly when no digit follows the leading white space and the optional sign. |
| JsText.TrimStartOfWhiteSpace | src/components/pagination.tsx:65-66 | Dropping leading white space from white space followed by a text gives what it gives for the text alone. |
| JsText.ParseIntSkipsWhiteSpace | src/components/pagination.tsx:65-66 | `parseInt` reads the same number whatever white space stands in front of it. |
| JsText.LeadingDigitsOfDigits | src/components/pagination.tsx:65-66 | A run of digits followed by a non-digit (or nothing) is read exactly up to that non-digit. |
| JsText.ParseIntOfNumberText | src/components/pagination.tsx:65-93 | `parseInt` of a number's `toString` text, followed by anything that does not start with a digit, gives that number; so `"8abc"` reads as 8. |
| JsText.NatToString | src/components/pagination.tsx:93 | `toString` of a non-negative integer is a non-empty run of digits with no leading zero. |
| JsText.IntToString | src/components/pagination.tsx:93 | `toString` of an integer is non-empty and made of digits and `-`. |
| JsText.DecimalValueOfNatToString | src/components/pagination.tsx:93 | The digits `toString` writes denote the number that was written. |
| JsText.ParseIntOfIntToString | src/components/pagination.tsx:65-93 | `parseInt(n.toString(), 10)` is `n` for every integer `n`. |
| JsText.IntToStringInjective | src/components/pagination.tsx:93 | Two integers have the same text exactly when they are equal. |
| Pagination.Param | src/components/pagination.tsx:65-68 | `get(key) \|\| fallback` gives the stored value when it is present and non-empty, and the fallback otherwise. |
| Pagination.ReadSkip | src/components/pagination.tsx:65 | `skip` reads as 0 when it is missing or empty, and otherwise as `parseInt` of the stored text. |
| Pagination.ReadLimit | src/components/pagination.tsx:66 | `limit` reads as 4 when it is missing or empty, and otherwise as `parseInt` of the stored text. |
| Pagination.DefaultsParse | src/components/pagination.tsx:65-66 | The fallback texts `"0"` and `"4"` read as the numbers 0 and 4. |
| Pagination.ReadQuery | src/components/pagination.tsx:67 | `q` reads as empty exactly when it is missing or empty, and otherwise as the stored text. |
| Pagination.ReadCategory | src/components/pagination.tsx:68 | `category` reads as empty exactly when it is missing or empty, and otherwise as the stored text. |
| Pagination.ReadState | src/components/pagination.tsx:65-68 | The page state is present exactly when both `skip` and `limit` parse, and its four fields are the four values read. |
| Pagination.MissingParamsReadAsDefaults | src/components/pagination.tsx:64-68 | A missing `skip` reads as 0, `limit` as 4, and `q` and `category` as `""`. An empty query string reads as the state (0, 4, "", ""). |
| Pagination.MovedSkip | src/components/pagination.tsx:92 | `Math.max(skip + moveCount, 0)` is at least `skip + moveCount`, and it is either 0 or exactly `skip + moveCount`. |
| Pagination.MovedState | src/components/pagination.tsx:90-96 | A move sets `skip` to the clamped value `MovedSkip(skip, moveCount)`, which is `max(skip + moveCount, 0)`, and keeps `limit`, `q` and `category`. |
| Pagination.Moved | src/components/pagination.tsx:91-94 | A move writes only `skip`, with the text of the clamped value. Every other parameter keeps its value. |
| Pagination.CategorySelected | src/components/pagination.tsx:98-105 | A category select sets `skip` to `"0"` and `category` to the slug, and removes `q`. Other parameters are kept. |
| Pagination.Searched | src/components/pagination.tsx:114-119 | A search sets `q` to the input and `skip` to `"0"`, and removes `category`. Other parameters are kept. |
| Pagination.SearchParams.Set | src/components/pagination.tsx:93 | `set(key, value)` overwrites one entry in place. |
| Pagination.SearchParams.Delete | src/components/pagination.tsx:101 | `delete(key)` removes one entry in place. |
| Pagination.SearchParams.HandleMove | src/components/pagination.tsx:90-96 | The `handleMove` updater turns the parameters into `Moved` of their old value. |
| Pagination.SearchParams.HandleCategorySelect | src/components/pagination.tsx:98-105 | The `handleCategorySelect` updater's `set`, `delete`, `set` sequence gives `CategorySelected` of the old parameters. |
| Pagination.SearchParams.HandleSearch | src/components/pagination.tsx:113-120 | The search updater's `set`, `set`, `delete` sequence gives `Searched` of the old parameters. |
| Pagination.MovedSkipReads | src/components/pagination.tsx:65-93 | After a move, `skip` reads back as the clamped value. |
| Pagination.MoveClampsSkip | src/components/pagination.tsx:90-96 | After a move from a page state, the state read back has `skip = max(skip + moveCount, 0)` and the other three fields unchanged. |
| Pagination.MovedTwice | src/components/pagination.tsx:93 | Of two moves, only the later one's `skip` is left. |
| Pagination.NextThenPrevRoundTrip | src/components/pagination.tsx:90-183 | From any `skip >= 0` with `limit >= 0`, Next (`+limit`) followed by Prev (`-limit`) reads back as the original state. |
| Pagination.CategorySelectResets | src/components/pagination.tsx:98-134 | After a category select, `skip` reads 0, `limit` is unchanged, `q` reads `""` and `category` reads the slug. For "All Categories" the slug is `""`, so no category is in force. |
| Pagination.SearchResets | src/components/pagination.tsx:113-120 | After a search, `skip` reads 0, `limit` is unchanged, `q` reads the input and `category` reads `""`. |
| Pagination.FiltersExclusive | src/components/pagination.tsx:98-120 | After a category select or a search, `q` and `category` are never both non-empty. |
| Pagination.RequestFor | src/components/pagination.tsx:50-53 | The category endpoint is chosen exactly when `category` is non-empty, and `q` is then ignored. Otherwise the search endpoint carries `q`. Both carry `limit` and `skip`. |
| Pagination.RequestUrl | src/components/pagination.tsx:50-52 | `RequestUrl` gives the template text: a search request's URL starts with the search endpoint, and a category request's with the category endpoint. |
| Pagination.FetchProductsUrl | src/components/pagination.tsx:49-53 | The URL `fetchProducts` builds is the template text for its request, and decoding it gives back exactly that request. |
| Pagination.SplitAtFirst | src/components/pagination.tsx:50 | Cutting before the first delimiter gives a head without the delimiter and a rest that starts with it. |
| Pagination.SplitAtLast | src/components/pagination.tsx:52 | Cutting before the last delimiter gives a rest that starts with it and holds no other. |
| Pagination.StripPrefix | src/components/pagination.tsx:50-52 | A fixed prefix is removed exactly when the text starts with it. |
| Pagination.SplitAtFirstSeparator | src/components/pagination.tsx:50 | A digit text followed by a delimiter is cut exactly there. |
| Pagination.SplitAtLastSeparator | src/components/pagination.tsx:52 | A category followed by a query part with one `?` is cut before that `?`. |
| Pagination.StripGivenPrefix | src/components/pagination.tsx:50-52 | Stripping a prefix from that prefix followed by a text gives the text. |
| Pagination.IntTextHasNoDelimiters | src/components/pagination.tsx:50-52 | Number texts contain neither `&` nor `?`. |
| Pagination.DecodeNumbersOfText | src/components/pagination.tsx:50-52 | The `limit` and `skip` texts read back as the numbers written. |
| Pagination.DecodeSearchText | src/components/pagination.tsx:50 | The search query text decodes to its `limit`, `skip` and `q`. |
| Pagination.DecodeSearchUrl | src/components/pagination.tsx:50 | A search URL decodes to its request. |
| Pagination.DecodeCategoryText | src/components/pagination.tsx:52 | The category path text decodes to its category, `limit` and `skip`. |
| Pagination.CategoryUrlIsNotSearch | src/components/pagination.tsx:50-52 | A category URL never starts with the search prefix. |
| Pagination.DecodeCategoryUrl | src/components/pagination.tsx:52 | A category URL decodes to its request. |
| Pagination.DecodeRequestUrl | src/components/pagination.tsx:50-53 | Every request URL decodes back to its request. |
| Pagination.RequestUrlInjective | src/components/pagination.tsx:50-53 | Two requests share a URL exactly when they are equal. |
| Pagination.PrevDisabled | src/components/pagination.tsx:178 | With `skip >= 0` and `limit > 0`, Prev is disabled exactly when `skip` is 0, that is, when clicking it would leave the state unchanged. |
| Pagination.TotalOrZero | src/components/pagination.tsx:182 | The total the answer reported, or 0 while there is no answer. |
| Pagination.NextDisabled | src/components/pagination.tsx:182 | With `skip + limit >= 0`, Next is disabled exactly when the page it would move to starts at or past the total. |
| Pagination.NextDisabledWithoutTotal | src/components/pagination.tsx:182 | With `skip >= 0` and `limit >= 0`, and no total yet (or a total of 0), Next is disabled. |
| Pagination.NextStaysBelowTotal | src/components/pagination.tsx:182-183 | With `skip >= 0` and `limit >= 0`, an enabled Next moves forward by exactly `limit`, to a page that starts before the total. |
| Pagination.PrevStopsAtFirstPage | src/components/pagination.tsx:178 | With `limit >= 0`, a click on an enabled Prev never goes below the first page. It moves back when `skip > 0` and `limit > 0`. It lands on the first page, where Prev is disabled, exactly when `skip <= limit`. |
| Pagination.QueryKeyIdentifiesState | src/components/pagination.tsx:71-72 | `ProductsQueryKey` builds the key `["products", skip, limit, q, category]`. Two renders share it exactly when their states are equal, and then they request the same URL. |
| Optimistic.OrEmpty | src/components/optimistic.tsx:45 | `old \|\| []` is the cached list, or empty when nothing is cached. |
| Optimistic.Prepended | src/components/optimistic.tsx:43-46 | The updater's list is one longer, starts with the new post, and continues with the old list. |
| Optimistic.NewPost | src/components/optimistic.tsx:70-79 | A title that is all white space is rejected. Otherwise the post has id `now` and the trimmed title, which is non-empty and trims to itself. |
| Optimistic.AfterMutate | src/components/optimistic.tsx:43-46 | After the optimistic write the entry is loaded and one post longer, with the new post first and the old list after it. |
| Optimistic.AfterError | src/components/optimistic.tsx:51-56 | A present snapshot, even an empty list, replaces the cache. An absent one leaves the cache alone. |
| Optimistic.RollbackRestores | src/components/optimistic.tsx:40-55 | Over a loaded list, `onError` with the snapshot `onMutate` took leaves the cache exactly as it was before `onMutate`. |
| Optimistic.AfterMutation | src/components/optimistic.tsx:35-56 | After one mutation, a success leaves the new post in front of the old list. A failure over a loaded list leaves the cache as it was. A failure with nothing cached leaves the optimistic post as the only entry. |
| Optimistic.PostsCache.OnMutate | src/components/optimistic.tsx:35-50 | `onMutate` returns the entry as it was before, and leaves the new post in front of the old list. |
| Optimistic.PostsCache.OnError | src/components/optimistic.tsx:51-56 | `onError` writes back the context's snapshot when there is one. |
| Optimistic.PostsCache.RunMutation | src/components/optimistic.tsx:35-56 | `onMutate`, the request, and `onError` on failure together leave the entry given by `AfterMutation`. |
| Optimistic.PostForm.SetTitle | src/components/optimistic.tsx:100 | The input's `onChange` stores the typed text. |
| Optimistic.PostForm.HandleSubmit | src/components/optimistic.tsx:66-86 | A blank title changes neither the input nor the cache. Otherwise the trimmed post with id `now` is sent, the cache becomes what the mutation leaves, and the input is cleared. |
| Parallel.MaxOf | src/components/parallel.tsx:28 | `Math.max(...ids)` is an element of the list that no element exceeds. |
| Parallel.AddNextUserId | src/components/parallel.tsx:27-29 | The list grows by exactly one and keeps its prefix. The new id is the largest old id plus one, so it exceeds every old one. |
| Parallel.IncreasingIsOrdered | src/components/parallel.tsx:28-29 | In a strictly increasing list every earlier id is smaller than every later one. |
| Parallel.IncreasingHasNoDuplicates | src/components/parallel.tsx:28-29 | A strictly increasing list has no repeated id. |
| Parallel.AddKeepsIncreasing | src/components/parallel.tsx:28-29 | Appending the next id keeps a strictly increasing list strictly increasing. |
| Parallel.UserIdsAfter | src/components/parallel.tsx:14-29 | After `clicks` clicks, the list has `clicks + 2` ids, so it is never empty and `max` is defined. |
| Parallel.MaxOfOneToN | src/components/parallel.tsx:28 | The maximum of `1..n` is `n`. |
| Parallel.AddKeepsOneToN | src/components/parallel.tsx:27-29 | Appending the next id to `1..n` gives `1..n+1`. |
| Parallel.UserIdsAreConsecutive | src/components/parallel.tsx:14-29 | Starting from `[1, 2]`, after any number of clicks the list is `1, 2, ..., clicks + 2`, and it is strictly increasing. |
| Parallel.OneToNIsIncreasing | src/components/parallel.tsx:14-29 | The list `1..n` is strictly increasing. |
| Parallel.UserQueryKeys | src/components/parallel.tsx:18-19 | There is one query per id, in order, and the i-th query has key `['user', ids[i]]`. |
| Parallel.QueryKeysDistinct | src/components/parallel.tsx:18-19 | Distinct ids give pairwise distinct query keys. |
| Parallel.ReachableKeysDistinct | src/components/parallel.tsx:14-29 | After any number of clicks, every query has a key of its own. |
| Parallel.LabelResults | src/components/parallel.tsx:37-38 | The i-th result is shown under `userIds[i]`, one row per result. |
| Parallel.RowKeysDistinct | src/components/parallel.tsx:37-40 | With distinct ids, the rendered rows' keys are pairwise distinct. |

## Left out

- HTTP through `axios`. Neither the product, category, post and user requests
  nor their responses are modelled. The request URL is modelled as text, and a
  failed POST is the parameter `serverFails`.
- Query-library behaviour is not modelled. This covers `useQuery`,
  `useQueries` scheduling, `keepPreviousData`, the `cancelQueries` awaited in
  `onMutate`, and the `invalidateQueries` refetch in `onSettled`. The `['posts']`
  cache is only the value that `onMutate` and `onError` read and write.
- The initial value `{ skip: "0", limit: "4" }` given to `useSearchParams` is
  router behaviour. The model starts from any parameter map, and
  `MissingParamsReadAsDefaults` shows that the `||` fallbacks give the same
  values when the parameters are absent.
- `URLSearchParams` is a dictionary. The order of parameters and repeated keys
  are not modelled.
- The URL is not percent-encoded, because the source interpolates `q` and
  `category` as they are.
  - `DecodeUrl` is the inverse of the template: it reads all the text after
    `&q=` as `q`. It is not how a server parses a query string.
  - So `DecodeRequestUrl` and `RequestUrlInjective` are about the URL text, not
    about what the server receives.
  - A `q` that contains `&`, `#`, `+` or `%` is sent as it is, and a standard
    query-string parser reads a different `q` from it. For example, `a&b` is
    read as `q = a` plus a stray parameter `b`.
  - A `category` that contains `?`, `#` or `/` changes the path in the same way.
- The `lodash.debounce` timing of the search input is not modelled. Only the
  updater it wraps is.
- `Date.now()` is the parameter `now`. The `alert` on a blank title is not
  modelled, and that branch simply changes nothing.
- Pagination.ReadState: a `skip` or `limit` that `parseInt` reads as `NaN`
  gives `None`.
  - How `NaN` then flows through `Math.max`, `toString` and the `disabled`
    comparisons is not modelled.
  - JavaScript number precision, `-0`, and exponent or fraction forms in
    `toString` are not modelled. Integers are unbounded.
- Pagination.SearchParams.HandleMove: the `skip` that `handleMove` adds to is
  the value the render read (the closure), not the one in `prev`. It is
  passed as a parameter.
- Parallel.AddNextUserId: `nextId` is computed from the rendered `userIds`, and
  the updater appends it to `prev`. The model treats the two as the same list,
  which holds for one click per render.
- Parallel.MaxOf requires a non-empty list. `Math.max()` of nothing is
  `-Infinity`, but `UserIdsAfter` shows the list is never empty.
- Optimistic.PostsCache.RunMutation and Optimistic.RollbackRestores describe
  one mutation at a time, run to its end.
  - In the source, `mutate` is asynchronous, so a second submit can run its
    `onMutate` before the first mutation's `onError`.
  - The first rollback then restores a snapshot without the second post. If
    the second mutation then fails too, its rollback brings back the first,
    already failed post.
  - This interleaving is not modelled, and the rollback round trip holds only
    for mutations that do not overlap.
- The case where `onMutate` throws before it returns its context is not
  modelled. The model always passes the snapshot to `onError`.
- The components' JSX rendering (loading and error branches, product cards,
  dropdown), `fetchCategories`, and the files `src/main.tsx`, `src/App.tsx` and
  `src/components/Home.tsx` contain no logic beyond UI wiring. They are not part
  of this model.
