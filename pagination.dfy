/**
 * The product list's state machine over the URL search parameters `skip`,
 * `limit`, `q` and `category` (src/components/pagination.tsx): reading them
 * with their fallbacks, the Prev/Next move, the category and search filters,
 * the request URL and the Prev/Next enabling rules.
 */
module Pagination {
  import opened Wrappers
  import opened JsText

  const SkipKey := "skip"
  const LimitKey := "limit"
  const SearchTextKey := "q"
  const CategoryKey := "category"

  /** The query string as a dictionary from parameter name to its (first) value. */
  type Params = map<string, string>

  /**
   * The value stored under `key`, or `fallback` when the key is missing or its
   * value is empty (an empty string counts as false in JavaScript).
   */
  function Param(m: Params, key: string, fallback: string): (r: string)
    ensures key in m && m[key] != "" ==> r == m[key]
    ensures key !in m || m[key] == "" ==> r == fallback
  {
    if key in m && m[key] != "" then m[key] else fallback
  }

  /**
   * The page offset: the `skip` text read as a base-10 integer, `"0"` when it
   * is missing or empty; `None` stands for `NaN`.
   */
  function ReadSkip(m: Params): (r: Option<int>)
    ensures SkipKey !in m || m[SkipKey] == "" ==> r == Some(0)
    ensures SkipKey in m && m[SkipKey] != "" ==> r == ParseInt(m[SkipKey])
  {
    DefaultsParse();
    ParseInt(Param(m, SkipKey, "0"))
  }

  /**
   * The page size: the `limit` text read as a base-10 integer, `"4"` when it
   * is missing or empty; `None` stands for `NaN`.
   */
  function ReadLimit(m: Params): (r: Option<int>)
    ensures LimitKey !in m || m[LimitKey] == "" ==> r == Some(4)
    ensures LimitKey in m && m[LimitKey] != "" ==> r == ParseInt(m[LimitKey])
  {
    DefaultsParse();
    ParseInt(Param(m, LimitKey, "4"))
  }

  /** The fallback texts read as the numbers 0 and 4. */
  lemma DefaultsParse()
    ensures ParseInt("0") == Some(0) && ParseInt("4") == Some(4)
  {
    ParseIntOfIntToString(0);
    ParseIntOfIntToString(4);
    assert IntToString(0) == "0" && IntToString(4) == "4";
  }

  /** The search text: empty exactly when `q` is missing or empty, and otherwise the stored text. */
  function ReadQuery(m: Params): (r: string)
    ensures r == "" <==> SearchTextKey !in m || m[SearchTextKey] == ""
    ensures r != "" ==> r == m[SearchTextKey]
  {
    Param(m, SearchTextKey, "")
  }

  /** The category slug: empty exactly when `category` is missing or empty, and otherwise the stored text. */
  function ReadCategory(m: Params): (r: string)
    ensures r == "" <==> CategoryKey !in m || m[CategoryKey] == ""
    ensures r != "" ==> r == m[CategoryKey]
  {
    Param(m, CategoryKey, "")
  }

  /** What one render of the product list works with. */
  datatype PageState = PageState(skip: int, limit: int, q: string, category: string)

  /** The four values read at the top of `Products`; `None` when `skip` or `limit` reads as `NaN`. */
  function ReadState(m: Params): (r: Option<PageState>)
    ensures r.Some? <==> ReadSkip(m).Some? && ReadLimit(m).Some?
    ensures r.Some? ==> r.value == PageState(ReadSkip(m).value, ReadLimit(m).value, ReadQuery(m), ReadCategory(m))
  {
    var skip := ReadSkip(m);
    var limit := ReadLimit(m);
    if skip.None? || limit.None? then None
    else Some(PageState(skip.value, limit.value, ReadQuery(m), ReadCategory(m)))
  }

  /** A missing (or empty) parameter reads as its default: skip 0, limit 4, no search and no category. */
  lemma MissingParamsReadAsDefaults(m: Params)
    ensures SkipKey !in m ==> ReadSkip(m) == Some(0)
    ensures LimitKey !in m ==> ReadLimit(m) == Some(4)
    ensures SearchTextKey !in m ==> ReadQuery(m) == ""
    ensures CategoryKey !in m ==> ReadCategory(m) == ""
    ensures ReadState(map[]) == Some(PageState(0, 4, "", ""))
  {
  }

  /** The offset a move leads to: `skip + moveCount`, but never below 0. */
  function MovedSkip(skip: int, moveCount: int): (r: nat)
    ensures r >= skip + moveCount
    ensures r == 0 || r == skip + moveCount
  {
    if skip + moveCount < 0 then 0 else skip + moveCount
  }

  /** The state a move by `moveCount` leads to; only `skip` changes. */
  function MovedState(s: PageState, moveCount: int): (r: PageState)
    ensures r.skip == MovedSkip(s.skip, moveCount)
    ensures r.skip >= 0 && r.limit == s.limit && r.q == s.q && r.category == s.category
  {
    s.(skip := MovedSkip(s.skip, moveCount))
  }

  /**
   * The parameters after `handleMove(moveCount)` rendered with `skip`: only
   * `skip` is written, and it is never negative.
   */
  function Moved(m: Params, skip: int, moveCount: int): (r: Params)
    ensures r.Keys == m.Keys + {SkipKey}
    ensures r[SkipKey] == IntToString(MovedSkip(skip, moveCount))
    ensures forall k :: k in m && k != SkipKey ==> r[k] == m[k]
  {
    m[SkipKey := IntToString(MovedSkip(skip, moveCount))]
  }

  /** The parameters after `handleCategorySelect(slug)`. */
  function CategorySelected(m: Params, slug: string): (r: Params)
    ensures r.Keys == (m.Keys - {SearchTextKey}) + {SkipKey, CategoryKey}
    ensures r[SkipKey] == "0" && r[CategoryKey] == slug
    ensures forall k :: k in m && k !in {SkipKey, SearchTextKey, CategoryKey} ==> r[k] == m[k]
  {
    (m[SkipKey := "0"] - {SearchTextKey})[CategoryKey := slug]
  }

  /** The parameters after the (debounced) search input's updater with input `value`. */
  function Searched(m: Params, value: string): (r: Params)
    ensures r.Keys == (m.Keys - {CategoryKey}) + {SkipKey, SearchTextKey}
    ensures r[SkipKey] == "0" && r[SearchTextKey] == value
    ensures forall k :: k in m && k !in {SkipKey, SearchTextKey, CategoryKey} ==> r[k] == m[k]
  {
    m[SearchTextKey := value][SkipKey := "0"] - {CategoryKey}
  }

  /**
   * `URLSearchParams` as far as the handlers use it: a dictionary that
   * `set` and `delete` change in place.
   */
  class SearchParams {
    var entries: Params

    constructor (init: Params)
      ensures entries == init
    {
      entries := init;
    }

    method Set(key: string, value: string)
      modifies this
      ensures entries == old(entries)[key := value]
    {
      entries := entries[key := value];
    }

    method Delete(key: string)
      modifies this
      ensures entries == old(entries) - {key}
    {
      entries := entries - {key};
    }

    /** The updater of `handleMove(moveCount)`; `skip` is the value the render read. */
    method HandleMove(skip: int, moveCount: int)
      modifies this
      ensures entries == Moved(old(entries), skip, moveCount)
    {
      var newSkip := MovedSkip(skip, moveCount);
      Set(SkipKey, IntToString(newSkip));
    }

    /** The updater of `handleCategorySelect(slug)`. */
    method HandleCategorySelect(slug: string)
      modifies this
      ensures entries == CategorySelected(old(entries), slug)
    {
      Set(SkipKey, "0");
      Delete(SearchTextKey);
      Set(CategoryKey, slug);
    }

    /** The updater the search input's `onChange` passes, for input `value`. */
    method HandleSearch(value: string)
      modifies this
      ensures entries == Searched(old(entries), value)
    {
      Set(SearchTextKey, value);
      Set(SkipKey, "0");
      Delete(CategoryKey);
    }
  }

  /** Reading a parameter that a transition did not touch gives what it gave before. */
  lemma ParamUnchanged(m: Params, r: Params, key: string, fallback: string)
    requires (key in m <==> key in r) && (key in m ==> r[key] == m[key])
    ensures Param(r, key, fallback) == Param(m, key, fallback)
  {
  }

  /** After a move, `skip` reads as the clamped value the move wrote. */
  lemma MovedSkipReads(m: Params, skip: int, moveCount: int)
    ensures ReadSkip(Moved(m, skip, moveCount)) == Some(MovedSkip(skip, moveCount))
  {
    var text := IntToString(MovedSkip(skip, moveCount));
    assert Param(Moved(m, skip, moveCount), SkipKey, "0") == text;
    ParseIntOfIntToString(MovedSkip(skip, moveCount));
  }

  /**
   * A move sets `skip` to `max(skip + moveCount, 0)`, so it is never
   * negative afterwards, and leaves the other three values as they were.
   */
  lemma MoveClampsSkip(m: Params, s: PageState, moveCount: int)
    requires ReadState(m) == Some(s)
    ensures ReadState(Moved(m, s.skip, moveCount)) == Some(MovedState(s, moveCount))
  {
    var r := Moved(m, s.skip, moveCount);
    MovedSkipReads(m, s.skip, moveCount);
    ParamUnchanged(m, r, LimitKey, "4");
    ParamUnchanged(m, r, SearchTextKey, "");
    ParamUnchanged(m, r, CategoryKey, "");
  }

  /** Each move overwrites `skip`, so of two moves only the later one shows. */
  lemma MovedTwice(m: Params, skip1: int, moveCount1: int, skip2: int, moveCount2: int)
    ensures Moved(Moved(m, skip1, moveCount1), skip2, moveCount2) == Moved(m, skip2, moveCount2)
  {
  }

  /** Next followed by Prev (moves by `+limit` and `-limit`) comes back to the same page. */
  lemma NextThenPrevRoundTrip(m: Params, s: PageState)
    requires ReadState(m) == Some(s)
    requires s.skip >= 0 && s.limit >= 0
    ensures ReadState(Moved(Moved(m, s.skip, s.limit), s.skip + s.limit, -s.limit)) == Some(s)
  {
    MovedTwice(m, s.skip, s.limit, s.skip + s.limit, -s.limit);
    assert MovedSkip(s.skip + s.limit, -s.limit) == MovedSkip(s.skip, 0);
    assert Moved(m, s.skip + s.limit, -s.limit) == Moved(m, s.skip, 0);
    MoveClampsSkip(m, s, 0);
    assert MovedState(s, 0) == s;
  }

  /** Selecting a category starts at the first page, drops the search and filters by `slug`. */
  lemma CategorySelectResets(m: Params, slug: string)
    ensures var r := CategorySelected(m, slug);
      && ReadSkip(r) == Some(0) && ReadLimit(r) == ReadLimit(m)
      && ReadQuery(r) == "" && ReadCategory(r) == slug
  {
    var r := CategorySelected(m, slug);
    ParseIntOfIntToString(0);
    assert IntToString(0) == "0";
    ParamUnchanged(m, r, LimitKey, "4");
  }

  /** Searching starts at the first page, searches for `value` and drops the category. */
  lemma SearchResets(m: Params, value: string)
    ensures var r := Searched(m, value);
      && ReadSkip(r) == Some(0) && ReadLimit(r) == ReadLimit(m)
      && ReadQuery(r) == value && ReadCategory(r) == ""
  {
    var r := Searched(m, value);
    ParseIntOfIntToString(0);
    assert IntToString(0) == "0";
    ParamUnchanged(m, r, LimitKey, "4");
  }

  /** After a category select or a search, a search and a category are never both in force. */
  lemma FiltersExclusive(m: Params, slug: string, value: string)
    ensures ReadQuery(CategorySelected(m, slug)) == "" || ReadCategory(CategorySelected(m, slug)) == ""
    ensures ReadQuery(Searched(m, value)) == "" || ReadCategory(Searched(m, value)) == ""
  {
    CategorySelectResets(m, slug);
    SearchResets(m, value);
  }

  /** The request `fetchProducts` sends. */
  datatype ProductsRequest =
    | SearchRequest(limit: int, skip: int, q: string)
    | CategoryRequest(category: string, limit: int, skip: int)

  /** A non-empty `category` selects the category endpoint, which ignores `q`. */
  function RequestFor(skip: int, limit: int, q: string, category: string): (r: ProductsRequest)
    ensures r.CategoryRequest? <==> category != ""
    ensures r.CategoryRequest? ==> r.category == category
    ensures r.SearchRequest? ==> r.q == q
    ensures r.limit == limit && r.skip == skip
  {
    if category != "" then CategoryRequest(category, limit, skip) else SearchRequest(limit, skip, q)
  }

  const SearchPrefix := "https://dummyjson.com/products/search?limit="
  const CategoryPrefix := "https://dummyjson.com/products/category/"

  /** The URL text the template literals of `fetchProducts` produce for a request; its endpoint is the request's kind. */
  function RequestUrl(req: ProductsRequest): (url: string)
    ensures req.SearchRequest? ==> SearchPrefix <= url
    ensures req.CategoryRequest? ==> CategoryPrefix <= url
  {
    match req
    case SearchRequest(limit, skip, q) =>
      SearchPrefix + (IntToString(limit) + ("&skip=" + (IntToString(skip) + ("&q=" + q))))
    case CategoryRequest(category, limit, skip) =>
      CategoryPrefix + (category + ("?limit=" + (IntToString(limit) + ("&skip=" + IntToString(skip)))))
  }

  /** The URL `fetchProducts(skip, limit, q, category)` requests. */
  method FetchProductsUrl(skip: int, limit: int, q: string, category: string) returns (url: string)
    ensures url == RequestUrl(RequestFor(skip, limit, q, category))
    ensures DecodeUrl(url) == Some(RequestFor(skip, limit, q, category))
  {
    url := SearchPrefix + (IntToString(limit) + ("&skip=" + (IntToString(skip) + ("&q=" + q))));
    if category != "" {
      url := CategoryPrefix + (category + ("?limit=" + (IntToString(limit) + ("&skip=" + IntToString(skip)))));
    }
    DecodeRequestUrl(RequestFor(skip, limit, q, category));
  }

  /** `s` cut before its first `c`: the text before it, and the rest starting with `c`. */
  function SplitAtFirst(s: string, c: char): (r: Option<(string, string)>)
    ensures r.Some? ==> s == r.value.0 + r.value.1 && c !in r.value.0 && |r.value.1| > 0 && r.value.1[0] == c
    ensures r.None? ==> c !in s
  {
    if |s| == 0 then None
    else if s[0] == c then Some(([], s))
    else match SplitAtFirst(s[1..], c)
      case None => None
      case Some((before, after)) => Some(([s[0]] + before, after))
  }

  /** `s` cut before its last `c`: the text before it, and the rest starting with `c`. */
  function SplitAtLast(s: string, c: char): (r: Option<(string, string)>)
    ensures r.Some? ==> s == r.value.0 + r.value.1
    ensures r.Some? ==> |r.value.1| > 0 && r.value.1[0] == c && c !in r.value.1[1..]
    ensures r.None? ==> c !in s
  {
    if |s| == 0 then None
    else if s[|s| - 1] == c then Some((s[..|s| - 1], [c]))
    else match SplitAtLast(s[..|s| - 1], c)
      case None => None
      case Some((before, after)) => Some((before, after + [s[|s| - 1]]))
  }

  /** `s` without the leading `name`, if `s` starts with it. */
  function StripPrefix(s: string, name: string): (r: Option<string>)
    ensures r.Some? <==> name <= s
    ensures r.Some? ==> s == name + r.value
  {
    if name <= s then Some(s[|name|..]) else None
  }

  /**
   * The inverse of the URL template, written independently of it: the
   * endpoint from the path, then `limit`, `skip` and, for a search, all the
   * text after `&q=` as `q`. A category runs up to the last `?`. This is not
   * how a server parses a query string: it splits at every `&` and decodes
   * `+` and `%`, so a `q` holding those characters reads differently there.
   */
  function DecodeUrl(url: string): Option<ProductsRequest> {
    match StripPrefix(url, SearchPrefix)
    case Some(rest) => DecodeSearchQuery(rest)
    case None =>
      match StripPrefix(url, CategoryPrefix)
      case Some(rest) => DecodeCategoryPath(rest)
      case None => None
  }

  /** Reads `L&skip=K&q=Q`. */
  function DecodeSearchQuery(rest: string): Option<ProductsRequest> {
    match SplitAtFirst(rest, '&')
    case None => None
    case Some((limitText, afterLimit)) =>
      match StripPrefix(afterLimit, "&skip=")
      case None => None
      case Some(skipAndQ) =>
        match SplitAtFirst(skipAndQ, '&')
        case None => None
        case Some((skipText, qPart)) =>
          match StripPrefix(qPart, "&q=")
          case None => None
          case Some(q) => DecodeNumbers(limitText, skipText, (l, k) => SearchRequest(l, k, q))
  }

  /** Reads `C?limit=L&skip=K`. */
  function DecodeCategoryPath(rest: string): Option<ProductsRequest> {
    match SplitAtLast(rest, '?')
    case None => None
    case Some((category, query)) =>
      match StripPrefix(query, "?limit=")
      case None => None
      case Some(limitAndSkip) =>
        match SplitAtFirst(limitAndSkip, '&')
        case None => None
        case Some((limitText, skipPart)) =>
          match StripPrefix(skipPart, "&skip=")
          case None => None
          case Some(skipText) => DecodeNumbers(limitText, skipText, (l, k) => CategoryRequest(category, l, k))
  }

  /** Both numbers read with `parseInt`, then combined by `make`. */
  function DecodeNumbers(limitText: string, skipText: string, make: (int, int) -> ProductsRequest): Option<ProductsRequest> {
    match (ParseInt(limitText), ParseInt(skipText))
    case (Some(l), Some(k)) => Some(make(l, k))
    case _ => None
  }

  lemma {:induction false} SplitAtFirstSeparator(a: string, b: string, c: char)
    requires c !in a && |b| > 0 && b[0] == c
    ensures SplitAtFirst(a + b, c) == Some((a, b))
  {
    if a != [] {
      assert (a + b)[0] == a[0];
      assert (a + b)[1..] == a[1..] + b;
      SplitAtFirstSeparator(a[1..], b, c);
      assert [a[0]] + a[1..] == a;
    } else {
      assert a + b == b;
    }
  }

  lemma {:induction false} SplitAtLastSeparator(a: string, b: string, c: char)
    requires |b| > 0 && b[0] == c && c !in b[1..]
    ensures SplitAtLast(a + b, c) == Some((a, b))
  {
    var s := a + b;
    assert s[|s| - 1] == b[|b| - 1];
    if |b| > 1 {
      var b' := b[..|b| - 1];
      assert s[..|s| - 1] == a + b';
      assert b'[1..] == b[1..][..|b| - 2];
      SplitAtLastSeparator(a, b', c);
      assert b' + [b[|b| - 1]] == b;
    } else {
      assert s[..|s| - 1] == a;
      assert b == [c];
    }
  }

  lemma StripGivenPrefix(name: string, rest: string)
    ensures StripPrefix(name + rest, name) == Some(rest)
  {
    assert (name + rest)[|name|..] == rest;
  }

  /** No number text contains `&` or `?`, so either one delimits it in a URL. */
  lemma IntTextHasNoDelimiters(n: int)
    ensures '&' !in IntToString(n) && '?' !in IntToString(n)
  {
  }

  lemma DecodeNumbersOfText(limit: int, skip: int, make: (int, int) -> ProductsRequest)
    ensures DecodeNumbers(IntToString(limit), IntToString(skip), make) == Some(make(limit, skip))
  {
    ParseIntOfIntToString(limit);
    ParseIntOfIntToString(skip);
  }

  lemma DecodeSearchText(limit: int, skip: int, q: string)
    ensures DecodeSearchQuery(IntToString(limit) + ("&skip=" + (IntToString(skip) + ("&q=" + q))))
         == Some(SearchRequest(limit, skip, q))
  {
    var l, k := IntToString(limit), IntToString(skip);
    IntTextHasNoDelimiters(limit);
    IntTextHasNoDelimiters(skip);
    var qPart := "&q=" + q;
    var afterLimit := "&skip=" + (k + qPart);
    SplitAtFirstSeparator(l, afterLimit, '&');
    StripGivenPrefix("&skip=", k + qPart);
    SplitAtFirstSeparator(k, qPart, '&');
    StripGivenPrefix("&q=", q);
    DecodeNumbersOfText(limit, skip, (l', k') => SearchRequest(l', k', q));
  }

  lemma DecodeSearchUrl(limit: int, skip: int, q: string)
    ensures DecodeUrl(RequestUrl(SearchRequest(limit, skip, q))) == Some(SearchRequest(limit, skip, q))
  {
    var rest := IntToString(limit) + ("&skip=" + (IntToString(skip) + ("&q=" + q)));
    StripGivenPrefix(SearchPrefix, rest);
    DecodeSearchText(limit, skip, q);
  }

  lemma DecodeCategoryText(category: string, limit: int, skip: int)
    ensures DecodeCategoryPath(category + ("?limit=" + (IntToString(limit) + ("&skip=" + IntToString(skip)))))
         == Some(CategoryRequest(category, limit, skip))
  {
    var l, k := IntToString(limit), IntToString(skip);
    IntTextHasNoDelimiters(limit);
    IntTextHasNoDelimiters(skip);
    var skipPart := "&skip=" + k;
    var query := "?limit=" + (l + skipPart);
    assert query[1..] == "limit=" + (l + skipPart);
    SplitAtLastSeparator(category, query, '?');
    StripGivenPrefix("?limit=", l + skipPart);
    SplitAtFirstSeparator(l, skipPart, '&');
    StripGivenPrefix("&skip=", k);
    DecodeNumbersOfText(limit, skip, (l', k') => CategoryRequest(category, l', k'));
  }

  /** A category URL is not mistaken for a search URL. */
  lemma CategoryUrlIsNotSearch(rest: string)
    ensures StripPrefix(CategoryPrefix + rest, SearchPrefix).None?
  {
    assert (CategoryPrefix + rest)[31] == 'c' && SearchPrefix[31] == 's';
  }

  lemma DecodeCategoryUrl(category: string, limit: int, skip: int)
    ensures DecodeUrl(RequestUrl(CategoryRequest(category, limit, skip))) == Some(CategoryRequest(category, limit, skip))
  {
    var rest := category + ("?limit=" + (IntToString(limit) + ("&skip=" + IntToString(skip))));
    CategoryUrlIsNotSearch(rest);
    StripGivenPrefix(CategoryPrefix, rest);
    DecodeCategoryText(category, limit, skip);
  }

  /** The URL of every request decodes back to that request. */
  lemma DecodeRequestUrl(req: ProductsRequest)
    ensures DecodeUrl(RequestUrl(req)) == Some(req)
  {
    match req
    case SearchRequest(limit, skip, q) => DecodeSearchUrl(limit, skip, q);
    case CategoryRequest(category, limit, skip) => DecodeCategoryUrl(category, limit, skip);
  }

  /** Two different requests never share a URL. */
  lemma RequestUrlInjective(a: ProductsRequest, b: ProductsRequest)
    ensures RequestUrl(a) == RequestUrl(b) <==> a == b
  {
    DecodeRequestUrl(a);
    DecodeRequestUrl(b);
  }

  /**
   * Prev is off on the first page. From a page at or after the first, with a
   * positive page size, that is exactly when clicking it would change nothing.
   */
  function PrevDisabled(s: PageState): (r: bool)
    ensures s.skip >= 0 && s.limit > 0 ==> (r <==> MovedState(s, -s.limit) == s)
  {
    s.skip == 0
  }

  /** The total number of products the last answer reported; a missing answer counts as 0. */
  function TotalOrZero(total: Option<int>): (r: int)
    ensures total.Some? ==> r == total.value
    ensures total.None? ==> r == 0
  {
    total.GetOr(0)
  }

  /**
   * Next is off when the page after this one would start at or past the
   * total, that is, when no product is left to show.
   */
  function NextDisabled(s: PageState, total: Option<int>): (r: bool)
    ensures s.skip + s.limit >= 0 ==> (r <==> MovedState(s, s.limit).skip >= TotalOrZero(total))
  {
    s.skip + s.limit >= TotalOrZero(total)
  }

  /** While results have not arrived (or the total is 0), Next is off on every page at or after the first, for any page size that is not negative. */
  lemma NextDisabledWithoutTotal(s: PageState, total: Option<int>)
    requires s.skip >= 0 && s.limit >= 0
    requires total.None? || total == Some(0)
    ensures NextDisabled(s, total)
  {
  }

  /** Clicking an enabled Next moves forward by exactly `limit` and lands on a page that starts before the total. */
  lemma NextStaysBelowTotal(s: PageState, total: Option<int>)
    requires s.skip >= 0 && s.limit >= 0
    requires !NextDisabled(s, total)
    ensures MovedState(s, s.limit).skip == s.skip + s.limit < TotalOrZero(total)
  {
  }

  /**
   * With `skip` and `limit` both positive, clicking an enabled Prev moves back,
   * never past the first page. It lands on the first page, which disables
   * Prev, exactly when `skip` was at most `limit`.
   */
  lemma PrevStopsAtFirstPage(s: PageState)
    requires !PrevDisabled(s) && s.limit >= 0
    ensures s.skip > 0 && s.limit > 0 ==> MovedState(s, -s.limit).skip < s.skip
    ensures PrevDisabled(MovedState(s, -s.limit)) <==> s.skip <= s.limit
  {
  }

  /** The products query's cache key: the name `products` followed by the four values of the state. */
  function ProductsQueryKey(s: PageState): (string, int, int, string, string) {
    ("products", s.skip, s.limit, s.q, s.category)
  }

  /** Two renders share a cache entry exactly when they read the same state, and then they request the same URL. */
  lemma QueryKeyIdentifiesState(s: PageState, t: PageState)
    ensures ProductsQueryKey(s) == ProductsQueryKey(t) <==> s == t
    ensures ProductsQueryKey(s) == ProductsQueryKey(t) ==>
      RequestUrl(RequestFor(s.skip, s.limit, s.q, s.category)) == RequestUrl(RequestFor(t.skip, t.limit, t.q, t.category))
  {
  }
}
