/** The `Parser` operations built on page loading: `search_products`, which
    scans the pages of the query's first letter for matching product names,
    and `to_json_file`, which writes one page or all pages merged. Both take
    the site's pages as `pages`: page `p` is what
    `parse_calorizator_page(get_calorizator_page(p))` yields, which
    `FetchAndParse` computes from a given `fetch`. */
module Parser {

  import opened Exceptions
  import opened Text
  import opened PageAlphabet
  import opened PageParser
  import opened PageFold

  /** `get_calorizator_page(p)` with the page's HTML parsed: its document, or
      `HttpStatus` when the site answered something other than 200. */
  type Fetch = int -> Result<Document>

  /** The parsed pages of the site, by page index. */
  type Pages = Loader<Record>

  /** One search hit: `{"data": ..., "page_number": ...}`. */
  datatype Match = Match(data: Record, pageNumber: int)

  /** `parse_calorizator_page(get_calorizator_page(p))`. */
  function LoadPage(fetch: Fetch, conv: FloatConversion, p: int): Result<PageData>
  {
    var doc :- fetch(p);
    PageSpec(conv, doc)
  }

  /** The pages of the site as `fetch` serves them. */
  function SitePages(fetch: Fetch, conv: FloatConversion): Pages {
    p => LoadPage(fetch, conv, p)
  }

  /** `self.parse_calorizator_page(self.get_calorizator_page(p))`: the
      request's exception, or the page's records. */
  method FetchAndParse(fetch: Fetch, conv: FloatConversion, p: int) returns (r: Result<PageData>)
    ensures r == SitePages(fetch, conv)(p)
    ensures fetch(p).Err? ==> r == Err(fetch(p).error)
  {
    var content := fetch(p);
    if content.Err? {
      return Err(content.error);
    }
    r := ParseCalorizatorPage(conv, content.value);
  }

  /** `product_name.lower() in product.lower()`. */
  predicate NameMatches(query: string, name: string) {
    ContainsSubstring(Lower(name), Lower(query))
  }

  /** The hits of one page: its matching names with their records, tagged
      with the page number. */
  function MatchesOn(query: string, data: PageData, p: int): map<string, Match> {
    map n | n in data && NameMatches(query, n) :: Match(data[n], p)
  }

  /** Load page `p` and keep its hits. */
  function PageMatches(pages: Pages, query: string, p: int): Result<map<string, Match>> {
    var data :- pages(p);
    Ok(MatchesOn(query, data, p))
  }

  function MatchLoader(pages: Pages, query: string): Loader<Match> {
    p => PageMatches(pages, query, p)
  }

  /** `alphabet.get_ranges(product_name.title()[0])`. */
  function SearchRange(query: string): Result<PageRange> {
    var head :- TitleHead(query);
    GetRanges(head)
  }

  /** The hits of the pages of `range`, merged page after page. */
  function SearchPages(pages: Pages, query: string, range: PageRange): Result<map<string, Match>> {
    Accumulate(MatchLoader(pages, query), range.start, range.stop)
  }

  /** What `search_products` returns: the hits of the pages in the query's
      range. */
  function Search(pages: Pages, query: string): Result<map<string, Match>> {
    var range :- SearchRange(query);
    SearchPages(pages, query, range)
  }

  /** The inner `for product in data` loop of `search_products`: the hits of
      one page added to `matches`. */
  method CollectHits(query: string, data: PageData, page: int, matches: map<string, Match>)
    returns (r: map<string, Match>)
    ensures r == matches + MatchesOn(query, data, page)
  {
    r := matches;
    var todo := data.Keys;
    ghost var done: set<string> := {};
    while todo != {}
      invariant todo !! done && todo + done == data.Keys
      invariant r == matches + map n | n in done && NameMatches(query, n) :: Match(data[n], page)
      decreases todo
    {
      var product :| product in todo;
      if NameMatches(query, product) {
        r := r[product := Match(data[product], page)];
      }
      todo := todo - {product};
      done := done + {product};
    }
  }

  /** The outer `for page_number in ...` loop of `search_products`.
      `fetched` lists the pages requested, in order: the pages of `range`
      from its first page on, all of them when the scan succeeds. */
  method ScanPages(pages: Pages, query: string, range: PageRange)
    returns (r: Result<map<string, Match>>, ghost fetched: seq<int>)
    requires range.start <= range.stop
    ensures r == SearchPages(pages, query, range)
    ensures |fetched| <= range.stop - range.start
    ensures forall i :: 0 <= i < |fetched| ==> fetched[i] == range.start + i
    ensures r.Ok? ==> |fetched| == range.stop - range.start
  {
    fetched := [];
    ghost var load := MatchLoader(pages, query);
    var matches: map<string, Match> := map[];
    var page := range.start;
    while page < range.stop
      invariant range.start <= page <= range.stop
      invariant Accumulate(load, range.start, page) == Ok(matches)
      invariant |fetched| == page - range.start
      invariant forall i :: 0 <= i < |fetched| ==> fetched[i] == range.start + i
      decreases range.stop - page
    {
      var data := pages(page);
      fetched := fetched + [page];
      if data.Err? {
        assert Accumulate(load, range.start, page + 1) == Err(data.error);
        AccumulatePrefixErr(load, range.start, page + 1, range.stop);
        return Err(data.error), fetched;
      }
      assert load(page) == Ok(MatchesOn(query, data.value, page));
      matches := CollectHits(query, data.value, page, matches);
      page := page + 1;
    }
    r := Ok(matches);
  }

  /** `search_products`: the pages of the query's range, or the exception of
      `title()[0]` or of `get_ranges`; no page is requested unless the range
      is known, and only pages of the range are. */
  method SearchProducts(pages: Pages, query: string)
    returns (r: Result<map<string, Match>>, ghost fetched: seq<int>)
    ensures r == Search(pages, query)
    ensures SearchRange(query).Err? ==> fetched == []
    ensures SearchRange(query).Ok? ==>
              var range := SearchRange(query).value;
              && |fetched| <= range.stop - range.start
              && (forall i :: 0 <= i < |fetched| ==> fetched[i] == range.start + i)
              && (r.Ok? ==> |fetched| == range.stop - range.start)
  {
    var head := TitleHead(query);
    if head.Err? {
      return Err(head.error), [];
    }
    var found := GetRanges(head.value);
    if found.Err? {
      return Err(found.error), [];
    }
    r, fetched := ScanPages(pages, query, found.value);
  }

  /** The scan succeeds exactly when every page of the range loads. */
  lemma SearchPagesOk(pages: Pages, query: string, range: PageRange)
    ensures SearchPages(pages, query, range).Ok? <==>
              forall p :: range.Contains(p) ==> pages(p).Ok?
  {
    var load := MatchLoader(pages, query);
    AccumulateOk(load, range.start, range.stop);
    assert forall p :: load(p).Ok? <==> pages(p).Ok?;
  }

  /** A name is found exactly when its lower-cased form contains the
      lower-cased query and some page of the range lists it. */
  lemma SearchPagesKeys(pages: Pages, query: string, range: PageRange, n: string)
    requires SearchPages(pages, query, range).Ok?
    ensures n in SearchPages(pages, query, range).value <==>
              NameMatches(query, n) &&
              exists p :: range.Contains(p) && pages(p).Ok? && n in pages(p).value
  {
    var load := MatchLoader(pages, query);
    AccumulateKeys(load, range.start, range.stop, n);
    if n in SearchPages(pages, query, range).value {
      var p :| range.start <= p < range.stop && load(p).Ok? && n in load(p).value;
      assert range.Contains(p) && pages(p).Ok? && n in pages(p).value;
    }
    if NameMatches(query, n) &&
       exists p :: range.Contains(p) && pages(p).Ok? && n in pages(p).value {
      var p :| range.Contains(p) && pages(p).Ok? && n in pages(p).value;
      assert range.start <= p < range.stop && load(p).Ok? && n in load(p).value;
    }
  }

  /** Every hit is the record the name has on the page the hit names, and
      that page lies in the range. */
  lemma SearchPagesHitOrigin(pages: Pages, query: string, range: PageRange, n: string)
    requires SearchPages(pages, query, range).Ok? && n in SearchPages(pages, query, range).value
    ensures var hit := SearchPages(pages, query, range).value[n];
            && range.Contains(hit.pageNumber)
            && NameMatches(query, n)
            && pages(hit.pageNumber).Ok?
            && n in pages(hit.pageNumber).value
            && hit.data == pages(hit.pageNumber).value[n]
  {
    AccumulateValueOrigin(MatchLoader(pages, query), range.start, range.stop, n);
  }

  /** A name listed on several pages of the range keeps the record and the
      page number of the last of them. */
  lemma SearchPagesLastWins(pages: Pages, query: string, range: PageRange, p: int, n: string)
    requires SearchPages(pages, query, range).Ok?
    requires range.Contains(p) && pages(p).Ok? && n in pages(p).value
    requires NameMatches(query, n)
    requires forall q :: p < q < range.stop && pages(q).Ok? ==> n !in pages(q).value
    ensures n in SearchPages(pages, query, range).value
    ensures SearchPages(pages, query, range).value[n] == Match(pages(p).value[n], p)
  {
    var load := MatchLoader(pages, query);
    forall q | p < q < range.stop && load(q).Ok?
      ensures n !in load(q).value
    {
    }
    AccumulateLastWins(load, range.start, range.stop, p, n);
  }

  /** The scan depends on no page outside the range. */
  lemma SearchPagesReadsOnlyRange(pages: Pages, pages': Pages, query: string, range: PageRange)
    requires forall p :: range.Contains(p) ==> pages(p) == pages'(p)
    ensures SearchPages(pages, query, range) == SearchPages(pages', query, range)
  {
    var load, load' := MatchLoader(pages, query), MatchLoader(pages', query);
    forall p | range.start <= p < range.stop
      ensures load(p) == load'(p)
    {
      assert range.Contains(p);
    }
    AccumulateFrame(load, load', range.start, range.stop);
  }

  /** Matching ignores the case of the query and of the name. */
  lemma NameMatchesIgnoresCase(query: string, name: string)
    ensures NameMatches(Lower(query), name) == NameMatches(query, name)
    ensures NameMatches(query, Lower(name)) == NameMatches(query, name)
  {
    LowerIdempotent(query);
    LowerIdempotent(name);
  }

  /** An empty query raises `IndexError` at `title()[0]`. */
  lemma EmptyQueryRaises()
    ensures SearchRange("") == Err(IndexError)
  {
  }

  /** A non-empty query is looked up under the capital of its first
      character: any letter `l` that is its own capital and that lower-cases
      like the query's first character. */
  lemma QueryLookedUpUnderCapital(q: string, l: char)
    requires |q| > 0 && UpperChar(l) == l && LowerChar(q[0]) == LowerChar(l)
    ensures SearchRange(q) == GetRanges([l])
    ensures SearchRange(q).Ok? <==> l in February2024
  {
    CaseFoldAgrees(q[0]);
    CaseFoldAgrees(l);
  }

  /** "яблоко" (apple) is looked up under Я, whose only page is 82. */
  lemma AppleOnPage82()
    ensures SearchRange("яблоко") == Ok(PageRange(82, 83))
  {
    assert TitleHead("яблоко") == Ok("Я");
    LetterYaOnPage82();
  }

  /** A Latin query such as "banana" is looked up under B, which the table
      lacks. */
  lemma LatinQueryRaises()
    ensures SearchRange("banana") == Err(KeyError("B"))
  {
    assert TitleHead("banana") == Ok("B");
    LatinBHasNoRange();
  }

  /** The `temp.update(...)` loop of `to_json_file`: pages 0 to
      `pageAmount - 1` merged page after page. */
  method MergeAllPages(pages: Pages, pageAmount: int) returns (r: Result<PageData>)
    ensures r == Accumulate(pages, 0, pageAmount)
  {
    var temp: PageData := map[];
    var page := 0;
    while page < pageAmount
      invariant 0 <= page && (page <= pageAmount || page == 0)
      invariant Accumulate(pages, 0, page) == Ok(temp)
      decreases pageAmount - page
    {
      var data := pages(page);
      if data.Err? {
        AccumulatePrefixErr(pages, 0, page + 1, pageAmount);
        return Err(data.error);
      }
      temp := temp + data.value;
      page := page + 1;
    }
    return Ok(temp);
  }

  /** The JSON files `to_json_file` leaves: `calorizator_page_<n>.json` with
      page `n`, and `calorizator.json` with all pages merged. */
  datatype Written = Written(pageFile: Option<(int, PageData)>, dump: Option<PageData>)

  /** `to_json_file`: a page number writes that page alone (and switches the
      full dump off); otherwise `allPages` decides whether all pages are
      merged and dumped. */
  method ToJsonFile(pages: Pages, pageAmount: int, pageNumber: Option<int>, allPages: bool)
    returns (r: Result<Written>)
    ensures pageNumber.Some? ==>
              var data := pages(pageNumber.value);
              r == if data.Ok? then Ok(Written(Some((pageNumber.value, data.value)), None)) else Err(data.error)
    ensures pageNumber.None? && allPages ==>
              var merged := Accumulate(pages, 0, pageAmount);
              r == if merged.Ok? then Ok(Written(None, Some(merged.value))) else Err(merged.error)
    ensures pageNumber.None? && !allPages ==> r == Ok(Written(None, None))
  {
    var all := allPages;
    var pageFile: Option<(int, PageData)> := None;
    if pageNumber.Some? {
      all := false;
      var data := pages(pageNumber.value);
      if data.Err? {
        return Err(data.error);
      }
      pageFile := Some((pageNumber.value, data.value));
    }
    var dump: Option<PageData> := None;
    if all {
      var temp := MergeAllPages(pages, pageAmount);
      if temp.Err? {
        return Err(temp.error);
      }
      dump := Some(temp.value);
    }
    return Ok(Written(pageFile, dump));
  }
}
