# calorizator_parser in Dafny

This project models the core of `calorizator_parser`, a scraper for the product
listing of calorizator.ru. It has three parts:

- **The alphabet index** (`PageAlphabet`). A static table, recorded in February
  2024, maps a product's first letter to the listing pages holding products
  that start with it. `to_ranges` turns each letter's list of pages into a
  half-open page range. `get_ranges` looks a letter up.
- **The page parser** (`PageParser`). On one listing page it finds the first
  table whose header reads protein, fat, carbohydrates, calories, skipping
  tables whose markup does not fit. It then turns that table's body rows into
  a dictionary from product name to record.
- **Search and dump** (`Parser`, built on the merge in `PageFold`).
  `search_products` scans only the pages of the query's first letter and
  keeps the products whose lower-cased name contains the lower-cased query,
  tagged with their page number. `to_json_file` writes one page, or all pages
  merged into one dictionary with `dict.update`.

Python's exceptions are values of `Exceptions.Result`. An `AttributeError`
raised by dereferencing a missing HTML element is `Err(AttributeError)`. A
lookup of a missing key is `Err(KeyError(letter))`. A failed request is
`Err(HttpStatus(status))`. A page without the nutrition table is
`Err(MainTableNotFound)`. `Text` models the few string operations the code
uses: `strip()`, `lower()`, the first character of `title()`, and `in` on
strings.

The loops of the source are methods proved against specification functions:

| loop | method | specification |
|---|---|---|
| `to_ranges` | `ToRanges` | `RangesOf` |
| the table scan | `SelectTable` | `FirstTarget` |
| the row loop | `ExtractRows` | `RowsToData` |
| the `search_products` loops | `CollectHits`, `ScanPages` | `MatchesOn`, `Accumulate` |
| the `to_json_file` merge | `MergeAllPages` | `Accumulate` |

The properties the source promises are lemmas about those functions.

Some behaviour of the code that the model keeps:

- **Range bounds.** A range runs from a list's first recorded page
  (`pages[0]`) to its last (`pages[-1]`). For the shipped table that range
  holds exactly the recorded pages, because every list is ascending and
  contiguous (`February2024WellFormed`).
- **`parse_float` can raise.** Its docstring says that a failed parse gives
  0.0. That holds for text that `float()` rejects. A cell without a single
  string, however, makes `None.strip()` raise `AttributeError`, which the
  `except ValueError` does not catch, and that aborts the page (`ParseFloat`).
- **The lookup letter.** It is `title()[0]` of the whole query, so an empty
  query raises `IndexError` before any lookup.
- **The not-found error.** The exception for a page without the nutrition
  table is modelled as its own error kind, `MainTableNotFound`.
- **Other missing markup.** A page whose main content is missing raises
  `AttributeError`, and so does a missing `tbody`.

## Model

| member | source | states |
|---|---|---|
| PageAlphabet.RangeOf | calorizator_parser/__init__.py:50-53 | a list of several pages gives the range from its first to its last page inclusive; a one-page list gives a range holding exactly that page |
| PageAlphabet.ContiguousRangeIsExact | calorizator_parser/__init__.py:50-53 | for a contiguous list the range holds exactly the recorded pages, and it has one page per list entry |
| PageAlphabet.ToRanges | calorizator_parser/__init__.py:47-54 | the loop's result has exactly the input's letters, each mapped to the range of its list; an empty list raises IndexError |
| PageAlphabet.GetRangesIn | calorizator_parser/__init__.py:56-59 | a one-character key of the table yields that letter's range; any other string raises KeyError(letter); a table with an empty list raises IndexError first |
| PageAlphabet.GetRangesInExact | calorizator_parser/__init__.py:56-59 | for any table whose lists are non-empty and contiguous, a found range is non-empty and holds exactly the letter's recorded pages |
| PageAlphabet.February2024WellFormed | calorizator_parser/__init__.py:10-43 | every list of the shipped table is non-empty, ascending and contiguous |
| PageAlphabet.GetRanges | calorizator_parser/__init__.py:56-59 | the lookup succeeds iff the letter is a key of the shipped table, otherwise KeyError(letter); a found range is the letter's to_ranges entry, is non-empty and holds exactly the recorded pages |
| PageAlphabet.ShortIHasNoRange | calorizator_parser/__init__.py:10-43 | Й is not in the table, so its lookup raises KeyError |
| PageAlphabet.LatinBHasNoRange | calorizator_parser/__init__.py:10-43 | the Latin B is not in the table, so its lookup raises KeyError |
| PageAlphabet.LetterYaOnPage82 | calorizator_parser/__init__.py:43 | Я's range is the single page 82 |
| PageAlphabet.CyrillicLettersIndexed | calorizator_parser/__init__.py:8 | every letter of `cyrillic_str` has a range |
| PageAlphabet.PageFifteenUncovered | calorizator_parser/__init__.py:24-25 | no letter's range covers page 15, the gap between И and К |
| Text.StripLeadingSuffix | calorizator_parser/__init__.py:117 | lstrip keeps the longest suffix that does not start with whitespace; everything before it is whitespace |
| Text.StripTrailingPrefix | calorizator_parser/__init__.py:117 | rstrip keeps the longest prefix that does not end with whitespace; everything after it is whitespace |
| Text.StripTrims | calorizator_parser/__init__.py:117 | strip() gives a slice of its input with only whitespace around it, and the slice neither starts nor ends with whitespace |
| Text.StripUnchanged | calorizator_parser/__init__.py:151 | strip() leaves text unchanged when it neither starts nor ends with whitespace |
| Text.StripIdempotent | calorizator_parser/__init__.py:151 | stripping twice is stripping once |
| Text.CaseFoldAgrees | calorizator_parser/__init__.py:69 | lower-casing a character gives the same result whether or not it was upper-cased first, and the converse |
| Text.LowerIdempotent | calorizator_parser/__init__.py:76 | lower-casing twice is lower-casing once |
| Text.TitleHead | calorizator_parser/__init__.py:69 | `title()[0]` raises IndexError iff the query is empty; otherwise it is one character, its own capital, that lower-cases like the query's first |
| Text.ContainsSubstringIff | calorizator_parser/__init__.py:76 | the substring test holds iff the needle occurs at some index of the haystack |
| PageParser.DropTwo | calorizator_parser/__init__.py:130 | `[2:]` has two cells fewer than the header row (none when it has fewer than two), and its cell `i` is the row's cell `i + 2` |
| PageParser.LinkTexts | calorizator_parser/__init__.py:132 | collecting the link texts raises AttributeError iff some cell has no link; otherwise it gives each cell's link text in order |
| PageParser.TargetTableShape | calorizator_parser/__init__.py:130-136 | a table matches iff it has a header row of exactly six cells whose cells 2 to 5 link to the four expected labels |
| PageParser.FirstTarget | calorizator_parser/__init__.py:127-139 | picks the index of a matching table with no matching table before it; there is none iff no table matches |
| PageParser.SelectedTableCons | calorizator_parser/__init__.py:127-139 | the picked table is the first table when that one matches, and otherwise the table picked from the rest |
| PageParser.NonTargetTableIgnored | calorizator_parser/__init__.py:127-142 | adding a non-matching table anywhere, malformed or not, does not change which table is picked |
| PageParser.SelectTable | calorizator_parser/__init__.py:125-145 | the loop stops at the first matching table; MainTableNotFound iff no table matches |
| PageParser.ParseFloat | calorizator_parser/__init__.py:114-119 | raises AttributeError iff the cell has no string; otherwise never raises, giving the value float() gives the stripped text, or 0.0 when float() rejects it |
| PageParser.ParseFloatStripsAndDefaults | calorizator_parser/__init__.py:116-119 | surrounding whitespace does not change the number, text that float() accepts after stripping reads as float()'s value, and text it rejects reads as 0.0 |
| PageParser.ParseRow | calorizator_parser/__init__.py:151-157 | reading a row raises only IndexError or AttributeError |
| PageParser.ParseRowOk | calorizator_parser/__init__.py:149-157 | a row is read without an exception iff it has at least six cells, a link with a string in column 1 and a string in each of columns 2 to 5 |
| PageParser.ParseRowFields | calorizator_parser/__init__.py:151-157 | a readable row gives its stripped column-1 link text as the name, and columns 2 to 5 as protein, fat, carbohydrates and calories |
| PageParser.RowsToDataPrefixErr | calorizator_parser/__init__.py:148-159 | once a row raises, the page raises that exception, whatever the later rows hold |
| PageParser.RowsToDataOk | calorizator_parser/__init__.py:148-159 | the row loop completes iff every row is read without an exception |
| PageParser.RowsToDataKeys | calorizator_parser/__init__.py:159 | the page's names are exactly the names of its rows |
| PageParser.RowsToDataLastWins | calorizator_parser/__init__.py:159 | a name's record comes from the last row carrying that name |
| PageParser.RowsToDataErrors | calorizator_parser/__init__.py:148-159 | the row loop raises only IndexError or AttributeError |
| PageParser.ExtractRows | calorizator_parser/__init__.py:147-161 | the loop returns the row fold, including the first row's exception when one raises |
| PageParser.ParseCalorizatorPage | calorizator_parser/__init__.py:121-161 | raises MainTableNotFound iff the main content exists and no table in it matches; on success the records are those of the first matching table's body rows |
| PageParser.NonTargetTableChangesNothing | calorizator_parser/__init__.py:127-145 | a non-matching table added anywhere in the main content does not change what the page yields |
| PageFold.AccumulatePrefixErr | calorizator_parser/__init__.py:177-178 | once a page raises, later pages are never reached and the merge raises that exception |
| PageFold.AccumulateOk | calorizator_parser/__init__.py:177-178 | the merge succeeds iff every page of the range loads |
| PageFold.AccumulateFirstError | calorizator_parser/__init__.py:177-178 | a failing merge raises the exception of the first page that fails |
| PageFold.AccumulateKeys | calorizator_parser/__init__.py:177-178 | the merged names are the union of the pages' names |
| PageFold.AccumulateValueOrigin | calorizator_parser/__init__.py:177-178 | every merged entry is the entry of some page in the range under the same name |
| PageFold.AccumulateLastWins | calorizator_parser/__init__.py:177-178 | a name's merged entry comes from the last page that has the name |
| PageFold.AccumulateFrame | calorizator_parser/__init__.py:177-178 | the merge depends on no page outside its range |
| Parser.FetchAndParse | calorizator_parser/__init__.py:103-111 | a page is the parse of its fetched document; a request that fails with a non-200 status raises that error |
| Parser.CollectHits | calorizator_parser/__init__.py:75-77 | the inner loop adds to the matches exactly the page's matching names, with their records tagged with the page number |
| Parser.ScanPages | calorizator_parser/__init__.py:72-77 | the outer loop returns the merged hits of the range's pages; the pages it requests are those of the range, in order from its first page, and all of them when it succeeds |
| Parser.SearchProducts | calorizator_parser/__init__.py:68-81 | search returns the hits of the query's range; no page is requested when title()[0] or get_ranges raises, and only pages of the range otherwise |
| Parser.SearchPagesOk | calorizator_parser/__init__.py:72-74 | the search succeeds iff every page of the range loads |
| Parser.SearchPagesKeys | calorizator_parser/__init__.py:75-77 | a name is a hit iff its lower-cased form contains the lower-cased query and some page of the range lists it |
| Parser.SearchPagesHitOrigin | calorizator_parser/__init__.py:72-77 | every hit's page number lies in the range, and its data is the name's record on that page |
| Parser.SearchPagesLastWins | calorizator_parser/__init__.py:77 | a name listed on several pages of the range keeps the record and page number of the last of them |
| Parser.SearchPagesReadsOnlyRange | calorizator_parser/__init__.py:72-73 | the search result depends on no page outside the range |
| Parser.NameMatchesIgnoresCase | calorizator_parser/__init__.py:76 | matching ignores the case of the query and of the name |
| Parser.EmptyQueryRaises | calorizator_parser/__init__.py:69 | an empty query raises IndexError |
| Parser.QueryLookedUpUnderCapital | calorizator_parser/__init__.py:69-72 | a non-empty query is looked up under the capital letter of its first character, whatever that character's case; the lookup succeeds iff that capital is a key of the table |
| Parser.AppleOnPage82 | calorizator_parser/__init__.py:69-72 | "яблоко" is looked up under Я, and the scan covers page 82 only |
| Parser.LatinQueryRaises | calorizator_parser/__init__.py:69-72 | "banana" is looked up under B and raises KeyError("B") |
| Parser.MergeAllPages | calorizator_parser/__init__.py:175-178 | the merge loop returns pages 0 to page_amount - 1 merged in order, or the first page's exception |
| Parser.ToJsonFile | calorizator_parser/__init__.py:163-181 | a page number writes only that page and turns the full dump off; otherwise all_pages decides whether the merge of all pages is written; any exception aborts |

## Left out

- **HTTP requests.** `get_calorizator_page`, `get_calorizator_pages_amount` and
  the request they make in `Parser.__init__` are network I/O.
  - A request is the parameter `fetch`. A non-200 status is
    `HttpStatus(status)`, not a generic exception.
  - The page count is the parameter `pageAmount`.
  - Search and dump take the parsed site as the function `pages`.
    `SitePages` and `FetchAndParse` build it from `fetch`.
- **HTML.** BeautifulSoup's parsing and navigation (`get_main_content`,
  `find`, `find_all`, `.a`, `.string`) belong to a foreign library. A
  document is abstracted to the tables of its main content, each with the
  cells of its first header row and its body rows. An element the code
  dereferences that may be missing is an `Option`.
- **Numbers.** Python's `float()` grammar is the parameter `conv`, which gives
  None where `float()` raises `ValueError`. Floating-point values are modelled
  as `real`.
- **Files and output.** JSON serialisation, opening, truncating and appending
  files, and `print` are file I/O.
  - `ToJsonFile` returns what each file would hold.
  - It does not model that `calorizator.json` is created empty before the
    merge.
  - It does not model that a page file is left empty when parsing the page
    raises.
- **Case mapping outside the modelled scripts.** `lower()` and `title()` are
  modelled for Basic Latin and the Cyrillic block U+0400 to U+045F. Other
  characters are left unchanged, and case mappings that change a string's
  length are not modelled.
- **Dictionary order.** `ToRanges` and `CollectHits` take the keys in an
  arbitrary order. Their results do not depend on the order, but Python's
  insertion order of the returned dictionaries is not modelled.
- **`latin_str`.** It is not used by the code and is not modelled.
  `cyrillic_str` appears only in `CyrillicLettersIndexed`.
