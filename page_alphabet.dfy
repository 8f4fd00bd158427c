/** `PageAlphabet`: which listing pages hold the products whose names start
    with a given letter, from a snapshot of the site taken in February 2024. */
module PageAlphabet {

  import opened Exceptions

  /** Python's `range(start, stop)`: the pages `start <= p < stop`. */
  datatype PageRange = PageRange(start: int, stop: int) {
    predicate Contains(p: int) {
      start <= p < stop
    }
  }

  /** `cyrillic_str`: the upper-case Russian letters without Й, Ъ, Ы and Ь. */
  const CyrillicLetters: string := "АБВГДЕЁЖЗИКЛМНОПРСТУФХЦЧШЩЭЮЯ"

  /** `local_data_on_february_2024`: for each leading character, the listing
      pages on which products starting with it were seen. The keys 'A', 'E',
      'F' and 'N' are Latin; the other letters are Cyrillic. */
  const February2024: map<char, seq<int>> := map[
    '7' := [0],
    'A' := [0],
    'E' := [0],
    'F' := [0],
    'N' := [0],
    'Ё' := [12],
    'А' := [0, 1],
    'Б' := [1, 2, 3, 4, 5],
    'В' := [5, 6, 7],
    'Г' := [7, 8, 9, 10],
    'Д' := [10, 11, 12],
    'Е' := [12],
    'Ж' := [12],
    'З' := [12, 13],
    'И' := [13, 14],
    'К' := [16, 17, 18, 19, 20, 21, 22, 23, 24],
    'Л' := [24, 25, 26],
    'М' := [26, 27, 28, 29, 30, 31, 32, 33, 34],
    'Н' := [34, 35],
    'О' := [35, 36, 37, 38],
    'П' := [38, 39, 40, 41, 42, 43, 44, 45, 46, 47, 48, 49],
    'Р' := [49, 50, 51, 52],
    'С' := [52, 53, 54, 55, 56, 57, 58, 59, 60, 61, 62, 63, 64, 65, 66, 67, 68],
    'Т' := [68, 69, 70, 71, 72, 73],
    'У' := [73],
    'Ф' := [73, 74],
    'Х' := [74, 75, 76, 77],
    'Ц' := [77],
    'Ч' := [77, 78, 79],
    'Ш' := [79, 80, 81],
    'Щ' := [81, 82],
    'Э' := [82],
    'Ю' := [82],
    'Я' := [82]
  ]

  /** The range `to_ranges` gives one non-empty list of pages: from the first
      recorded page up to and including the last one. */
  function RangeOf(pages: seq<int>): (r: PageRange)
    requires |pages| > 0
    ensures forall p :: r.Contains(p) <==> pages[0] <= p <= pages[|pages| - 1]
    ensures |pages| == 1 ==> forall p :: r.Contains(p) <==> p == pages[0]
  {
    if |pages| > 1 then PageRange(pages[0], pages[|pages| - 1] + 1)
    else PageRange(pages[0], pages[0] + 1)
  }

  /** Each recorded page is the one before it plus one. */
  predicate Contiguous(pages: seq<int>) {
    forall i :: 0 <= i < |pages| - 1 ==> pages[i + 1] == pages[i] + 1
  }

  lemma {:induction false} ContiguousAt(pages: seq<int>, k: nat)
    requires Contiguous(pages) && k < |pages|
    ensures pages[k] == pages[0] + k
  {
    if k > 0 {
      ContiguousAt(pages, k - 1);
    }
  }

  /** For a contiguous list the range holds exactly the recorded pages, one
      page of the range per entry of the list. */
  lemma ContiguousRangeIsExact(pages: seq<int>)
    requires |pages| > 0 && Contiguous(pages)
    ensures RangeOf(pages).stop - RangeOf(pages).start == |pages|
    ensures forall p :: RangeOf(pages).Contains(p) <==> p in pages
  {
    ContiguousAt(pages, |pages| - 1);
    forall p | RangeOf(pages).Contains(p)
      ensures p in pages
    {
      ContiguousAt(pages, p - pages[0]);
    }
    forall p | p in pages
      ensures RangeOf(pages).Contains(p)
    {
      var k :| 0 <= k < |pages| && pages[k] == p;
      ContiguousAt(pages, k);
    }
  }

  /** What `to_ranges` returns for `table`: `IndexError` when some list is
      empty, otherwise each letter's range. */
  function RangesOf<K>(table: map<K, seq<int>>): Result<map<K, PageRange>>
  {
    if forall l :: l in table ==> |table[l]| > 0
    then Ok(map l | l in table :: RangeOf(table[l]))
    else Err(IndexError)
  }

  /** `to_ranges`: one range per letter of the table, built in a loop over
      its entries. */
  method ToRanges<K>(table: map<K, seq<int>>) returns (r: Result<map<K, PageRange>>)
    ensures r.Ok? <==> forall l :: l in table ==> |table[l]| > 0
    ensures r.Err? ==> r.error == IndexError
    ensures r.Ok? ==> r.value.Keys == table.Keys
    ensures r.Ok? ==> forall l :: l in table ==> r.value[l] == RangeOf(table[l])
    ensures r == RangesOf(table)
  {
    var ranges: map<K, PageRange> := map[];
    var todo := table.Keys;
    while todo != {}
      invariant todo <= table.Keys
      invariant ranges.Keys == table.Keys - todo
      invariant forall l :: l in ranges ==> |table[l]| > 0 && ranges[l] == RangeOf(table[l])
      decreases todo
    {
      var letter :| letter in todo;
      var pages := table[letter];
      if |pages| == 0 {
        // `pages[0]` on an empty list
        return Err(IndexError);
      }
      if |pages| > 1 {
        ranges := ranges[letter := PageRange(pages[0], pages[|pages| - 1] + 1)];
      } else {
        ranges := ranges[letter := PageRange(pages[0], pages[0] + 1)];
      }
      todo := todo - {letter};
    }
    assert ranges == map l | l in table :: RangeOf(table[l]);
    return Ok(ranges);
  }

  /** `to_ranges(table)[letter]`; the table's keys are one-character
      strings, so a longer or empty `letter` is never a key. */
  function GetRangesIn(table: map<char, seq<int>>, letter: string): (r: Result<PageRange>)
    ensures (forall l :: l in table ==> |table[l]| > 0) ==>
              (r.Ok? <==> |letter| == 1 && letter[0] in table) &&
              (r.Ok? ==> r.value == RangeOf(table[letter[0]])) &&
              (r.Err? ==> r.error == KeyError(letter))
    ensures (exists l :: l in table && |table[l]| == 0) ==> r == Err(IndexError)
  {
    var ranges :- RangesOf(table);
    if |letter| == 1 && letter[0] in ranges then Ok(ranges[letter[0]]) else Err(KeyError(letter))
  }

  /** `l` is a key of `table` whose list is non-empty and contiguous. */
  predicate ListedAt(table: map<char, seq<int>>, l: char) {
    l in table && |table[l]| > 0 && Contiguous(table[l])
  }

  /** Every list of `table` is non-empty and contiguous. */
  predicate WellFormedTable(table: map<char, seq<int>>) {
    forall l :: l in table ==> ListedAt(table, l)
  }

  // The lists of the shipped table, checked a few letters at a time.

  lemma ListsGroup1Contiguous()
    ensures ListedAt(February2024, '7')
    ensures ListedAt(February2024, 'A')
    ensures ListedAt(February2024, 'E')
  {
    assert February2024['7'] == [0];
    assert February2024['A'] == [0];
    assert February2024['E'] == [0];
  }

  lemma ListsGroup2Contiguous()
    ensures ListedAt(February2024, 'F')
    ensures ListedAt(February2024, 'N')
    ensures ListedAt(February2024, 'Ё')
  {
    assert February2024['F'] == [0];
    assert February2024['N'] == [0];
    assert February2024['Ё'] == [12];
  }

  lemma ListsGroup3Contiguous()
    ensures ListedAt(February2024, 'А')
    ensures ListedAt(February2024, 'Б')
    ensures ListedAt(February2024, 'В')
  {
    assert February2024['А'] == [0, 1];
    assert February2024['Б'] == [1, 2, 3, 4, 5];
    assert February2024['В'] == [5, 6, 7];
  }

  lemma ListsGroup4Contiguous()
    ensures ListedAt(February2024, 'Г')
    ensures ListedAt(February2024, 'Д')
    ensures ListedAt(February2024, 'Е')
  {
    assert February2024['Г'] == [7, 8, 9, 10];
    assert February2024['Д'] == [10, 11, 12];
    assert February2024['Е'] == [12];
  }

  lemma ListsGroup5Contiguous()
    ensures ListedAt(February2024, 'Ж')
    ensures ListedAt(February2024, 'З')
    ensures ListedAt(February2024, 'И')
  {
    assert February2024['Ж'] == [12];
    assert February2024['З'] == [12, 13];
    assert February2024['И'] == [13, 14];
  }

  lemma ListsGroup6Contiguous()
    ensures ListedAt(February2024, 'К')
    ensures ListedAt(February2024, 'Л')
    ensures ListedAt(February2024, 'М')
  {
    assert February2024['К'] == [16, 17, 18, 19, 20, 21, 22, 23, 24];
    assert February2024['Л'] == [24, 25, 26];
    assert February2024['М'] == [26, 27, 28, 29, 30, 31, 32, 33, 34];
  }

  lemma ListsGroup7Contiguous()
    ensures ListedAt(February2024, 'Н')
    ensures ListedAt(February2024, 'О')
    ensures ListedAt(February2024, 'П')
  {
    assert February2024['Н'] == [34, 35];
    assert February2024['О'] == [35, 36, 37, 38];
    assert February2024['П'] == [38, 39, 40, 41, 42, 43, 44, 45, 46, 47, 48, 49];
  }

  lemma ListsGroup8Contiguous()
    ensures ListedAt(February2024, 'Р')
    ensures ListedAt(February2024, 'С')
    ensures ListedAt(February2024, 'Т')
  {
    assert February2024['Р'] == [49, 50, 51, 52];
    assert February2024['С'] == [52, 53, 54, 55, 56, 57, 58, 59, 60, 61, 62, 63, 64, 65, 66, 67, 68];
    assert February2024['Т'] == [68, 69, 70, 71, 72, 73];
  }

  lemma ListsGroup9Contiguous()
    ensures ListedAt(February2024, 'У')
    ensures ListedAt(February2024, 'Ф')
    ensures ListedAt(February2024, 'Х')
  {
    assert February2024['У'] == [73];
    assert February2024['Ф'] == [73, 74];
    assert February2024['Х'] == [74, 75, 76, 77];
  }

  lemma ListsGroup10Contiguous()
    ensures ListedAt(February2024, 'Ц')
    ensures ListedAt(February2024, 'Ч')
    ensures ListedAt(February2024, 'Ш')
  {
    assert February2024['Ц'] == [77];
    assert February2024['Ч'] == [77, 78, 79];
    assert February2024['Ш'] == [79, 80, 81];
  }

  lemma ListsGroup11Contiguous()
    ensures ListedAt(February2024, 'Щ')
    ensures ListedAt(February2024, 'Э')
  {
    assert February2024['Щ'] == [81, 82];
    assert February2024['Э'] == [82];
  }

  lemma ListsGroup12Contiguous()
    ensures ListedAt(February2024, 'Ю')
    ensures ListedAt(February2024, 'Я')
  {
    assert February2024['Ю'] == [82];
    assert February2024['Я'] == [82];
  }

  /** The shipped table has no keys but the 34 it lists. */
  lemma February2024Keys()
    ensures forall l :: l in February2024 ==>
              l == '7' || l == 'A' || l == 'E' || l == 'F' || l == 'N' || l == 'Ё' ||
              l == 'А' || l == 'Б' || l == 'В' || l == 'Г' || l == 'Д' || l == 'Е' ||
              l == 'Ж' || l == 'З' || l == 'И' || l == 'К' || l == 'Л' || l == 'М' ||
              l == 'Н' || l == 'О' || l == 'П' || l == 'Р' || l == 'С' || l == 'Т' ||
              l == 'У' || l == 'Ф' || l == 'Х' || l == 'Ц' || l == 'Ч' || l == 'Ш' ||
              l == 'Щ' || l == 'Э' || l == 'Ю' || l == 'Я'
  {
  }

  /** Every list of the shipped table is non-empty and contiguous. */
  lemma February2024WellFormed()
    ensures WellFormedTable(February2024)
  {
    February2024Keys();
    ListsGroup1Contiguous();
    ListsGroup2Contiguous();
    ListsGroup3Contiguous();
    ListsGroup4Contiguous();
    ListsGroup5Contiguous();
    ListsGroup6Contiguous();
    ListsGroup7Contiguous();
    ListsGroup8Contiguous();
    ListsGroup9Contiguous();
    ListsGroup10Contiguous();
    ListsGroup11Contiguous();
    ListsGroup12Contiguous();
  }

  /** In a well-formed table a found range is non-empty and holds exactly
      the letter's recorded pages. */
  lemma GetRangesInExact(table: map<char, seq<int>>, letter: string)
    requires WellFormedTable(table)
    ensures GetRangesIn(table, letter).Ok? ==>
              && GetRangesIn(table, letter).value.start < GetRangesIn(table, letter).value.stop
              && forall p :: GetRangesIn(table, letter).value.Contains(p) <==> p in table[letter[0]]
  {
    if GetRangesIn(table, letter).Ok? {
      ContiguousRangeIsExact(table[letter[0]]);
    }
  }

  /** `get_ranges`: the range of `letter` in the shipped table, `KeyError` for
      a letter the table lacks. */
  function GetRanges(letter: string): (r: Result<PageRange>)
    ensures r.Ok? <==> |letter| == 1 && letter[0] in February2024
    ensures r.Err? ==> r.error == KeyError(letter)
    ensures r.Ok? ==> r.value == RangeOf(February2024[letter[0]])
    ensures r.Ok? ==> r.value.start < r.value.stop
    ensures r.Ok? ==> forall p :: r.value.Contains(p) <==> p in February2024[letter[0]]
  {
    February2024WellFormed();
    GetRangesInExact(February2024, letter);
    GetRangesIn(February2024, letter)
  }

  /** Й is not a key of the table, so it has no range. */
  lemma ShortIHasNoRange()
    ensures GetRanges("Й") == Err(KeyError("Й"))
  {
    assert "Й"[0] == 'Й' && 'Й' !in February2024;
  }

  /** Я has the single page 82, so its range is that one page. */
  lemma LetterYaOnPage82()
    ensures GetRanges("Я") == Ok(PageRange(82, 83))
  {
    assert "Я"[0] == 'Я' && February2024['Я'] == [82];
  }

  /** Nor has the Latin B, although four other Latin capitals are keys. */
  lemma LatinBHasNoRange()
    ensures GetRanges("B") == Err(KeyError("B"))
  {
    assert "B"[0] == 'B' && 'B' !in February2024;
  }

  /** Every letter of `cyrillic_str` has a range. */
  lemma CyrillicLettersIndexed()
    ensures forall i :: 0 <= i < |CyrillicLetters| ==> GetRanges([CyrillicLetters[i]]).Ok?
  {
  }

  /** No letter's range covers page 15. */
  lemma PageFifteenUncovered()
    ensures forall l :: l in February2024 ==> !RangeOf(February2024[l]).Contains(15)
  {
  }
}
