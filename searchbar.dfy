/**
 * The search-bar slots of the main window (src/mainwindow_searchbar.cpp):
 *
 *  - in a text browser, every change of the search text highlights the
 *    successive matches of the text, at most `limit` of them when the limit
 *    is positive, and puts the cursor on the first one;
 *  - in the package file tree, a change of the search text replaces the list
 *    of found items and resets the cursor into that list, and Find Next /
 *    Find Previous move the cursor round the list.
 *
 * The widgets are not modelled. The text browser's `find` is a parameter
 * returning the next match at or after a cursor position, and the tree's
 * file search is a parameter returning the found items.
 */
module SearchBar {
  import opened Wrappers

  // ---------------------------------------------------------------------
  // Highlighting the matches in a text browser
  // ---------------------------------------------------------------------

  /** A matched range of the document, as the text cursor selects it:
      the match starts at `start` and the cursor is left at `end`. */
  datatype Selection = Selection(start: nat, end: nat)

  /** What a change of the search text does to the text browser. */
  datatype Highlight =
    | NoBrowser                                        // the tab has no text browser
    | HighlightsCleared                                // query too short: no highlight, cursor at start
    | NoMatch                                          // highlights cleared, "not found" style
    | Highlighted(marks: seq<Selection>, cursor: Selection)

  /** The shortest query that is searched for. */
  const MinQueryLength: nat := 2

  /**
   * What the model needs of the text browser's `find`: searching `query`
   * from `cursor` either finds nothing or selects a non-empty range that
   * starts at or after the cursor and lies inside a document of
   * `docLength` characters.
   */
  ghost predicate FindAdvances(find: (string, nat) -> Option<Selection>, query: string, docLength: nat) {
    forall cursor: nat :: find(query, cursor).Some? ==>
      cursor <= find(query, cursor).value.start < find(query, cursor).value.end <= docLength
  }

  /** Every match of `query` found by searching repeatedly from `from`,
      each search starting where the previous match ended. */
  ghost function Matches(
    find: (string, nat) -> Option<Selection>,
    query: string,
    from: nat,
    docLength: nat
  ): (r: seq<Selection>)
    requires from <= docLength && FindAdvances(find, query, docLength)
    ensures |r| <= docLength - from
    ensures forall i :: 0 <= i < |r| ==> from <= r[i].start < r[i].end <= docLength
    ensures forall i :: 0 < i < |r| ==> r[i - 1].end <= r[i].start
    decreases docLength - from
  {
    match find(query, from)
    case None => []
    case Some(m) => [m] + Matches(find, query, m.end, docLength)
  }

  /** The matches that are kept: the first `limit` of them when `limit` is
      positive, all of them otherwise. */
  function Limited(all: seq<Selection>, limit: int): (r: seq<Selection>)
    ensures limit <= 0 ==> r == all
    ensures limit > 0 ==> |r| == (if |all| < limit then |all| else limit)
    ensures r == all[..|r|]
  {
    if limit > 0 && |all| > limit then all[..limit] else all
  }

  /**
   * searchBarTextChanged: highlight the matches of `query`.
   * `hasBrowser` says whether the current tab holds a text browser and
   * `limit` is the configured number of highlighted items (not positive
   * for no limit).
   */
  method HighlightMatches(
    hasBrowser: bool,
    query: string,
    limit: int,
    find: (string, nat) -> Option<Selection>,
    docLength: nat
  ) returns (h: Highlight)
    requires FindAdvances(find, query, docLength)
    ensures !hasBrowser ==> h == NoBrowser
    ensures hasBrowser && |query| < MinQueryLength ==> h == HighlightsCleared
    ensures hasBrowser && |query| >= MinQueryLength ==>
              var all := Matches(find, query, 0, docLength);
              (h.NoMatch? <==> all == [])
              && (h.Highlighted? <==> all != [])
              && (h.Highlighted? ==> h.marks == Limited(all, limit) && h.cursor == h.marks[0])
    ensures h.Highlighted? && limit > 0 ==> 0 < |h.marks| <= limit
  {
    if !hasBrowser {
      return NoBrowser;
    }
    if query == "" || |query| < MinQueryLength {
      return HighlightsCleared;
    }
    ghost var all := Matches(find, query, 0, docLength);
    var marks: seq<Selection> := [];
    var cursor: nat := 0;
    while true
      invariant cursor <= docLength
      invariant marks + Matches(find, query, cursor, docLength) == all
      invariant limit > 0 ==> |marks| < limit
      decreases docLength - cursor
    {
      var next := find(query, cursor);
      if next.None? {
        break;
      }
      marks := marks + [next.value];
      cursor := next.value.end;
      if limit > 0 && |marks| == limit {
        assert all[..limit] == marks;
        return Highlighted(marks, marks[0]);
      }
    }
    if |marks| > 0 {
      h := Highlighted(marks, marks[0]);
    } else {
      h := NoMatch;
    }
  }

  // ---------------------------------------------------------------------
  // The found-item cursor of the package file tree
  // ---------------------------------------------------------------------

  /** Identity of an item of the package file tree. */
  type ModelIndex = nat

  /** What a change of the search text does to the file tree. */
  datatype TreeSelection =
    | SearchCleared              // empty text: nothing searched, nothing selected
    | FileFound(current: ModelIndex)
    | NoFileFound                // the first row is selected, "not found" style

  /** Find Next: the following position, wrapping to the first. */
  function NextIndex(i: int, count: nat): (r: int)
    ensures r == i + 1 || r == 0
    ensures 0 <= i < count ==> 0 <= r < count && r == (i + 1) % count
  {
    assert 0 <= i < count ==> (i + 1) % count == if i + 1 < count then i + 1 else 0 by {
      if 0 <= i < count {
        if i + 1 < count { ModUnique(i + 1, count, 0, i + 1); } else { ModUnique(i + 1, count, 1, 0); }
      }
    }
    if i + 1 < count then i + 1 else 0
  }

  /** Find Previous: the preceding position, wrapping from the first to the
      last. */
  function PrevIndex(i: int, count: nat): (r: int)
    ensures r == i - 1 || r == count - 1
    ensures 0 <= i < count ==> 0 <= r < count && r == (i + count - 1) % count
  {
    assert 0 <= i < count ==> (i + count - 1) % count == if i == 0 then count - 1 else i - 1 by {
      if 0 <= i < count {
        if i == 0 { ModUnique(count - 1, count, 0, count - 1); } else { ModUnique(i + count - 1, count, 1, i - 1); }
      }
    }
    if i == 0 then count - 1 else i - 1
  }

  /** The found items of the tree and the cursor into them. */
  class FileListSearch {
    var found: seq<ModelIndex>
    var index: int

    /** The cursor is on a found item, or at 0 when nothing was found. */
    ghost predicate Valid()
      reads this
    {
      if found == [] then index == 0 else 0 <= index < |found|
    }

    constructor ()
      ensures Valid() && found == [] && index == 0
    {
      found := [];
      index := 0;
    }

    /**
     * searchBarTextChangedEx: forget the previous results, then search the
     * tree with `findFileEx` unless the text is empty.
     */
    method TextChanged(text: string, findFileEx: string -> seq<ModelIndex>) returns (outcome: TreeSelection)
      modifies this
      ensures Valid() && index == 0
      ensures text == "" ==> found == [] && outcome == SearchCleared
      ensures text != "" ==> found == findFileEx(text)
      ensures text != "" ==> outcome == if found == [] then NoFileFound else FileFound(found[0])
    {
      found := [];
      index := 0;
      if text == "" {
        return SearchCleared;
      }
      found := findFileEx(text);
      if |found| > 0 {
        outcome := FileFound(found[0]);
      } else {
        outcome := NoFileFound;
      }
    }

    /** searchBarClosedEx: the search is reset as for an empty text. */
    method Closed()
      modifies this
      ensures Valid() && found == [] && index == 0
    {
      var _ := TextChanged("", _ => []);
    }

    /** searchBarFindNextEx: move to the next found item and select it. */
    method FindNext() returns (current: ModelIndex)
      requires Valid() && found != []
      modifies this`index
      ensures Valid()
      ensures index == NextIndex(old(index), |found|)
      ensures current == found[index]
    {
      if index + 1 < |found| {
        index := index + 1;
      } else {
        index := 0;
      }
      current := found[index];
    }

    /** searchBarFindPreviousEx: move to the previous found item and select it. */
    method FindPrevious() returns (current: ModelIndex)
      requires Valid() && found != []
      modifies this`index
      ensures Valid()
      ensures index == PrevIndex(old(index), |found|)
      ensures current == found[index]
    {
      if index == 0 {
        index := |found| - 1;
      } else {
        index := index - 1;
      }
      current := found[index];
    }
  }

  // ---------------------------------------------------------------------
  // Properties of the cursor arithmetic
  // ---------------------------------------------------------------------

  /** Find Previous undoes Find Next and the other way round. */
  lemma NextPrevInverse(i: int, count: nat)
    requires 0 <= i < count
    ensures PrevIndex(NextIndex(i, count), count) == i
    ensures NextIndex(PrevIndex(i, count), count) == i
  {
  }

  /** With nothing found, Find Previous leaves the cursor at -1 and Find Next
      at 0, both outside the (empty) list. */
  lemma EmptyListOutOfRange()
    ensures PrevIndex(0, 0) == -1 && NextIndex(0, 0) == 0
  {
  }

  /** The position reached after `k` presses of Find Next. */
  function NextSteps(i: int, count: nat, k: nat): int {
    if k == 0 then i else NextIndex(NextSteps(i, count, k - 1), count)
  }

  /** The position reached after `k` presses of Find Previous. */
  function PrevSteps(i: int, count: nat, k: nat): int {
    if k == 0 then i else PrevIndex(PrevSteps(i, count, k - 1), count)
  }

  /** A remainder is determined by any quotient-remainder split. */
  lemma ModUnique(x: int, n: int, q: int, r: int)
    requires n > 0 && 0 <= r < n && x == q * n + r
    ensures x % n == r
  {
    var d := q - x / n;
    assert x == (x / n) * n + x % n;
    assert d * n == x % n - r by {
      assert q * n - (x / n) * n == (q - x / n) * n;
    }
  }

  lemma ModSucc(a: int, n: nat)
    requires n > 0
    ensures (a % n + 1) % n == (a + 1) % n
  {
    var q, r := a / n, a % n;
    assert a == q * n + r;
    if r + 1 < n {
      ModUnique(a + 1, n, q, r + 1);
      ModUnique(r + 1, n, 0, r + 1);
    } else {
      assert (q + 1) * n == q * n + n;
      ModUnique(a + 1, n, q + 1, 0);
      ModUnique(r + 1, n, 1, 0);
    }
  }

  /** `k` presses of Find Next advance the cursor by `k` round the list, so
      `count` presses come back to where they started. */
  lemma {:induction false} NextStepsMod(i: int, count: nat, k: nat)
    requires 0 <= i < count
    ensures NextSteps(i, count, k) == (i + k) % count
  {
    if k > 0 {
      NextStepsMod(i, count, k - 1);
      ModSucc(i + k - 1, count);
    }
  }

  /** `k` presses of Find Previous move the cursor back by `k` round the list. */
  lemma {:induction false} PrevStepsMod(i: int, count: nat, k: nat)
    requires 0 <= i < count
    ensures PrevSteps(i, count, k) == (i - k) % count
  {
    if k > 0 {
      PrevStepsMod(i, count, k - 1);
      ModPred(i - k + 1, count);
    }
  }

  lemma ModPred(a: int, n: nat)
    requires n > 0
    ensures (a % n + n - 1) % n == (a - 1) % n
  {
    var q, r := a / n, a % n;
    assert a == q * n + r;
    if r > 0 {
      ModUnique(a - 1, n, q, r - 1);
      ModUnique(r + n - 1, n, 1, r - 1);
    } else {
      assert (q - 1) * n == q * n - n;
      ModUnique(a - 1, n, q - 1, n - 1);
      ModUnique(n - 1, n, 0, n - 1);
    }
  }
}
