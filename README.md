# Octopi search bar and package tooltip, modelled in Dafny

Octopi is a Qt front-end for the pacman package manager. This project models the
two pieces of its main window that carry logic of their own. The rest is widget glue.

- **The package tooltip** (`showPackageInfo` in `src/globals.cpp`). The main window
  looks up the first repository entry with the package's name. If there is none, or
  its description is blank after trimming, the tooltip is empty. Otherwise the
  tooltip is built from the description as follows:
  - the first word is dropped: everything up to and including the first space goes,
    and a description with no space is kept whole;
  - the rest is cut to 120 characters, with `" ..."` appended when it is cut;
  - `" -> "` and the installed size follow, but only when the size query answers
    with a non-empty string. The size query is told whether the package is foreign,
    which means an AUR package, outdated or not.

  The file-owner search (`searchPacmanPackagesByFile`) returns `""` for an empty path
  and does not ask pacman in that case.
- **The search bar** (`src/mainwindow_searchbar.cpp`).
  - In a text browser, a new search text shorter than two characters clears every
    highlight. A longer text highlights its successive matches, each search starting
    where the previous match ended. When the configured limit is positive, it stops
    once that many matches are highlighted. The cursor goes to the first match, or
    the search box shows its "not found" style.
  - In the package file tree, a new search text drops the previous results and resets
    the cursor to 0. It then stores the items found, unless the text is empty.
    Find Next and Find Previous move the cursor round that list, wrapping at both ends.

Module `Globals` (`globals.dfy`) is pure: it has datatypes, functions and lemmas. The
external queries are function-typed parameters:
- the repository lookup (`getFirstPackageFromRepo`);
- the installed-size query (`Package::getInformationInstalledSize`);
- the file-owner query (`UnixCommand::getPackageByFilePath`).

Module `SearchBar` (`searchbar.dfy`) is imperative:
- `HighlightMatches` has the `find` loop of `searchBarTextChanged`;
- class `FileListSearch` holds the two main-window fields `m_foundFilesInPkgFileList`
  (`found`) and `m_indFoundFilesInPkgFileList` (`index`), and its methods are the
  slots that update them.

The text browser's `find` is a parameter. It returns the next match at or after a
cursor position. `FindAdvances` states the only facts the model assumes about it: a
match is non-empty, starts at or after the cursor, and lies inside the document.
`PackageController::findFileEx` is a parameter returning the found items.

`Wrappers` (`wrappers.dfy`) holds the `Option` type.

## Model

| member | source | states |
|---|---|---|
| `Globals.Trimmed` | src/globals.cpp:60 | The result is the description with its leading and trailing white space removed: it is the slice that starts after the leading white space, and everything after it is white space. It starts and ends with a non-space. It is empty exactly when every character is white space, so an empty description counts as blank. |
| `Globals.IndexOf` | src/globals.cpp:62 | The result is the first position of the character, or -1 exactly when the character does not occur. No earlier position holds it. |
| `Globals.Mid` | src/globals.cpp:63 | The result is the text from the given position to the end: the text is that prefix followed by the result. Past the end, the result is empty. |
| `Globals.Chop` | src/globals.cpp:68 | The last n characters are removed. The result is empty when n reaches the length, and the text is unchanged when n is not positive. |
| `Globals.AfterFirstSpace` | src/globals.cpp:62-63 | The result is a suffix of the description. With no space, it is the whole description. Otherwise the character just before it is a space and no earlier character is one, so it starts right after the first space. |
| `Globals.Truncated` | src/globals.cpp:64-70 | A summary of at most 120 characters is unchanged. A longer one becomes its first 120 characters followed by `" ..."`, 124 characters in all. The result never exceeds 124 characters. |
| `Globals.Summary` | src/globals.cpp:62-70 | The summary is the text after the first space (see `AfterFirstSpace`), cut as `Truncated` says. It is at most 124 characters long. A one-word description of at most 120 characters is kept whole. The summary is empty exactly when nothing follows the first space. |
| `Globals.ShowPackageInfo` | src/globals.cpp:49-81 | The tooltip is `""` when no package is found. It is `""` for a blank description, whatever the installed size. Otherwise it is the summary alone when the size is empty, and summary + `" -> "` + size when it is not. The size query gets foreign = true exactly for the foreign and foreign-outdated statuses. |
| `Globals.ShowPackageInfoEmptyIff` | src/globals.cpp:58-80 | For a package that is found and whose description is not blank, the tooltip is empty exactly when nothing follows the description's first space and no installed size is known. For example, a description whose only space is its last character, with an empty size, gives an empty tooltip. |
| `Globals.AfterFirstSpaceEmptyIff` | src/globals.cpp:62-63 | Nothing is left after the first space exactly when the description is empty or its first space is its last character. |
| `Globals.OwnerQuery` | src/globals.cpp:96-103 | The file-owner lookup is skipped exactly for the empty path. Otherwise it is asked about that path itself. |
| `Globals.PackageByFile` | src/globals.cpp:94-106 | An empty path yields `""`. Any other path yields what the owner lookup reports for it. |
| `SearchBar.Matches` | src/mainwindow_searchbar.cpp:60-68 | Repeated searching finds at most one match per document character. Every match lies inside the document after the start position. The matches come in document order and do not overlap. |
| `SearchBar.Limited` | src/mainwindow_searchbar.cpp:69-70 | The kept matches are a prefix of all matches. With a positive limit there are min(limit, count) of them. With a limit of zero or less, all matches are kept. |
| `SearchBar.HighlightMatches` | src/mainwindow_searchbar.cpp:35-83 | Without a text browser nothing happens. A query shorter than 2 characters only clears the highlights. Otherwise the highlights are exactly the first `limit` successive matches (all of them when the limit is not positive). The found outcome is chosen iff there is a match, and the cursor is on the first highlighted match. |
| `SearchBar.NextIndex` | src/mainwindow_searchbar.cpp:155-162 | Find Next gives index+1 or 0. For an index inside a non-empty list, it stays inside and equals (index+1) mod count. |
| `SearchBar.PrevIndex` | src/mainwindow_searchbar.cpp:177-182 | Find Previous gives index-1 or count-1. For an index inside a non-empty list, it stays inside and equals (index-1) mod count. |
| `SearchBar.FileListSearch.TextChanged` | src/mainwindow_searchbar.cpp:88-114 | After any text change the index is 0. An empty text leaves the list empty and searches nothing. Any other text stores the items the file search returns. The first of them is selected, or the not-found outcome is chosen when there are none. |
| `SearchBar.FileListSearch.Closed` | src/mainwindow_searchbar.cpp:206-211 | Closing the search bar leaves an empty list and index 0. |
| `SearchBar.FileListSearch.FindNext` | src/mainwindow_searchbar.cpp:153-170 | The index moves as `NextIndex` says, the list is unchanged, the cursor stays valid, and the selected item is the one at the new index. |
| `SearchBar.FileListSearch.FindPrevious` | src/mainwindow_searchbar.cpp:175-190 | The index moves as `PrevIndex` says, the list is unchanged, the cursor stays valid, and the selected item is the one at the new index. |
| `SearchBar.NextPrevInverse` | src/mainwindow_searchbar.cpp:155-182 | Inside a non-empty list, Find Previous undoes Find Next and Find Next undoes Find Previous. |
| `SearchBar.EmptyListOutOfRange` | src/mainwindow_searchbar.cpp:161-187 | With nothing found, Find Previous leaves the index at -1 and Find Next at 0. Both are outside the list that the slot then indexes, which is why the methods require a non-empty list. |
| `SearchBar.NextStepsMod` | src/mainwindow_searchbar.cpp:155-162 | k presses of Find Next move the index to (index+k) mod count, so count presses return to the start. |
| `SearchBar.PrevStepsMod` | src/mainwindow_searchbar.cpp:177-182 | k presses of Find Previous move the index to (index-k) mod count. |

## Left out

- The background notifier (`notifier/octopi-notifier/mainwindow.h`), with its poll
  loop, upgrade controller, `ExecOpt` modes and `isExecuting` handling. The file
  declares those members but holds none of their bodies, and their source files are
  not part of this model.
- The `QFutureWatcher` globals (`src/globals.cpp:37-44`) and the concurrent query
  dispatch built on them. This is concurrency, and its start/finish logic is not in
  these files.
- The thin wrappers `searchPacmanPackages`, `searchPacmanPackagesFromGroup`,
  `searchAURPackages`, `getOutdatedAURPackages` and `getLatestDistroNews`
  (`src/globals.cpp:86-141`). Each only forwards to a `Package` or `utils` call that
  is not part of this model.
- `searchBarFindNext` and `searchBarFindPrevious` for text browsers
  (`src/mainwindow_searchbar.cpp:119-148`). Their wrap-around is done entirely by
  Qt's `find` and `moveCursor`.
- `searchBarClosed` (`src/mainwindow_searchbar.cpp:195-201`). It calls
  `searchBarTextChanged("")`, which clears every highlight exactly as an empty query
  does (`HighlightMatches` gives `HighlightsCleared`), and then gives the text browser
  the focus. The focus is not modelled.
- `_positionInFirstMatch`. Its effects are the cursor and the style sheet. The model
  records only that the cursor ends on the first highlighted match.
- Widget effects: style sheets, colours, focus, `scrollTo`, `processEvents`, the
  choice between the `textBrowser` and `updaterOutput` widgets, and the tree row
  selected when nothing is found.
- `HighlightMatches`: `find` is not modelled as text matching. It is an abstract
  function that must satisfy `FindAdvances`, so `Matches` is "what repeated `find`
  returns", not the occurrences of the query in a text.
- `HighlightMatches`: the source reads `limit` from the settings once per process, in
  a function-local `static`. The model takes it as a parameter on every call.
- The second `length() < 2` test (`src/mainwindow_searchbar.cpp:57`). The first test
  already returned for such queries, so it can never fire.
- `SearchBar.FileListSearch.FindNext` and `SearchBar.FileListSearch.FindPrevious`
  require a non-empty list. The source indexes the list with `at()` without checking
  its size, and an empty list gives an out-of-range index (see `EmptyListOutOfRange`).
- `SearchBar.FileListSearch.constructor`: the main window's constructor is not part of
  this model. The constructor here only gives the empty state that an empty search
  text also gives.
- String lengths: `QString` counts UTF-16 code units, and the model counts characters.
  So a description with characters outside the Basic Multilingual Plane is cut at a
  different place, and `chop` in the source can split a surrogate pair. The same
  applies to the two-character threshold of the text-browser search
  (`src/mainwindow_searchbar.cpp:46`). A one-character query outside that plane,
  such as an emoji, has length 2 in Qt, so the source searches for it. The model
  counts it as length 1 and only clears the highlights.
- `PackageStatus`: the status enum is declared outside these files. Its values here
  follow Octopi's package statuses. Only the foreign and foreign-outdated values
  affect the model.
