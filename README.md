# Filtered, paginated entry list: state model

This project models the state of the `App` component in `src/App.tsx`. That
state has two cells. The first is an options record holding a filter term, a
page size and a header-visibility flag. The second is an ordered list of entry
names, which may hold duplicates. Five updaters replace these cells wholesale.
`setFilter`, `setPageSize` and `setShowHeader` each replace one field of the
options. `onAddEntry` appends a name. `onRemoveEntry` removes the first
occurrence of a name, found with `indexOf`. The view `filteredList` is never
stored. It holds the entries whose lower-case form contains the lower-case
filter, in list order, cut by `slice(0, pageSize)`.

Three input controls each keep a draft that only their own button commits:
the search box (`SearchInput`), the page-size field (`PageSizeInput`) and the
new-name field of the list (`List`). The list's "Add" button is disabled while
its draft is empty. Each "Remove" button passes the value shown in its row.

Files and modules:

- `text.dfy`, module `Text`: `toLowerCase` on ASCII letters (`ToLower`) and
  `includes` (`Contains`). `Contains` is proved equal to "occurs at some
  offset".
- `entries.dfy`, module `Entries`: `concat` (`Append`), `indexOf` (`IndexOf`),
  the position filter (`WithoutPosition`) and their composition `RemoveFirst`,
  which is `onRemoveEntry`.
- `view.dfy`, module `View`: the derivation `Derive = Slice(Filter(..))`. Its
  lemmas cover order preservation (`IsSubsequence`), membership, multiplicity,
  length and the page-size boundary cases.
- `app.dfy`, module `App`: the `Coordinator` class owns `options` and `list`.
  Its methods are the five updaters, and its `FilteredList()` gives the view.
  The classes `SearchInput`, `PageSizeInput` and `List` hold the drafts.
- `scenario.dfy`, module `Scenario`: a walk through the app on its seed data.
  It commits the filter "o", adds "otto" and removes "loan". The seed entry
  "ecok" contains an "o", so after the filter "o" is committed the view is
  `["loan", "otravaliev", "ecok"]`.
  After "otto" is added, the view is `["loan", "otravaliev", "ecok", "otto"]`.
  After "loan" is removed, it is `["otravaliev", "ecok", "otto"]`.

The source lists three "does not re-render" goals at its top. The code as
written does not meet them: none of the controls is memoised, and the
callbacks and `filteredList` are rebuilt on every render. The model states
only what holds of the values. A draft edit modifies only its own control
object, never the `Coordinator`. The three option setters and the two list
updaters each say which part of the state is unchanged. `SetShowHeader`
proves that the view computed for the list control is equal in value to the
one before. That is a statement about values, not about re-rendering.

## Model

| member | source | states |
|---|---|---|
| Text.ToLower | src/App.tsx:121 | `toLowerCase` keeps the length of the string; `ToLowerPointwise` and `ToLowerIdempotent` give its characters |
| Text.Contains | src/App.tsx:121 | `includes` can only hold for a needle no longer than the string; `ContainsIffOccurs` ties it both ways to "occurs at some offset" |
| Text.ToLowerPointwise | src/App.tsx:121 | lower-casing keeps the length, leaves no capital letter, keeps every other character and maps each capital to its small letter |
| Text.ToLowerIdempotent | src/App.tsx:121 | lower-casing an already lower-cased string changes nothing |
| Text.ContainsIffOccurs | src/App.tsx:121 | `includes` holds exactly when the needle occurs in the string at some offset (both directions) |
| Text.ContainsChar | src/App.tsx:121 | a one-character needle is included exactly when that character occurs in the string |
| Text.ContainsEmpty | src/App.tsx:121 | the empty string is included in every string |
| Entries.Append | src/App.tsx:111-112 | `concat` gives a list one longer whose earlier elements are unchanged and whose last element is the name, with no uniqueness check |
| Entries.IndexOf | src/App.tsx:116 | `indexOf` gives -1 exactly when the name is absent; otherwise it gives an in-range position that holds the name, with no earlier position holding it |
| Entries.WithoutPosition | src/App.tsx:117 | filtering out one position shortens the list by one exactly when the position is in range; `WithoutPositionSplices` gives the resulting list |
| Entries.RemoveFirst | src/App.tsx:114-118 | `onRemoveEntry`'s new list is one shorter exactly when the name is present; `RemoveFirstPresent`, `RemoveFirstAbsent` and `RemoveFirstMultiset` say which element goes |
| Entries.WithoutPositionSplices | src/App.tsx:117 | filtering out position `i` gives `list[..i] + list[i+1..]` when `i` is in range and the whole list otherwise (for example -1) |
| Entries.RemoveFirstPresent | src/App.tsx:114-118 | removing a present name drops exactly the element at its first position `i`, giving `list[..i] + list[i+1..]` |
| Entries.RemoveFirstAbsent | src/App.tsx:114-118 | removing an absent name leaves the list unchanged |
| Entries.RemoveAbsentIdempotent | src/App.tsx:114-118 | repeating the removal of an absent name changes nothing further |
| Entries.RemoveFirstMultiset | src/App.tsx:114-118 | removal takes one occurrence of the name out of the multiset of entries and nothing else; the length drops by one exactly when the name was present |
| Entries.RemoveFirstOfDuplicates | src/App.tsx:114-118 | `["a","b","a"]` without `"a"` is `["b","a"]`: only the first copy goes |
| Entries.RemoveUndoesFreshAppend | src/App.tsx:111-118 | adding a name that was absent and then removing it restores the list |
| Entries.RemoveAfterAppendOfPresent | src/App.tsx:111-118 | if the name was already present, add-then-remove drops the older copy and keeps the new one at the end |
| View.Matches | src/App.tsx:121 | the filter callback: the empty filter matches every name, and a filter longer than the name never matches |
| View.Filter | src/App.tsx:120-121 | `.filter(...)` never lengthens the list; `FilterIsSubsequence`, `FilterCounts`, `FilterMatches` and `FilterAppend` fix its result |
| View.Slice | src/App.tsx:122 | `slice(0, end)` gives a prefix, of length `end` when `end` is within bounds |
| View.Derive | src/App.tsx:120-122 | `filteredList`: a prefix of the matches, no longer than the list nor than a non-negative page size; `DeriveSound`, `DerivePrefix`, `DeriveNegativePageSize` and `DerivePageBounds` characterise it |
| View.SliceEnd | src/App.tsx:122 | the end index used by `slice(0, pageSize)` never exceeds the length |
| View.FilterIsSubsequence | src/App.tsx:120-121 | the filtered list is a subsequence of the raw list: the relative order is kept |
| View.FilterCounts | src/App.tsx:120-121 | each matching name occurs in the filtered list as often as in the raw list, and each non-matching name does not occur |
| View.FilterMatches | src/App.tsx:120-121 | every element of the filtered list matches the filter, and the filtered list is no longer than the raw list |
| View.FilterAppend | src/App.tsx:120-121 | filtering distributes over concatenation of entry lists |
| View.DeriveSound | src/App.tsx:120-122 | every element of the view is a raw entry whose lower-case form contains the lower-case filter, and the view keeps the raw list's order |
| View.DerivePrefix | src/App.tsx:120-122 | for a page size of zero or more, the view is a prefix of the filtered list, and its length is the smaller of the page size and the number of matches |
| View.DeriveNegativePageSize | src/App.tsx:122 | for a negative page size, the view is a prefix of the filtered list that drops that many matches from the end, as `slice` does |
| View.DerivePageBounds | src/App.tsx:122 | page size 0 gives an empty view; a page size of at least the list length gives the whole filtered list |
| View.EmptyFilterKeepsAll | src/App.tsx:121 | the empty filter matches every entry |
| App.InitialViewIsSeed | src/App.tsx:88-122 | with the initial options (filter "", page size 10), the view is the four-entry seed list |
| App.RemoveDisplayedRow | src/App.tsx:70-75 | a value shown in the view is a raw entry, so removing it always shortens the list by exactly one |
| App.Coordinator.constructor | src/App.tsx:88-109 | the state starts with the options `InitialOptions` (filter "", page size 10, header shown) and the list `Seed` (the four seed entries); `InitialViewIsSeed` gives the initial view |
| App.Coordinator.FilteredList | src/App.tsx:120-122 | the view given to the list control holds only entries of the list that match the filter, and at most a non-negative page size of them |
| App.Coordinator.SetFilter | src/App.tsx:94-95 | only the filter field changes; the other options and the list stay |
| App.Coordinator.SetPageSize | src/App.tsx:97-98 | only the page size changes, with no clamping; the other options and the list stay |
| App.Coordinator.SetShowHeader | src/App.tsx:100-102 | only the header flag changes; the list stays, and the derived view is equal in value to the one before |
| App.Coordinator.AddEntry | src/App.tsx:111-112 | the list becomes the old list with the name appended; the options stay |
| App.Coordinator.RemoveEntry | src/App.tsx:114-118 | the list loses the first occurrence of the name, or stays the same if the name is absent; the options stay |
| App.SearchInput.constructor | src/App.tsx:28 | the search draft starts empty |
| App.SearchInput.Edit | src/App.tsx:34 | typing replaces only the search draft |
| App.SearchInput.Search | src/App.tsx:37 | "Search" commits the draft as the filter and leaves the list alone |
| App.PageSizeInput.constructor | src/App.tsx:44 | the page-size draft starts at 10 |
| App.PageSizeInput.Edit | src/App.tsx:53 | typing replaces only the page-size draft |
| App.PageSizeInput.Save | src/App.tsx:55 | "Save page size" commits the draft unclamped and leaves the list alone |
| App.List.constructor | src/App.tsx:65 | the new-name draft starts empty |
| App.List.Edit | src/App.tsx:78 | typing replaces only the new-name draft |
| App.List.Add | src/App.tsx:79-81 | `disabled={!newName}` with only `""` falsy: an empty draft leaves the list unchanged, a non-empty one (even `"0"` or `" "`) is appended; the options stay |
| App.List.Remove | src/App.tsx:73 | "Remove" on a row removes the first raw occurrence of that row's value, so the list shrinks by exactly one |
| Scenario.MatchesLetter | src/App.tsx:121 | a lower-case entry matches a one-letter lower-case filter exactly when it contains that letter |
| Scenario.FilterAllButThird | src/App.tsx:120-121 | filtering four entries of which only the third fails keeps the other three in order |
| Scenario.FilterSeedByO | src/App.tsx:104-121 | filtering the seed list by "o" keeps "loan", "otravaliev" and "ecok" |
| Scenario.FilterWithOttoByO | src/App.tsx:111-121 | appending "otto" appends "otto" to the list filtered by "o" |
| Scenario.SeedViewByO | src/App.tsx:104-122 | the view for filter "o" is `["loan","otravaliev","ecok"]`, and after adding "otto" it is `["loan","otravaliev","ecok","otto"]` |
| Scenario.RemoveLoan | src/App.tsx:114-118 | removing "loan" from the seed plus "otto" drops the head |
| Scenario.ViewAfterRemovingLoan | src/App.tsx:120-122 | after "loan" is removed, the view for filter "o" is `["otravaliev","ecok","otto"]` |
| Scenario.SearchForO | src/App.tsx:34-37 | typing "o" and pressing "Search" on the initial state gives the view `["loan","otravaliev","ecok"]` |
| Scenario.AddOtto | src/App.tsx:78-79 | typing "otto" and pressing "Add" appends it to the list and to the view |
| Scenario.RemoveFirstRow | src/App.tsx:73 | "Remove" on the row showing "loan" gives the list without "loan" and the view `["otravaliev","ecok","otto"]` |

## Left out

- Rendering, memoisation and the re-render indicator (`RenderIndicator`, its `Math.random()` key), list-item keys and the `display` toggle are view-framework behaviour.
- Re-rendering: the source does not meet its own "does not re-render" goals, because no control is memoised and the callbacks and `filteredList` are new on every render. So a header toggle re-renders the list, and an add or a remove re-renders both inputs. The isolation contracts (the frames of the `Edit` methods, and `SetShowHeader`'s `FilteredList() == old(FilteredList())`) are about values only. They say nothing about object identity or re-rendering.
- DOM event plumbing: `setShowHeader` takes a boolean rather than a checkbox change event.
- `Number(...)` parsing of the page-size text (floats, NaN, empty text giving 0) is left out. The page-size draft and the page size are integers.
- `slice` with a fractional page size is not modelled. Integer page sizes, including negative ones, follow `slice`'s rules.
- Lower-casing: only `A`-`Z` are lower-cased; full Unicode case mapping is not modelled.
- Strings: JavaScript strings are sequences of UTF-16 code units, while a Dafny `string` is a sequence of Unicode scalar values. `includes` agrees on well-formed text, but lone surrogates cannot be represented.
- The `min`/`max` attributes of the page-size field are input-widget hints and do not constrain the committed value, so the model does not bound it.
- The stylesheet import and the default export.
