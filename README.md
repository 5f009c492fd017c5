# GridSphere site core in Dafny

This project models the logic under the markup of the GridSphere React site.
The site is a blog with a product and service directory, and the logic has four parts:

- **Hash router** (`App`): turns the location fragment into one of four pages: Home, Article(id), Directory or Product(id).
  It also holds the router state that `navigate` and the search box change, looks up the article of an article route, and picks the "related articles" list.
- **Article search** (`BlogFeed`): a stable, case-insensitive substring filter.
  It tests the trimmed query against an article's title, excerpt and tags, joined with spaces.
- **Directory** (`Directory`): the filter form, the three-way filter (query, category, maximum price), the de-duplicated category list, and the detail view of a product route.
- **Comments of an article page** (`ArticlePage`):
  - validation of the comment form;
  - the comment list, newest first, with post and delete;
  - the per-article key `comments:<id>` into the browser's key-value store, where read and write failures are swallowed.

The JavaScript built-ins the site relies on are modelled in two support modules:

- `Text`: `trim` over ECMAScript's whitespace set, ASCII `toLowerCase`, `includes`, and `split` and `join` on one character.
- `Seqs`: `filter`, `find`, and `Array.from(new Set(...))`.

`Wrappers` holds `Option`, which stands for JavaScript's `undefined`. `Content` holds the article and directory-item records.

The source has no loops: everything is `filter`, `find`, `split`, `slice` and string operations. So the operations are functions, and the proof work sits in lemmas and in the contracts of recursive functions.

Some code is stateful, and it is modelled as classes:

- `App.Router`: the router state.
- `Directory.FilterForm` and `Directory.DirectoryView`: the filter form and the filters in force.
- `ArticlePage.CommentForm`: the comment form.
- `ArticlePage.CommentList` and `ArticlePage.Storage`: the comment list and the key-value store.

Their methods change fields named in `modifies`. Their `ensures` tie the new state to pure functions: `Loaded`, `Saved`, `Settled`, `RemoveId`, `NewComment`, and `Parse` through `Router.Page`.

The model follows the code as written:

- A rejected comment is not an error value. The form returns early on a blank body (src/components/ArticlePage.jsx:43), and the list and store are unchanged.
- The comment list is not reset when the storage key changes (src/components/ArticlePage.jsx:76-89). If the new key has nothing stored, the list keeps what it showed. See "Findings".

## Model

| member | source | states |
|---|---|---|
| App.Parse | src/App.jsx:119-128 | Parsing is total; an article or product route always carries a non-empty id without `/` |
| App.ParseFormat | src/App.jsx:119-128 | The fragment of every page (`#/`, `#/article/<id>`, `#/directory`, `#/product/<id>`) parses back to that page |
| App.ParseArticlePage | src/App.jsx:124 | `#/article/<id>` shows Article(id) |
| App.ParseProductPage | src/App.jsx:126 | `#/product/<id>` shows Product(id) |
| App.ParseDirectoryPage | src/App.jsx:125 | `#/directory` shows Directory |
| App.ParseHome | src/App.jsx:120-123 | The empty fragment, `#` and `#/` show Home |
| App.ParseSlashesOnly | src/App.jsx:120-123 | A fragment made only of slashes, with or without `#`, shows Home |
| App.ParseDoubledSlash | src/App.jsx:121 | Doubling a `/` anywhere after the `#` does not change the page (empty segments are dropped) |
| App.ParseSkipsEmptySegments | src/App.jsx:121-124 | `#//article//<id>` shows Article(id) |
| App.ParseArticleIgnoresTail | src/App.jsx:124 | Segments after the article id are ignored |
| App.ParseArticleWithoutId | src/App.jsx:124-127 | `#/article` and `#/article/` fall back to Home |
| App.ParseProductWithoutId | src/App.jsx:126-127 | `#/product` and `#/product/` fall back to Home |
| App.ParseDirectoryIgnoresTail | src/App.jsx:125 | A first segment `directory` shows Directory whatever follows |
| App.ParseUnknownIsHome | src/App.jsx:127 | Any other first segment shows Home, with or without further segments |
| App.SegmentsAreIds | src/App.jsx:121 | Every segment after `split('/').filter(Boolean)` is non-empty and free of `/` |
| App.Related | src/App.jsx:188 | Exactly the first three articles whose id differs, or all of them when there are fewer: a prefix of the filtered list, of length min(count, 3), in input order |
| App.Router.constructor | src/App.jsx:105-106 | The route is the fragment, or `#/` when the fragment is empty; the query starts empty |
| App.Router.Navigate | src/App.jsx:105-113 | The fragment becomes the argument and the route follows it; the query is kept |
| App.Router.OnSearch | src/App.jsx:130-137 | The query is set; the fragment becomes `#/` exactly when it was not `""`, `#/` or `#`; Home is shown afterwards |
| App.Router.OpenArticle | src/App.jsx:178 | An article card navigates to `#/article/<id>`, which shows that article |
| App.Router.OpenItem | src/App.jsx:198 | A directory card navigates to `#/product/<id>`, which shows that product |
| BlogFeed.Filtered | src/components/BlogFeed.jsx:32-38 | Result is a subsequence of the articles; a blank needle returns them unchanged; otherwise an article is kept iff its lower-cased search text contains the needle, as many times as it occurs |
| BlogFeed.BlankQueryKeepsAll | src/components/BlogFeed.jsx:33-34 | A missing, empty or whitespace-only query returns the input unchanged |
| BlogFeed.VisibleQueryFilters | src/components/BlogFeed.jsx:33-37 | A query with a visible character is applied as the substring filter |
| BlogFeed.FilteredIdempotent | src/components/BlogFeed.jsx:35-37 | Filtering the result again with the same query changes nothing |
| BlogFeed.SearchIgnoresCase | src/components/BlogFeed.jsx:33 | Upper- or lower-casing the query does not change the result |
| BlogFeed.SearchIgnoresPadding | src/components/BlogFeed.jsx:33 | Whitespace around the query does not change the result |
| BlogFeed.MissingTagsSearchTitleAndExcerpt | src/components/BlogFeed.jsx:36 | Missing tags count as an empty tag list: the search text is title, space, excerpt |
| BlogFeed.TitleMatches | src/components/BlogFeed.jsx:36 | An article whose lower-cased title contains the needle matches |
| BlogFeed.TagMatches | src/components/BlogFeed.jsx:36 | An article with a tag whose lower-cased form contains the needle matches |
| BlogFeed.JoinHasPart | src/components/BlogFeed.jsx:36 | A needle inside one joined part is inside the lower-cased join |
| Directory.Filtered | src/components/Directory.jsx:147-155 | Result is a subsequence of the items, and an item is kept, as many times as it occurs, iff the query, category and price tests all pass |
| Directory.DefaultFiltersKeepAffordable | src/components/Directory.jsx:145-155 | Under the default filters (`""`, `All`, 200) the result is exactly the items priced at most 200 |
| Directory.PriceMonotone | src/components/Directory.jsx:152 | Raising the price limit never removes an item and keeps the smaller result in order inside the larger |
| Directory.QueryIgnoresCase | src/components/Directory.jsx:148-150 | Upper- or lower-casing the query does not change the result |
| Directory.BlankQueryIsNotTrimmed | src/components/Directory.jsx:148-150 | The query is not trimmed: a query of two spaces hides an item the empty query shows |
| Directory.Categories | src/components/Directory.jsx:12 | Each category some item has occurs exactly once, and nothing else occurs |
| Directory.CategoriesFirstSeenOrder | src/components/Directory.jsx:12 | Categories are listed in the order of their first occurrence among the items |
| Directory.Render | src/components/Directory.jsx:157-159 | The list is shown exactly when there is no non-empty focus id, and then it is the filtered list; otherwise the first item with that id, or "Item not found" exactly when no item has it |
| Directory.FilterForm.constructor | src/components/Directory.jsx:13-15 | The form starts at `""`, `All` and 200 |
| Directory.FilterForm.SetQuery | src/components/Directory.jsx:33 | Typing changes only the query field |
| Directory.FilterForm.SetCategory | src/components/Directory.jsx:42 | Selecting changes only the category field |
| Directory.FilterForm.SetPrice | src/components/Directory.jsx:53-58 | The slider changes only the price, which stays between 0 and 200 |
| Directory.FilterForm.Submit | src/components/Directory.jsx:21-24 | Submit hands over the three fields as one record whose price is between 0 and 200 |
| Directory.DirectoryView.constructor | src/components/Directory.jsx:145 | The view starts with the default filters |
| Directory.DirectoryView.Apply | src/components/Directory.jsx:171 | A submitted record replaces the filters wholesale |
| ArticlePage.DisplayName | src/components/ArticlePage.jsx:44 | The trimmed name, or `Anonymous` exactly when the name is blank |
| ArticlePage.NewComment | src/components/ArticlePage.jsx:43-44 | Rejected exactly when the body is blank; an accepted comment has the given id and date, the trimmed non-empty body and the display name |
| ArticlePage.NewCommentIgnoresPadding | src/components/ArticlePage.jsx:43-44 | Whitespace around the name and body does not change the comment |
| ArticlePage.CommentForm.constructor | src/components/ArticlePage.jsx:35-36 | Both fields start empty |
| ArticlePage.CommentForm.Type | src/components/ArticlePage.jsx:53-63 | Typing sets the two fields |
| ArticlePage.CommentForm.Submit | src/components/ArticlePage.jsx:41-46 | Hands over `NewComment` of the fields; clears the body only when accepted; keeps the name |
| ArticlePage.RemoveId | src/components/ArticlePage.jsx:92 | Result is a subsequence, and a comment stays, as many times as it occurs, iff its id differs |
| ArticlePage.RemoveAbsentId | src/components/ArticlePage.jsx:92 | Deleting an id no comment has leaves the list unchanged |
| ArticlePage.RemoveIdIdempotent | src/components/ArticlePage.jsx:92 | Deleting the same id twice is deleting it once |
| ArticlePage.PostThenDelete | src/components/ArticlePage.jsx:91-92 | Prepending a comment with a fresh id and then deleting that id restores the list |
| ArticlePage.Loaded | src/components/ArticlePage.jsx:78-83 | A stored list is shown and is what the store holds; a missing, empty or unparsable entry, or a failed read, leaves the list as it was |
| ArticlePage.Saved | src/components/ArticlePage.jsx:85-89 | A successful write puts the list under the key; a failed one changes nothing; no other key changes |
| ArticlePage.SaveThenLoad | src/components/ArticlePage.jsx:78-89 | What was saved under a key is what the next load of that key shows |
| ArticlePage.SaveKeepsOtherKeys | src/components/ArticlePage.jsx:85-89 | Saving under one key does not change what another key loads |
| ArticlePage.LoadSynced | src/components/ArticlePage.jsx:78-83 | Loading a store already in sync with the list leaves the list unchanged |
| ArticlePage.StorageKeyInjective | src/components/ArticlePage.jsx:127 | Two articles share a storage key exactly when they share an id |
| ArticlePage.Render | src/components/ArticlePage.jsx:126-137 | Not found exactly when there is no article; otherwise the article with key `comments:<id>` |
| ArticlePage.ArticleRouteView | src/App.jsx:186-187 | An article route renders not-found exactly when no article has the id; otherwise the first article with that id, with key `comments:<id>` |
| ArticlePage.Storage.constructor | src/components/ArticlePage.jsx:80 | The store holds the given entries |
| ArticlePage.Settled | src/components/ArticlePage.jsx:78-89 | After the effects the key holds the loaded list when the load found one and its write succeeded, otherwise the list shown when the first write succeeded; no other key changes |
| ArticlePage.CommentList.Mount | src/components/ArticlePage.jsx:76-89 | The list starts empty and takes what the key loads; the store is `Settled` from the empty list |
| ArticlePage.CommentList.Effects | src/components/ArticlePage.jsx:78-89 | The load replaces the list when the key holds one; the store is `Settled` from the list shown before |
| ArticlePage.CommentList.Post | src/components/ArticlePage.jsx:91 | A rejected body changes nothing; an accepted comment is prepended and the list is saved |
| ArticlePage.CommentList.Delete | src/components/ArticlePage.jsx:92 | The list becomes `RemoveId` of the old list and is saved |
| ArticlePage.CommentList.SwitchArticle | src/components/ArticlePage.jsx:77-89 | As written: the new key is loaded over the list still shown, and the store is `Settled` from that list under the new key |
| ArticlePage.CommentList.SwitchArticleReset | src/components/ArticlePage.jsx:77-89 | Corrected: the list is reset, then loaded and saved as on a fresh mount |
| ArticlePage.SwitchCarriesComments | src/components/ArticlePage.jsx:77-89 | As written, with nothing stored under the new key, the old comments stay shown and are saved under the new key, so a later fresh mount of the new article shows them too |
| ArticlePage.SwitchOverwritesStoredComments | src/components/ArticlePage.jsx:85-89 | As written, when the new key holds its own list and the second write fails, the key is left holding the old article's comments |
| ArticlePage.ResetStoresOnlyOwnComments | src/components/ArticlePage.jsx:85-89 | With the reset, the new key ends up holding its previous value or the empty list, never another article's comments |
| ArticlePage.ResetShowsOnlyOwnComments | src/components/ArticlePage.jsx:77-83 | With the reset, the list shown is empty or exactly what the store holds under the new key |
| Text.Trim | src/components/BlogFeed.jsx:33 | `trim()`: a block of the input with only whitespace around it, empty exactly when the input is blank, otherwise without whitespace at either end |
| Text.TrimIdempotent | src/components/BlogFeed.jsx:33 | Trimming twice is trimming once |
| Text.TrimPadded | src/components/BlogFeed.jsx:33 | Whitespace added at either end does not change the trimmed result |
| Text.TrimLower | src/components/BlogFeed.jsx:33 | Lower-casing and trimming commute |
| Text.LowerIgnoresCase | src/components/BlogFeed.jsx:33 | Lower-casing forgets the previous case |
| Text.LowerConcat | src/components/BlogFeed.jsx:36 | Lower-casing distributes over concatenation |
| Text.LowerBlank | src/components/BlogFeed.jsx:33 | A string is blank exactly when its lower-cased form is |
| Text.ContainsIff | src/components/BlogFeed.jsx:36 | `includes` holds exactly when the needle occurs at some position |
| Text.ContainsInConcat | src/components/BlogFeed.jsx:36 | A needle found in either half is found in the concatenation |
| Text.Split | src/App.jsx:121 | `split` always returns at least one piece |
| Text.SplitPieces | src/App.jsx:121 | No piece of a split holds the separator |
| Text.JoinSplit | src/App.jsx:121 | Joining the pieces with the separator gives back the string |
| Text.SplitJoin | src/App.jsx:121 | Splitting a join of separator-free pieces gives back the pieces |
| Text.SplitAt | src/App.jsx:121 | Splitting at a separator splits each side separately |
| Text.SplitNoSeparator | src/App.jsx:121 | A string without the separator is one piece |
| Text.SplitSeparatorsOnly | src/App.jsx:121 | A string of separators splits into empty pieces only |
| Seqs.Filter | src/components/BlogFeed.jsx:35 | `filter`: no longer than the input, and an element is in the result iff it is in the input and passes |
| Seqs.FilterCounts | src/components/BlogFeed.jsx:35 | `filter` keeps each passing element as many times as it occurs and drops every other one |
| Seqs.FilterIsSubseq | src/components/BlogFeed.jsx:35 | A filter result keeps the input's order |
| Seqs.FilterMonotone | src/components/Directory.jsx:149-153 | A weaker predicate keeps everything a stronger one keeps, in order |
| Seqs.FilterIdempotent | src/components/BlogFeed.jsx:35 | Filtering twice with the same predicate is filtering once |
| Seqs.FilterKeepsAll | src/components/ArticlePage.jsx:92 | A predicate every element passes removes nothing |
| Seqs.FilterAgree | src/components/Directory.jsx:149-153 | Predicates agreeing on the elements filter identically |
| Seqs.FilterConcat | src/App.jsx:121 | Filtering distributes over concatenation |
| Seqs.SubseqPrefix | src/App.jsx:188 | A prefix of a subsequence is a subsequence |
| Seqs.FindBy | src/App.jsx:187 | `find` by id: nothing exactly when no element has the id, otherwise the first element with exactly that id |
| Seqs.FindIndex | src/App.jsx:187 | The position `find` stops at: the first whose element passes, or none when no element passes |
| Seqs.FirstIndex | src/components/Directory.jsx:12 | The position of the first occurrence of a value |
| Seqs.Dedup | src/components/Directory.jsx:12 | `Array.from(new Set(s))`: no duplicates, and exactly the values of `s` |
| Seqs.DedupFirstSeenOrder | src/components/Directory.jsx:12 | The distinct values come in the order of their first occurrence |

## Left out

- Rendering, styling, the parallax and tilt effects, the share buttons and the hero section are not modelled. They are markup, floating point, DOM access or third-party embeds.
- React's effect scheduling and re-renders are not modelled. Each operation is modelled by the state it settles in; only the two writes of the comment list's saving effect, before and after the load is rendered, are kept apart.
- App.Router.Navigate: the `hashchange` subscription is not modelled, and the route is set directly. The model also takes the fragment read back to be the string assigned. Every `navigate` call of the site passes a string starting with `#/`.
- ArticlePage.CommentList.Post: the id and date come from `crypto.randomUUID()` and `new Date().toISOString()`. They are parameters, and the id is required to be fresh.
- `JSON.parse` and `JSON.stringify` are modelled by the `Payload` variants.
  - A stored value that parses to something other than a list is not modelled.
  - Neither is a store that another tab changes meanwhile.
- Text.Lower: lower-casing is ASCII only. Unicode case mapping is not modelled.
- Directory.Filtered: prices are whole numbers. JavaScript's floating-point numbers are not modelled.
- ArticlePage.StorageKey: an article whose id is `unknown` shares its key with the missing article. The missing article never renders the comment list, so nothing is stored under that key.

## Findings

| source | as written | input that shows it | evidently intended | confidence | as-written member | corrected member |
|---|---|---|---|---|---|---|
| src/components/ArticlePage.jsx:77-89 | The comment list is not reset when `storageKey` changes. A related-article link keeps the page mounted, so the load effect only overwrites the list when the new key holds a stored list. | Open article A with one comment, then follow a related link to article B with nothing under `comments:B`. A's comment is shown on B and written under `comments:B`. If B has its own list and the second write throws, `comments:B` is left holding A's list. | Each article shows only the comments stored under its own key, or none. | not executed; follows from the effects at lines 78-89 and the unkeyed `<Comments>` and `<ArticlePage>` elements | ArticlePage.CommentList.SwitchArticle, ArticlePage.SwitchCarriesComments, ArticlePage.SwitchOverwritesStoredComments | ArticlePage.CommentList.SwitchArticleReset, ArticlePage.ResetShowsOnlyOwnComments, ArticlePage.ResetStoresOnlyOwnComments |
