# Follower drill-down tree: selection, cache and render

This project models the core of a small browser page that explores who follows whom
on micro.blog. The user enters a root username and an access token. Start fetches the
root's followers and shows them in one column. Clicking a follower in column `i` cuts the
path of selected usernames back to column `i` and appends the clicked name. If that
user's followers are not cached yet, they are fetched and merged into a new cache
snapshot. Otherwise they are served from the cache. The whole tree is then redrawn from
the pair (path, cache).

Modules, one per component:

- `FollowerCache` (`follower_cache.dfy`): the `Follower` record, the cache as an
  immutable `map<string, seq<Follower>>`, and the merge done after a successful fetch.
- `FollowerTree` (`follower_tree.dfy`): the path update, the click handler's
  fetch-or-reuse decision, the completion of a fetch, Start, and the invariant that
  every rendered state keeps. `Step` and `Run` replay clicks whose fetch outcomes are
  given as inputs. The memoization property is proved over such runs.
- `TreeRenderer` (`tree_renderer.dfy`): the layout as pure functions (`ColumnOf`,
  `Layout`), plus the imperative render. `View` is the container element. Its method
  empties the container in a `while` loop and appends a freshly built tree.
  `GenerateFollowerColumn` is the `forEach` that builds one column.
- `StartButton` (`start_button.dfy`): the button's `disabled` flag, computed from the
  required inputs.
- `DrillDownScenario` (`drill_down_scenario.dfy`): one concrete walk. Start at `alice`,
  open `bob`, switch to `carol`, then go back to `bob` from the cache.

Points of the code that the model keeps as they are:

- The merge is first-write-wins, not last-write-wins.
  `Object.assign({ [user]: followers }, existingCache)` copies `existingCache` last, so
  an entry already cached keeps its old list.
- At every render, every username on the path is a cache key, including the last one,
  because the code renders only after the clicked user's fetch has completed.
- A failed Start fetch renders nothing, just like a failed click fetch.
- The guard `selection.length >= index+1` at code.js:110 always holds, because `index`
  ranges over the path. Past the end of the path, `selection[index+1]` is `undefined`,
  and no username equals it. `At` models that read, so the last column has no selected
  entry. A strict `>` guard would behave the same.

## Model

| member | source | states |
|---|---|---|
| `FollowerCache.Assign` | code.js:47 | `Object.assign` onto a fresh object: the result has the keys of both, and on a key both hold, the value copied from the source wins |
| `FollowerCache.Merge` | code.js:43-52 | the merged cache has exactly the old keys plus the fetched user; every old entry keeps its value; a user not yet cached maps to the fetched list |
| `FollowerCache.MergeExtends` | code.js:47 | merging never drops or changes an existing entry (the old snapshot stays valid), and the fetched user is always a key afterwards |
| `FollowerCache.MergeFirstWriteWins` | code.js:47 | merging a user who is already cached returns the existing cache unchanged: first write wins |
| `FollowerCache.ExtendsTransitive` | code.js:47 | snapshot extension composes, so the cache grows monotonically across a chain of merges |
| `FollowerTree.NextPath` | code.js:99 | the new path has length `index+2`, keeps positions `0..index` of the old path, and ends with the clicked username |
| `FollowerTree.Select` | code.js:98-107 | a fetch is requested exactly when the clicked username is absent from the cache; on a hit the render uses the identical cache; both branches use the new path |
| `FollowerTree.Complete` | code.js:101-102 | a fetch that fails renders nothing; a successful one shows the new path with the captured cache plus the fetched user, and every captured entry unchanged |
| `FollowerTree.Start` | code.js:118-125 | Start renders only if the root's fetch succeeds; it then shows path `[root]` with a cache whose only key is the root, mapped to the fetched list |
| `FollowerTree.StartShowsRoot` | code.js:121-123 | the state Start shows satisfies the invariant |
| `FollowerTree.Step` | code.js:98-106 | a click where no card is drawn does nothing. A click on a card of a cached user starts no fetch and shows the new path with the same cache. A click on an uncached user starts one fetch of that user. On success it shows the new path with the fetched list merged in; on failure the shown state is unchanged |
| `FollowerTree.Run` | code.js:98-106 | over a sequence of clicks, at most one fetch is started per click, the cache only grows, and no fetch targets a user cached at the start |
| `FollowerTree.StepPreservesValid` | code.js:96-107 | a click on a rendered card keeps the invariant: the path is non-empty, every path username is cached, and each non-root username is listed in the previous one's column. The click only adds to the cache, fetches only an uncached user, and a successful fetch leaves that user cached |
| `FollowerTree.RunMemoizes` | code.js:100-106 | over any sequence of clicks, the invariant holds and the cache only grows; no fetch targets an initially cached user; once a user's fetch succeeds, no later fetch of that user is started |
| `TreeRenderer.At` | code.js:110 | reading `selection[k]` yields the element when `k` is in range and `undefined` (None) past the end |
| `TreeRenderer.ColumnOf` | code.js:80-88 | a column has one card per follower, in order, and a card is marked selected iff its username equals the column's selection |
| `TreeRenderer.Layout` | code.js:96-113 | there are exactly `|path|` columns, in path order. Column `i` lists `cache[path[i]]` in order. An entry is selected iff `path[i+1]` exists and equals its username |
| `TreeRenderer.LayoutColumn` | code.js:96-111 | column `i` of the layout is the column built from `cache[path[i]]` with selection `selection[i+1]` |
| `TreeRenderer.GenerateFollowerColumn` | code.js:80-88 | the `forEach` loop builds exactly the column `ColumnOf(followers, selection)` |
| `TreeRenderer.View.RenderFollowerTree` | code.js:90-115 | after removing every child and appending the tree built column by column, the container holds exactly one child, `Layout(path, cache)` |
| `TreeRenderer.SelectionMarked` | code.js:84 | in a rendered state the last column has no selected entry; every other column has one; if the column's usernames are distinct, it has exactly one |
| `TreeRenderer.ClickRerender` | code.js:99-113 | after a click on a card that renders (the user was cached, or the fetch succeeds), the path is the old path up to the clicked column plus the clicked card's username. Columns left of the clicked one are unchanged. The clicked column keeps its followers with the clicked user selected. The new last column lists the clicked user's followers (the cached list on a hit, the fetched one on a miss) with nothing selected |
| `StartButton.SomeEmpty` | code.js:128 | `some(x => x.value.length === 0)` holds iff at least one input value is empty |
| `StartButton.Button.UpdateStartButtonState` | code.js:127-129 | `disabled` is set to true iff some required input has an empty value |
| `StartButton.EnabledIffBothFilled` | code.js:128-135 | with the two inputs the page requires (root username, token), the button is enabled iff both are non-empty |
| `DrillDownScenario.StartAlice` | code.js:118-125 | starting at `alice` with followers `bob`, `carol` shows one column with two cards, neither selected |
| `DrillDownScenario.OpenBob` | code.js:96-107 | clicking `bob` fetches his followers; it shows path `alice, bob`, caches both users, marks `bob` in column 0 and lists `dave` in column 1 |
| `DrillDownScenario.SwitchAndReturn` | code.js:98-106 | clicking `carol` in column 0 fetches her list and replaces column 1. Clicking `bob` again starts no fetch and shows his cached list |

## Left out

- Network fetch (`fetchFollowersForUser`, code.js:19-40): the HTTP request, the
  `Authorization` header, the base address and `JSON.parse` are foreign I/O. A fetch is
  an input of each transition: `Fetched(list)` or `FetchFailed`. The access token only
  travels to that request, so it does not appear in the model.
- DOM plumbing: `$`, `toArray`, the card elements of `generateFollowerCard` (class
  name, image, link, text nodes, and the paragraph appended twice at code.js:75), and
  the listener wiring in `main` (code.js:3-17, 55-78, 131-140). A card is modelled as
  its follower and its selected flag. A click is modelled as the `(column, entry)` of a
  rendered card. A click where no card is drawn does nothing.
- Concurrent fetches: two clicks can each start a fetch before either completes. The
  fetch that resolves last renders, using the cache its handler captured, so it can hide
  an entry an earlier render showed. `Step` and `Run` apply each click together with
  its completion, one at a time.
- JavaScript property lookup: `cache[username]` also finds names inherited from
  `Object.prototype` (such as `constructor`), and would treat a falsy cached value as
  absent. The model treats the lookup as map membership, and every cached value is a
  list.
- `Object.freeze`: cache snapshots are immutable Dafny maps.
- `performStart` does not read the button state: Start can be invoked directly with
  whatever the inputs hold. Start discards the previous tree and cache.
- The button's state before the first input event comes from the page markup, which is
  not part of this model: the `Button` constructor takes it as a parameter.
