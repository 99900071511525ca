# Incident list pagination

A model of the pagination logic in the `Incidents` screen of the be-the-hero mobile app. This React Native screen lists the "incidents" (cases) that NGOs register.

The screen keeps these state hooks:

- `incidents`: the accumulated list.
- `total`: the server's count, taken from the `x-total-count` header.
- `page`: the cursor for the next page to request.
- `loading`: the in-flight flag.
- `refreshing`: the pull-to-refresh spinner.

`loadIncidents(pageNumber = page, shouldRefresh = false)` works like this:

1. It returns early while a load is outstanding.
2. It also returns early once `total > 0` and the list length equals `total`.
3. Otherwise it sets `loading` and awaits `GET /incidents?page=pageNumber`.
4. When the page arrives, it replaces the list (on refresh) or appends the page to it.
5. It records the new total, moves the cursor to `pageNumber + 1` and clears `loading`.

`handleRefresh` switches the spinner on, awaits `loadIncidents(1, true)` and switches the spinner off. Loads are triggered by the mount effect and by FlatList's `onEndReached`, both of which use the defaults.

The project has two modules:

- `Pagination` (pagination.dfy) states the protocol on values. The `Screen` datatype holds the five hooks plus the two continuations that the `await`s leave suspended:
  - `pending`: the arguments of the load waiting for its page.
  - `awaitingRefresh`: a refresh waiting for that load.

  Each source function half becomes a transition function (`Load`, `Complete`, `Refresh`, `Resume`). Each trigger becomes an `Event`. `Run` replays a sequence of events. The lemmas state the guards, the refresh behaviour and what scrolling accumulates.
- `Incidents` (incidents.dfy) is the component itself: class `Pager`, whose fields are the state hooks and whose methods assign them as the `set…` calls do. Each method is proved to implement its transition function. Each method also keeps the invariant `Valid`: `loading` holds exactly while a request is outstanding, and a waiting refresh waits for its own page-1 request. The one exception is `FinishLoad`, the half of `OnResponse` that runs before a waiting `handleRefresh` resumes. It keeps `Valid` only when no refresh is waiting; otherwise `OnResponse` restores it.

The model keeps two behaviours of the code as written:

- The completion guard also stops a refresh. Once the list holds exactly the positive total, pulling to refresh issues no request (`CompletionGuard`).
- The spinner is switched off even when the refresh's load was blocked. This includes a second pull while the first refresh is still waiting for its page (`Refresh`, `InFlightGuard`, `SecondRefreshClearsSpinner`).

Nothing in the code keeps the list from growing beyond the total. The completion guard compares for equality, so it does not block while the list is shorter or longer than a positive total (`GuardNeedsExactTotal`). Once the list is longer than a positive total, it never blocks again as long as the responses keep reporting that total: every scroll issues its request and appends its page (`OvershootNeverBlocks`).

## Model

| member | source | states |
|---|---|---|
| `Incidents.Pager.constructor` | src/pages/Incidents/index.js:11-15 | The list starts empty, the total at 0 and the cursor at 1; loading and refreshing are off; nothing is outstanding. |
| `Pagination.MountRequestsFirstPage` | src/pages/Incidents/index.js:76-78 | From the initial state, the mount effect passes both guards and requests page 1 without refresh. The list stays empty and the spinner stays off. |
| `Pagination.Load` | src/pages/Incidents/index.js:40-53 | A load passes exactly when nothing is in flight and the completion guard does not hold. A blocked load changes nothing. A load that passes sets `loading` and issues a request for exactly `pageNumber` with its refresh flag. List, total, cursor and spinner are unchanged either way. |
| `Pagination.Complete` | src/pages/Incidents/index.js:55-66 | On a refresh the list becomes exactly the response's data. Otherwise the old list is an unchanged prefix, the response's data follows it, and the length is the sum of the two. The total becomes the response's total, the cursor becomes `pageNumber + 1`, and loading ends. |
| `Pagination.Refresh` | src/pages/Incidents/index.js:70-74 | The spinner stays on exactly when the page-1 refresh request is issued, and the refresh then waits for it. When the load is blocked, the only change is that the spinner is off. |
| `Pagination.Resume` | src/pages/Incidents/index.js:56-73 | The arriving page completes the load. A refresh that waited for it also finishes, so the spinner is off. Nothing is outstanding afterwards. |
| `Pagination.InFlightGuard` | src/pages/Incidents/index.js:40-42 | While a request is outstanding, any sequence of mounts, end-of-list triggers and refreshes issues no request. It leaves the list, total, cursor, loading flag and outstanding request unchanged. The spinner ends off if any refresh was pulled, and is otherwise unchanged. |
| `Pagination.CompletionGuard` | src/pages/Incidents/index.js:44-46 | Once the list holds exactly the positive total and the screen is idle, any sequence of triggers changes nothing except the spinner. This includes refreshes. The spinner ends off if any refresh was pulled. |
| `Pagination.GuardNeedsExactTotal` | src/pages/Incidents/index.js:44-46 | When idle with a total of 0 or less, or a list length different from the total, both the end-of-list trigger and a refresh issue their request. |
| `Pagination.SecondRefreshClearsSpinner` | src/pages/Incidents/index.js:70-74 | A second pull during an issued refresh turns the spinner off. The first refresh's request stays outstanding. |
| `Pagination.RefreshReplacesList` | src/pages/Incidents/index.js:55-74 | A refresh that is not blocked ends with the list equal to the page-1 response, whatever it held before. The total is the response's, the cursor is 2, and both flags are off. |
| `Pagination.RunPreservesValid` | src/pages/Incidents/index.js:40-74 | After any sequence of events, `loading` holds exactly while one request is outstanding, and a waiting refresh waits for its own page-1 request. |
| `Pagination.ScrollAccumulates` | src/pages/Incidents/index.js:56-66 | Scrolling page after page from an idle screen gives the old list followed by every page received. The length grows by the number of records received and the cursor advances one per page. The last response's total is recorded and the spinner is untouched. The condition is that before each page's scroll, the old length plus the records received so far is not equal to the positive total held at that moment. |
| `Pagination.OvershootNeverBlocks` | src/pages/Incidents/index.js:44-46 | When an idle list is longer than a positive total and every response reports that same total, no completion guard intervenes. Every scroll appends its page, the cursor advances once per page, and the total stays the same. |
| `Pagination.FiveIncidentsInThreePages` | src/pages/Incidents/index.js:44-66 | With a total of 5 delivered as pages of 2, 2 and 1, the list ends as the five records in order and the cursor at 4. The next end-of-list trigger is a no-op. |
| `Incidents.Pager.LoadIncidents` | src/pages/Incidents/index.js:26-53 | Implements `Load` and keeps `Valid`. It reports whether a request was issued: exactly when not loading and not exhausted. A blocked call changes no field. An issued request carries `pageNumber` and `shouldRefresh`. |
| `Incidents.Pager.FinishLoad` | src/pages/Incidents/index.js:55-67 | Implements `Complete`. It keeps `Valid` when no refresh waits for the load. The list is replaced by the response on a refresh and is `old list + data` otherwise. The total is the response's, the cursor is `pageNumber + 1`, and loading ends. |
| `Incidents.Pager.HandleRefresh` | src/pages/Incidents/index.js:70-74 | Implements `Refresh` and keeps `Valid`. When issued, the spinner is on and the page-1 refresh request is outstanding. When blocked, the spinner is off and the loading state is unchanged. |
| `Incidents.Pager.OnMount` | src/pages/Incidents/index.js:76-78 | Loads the current cursor without refresh. It issues a request exactly when the guards pass. |
| `Incidents.Pager.OnEndReached` | src/pages/Incidents/index.js:143 | Loads the current cursor without refresh. It issues a request exactly when the guards pass and otherwise changes nothing. |
| `Incidents.Pager.OnResponse` | src/pages/Incidents/index.js:51-74 | Resumes the suspended load, then the waiting refresh if there is one, and keeps `Valid`. Nothing is outstanding afterwards. The spinner is off if a refresh was waiting, and unchanged otherwise. |
| `Incidents.PullDuringFirstLoad` | src/pages/Incidents/index.js:40-42 | Mount, then a pull while page 1 is in flight: the pull is stopped by the in-flight guard and its spinner is off. Once page 1 arrives, the list is exactly that page and the cursor is 2. |

## Left out

- Network I/O: `api.get` is not modelled. The page it returns is a `Response` value passed to the event that delivers it.
- Failed requests are not modelled. The code defines no failure path, so a rejected request would leave `loading` set for good.
- The `x-total-count` header is a string at run time, so the strict comparison in the completion guard may never hold. `total` is modelled as an integer, as the code intends.
- React state semantics are not modelled. State updates are immediate and sequential, and stale closures and batched `setState` are ignored. In real React, two triggers within one render could both see `loading` false.
- Animations are not modelled: the entrance spring and fade at the top of `loadIncidents`, and the scroll-driven header interpolations. They are presentation only, work on floating-point animated values, and do not touch the pagination state.
- Currency formatting (`Intl.NumberFormat`), navigation to the detail screen (`navigateToDetail`) and the list's `keyExtractor` are calls into foreign libraries and are not modelled.
- The mount effect fires once, on the first render. Runs of events may contain `Mount` any number of times, which changes nothing because it acts exactly like `EndReached`.
- A response that arrives with no request outstanding cannot happen. `Step` ignores it so that runs of events are total.
