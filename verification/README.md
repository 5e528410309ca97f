# Roulette-Up admin console: page logic in Dafny

This project models the client-side logic of the Roulette-Up administration
console. The console is a set of React pages over a REST API for a promotional
roulette rewards programme. The model covers:

- the REST client's response classification (`apiFetch`) and its `ApiError`;
- the numbered pagination window, its first/last shortcuts, Prev/Next and the
  3 x 4 card grid of the orders, roulette-history and users list pages;
- the load cycle every page runs: loading on and error cleared, then the data
  replaced wholesale or an error message chosen, then loading off;
- the mutation flows: reclaim-then-refresh of a point record, cancel-then-refetch
  of an order, delete-then-leave of a product;
- the form checks and submit flows for product create/edit, stock adjustment
  and sign-in;
- the status-code labels.

Layout, one module per file:

| file | module | source |
|---|---|---|
| `wrappers.dfy` | `Wrappers` | `Option` and `Result` |
| `entities.dfy` | `Entities` | `src/types/*.ts` and the requests of `src/apis/*.ts` |
| `api_client.dfy` | `ApiClient` | `src/apis/client.ts` |
| `js_text.dfy` | `JsText` | `String.prototype.trim`, as the forms use it |
| `page_common.dfy` | `PageCommon` | the `catch` message rule and the `createdAt` dash rule, repeated on every page |
| `status_labels.dfy` | `StatusLabels` | order and point-record status labels |
| `pagination.dfy` | `Pagination` | `pageNumbers`, `gridItems` and the Prev/Next/shortcut conditions |
| `list_pages.dfy` | `ListPages` | `OrdersPage`, `RouletteHistoryPage`, `UsersPage` |
| `participants_page.dfy` | `ParticipantsPage` | `RouletteParticipantsPage` |
| `order_detail_page.dfy` | `OrderDetailPage` | `OrderDetailPage` |
| `product_detail_page.dfy` | `ProductDetailPage` | `ProductDetailPage` |
| `user_detail_page.dfy` | `UserDetailPage` | `UserDetailPage` |
| `product_create_page.dfy` | `ProductCreatePage` | `ProductCreatePage` |
| `product_edit_page.dfy` | `ProductEditPage` | `ProductEditPage` |
| `product_stock_page.dfy` | `ProductStockPage` | `ProductStockPage` |
| `login_page.dfy` | `LoginPage` | `LoginPage` |

How pages are modelled. Each page is a class whose fields are the page's React
state. An async handler is split at each `await` into one method per step. The
first method runs up to the request and returns the request it issues. Each
following method takes the awaited call's outcome (`Reply`: resolved with a
value, or rejected with the thrown value) and performs the continuation. So the
in-flight state (`loading`, `saving`, `canceling`, `reclaimingId`) can be seen
between steps. `window.confirm` is a boolean argument. Leaving the page
(`onBack`, `onDeleted`, `onSuccess`) is a result of the settling method.

The three list pages hold identical state and run an identical load cycle.
They differ only in the resource, the fallback text and the bar threshold, so
one class, `PagedListView`, stands for all three. A `ListKind` parameter
selects the page.

Behaviour worth knowing, as the code has it:

- Every load clears any earlier error at its start
  (src/pages/OrdersPage.tsx:57), before its request. A reclaim or a cancel does
  not clear it before dispatch, so after a successful cancel an error shown
  earlier stays on screen. The edit and stock forms clear it only once
  validation passes.
- The create form clears a success message, but nothing ever sets one. The
  invariant `ProductCreateView.Valid()` records this.
- The orders and participants pages show the pagination bar from two pages on.
  The history and users pages show it from one page on.
- The list pages disable Prev/Next from the server's `page.number`. The click
  handlers, however, step the locally requested `page`.
- Known status labels are not injective over all strings. An unknown status
  spelled like a label shows the same text as the status it labels.

## Model

| member | source | states |
|---|---|---|
| `ApiClient.ApiError.constructor` | src/apis/client.ts:8-13 | the error carries exactly the status, message, code and field errors it was built with |
| `ApiClient.ApiFetch` | src/apis/client.ts:16-44 | a missing or empty base URL throws before any request; a network or JSON syntax error propagates; a non-ok response throws an ApiError whose status is the response's, whose message is the payload's message or else `statusText`, and whose code and field errors come from the payload (absent for an empty body); an ok response returns the payload unchanged, or null for an empty body |
| `PageCommon.CaughtMessage` | src/pages/OrdersPage.tsx:60-63 | an ApiError or other Error shows its own message; a non-Error value shows the page's fixed fallback |
| `PageCommon.CreatedAtText` | src/pages/UserDetailPage.tsx:55-58 | the text is "-" exactly when `createdAt` is absent or empty, and otherwise the formatting of that raw value |
| `JsText.Trim` | src/pages/LoginPage.tsx:24 | `nickname.trim()` is never longer than the nickname, and neither end of it is white space |
| `JsText.TrimIsSpaceStrippedInfix` | src/pages/ProductCreatePage.tsx:31 | `trim()` removes exactly a white-space prefix and a white-space suffix, and leaves neither end as white space |
| `JsText.TrimEmptyIffAllSpace` | src/pages/ProductCreatePage.tsx:31 | a name trims to the empty string exactly when it is blank or all white space |
| `StatusLabels.OrderStatusText` | src/pages/OrdersPage.tsx:28-39 | USER_CANCELLED, ADMIN_CANCELLED and COMPLETED get their fixed labels; any other status is shown unchanged (`statusText` of the order detail page is the same switch) |
| `StatusLabels.OrderStatusTextPassesThroughOnlyUnknown` | src/pages/OrderDetailPage.tsx:29-40 | a status is shown unchanged exactly when it is not one of the three known ones; a label is never a known status, so labelling twice equals labelling once |
| `StatusLabels.PointStatusText` | src/pages/RouletteParticipantsPage.tsx:132-140 | AVAILABLE, USED, EXPIRED and CANCELED get their fixed labels; any other status is shown unchanged |
| `StatusLabels.PointStatusTextPassesThroughOnlyUnknown` | src/pages/RouletteParticipantsPage.tsx:132-140 | a point status is shown unchanged exactly when it is not one of the four known ones |
| `Pagination.Window` | src/pages/OrdersPage.tsx:83-93 | no buttons when totalPages <= 0; otherwise exactly min(5, totalPages) consecutive ascending indices, all within [0, totalPages-1], containing the current page whenever it is valid |
| `Pagination.PageNumbers` | src/pages/RouletteHistoryPage.tsx:56-65 | the source's loop builds no window without page info, and otherwise exactly `Window` of the server-reported page and page count |
| `Pagination.WindowIsClampedRun` | src/pages/UsersPage.tsx:62-69 | the window starts at `currentPage - 2` clamped into [0, max(0, totalPages-5)] and is the run of min(5, totalPages) pages from there |
| `Pagination.WindowCenteredWhenRoom` | src/pages/OrdersPage.tsx:85-88 | with two pages of room on each side the window has five buttons and the current page is the middle one |
| `Pagination.FirstShortcutIff` | src/pages/OrdersPage.tsx:209 | the "1 …" shortcut shows exactly when the window leaves out page 0, that is, when there are more than 5 pages and the current page is past index 2 |
| `Pagination.LastShortcutIff` | src/pages/OrdersPage.tsx:239 | the "… N" shortcut shows exactly when the window leaves out the last page, that is, when there are more than 5 pages and the current page is more than 2 before the last |
| `Pagination.FewPagesAllShown` | src/pages/UsersPage.tsx:154-195 | with at most 5 pages every page has a button and neither shortcut shows |
| `Pagination.PrevNextStayInRange` | src/pages/OrdersPage.tsx:200-259 | on a valid page, Prev is disabled exactly on the first page and Next exactly on the last; an enabled Prev or Next requests the neighbouring page, which is valid |
| `Pagination.GridItems` | src/pages/OrdersPage.tsx:76-81 | exactly COLS*ROWS = 12 slots: the first min(12, n) are the items in order, the rest are empty |
| `ListPages.PagedListView.constructor` | src/pages/OrdersPage.tsx:48-51 | a list page mounts on page 0 with no data, no error and `loading` already on; the displayed page is then the requested one, with no window and no bar |
| `ListPages.PagedListView.StartLoad` | src/pages/OrdersPage.tsx:55-58 | loading goes on and the error is cleared before the request for the requested page at size 12; the data is kept |
| `ListPages.PagedListView.SettleLoad` | src/pages/UsersPage.tsx:24-40 | a reply replaces the data wholesale, after which the displayed page is the server's `page.number`; a failure sets the caught message and keeps the last data; loading is off either way |
| `ListPages.PagedListView.CurrentPage` | src/pages/OrdersPage.tsx:74 | the displayed page is the server's `page.number` once page info is loaded, and the locally requested page before that |
| `ListPages.PagedListView.BarVisible` | src/pages/OrdersPage.tsx:193 | the bar shows with page info and more than one page on the orders page, and with page info and at least one page on the history and users pages (src/pages/RouletteHistoryPage.tsx:172, src/pages/UsersPage.tsx:138); on the orders page a shown bar on a valid page always has Prev or Next enabled |
| `ListPages.PagedListView.PageNumbers` | src/pages/UsersPage.tsx:60-70 | the page's `pageNumbers` is the window of its loaded page info, and empty before any data |
| `ListPages.PagedListView.GridItems` | src/pages/UsersPage.tsx:47-52 | the page's grid has 12 slots, the loaded items first, in order |
| `ListPages.PagedListView.SetPage` | src/pages/RouletteHistoryPage.tsx:39 | changing the page re-runs the load only when the page actually changes; nothing else changes |
| `ListPages.PagedListView.ClickPrev` | src/pages/OrdersPage.tsx:203-204 | Prev is only clickable past the first displayed page and moves the requested page down by one, never below 0 |
| `ListPages.PagedListView.ClickNext` | src/pages/OrdersPage.tsx:255-256 | Next is only clickable before the last displayed page and requests the next page |
| `ListPages.PagedListView.ClickNumber` | src/pages/OrdersPage.tsx:222-237 | a numbered button other than the active one requests that page, which is a valid page |
| `ListPages.PagedListView.ClickFirst` | src/pages/RouletteHistoryPage.tsx:188-199 | the "1" shortcut, shown only when the window leaves out page 0, requests page 0 |
| `ListPages.PagedListView.ClickLast` | src/pages/RouletteHistoryPage.tsx:218-229 | the last-page shortcut, shown only when the window leaves out the last page, requests page totalPages-1 |
| `ListPages.SinglePageBar` | src/pages/RouletteHistoryPage.tsx:172 | with one page of results the bar shows on the history and users pages but not on the orders page (`totalPages > 1` at src/pages/OrdersPage.tsx:193); on a single valid page Prev and Next are both disabled |
| `ParticipantsPage.ParticipantsView.constructor` | src/pages/RouletteParticipantsPage.tsx:16-20 | the page mounts on page 0 with no data, loading on, no error and no reclaim in flight |
| `ParticipantsPage.ParticipantsView.StartLoad` | src/pages/RouletteParticipantsPage.tsx:24-27 | loading on and error cleared before the request for this day's records at the requested page, size 10 |
| `ParticipantsPage.ParticipantsView.SettleLoad` | src/pages/RouletteParticipantsPage.tsx:27-35 | a reply replaces the data; a failure sets the caught message (load fallback) and keeps the data; loading ends |
| `ParticipantsPage.ParticipantsView.BeginReclaim` | src/pages/RouletteParticipantsPage.tsx:46-51 | a declined confirmation sends nothing and changes nothing; otherwise the reclaim is sent and only that record's button becomes disabled |
| `ParticipantsPage.ParticipantsView.ReclaimReplied` | src/pages/RouletteParticipantsPage.tsx:51-58 | a successful reclaim re-requests the same day and page; a failed one sets the message (reclaim fallback), keeps the data and re-enables every button |
| `ParticipantsPage.ParticipantsView.RefreshReplied` | src/pages/RouletteParticipantsPage.tsx:52-58 | the refreshed page replaces the data wholesale, or the reclaim's message is set and the data kept; every button is enabled again and loading is untouched |
| `ParticipantsPage.ParticipantsView.ReclaimDisabled` | src/pages/RouletteParticipantsPage.tsx:107 | a record's reclaim button is disabled only when that record's reclaim is in flight, and no button is disabled when none is |
| `ParticipantsPage.ParticipantsView.BarVisible` | src/pages/RouletteParticipantsPage.tsx:148 | the bar shows only with page info and at least two pages; a shown bar on a valid page always has Prev or Next enabled |
| `ParticipantsPage.ParticipantsView.ClickPrev` | src/pages/RouletteParticipantsPage.tsx:156-157 | Prev, clickable only past the server's first page, moves the requested page down by one and never below 0 |
| `ParticipantsPage.ParticipantsView.ClickNext` | src/pages/RouletteParticipantsPage.tsx:163-164 | Next, clickable only when `number + 1 < totalPages`, requests the next page |
| `OrderDetailPage.OrderDetailView.constructor` | src/pages/OrderDetailPage.tsx:43-46 | the page mounts with no order, loading on, no error and no cancel running |
| `OrderDetailPage.OrderDetailView.StartLoad` | src/pages/OrderDetailPage.tsx:50-53 | loading on and error cleared before the order is requested |
| `OrderDetailPage.OrderDetailView.SettleLoad` | src/pages/OrderDetailPage.tsx:53-61 | the order is stored, or the message set with the order kept; loading ends |
| `OrderDetailPage.OrderDetailView.BeginCancel` | src/pages/OrderDetailPage.tsx:66-71 | a declined confirmation sends nothing; otherwise the cancel is sent and the button is disabled; an earlier error message is not cleared |
| `OrderDetailPage.OrderDetailView.CancelReplied` | src/pages/OrderDetailPage.tsx:71-79 | a successful cancel refetches the same order; a failed one sets the message, keeps the order and re-enables the button |
| `OrderDetailPage.OrderDetailView.RefetchReplied` | src/pages/OrderDetailPage.tsx:72-80 | the server's copy replaces the order, or the message is set and the order kept; the button is enabled again |
| `OrderDetailPage.OrderDetailView.CancelDisabled` | src/pages/OrderDetailPage.tsx:197 | the cancel button is disabled exactly while a cancel is running |
| `OrderDetailPage.OrderDetailView.StatusText` | src/pages/OrderDetailPage.tsx:150 | a loaded order's status is shown unchanged exactly when it is not a known status, and the text shown is never itself a known status |
| `OrderDetailPage.OrderDetailView.CreatedAt` | src/pages/OrderDetailPage.tsx:83-86 | with no order loaded the creation time reads "-" |
| `ProductDetailPage.ProductDetailView.constructor` | src/pages/ProductDetailPage.tsx:28-30 | the page mounts with no product, loading on and no error |
| `ProductDetailPage.ProductDetailView.StartLoad` | src/pages/ProductDetailPage.tsx:35-37 | loading on and error cleared before the product is requested; the orders button is disabled meanwhile |
| `ProductDetailPage.ProductDetailView.SettleLoad` | src/pages/ProductDetailPage.tsx:37-45 | the product is stored, or the message set with the product kept; loading ends; the orders button is then enabled exactly when a product is loaded (line 102) |
| `ProductDetailPage.ProductDetailView.BeginDelete` | src/pages/ProductDetailPage.tsx:68-73 | a declined confirmation sends nothing and changes nothing; otherwise the error is cleared and the delete is sent |
| `ProductDetailPage.ProductDetailView.DeleteReplied` | src/pages/ProductDetailPage.tsx:73-79 | `onDeleted` is called exactly when the delete succeeded; a failure sets the message instead |
| `ProductDetailPage.ProductDetailView.OrdersDisabled` | src/pages/ProductDetailPage.tsx:102 | the orders button is disabled while loading and while no product is loaded, and enabled once a product is loaded and loading has ended |
| `ProductDetailPage.ProductDetailView.CreatedAt` | src/pages/ProductDetailPage.tsx:55-56 | with no product loaded the creation time reads "-" |
| `UserDetailPage.UserDetailView.constructor` | src/pages/UserDetailPage.tsx:28-30 | `loading` is already on before the first fetch |
| `UserDetailPage.UserDetailView.StartLoad` | src/pages/UserDetailPage.tsx:35-37 | loading on and error cleared before the user is requested |
| `UserDetailPage.UserDetailView.SettleLoad` | src/pages/UserDetailPage.tsx:37-45 | the user is stored, or the caught message (with the page's fallback) is set and the user kept; loading ends either way |
| `UserDetailPage.UserDetailView.CreatedAt` | src/pages/UserDetailPage.tsx:55-58 | with no user loaded the creation time reads "-" |
| `ProductCreatePage.ValidateCreate` | src/pages/ProductCreatePage.tsx:28-50 | a form is accepted exactly when the trimmed name is non-empty and price and stock are finite and at least 1; checks run name, price, stock and only the first failure is reported; an accepted form yields the trimmed (non-blank, edge-trimmed) name and the parsed price and stock |
| `ProductCreatePage.ProductCreateView.constructor` | src/pages/ProductCreatePage.tsx:16-21 | empty fields (whose `Number` is 0), not saving, no messages |
| `ProductCreatePage.ProductCreateView.Submit` | src/pages/ProductCreatePage.tsx:23-50 | both messages are cleared first; a failed check shows its message and sends nothing; a valid form turns saving on and sends exactly the checked request; the success message stays unset |
| `ProductCreatePage.ProductCreateView.SubmitReplied` | src/pages/ProductCreatePage.tsx:50-58 | success calls `onBack`; failure sets the message and stays; saving ends either way |
| `ProductEditPage.ValidateEdit` | src/pages/ProductEditPage.tsx:44-56 | accepted exactly when the trimmed name is non-empty and the price is finite and at least 1; a blank name is reported before the price; the update carries the trimmed name and parsed price |
| `ProductEditPage.EditAgreesWithCreate` | src/pages/ProductEditPage.tsx:45-52 | for any acceptable stock, the edit form accepts and rejects exactly as the create form does, with the same message |
| `ProductEditPage.ProductEditView.constructor` | src/pages/ProductEditPage.tsx:17-21 | empty form, loading on, not saving, no error |
| `ProductEditPage.ProductEditView.StartLoad` | src/pages/ProductEditPage.tsx:26-28 | loading on and error cleared before the product is requested; the form is kept |
| `ProductEditPage.ProductEditView.SettleLoad` | src/pages/ProductEditPage.tsx:28-37 | the product's name and price are copied into the form, or the message is set with the form kept; loading ends |
| `ProductEditPage.ProductEditView.Submit` | src/pages/ProductEditPage.tsx:42-56 | a failed check shows its message and sends nothing; only a passing form clears the error, turns saving on and sends the checked update |
| `ProductEditPage.ProductEditView.SubmitReplied` | src/pages/ProductEditPage.tsx:56-64 | success calls `onBack`; failure sets the message and stays; saving ends either way |
| `ProductStockPage.ValidateDelta` | src/pages/ProductStockPage.tsx:43-47 | a delta is accepted exactly when it is finite and non-zero, negative ones included, and is sent unchanged |
| `ProductStockPage.ProductStockView.constructor` | src/pages/ProductStockPage.tsx:17-21 | no stock known, loading on; the empty delta field reads as 0 and would be rejected |
| `ProductStockPage.ProductStockView.StartLoad` | src/pages/ProductStockPage.tsx:26-28 | loading on and error cleared before the product is requested |
| `ProductStockPage.ProductStockView.SettleLoad` | src/pages/ProductStockPage.tsx:28-36 | the product's `stockQuantity` becomes the current stock, or the message is set with the stock kept; loading ends |
| `ProductStockPage.ProductStockView.Submit` | src/pages/ProductStockPage.tsx:41-51 | a rejected delta shows its message and sends nothing; an accepted one clears the error, turns saving on and sends it as `increaseStock` |
| `ProductStockPage.ProductStockView.SubmitReplied` | src/pages/ProductStockPage.tsx:51-59 | success calls `onBack`; failure sets the message and stays; saving ends either way |
| `LoginPage.ValidateNickname` | src/pages/LoginPage.tsx:9-27 | accepted exactly when the trimmed nickname has at least MIN_NICKNAME_LENGTH = 2 characters; the accepted value is the trimmed nickname |
| `LoginPage.LoginErrorMessage` | src/pages/LoginPage.tsx:33-40 | an ApiError's `errors.nickname` takes precedence; otherwise the message is the one every page's catch block chooses, with the sign-in fallback |
| `LoginPage.LoginView.constructor` | src/pages/LoginPage.tsx:16-18 | empty nickname, not loading, no error |
| `LoginPage.LoginView.Submit` | src/pages/LoginPage.tsx:20-31 | the error is cleared first; a short nickname shows its message and sends nothing; otherwise loading goes on and the trimmed nickname is sent |
| `LoginPage.LoginView.SubmitReplied` | src/pages/LoginPage.tsx:31-43 | success yields a session with the response's id and the nickname that was sent; failure sets the chosen message and yields none; loading ends either way |

## Left out

- Network I/O, `response.text()`, `JSON.parse` and `import.meta.env`: their outcomes are inputs of `ApiFetch`. A failure of `response.text()` itself is not modelled.
- The endpoint wrappers in `src/apis/*.ts` other than `client.ts`: the model keeps only the requests they issue (`Entities.Request`). Their `result.data` unwrapping is not modelled, so a page's reply is the unwrapped value or the thrown value.
- `Number(text)` parsing and IEEE NaN/Infinity: a numeric form field holds `Option<real>`, with `None` for a value that is not finite. `String(price)` followed by `Number` on the edit form is taken to return the price.
- JavaScript `.length` counts UTF-16 code units; `LoginPage.ValidateNickname` counts Unicode scalar values, so a nickname of one astral character passes in the source but not in the model.
- Date/time and currency formatting (`formatDateTime`, `Intl.NumberFormat`, `toLocaleString`): `PageCommon.DateText` only tells the dash from "the formatting of this raw value".
- JSX/Tailwind rendering, except the conditions that decide whether a button or the bar exists or is disabled. The "no orders" notice and the loading and error banners are not modelled. Neither are `src/components/CenteredCardLayout.tsx`, `src/pages/DashboardPage.tsx`, `src/pages/BudgetPage.tsx` or `src/App.tsx`.
- Form field editing (`onChange`): the fields are public and set directly.
- React effect scheduling and async interleaving. The model does not capture the last-response-wins race between overlapping loads, a second handler started while one is in flight, or a closure reading a stale `page`. Each step method reads the current fields.
- Session persistence, route guards, the navigation state machine and the budget schedule. Their code is not part of this model.
- `src/types/user-detail.ts`, `src/types/session.ts` and `src/types/auth.ts` are not part of this model. `UserDetail`, `Session` and `SignInResponse` carry only the fields the pages use.
