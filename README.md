# Photo puzzle reveal: the game rules in Dafny

A party game: the host uploads a photo, which is cut into a `gridSize` by
`gridSize` grid of sections. Each section has a secret code printed on a QR
card. A guest who scans a card opens the page at `<page>?code=<code>`, and the
matching section is unlocked in the shared game document. Every open page
follows that document and fills in the photo as sections unlock.

The model has four modules, one per source file:

- `GameTypes` (types.ts): the `Section` record and the stored document `Doc`.
  Both of the document's fields are optional, as they are after a JSON round trip.
- `Backend` (firebaseConfig.ts): the class `GameStore`. It holds the single
  stored document, the set of registered listener handles and a log of what
  each listener received. It covers save, unlock, subscribe and unsubscribe on
  the local-storage backend, the one the shipped placeholder API key selects.
- `Admin` (components/AdminPanel.tsx): code construction, section
  generation, share links and how a code reads back from its link, and the
  upload flow (save, then build links).
- `Client` (App.tsx): completion and the unlocked count, the unlock
  resolver as specification functions (`FirstMatch`, `Resolve`,
  `AfterResolve`), and the class `PuzzleApp`. Its methods are the page's
  effects and handlers, and they are proved against those functions.

In these details the model follows the code:

- Codes are matched exactly. Surrounding whitespace is not trimmed.
- An empty section list counts as complete, because `every` on an empty array is true.
  Completion is false only when the document has no section list.
- Codes are not checked for uniqueness. `ScannedCardMatches` therefore promises
  only a match at or before the card's own section. It promises the card's own
  section only when no other section shares the code.
- There is no reset operation in the code.

Three details of JavaScript are written out explicitly:

- An empty `code` parameter is falsy, so it does not start verification.
- `data.imageUrl || null` turns an empty image string into none.
- When no document is stored, `JSON.parse('{}')` gives an undefined image.
  An unlock then saves the document with no image.

## Model

| member | source | states |
|---|---|---|
| `Backend.WithUnlocked` | firebaseConfig.ts:43-45 | the list saved by an unlock has the caller's length; the section at `index` is unlocked with id, code, row and col kept; every other section is unchanged |
| `Backend.WithUnlockedIdempotent` | firebaseConfig.ts:44-45 | unlocking twice equals unlocking once, and unlocking an already open section leaves the data identical |
| `Backend.GameStore.constructor` | firebaseConfig.ts:69-71 | a fresh store holds no document (reads as `null`) and no listeners |
| `Backend.GameStore.Save` | firebaseConfig.ts:28-40 | the single document becomes exactly `{imageUrl, sections}`; each registered listener receives that document once more, unregistered ones receive nothing |
| `Backend.GameStore.UnlockSection` | firebaseConfig.ts:43-55 | returns the copied list with `index` unlocked and saves it with the previously stored image, notifying every listener |
| `Backend.GameStore.Subscribe` | firebaseConfig.ts:58-76 | registers a new handle, never used before, and calls it once at once with the current document or `null`; the document is untouched |
| `Backend.GameStore.Unsubscribe` | firebaseConfig.ts:77 | removes the handle, so later saves no longer reach it; the document and past deliveries are untouched |
| `Admin.UpperChar` | components/AdminPanel.tsx:31 | upper-casing never yields a lower-case ASCII letter, maps `a`-`z` to `A`-`Z` and leaves other characters alone |
| `Admin.Upper` | components/AdminPanel.tsx:31 | upper-casing keeps the length and leaves no lower-case ASCII letter; each `a`-`z` becomes its capital and every other character is kept, so a string without lower-case letters comes back unchanged |
| `Admin.UpperIdempotent` | components/AdminPanel.tsx:31 | upper-casing an upper-cased string changes nothing |
| `Admin.RandomSuffix` | components/AdminPanel.tsx:31 | `substring(2, 7)` of the base-36 draw has at most 5 characters: characters 2 to 6 of a long draw, the tail of a short one, empty for two characters or fewer |
| `Admin.MakeCode` | components/AdminPanel.tsx:31 | every code is `WED-` followed by the upper-cased suffix, 4 to 9 characters long, with no lower-case letter after the tag |
| `Admin.MakeCodeUrlSafe` | components/AdminPanel.tsx:31 | a code built from a base-36 draw consists only of capitals, digits and `-`, so it needs no escaping in an address |
| `Admin.GeneratedCodesUrlSafe` | components/AdminPanel.tsx:28-35 | every code of a game generated from base-36 draws consists only of capitals, digits and `-` |
| `Admin.GenerateSections` | components/AdminPanel.tsx:27-35 | exactly `gridSize * gridSize` sections; section `i` has id `i`, row `i / gridSize`, col `i % gridSize`, starts locked and carries the code of draw `i` |
| `Admin.GridCoordinates` | components/AdminPanel.tsx:33-34 | for a position inside an `n` by `n` grid, row and col are below `n` and `row * n + col` gives the position back |
| `Admin.GeneratedGrid` | components/AdminPanel.tsx:28-35 | every generated section lies inside the grid and `row * gridSize + col == id` |
| `Admin.ParamValue` | App.tsx:25-26 | the parameter value read from an address is the longest prefix of the rest of the address without `&` or `#`, stopping exactly at the first of them |
| `Admin.LinkRoundTrip` | App.tsx:25-26 | for a code made of capitals, digits and `-`, reading the `code` parameter of `baseUrl + "?code=" + code` gives back exactly that code |
| `Admin.AmpersandCodeIsCut` | App.tsx:25-26 | a code containing `&` does not survive the round trip: `A&B` reads back as `A` |
| `Admin.ShareLinks` | components/AdminPanel.tsx:47-58 | one card per section in section order, keeping its id and code and targeting `baseUrl + "?code=" + code` |
| `Admin.GeneratedLinksReadBack` | components/AdminPanel.tsx:49-51 | in a game generated from base-36 draws, every card's address reads back exactly its own section's code |
| `Admin.HandleImageUpload` | components/AdminPanel.tsx:17-39 | without a file nothing changes; with one, the store holds the photo and the generated sections (only registered listeners notified, other logs and the handle counter kept), and the links are built from the saved sections after the save |
| `Client.EveryUnlocked` | App.tsx:42 | true exactly when every section in the list is unlocked |
| `Client.IsComplete` | App.tsx:42-43 | completion holds exactly when a section list exists and every section in it is unlocked; true for an empty list, false without a list |
| `Client.UnlockedCount` | App.tsx:88-89 | the count never exceeds the total, equals it exactly when every section is unlocked, and is zero exactly when none is |
| `Client.CountedCompletion` | App.tsx:88-89 | the completion flag holds exactly when the unlocked count equals the number of sections |
| `Client.CountAfterUnlock` | App.tsx:88 | unlocking one section raises the count by one if it was locked and leaves it unchanged otherwise |
| `Client.FirstMatch` | App.tsx:62 | the result is the first index whose code equals the candidate exactly; absent exactly when no section carries it |
| `Client.FirstMatchByCodes` | App.tsx:62 | the match depends only on the codes, so flipping unlock flags never moves it |
| `Client.Resolve` | App.tsx:62-80 | "invalid" exactly when no section carries the code; otherwise it shows the matched section's `id + 1` and is new exactly when a write is needed |
| `Client.AfterResolve` | App.tsx:64-69 | resolving keeps the length, every code and every id, and changes nothing unless a locked section matched |
| `Client.ResolveUnknown` | App.tsx:76-80 | an unknown code reports "invalid", needs no write and leaves the list unchanged |
| `Client.ResolveMatched` | App.tsx:64-74 | a matched section is reported as `id + 1`, new exactly when it was locked; it ends unlocked, only that section changes, and the count rises by one exactly when it was new |
| `Client.ResolveTwice` | App.tsx:65-74 | resolving the same code again reports the same piece as not new, needs no write and changes nothing |
| `Client.ScannedCardMatches` | App.tsx:62 | a card's code always finds a section at or before the card's own position; it finds the card's own section when no other section shares the code |
| `Client.FreshGameScan` | App.tsx:58-74 | in a freshly generated game, the first scan of section `k`'s unique code reports piece `k + 1` as new and brings the count to one; a second scan reports it as already found |
| `Client.PuzzleApp.constructor` | App.tsx:12-21 | the page starts with no sections, no image, not complete, nothing pending or verifying, no outcome and no notice |
| `Client.PuzzleApp.CurrentScreen` | App.tsx:94-146 | the verifying screen shows exactly while verifying; otherwise the outcome screen shows exactly when an outcome is held (and shows that outcome), else the dashboard |
| `Client.PuzzleApp.ReadEntryCode` | App.tsx:24-33 | verifying starts only when the address carried a non-empty code, which becomes the pending code; otherwise nothing changes |
| `Client.PuzzleApp.OnSnapshot` | App.tsx:37-45 | a document replaces the list (an empty list when it has none), the shown image and the completion flag; `null` leaves them unchanged |
| `Client.PuzzleApp.SubscribeToGame` | App.tsx:36-45 | registers a fresh listener with the store, which is called at once with the current document, and the page takes that document through its callback |
| `Client.PuzzleApp.UnsubscribeFromGame` | App.tsx:47 | after cleanup the page's listener is no longer registered, and the stored document is untouched |
| `Client.PuzzleApp.HandleUrlUnlock` | App.tsx:58-81 | the list becomes `AfterResolve`, the outcome is `Resolve`'s, verifying stops, and an unknown code raises "Invalid QR Code"; the store is written only when a locked section matched, then with the stored image and the unlocked list; a listening page takes the new completion flag and image |
| `Client.PuzzleApp.ProcessPending` | App.tsx:51-56 | with no pending code or no sections, nothing changes at all (the code stays pending and verifying stays on); otherwise the code is resolved once and cleared, verifying ends, and list, outcome, notice, completion flag, image and store write are exactly those of `HandleUrlUnlock` |
| `Client.PuzzleApp.UploadPhoto` | App.tsx:216-220 | the admin panel inside the page generates a 16-section game (grid size 4) and saves it with the photo, notifying only the registered listeners and leaving the other logs and the handle counter as they were; a listening page then shows those 16 locked sections, the photo, and no completion |
| `Client.PuzzleApp.Dismiss` | App.tsx:134 | dismissing clears the outcome and returns to the dashboard, leaving everything else unchanged |

## Left out

- The remote document store (`initializeApp`, `setDoc`, `updateDoc`, `onSnapshot`) is a foreign network library. `GameStore` implements only the local branch. The selection rule appears only as the predicate `UsesRemoteBackend` (remote exactly when the key is not the placeholder `YOUR_API_KEY`, which is the shipped key); no operation branches on it, and the local-storage key name is not modelled.
- `JSON.stringify` / `JSON.parse` and `localStorage` are treated as an exact round trip into `GameStore.doc`. The `storage_update` window event is modelled as a direct delivery to each registered handle, recorded in `GameStore.delivered`. The page's own callback is `PuzzleApp.OnSnapshot`. The page methods that write to the store (`HandleUrlUnlock`, `ProcessPending`, `UploadPhoto`) run it themselves when the page is still listening. A caller of `Admin.HandleImageUpload` on its own, or a write from another listener, must feed the delivered snapshot to `OnSnapshot` itself.
- Object identity and aliasing are modelled by value. The store's shallow copy shares section objects with the caller, and `PuzzleApp.HandleUrlUnlock` represents this by taking the unlocked list into its own `sections`.
- `Math.random` draws are a parameter: the raw base-36 renderings, one per section. Code uniqueness is not guaranteed by the code, so it is not proved.
- Admin.UpperChar: upper-cases ASCII letters only. Full Unicode case mapping is not modelled, because base-36 renderings contain only digits, `a`-`z` and `.`.
- `QRCode.toDataURL` is an opaque image encoder. A card keeps the address it would encode, not the image.
- `FileReader` reading the photo is browser I/O. The photo arrives as an optional data string.
- `URLSearchParams` and `window.history.replaceState` are browser I/O. The entry code arrives as an optional string, and clearing the address is not modelled.
- Admin.LinkCode: stands for `URLSearchParams.get('code')` only on addresses of the form `baseUrl + "?code=" + value`. It stops the value at `&` or `#` but does no percent-decoding and does not turn `+` into a space, so it agrees with the browser only for values made of capitals, digits and `-`. That is why `LinkRoundTrip` requires such a code.
- Client.PuzzleApp.HandleUrlUnlock: runs synchronously. The 800 ms delay, the 4 s notice expiry, and the stale list captured across the delay are timing, not logic.
- Concurrent writes from several devices (last writer wins) are not modelled.
- The `isAdmin` toggle and all JSX rendering are presentation. `CurrentScreen` keeps just the render order of the three screens.
- `GRID_SIZE` (4) is passed to the admin panel and fixes generation at 16 sections. `PuzzleApp.UploadPhoto` uses it, while `Admin.HandleImageUpload` and `Admin.GenerateSections` take the grid size as a parameter.
- components/PuzzleGrid.tsx (rendering) and components/Scanner.tsx (never imported by the page) are not part of this model.
- There is no reset operation in the code, so none is modelled.
