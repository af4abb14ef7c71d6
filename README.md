# Surrealist presentation: view state, book flipping and photo carousels

The presentation is a 3D room. The visitor starts at a wall of paintings with a
title. A click hides the title, and a second click moves the camera to a desk.
On the desk the visitor can inspect a vintage camera, a pair of film reels, a
gramophone and three books. The back button returns to the desk and then to the
wall.

Almost all of the repository is scene markup. This model covers the logic under
it:

- **The store** (`StoreContext`): four state cells (`viewMode`, `focusTarget`,
  `focusedItemName`, `lookOffset`) in class `Store`. Each cell has a setter that
  overwrites it and nothing else. `UseStore` fails outside a provider.
- **The overlay** (`App`): the back handler, the screen-click handler and the
  two look buttons, each as a method on a `Store` and as the pure transition
  that specifies it. It also holds the visibility predicates of each mode. The
  click layer and the back and look buttons are mounted only in their modes;
  the title and the footer stay mounted and only fade in and out.
- **The desk** (`Desk`): the click handlers of the camera, film reels,
  gramophone and generic item, and the hologram carousel, class
  `HologramGallery`, with its modular next/prev index. The generic item
  (`InteractableItem` in the source) is defined but never mounted on the
  desk, so its handler is modelled but no desk action reaches it.
- **A book** (`InteractiveBook`): class `Book`, built from a `BookData`, and its `flippedCount`,
  clamped to `[0, pages + 1]`. It also covers the book click, the reset when
  focus is lost, which leaves are open, page numbering and back-side defaults.
- **All handlers together** (`Navigation`): one event type for every action that
  writes the store, and a proof that over any sequence of events a focus target
  and a focused object exist exactly when the mode is FOCUS.

The data model is in `Types`: `ViewMode` with its four members,
`FocusTarget` (three points: object position, camera offset, look-at point),
`BookPage` (title and text required, every other field optional) and
`BookData` (an `id`, a separate `title`, and an ordered `pages` list, which the
book component also accepts missing).
`null`/`undefined` become `Option`. Positions and the look offset are `real`.

## Model

| member | source | states |
|---|---|---|
| Types.AllModes | types.ts:3-8 | the enum lists four pairwise distinct members |
| Types.AllModesComplete | types.ts:3-8 | every mode is one of those four |
| StoreContext.Initial | context/StoreContext.tsx:19-22 | the provider starts in WALL, with no focus target, no focused name and look offset 0 |
| StoreContext.InitialConsistent | context/StoreContext.tsx:19-22 | the initial store satisfies the focus invariant |
| StoreContext.Store.constructor | context/StoreContext.tsx:18-22 | a mounted provider holds exactly the initial values |
| StoreContext.Store.SetViewMode | context/StoreContext.tsx:19 | replaces the mode; the other three cells are unchanged |
| StoreContext.Store.SetFocusTarget | context/StoreContext.tsx:20 | replaces the focus target; the other three cells are unchanged |
| StoreContext.Store.SetFocusedItemName | context/StoreContext.tsx:21 | replaces the focused name; the other three cells are unchanged |
| StoreContext.Store.SetLookOffset | context/StoreContext.tsx:22 | replaces the look offset; the other three cells are unchanged |
| StoreContext.UseStore | context/StoreContext.tsx:42-47 | succeeds iff a provider is present, returns that provider's store, and otherwise fails with the provider error; there is no default store |
| StoreContext.ClickObject | components/World/Desk.tsx:193-208 | a click on an object in DESK stores that object's target and name and enters FOCUS; in any other mode, FOCUS included, it changes nothing |
| StoreContext.ClickObjectFocuses | components/World/Desk.tsx:193-210 | after a click in DESK exactly the clicked object is focused; a click in other modes leaves every object's focus as it was; a click keeps the focus invariant |
| StoreContext.Focused | components/World/Desk.tsx:210 | an object counts as focused only in FOCUS and only under its own name; outside FOCUS nothing is focused; under the focus invariant a focused object has a focus target |
| App.Back | App.tsx:10-18 | FOCUS goes to DESK and clears both focus cells; DESK goes to WALL and leaves the focus cells alone; the wall modes are unchanged |
| App.ScreenClick | App.tsx:20-26 | WALL goes to WALL_NO_TITLE, WALL_NO_TITLE goes to DESK, and DESK and FOCUS are unchanged |
| App.ShowNavButtons | App.tsx:63-96 | the back and look buttons are mounted exactly in DESK and FOCUS |
| App.ShowFooter | App.tsx:29 | the footer is opaque exactly when the back and look buttons are mounted |
| App.IsTransitionMode | App.tsx:30 | the click layer is mounted exactly when the back and look buttons are not, so exactly one way of navigating is mounted in every mode |
| App.ShowTitle | App.tsx:28 | the title is opaque only in a wall mode other than WALL_NO_TITLE, and never together with the footer |
| App.LookLeft | App.tsx:77 | look-left changes only the offset, by exactly -0.5 |
| App.LookRight | App.tsx:83 | look-right changes only the offset, by exactly +0.5 |
| App.LookButtons | App.tsx:76-87 | look-left and look-right undo each other |
| App.OverlayKeepsConsistent | App.tsx:10-26 | back, screen click and the look buttons keep the focus invariant; back never lands in FOCUS and always clears both focus cells; a screen click never enters FOCUS |
| App.BackAndForth | App.tsx:10-26 | two presses of back reach a wall mode from anywhere, and two screen clicks reach the desk from either wall mode |
| App.HandleBack | App.tsx:10-18 | the handler's effect on the store is `Back` of the old state |
| App.HandleScreenClick | App.tsx:20-26 | the handler's effect on the store is `ScreenClick` of the old state |
| App.HandleLookLeft | App.tsx:77 | the button's effect on the store is the offset minus 0.5 |
| App.HandleLookRight | App.tsx:83 | the button's effect on the store is the offset plus 0.5 |
| Desk.DeskNamesDistinct | components/World/Desk.tsx:398-482 | the camera, film reels, gramophone and the three books on the desk have six different names |
| Desk.AtMostOneFocused | components/World/Desk.tsx:210 | no two differently named objects are focused at once |
| Desk.ItemFocus | components/World/Desk.tsx:25-43 | a generic item's target equals its position, which is its local position lifted by 1.48; its offset is the given one or (0, 1, 2) |
| Desk.CameraFocus | components/World/Desk.tsx:197-203 | the camera is viewed from below (negative offset y) and from the +z side, looking at a point straight above the object |
| Desk.FilmReelsFocus | components/World/Desk.tsx:256-263 | the film reels are viewed from the right, above and the +z side, looking at a point above and to the right of the object |
| Desk.GramophoneFocus | components/World/Desk.tsx:332-338 | the gramophone is viewed head-on from the +z side, looking at a point above it; its focus position is its desk placement lifted by 1.48 |
| Desk.ItemClick | components/World/Desk.tsx:31-47 | in DESK the generic item stores its target and name and enters FOCUS; otherwise nothing changes |
| Desk.CameraClick | components/World/Desk.tsx:193-208 | in DESK stores "Vintage Camera" and its focus target and enters FOCUS; otherwise nothing changes |
| Desk.FilmReelsClick | components/World/Desk.tsx:252-268 | in DESK stores "Film Rolls" and its focus target and enters FOCUS; otherwise nothing changes |
| Desk.GramophoneClick | components/World/Desk.tsx:328-343 | in DESK stores "Gramophone" and its focus target and enters FOCUS; otherwise nothing changes |
| Desk.CameraClickShowsItsGallery | components/World/Desk.tsx:210-227 | clicking the camera on the desk focuses it, so its gallery shows and the other two do not; outside DESK it changes nothing |
| Desk.NextIndex | components/World/Desk.tsx:98-101 | the next index stays in `[0, n)` |
| Desk.PrevIndex | components/World/Desk.tsx:103-106 | the previous index stays in `[0, n)` |
| Desk.NextPrevInverse | components/World/Desk.tsx:98-106 | next after prev and prev after next give back the original index |
| Desk.ModSucc | components/World/Desk.tsx:98-101 | stepping a remainder modulo n is stepping the number itself |
| Desk.NextTimesAdvances | components/World/Desk.tsx:98-101 | k presses of next move the index to `(i + k) mod n` |
| Desk.FullRoundReturns | components/World/Desk.tsx:98-101 | n presses of next return to the starting photo |
| Desk.HologramGallery.constructor | components/World/Desk.tsx:95-96 | a gallery starts at photo 0 |
| Desk.HologramGallery.CurrentPhoto | components/World/Desk.tsx:108 | the photo on show is one of the gallery's photos |
| Desk.HologramGallery.NextPhoto | components/World/Desk.tsx:98-101 | sets the index to `(i + 1) mod n` and keeps it in range |
| Desk.HologramGallery.PrevPhoto | components/World/Desk.tsx:103-106 | sets the index to `(i - 1 + n) mod n` and keeps it in range |
| InteractiveBook.SafePages | components/World/InteractiveBook.tsx:252 | the pages rendered are the given list, or none when the list is missing |
| InteractiveBook.TotalLeaves | components/World/InteractiveBook.tsx:252-253 | one leaf for the cover plus one per page; a missing page list gives one leaf |
| InteractiveBook.NextCount | components/World/InteractiveBook.tsx:281-285 | a forward flip moves the counter by 0 or +1, is a no-op exactly when every leaf is turned, and keeps it in `[0, totalLeaves]` |
| InteractiveBook.PrevCount | components/World/InteractiveBook.tsx:287-291 | a backward flip moves the counter by 0 or -1, is a no-op exactly when no leaf is turned, and never makes it negative |
| InteractiveBook.FlipClamps | components/World/InteractiveBook.tsx:281-291 | where a flip is possible, the forward and backward flips undo each other |
| InteractiveBook.FlipsStayInRange | components/World/InteractiveBook.tsx:281-291 | over any sequence of flips the counter stays in `[0, totalLeaves]` and moves at most one per flip |
| InteractiveBook.LeafOpen | components/World/InteractiveBook.tsx:332-363 | leaf k is open exactly when at least k + 1 leaves are turned, so the cover opens with the first flip |
| InteractiveBook.OpenLeavesPrefix | components/World/InteractiveBook.tsx:330-363 | open leaves form a prefix: a leaf is open only if every earlier leaf is open |
| InteractiveBook.CountOpenLeaves | components/World/InteractiveBook.tsx:330-363 | the number of open leaves equals the flip counter |
| InteractiveBook.FrontNumber | components/World/InteractiveBook.tsx:369 | page i's front number is odd and halves down to i |
| InteractiveBook.BackNumber | components/World/InteractiveBook.tsx:380 | page i's back number is even and is its front number plus one |
| InteractiveBook.PageNumbersConsecutive | components/World/InteractiveBook.tsx:358-380 | the pages are numbered 1 to 2n in reading order, front odd and back even |
| InteractiveBook.PageNumbersDistinct | components/World/InteractiveBook.tsx:369-380 | no front number equals a back number, and different pages get different numbers |
| InteractiveBook.BackTitle | components/World/InteractiveBook.tsx:378 | a given back title shows as given; a missing one shows as empty |
| InteractiveBook.BackText | components/World/InteractiveBook.tsx:379 | a given back text shows as given, even when empty; a missing one shows "The dream continues..."; the back text is empty iff it is given as empty |
| InteractiveBook.BackFontSize | components/World/InteractiveBook.tsx:381 | the back font size is never zero: a given non-zero size is kept, a missing or zero one becomes 0.04 |
| InteractiveBook.BackLineHeight | components/World/InteractiveBook.tsx:382 | the back line height is never zero: a given non-zero height is kept, a missing or zero one becomes 1.5 |
| InteractiveBook.BookFocus | components/World/InteractiveBook.tsx:268-275 | a book's target and position are both the book's position, with the camera straight above it |
| InteractiveBook.Book.constructor | components/World/InteractiveBook.tsx:242-249 | a book mounted from a `BookData` keeps its id, title, position and pages and starts closed |
| InteractiveBook.Book.IsFocused | components/World/InteractiveBook.tsx:251 | the book is focused only in FOCUS and under its own title; under the focus invariant it then has a focus target |
| InteractiveBook.Book.IsOpen | components/World/InteractiveBook.tsx:332-363 | only an existing leaf can be open, and only once at least one flip has happened |
| InteractiveBook.Book.HandleBookClick | components/World/InteractiveBook.tsx:265-279 | in DESK stores the book's title and its top-down target and enters FOCUS; otherwise nothing changes |
| InteractiveBook.Book.NextPage | components/World/InteractiveBook.tsx:281-285 | increments only below `totalLeaves` and keeps the counter in range |
| InteractiveBook.Book.PrevPage | components/World/InteractiveBook.tsx:287-291 | decrements only above 0 and keeps the counter in range |
| InteractiveBook.Book.FocusTimerFires | components/World/InteractiveBook.tsx:258-263 | when the reset timer fires, an unfocused book returns to 0 and a focused one keeps its count |
| InteractiveBook.BackUnfocusesBooks | components/World/InteractiveBook.tsx:251 | outside FOCUS no book is focused, so every book's reset applies |
| Navigation.StepConsistent | components/World/InteractiveBook.tsx:265-279 | every handler (overlay, desk objects, books) keeps the focus invariant |
| Navigation.RunConsistent | App.tsx:10-26 | over any sequence of handlers from a consistent store, the focus target and focused name are present iff the mode is FOCUS |
| Navigation.ReachableConsistent | context/StoreContext.tsx:19-22 | from the initial store, every reachable state has both focus cells present iff the mode is FOCUS |
| Navigation.FocusLeftOnlyByBack | App.tsx:10-18 | in FOCUS every action except back keeps the mode, the target and the focused name |
| Navigation.DeskEnteredOnlyThus | App.tsx:10-26 | DESK is entered only by a screen click from WALL_NO_TITLE or by back from FOCUS |
| Navigation.CameraTour | components/World/Desk.tsx:193-208 | two screen clicks and a camera click give FOCUS on "Vintage Camera" at its hard-coded focus position; back then gives DESK with no target and no name |
| Navigation.BookTour | components/World/InteractiveBook.tsx:265-279 | two screen clicks and a book click give FOCUS on the book's title with the top-down target, and the book reports itself focused |
| Navigation.ReadAndLeaveBook | components/World/InteractiveBook.tsx:258-291 | two forward flips on a focused book give a count of 2; after back and the reset timer it is 0 |

## Left out

- Rendering: meshes, materials, lights, fonts, image and GLB URLs, `useGLTF` and the `scene.traverse` material tweaks. They are scene markup over a rendering library.
- The camera controller is not part of this model. It tweens over an animation library on float vectors. `lookOffset` is written by the look buttons but never read by the camera.
- `BookLeaf`'s per-frame lerp of rotation and stack height, the moving light, and the float layout constants and front-side font defaults in `PageVisuals` are not modelled. They are frame-timed floating-point animation and layout.
- InteractiveBook.Book.FocusTimerFires: the 500 ms `setTimeout` and its `clearTimeout` cleanup are one discrete event. The model does not track timing. It relies on this: a timer that fires was not cancelled, so the book is still unfocused.
- InteractiveBook.Book.NextPage: the page halves are mounted only while the book is focused. The methods do not require focus. That gating is `Book.IsFocused`.
- Hover and cursor state, React re-rendering and update batching, and the context bridge that passes the store into the canvas are not modelled.
- Room, paintings and the experience scene hold no logic and are not modelled.
- Numbers are `real`, so floating-point rounding is not modelled. The look offset moves in steps of 0.5, which binary floating point represents exactly.
- Desk.HologramGallery.constructor: requires a non-empty photo list. With an empty list the source's first render reads a field of `undefined` and throws. The model does not represent that crash. All three galleries on the desk have three photos.
- The carousel's `width || 0.6` and `height || 0.45` size defaults are rendering detail and are not modelled.
- Desk.CameraFocus: the handler's hard-coded focus position (-1.45, 1.83, 0.2) is not where the camera is mounted. Its group sits at [-1.25, 0.2, 0.5] inside the desk group raised by 1.48 (components/World/Desk.tsx:214, 396), which is (-1.25, 1.68, 0.5). The model keeps the hard-coded value.
- Desk.FilmReelsFocus: likewise, the hard-coded (-1.1, 1.48, 0.1) differs from the mounted (-0.9, 1.53, -0.3) (components/World/Desk.tsx:274, 396). The model keeps the hard-coded value.
- Desk.ItemClick: the generic item is defined but never mounted, so no action in the running page reaches this handler. `Navigation` still includes it as an event.
