# Lesson booking front end: cart, capacity and checkout

This project models the core of a lesson-booking front end (`js/app.js`) in Dafny.

The front end keeps two things:
- a **ledger** of lessons, each with an id, subject, location, price and remaining `spaces`;
- a **cart**, which holds copies of ledger records.

The model covers these operations:
- **Add to cart.** The lesson's copy goes to the end of the cart and the ledger record loses one space. This happens only when the record has a space left and no cart entry has its id.
- **Remove from cart.** The first ledger record with the item's id gets a space back. Then the first cart entry with that id is taken out.
- **Catalogue view.** A sorted copy of the ledger, by subject, location, price or spaces, ascending or descending.
- **Checkout form.** Checks the name and phone number, and emits an order carrying the cart total only when both checks pass.
- **Checkout.** POSTs the order. On an ok answer it goes through the cart in order and sends a PUT for each entry whose id is in the ledger, carrying that record's current spaces. Entries the ledger does not know get no PUT. If every PUT is answered without a rejection, it then clears the cart and reloads the catalogue. A rejected PUT stops the checkout: no later PUT, no clearing, no reload.
- **Catalogue load and search.** Each replaces the ledger wholesale. A failed load falls back to a fixed list of twelve lessons.

Layout:
- `lessons.dfy` (module `Lessons`): the record, the id search, ledger predicates and the fallback list.
- `validation.dfy` (module `Validation`): JavaScript white space, `trim`, the `^[class]+$` match, and the name and phone checks.
- `catalog.dfy` (module `Catalog`): JavaScript string order, the sort comparator, and the sort.
- `cart.dfy` (module `Cart`): add and remove as functions on a value `AppState(lessons, cart)`, the order total, and sequences of user actions.
- `checkout.dfy` (module `Checkout`): network answers, requests, the PUT loop and the whole checkout as a function.
- `frontend.dfy` (module `Frontend`): the two stateful components as classes. `App` is the root instance, owning `lessons`, `cart`, `searchQuery`, `sortBy` and `sortOrder`. `CheckoutForm` owns `name`, `phone` and the two validity flags. `AddToCart`, `RemoveFromCart` and `ProcessCheckout` are proved equal to `Cart.AfterAdd`, `Cart.AfterRemove` and `Checkout.RunCheckout`. `LoadLessons` leaves the ledger `Checkout.LoadedLessons` of the answer. `SearchLessons` states its new ledger directly in its contract.

The network is not modelled. Every `fetch` is replaced by a given answer, `Response<T> = Ok(body) | NotOk | Rejected`:
- `Ok`: a response with `ok` set;
- `NotOk`: a response without `ok`;
- `Rejected`: a rejected promise, or a body that fails to decode.

The checkout returns the list of requests it sent.

The model keeps these quirks of the code:
- A *rejected* PUT throws to the outer `catch`. That skips the remaining PUTs, leaves the cart as it was, and skips the reload. A *not-ok* PUT answer is ignored.
- Removing an item whose id is in the ledger but not in the cart still gives the ledger record a space back.
- The sort comparator never answers 0, so the sort is not stable. The order of records with equal keys is left unspecified.

## Model

| member | source | states |
|---|---|---|
| `Lessons.FirstIndex` | js/app.js:377 | The result is -1 exactly when no record has the id. Otherwise it is the position of a record with the id, and no earlier record has it. |
| `Lessons.FallbackLessons` | js/app.js:239-324 | The fallback ledger holds twelve records with ids 1 to 12, positive prices and positive spaces, and its ids are distinct. |
| `Validation.IsJsWhitespace` | js/app.js:162 | The characters `\s` matches and `trim()` strips: ECMAScript's white space (tab, vertical tab, form feed, space, no-break space, the Unicode space separators and the byte order mark) and its line terminators (line feed, carriage return, line and paragraph separators). No ASCII letter or digit is among them. |
| `Validation.MatchesClassPlus` | js/app.js:162 | A whole string matches `^[cls]+$` exactly when it is non-empty and every character is in the class. |
| `Validation.TrimEmptyIffBlank` | js/app.js:162 | `trim()` leaves nothing exactly when every character is JavaScript white space. |
| `Validation.LeadingSpace` | js/app.js:332 | The count of leading characters `trim()` drops: all of them are white space, and the character after them, if any, is not. |
| `Validation.TrailingSpaceStart` | js/app.js:332 | Where the trailing white space begins: every character from there on is white space, and the character before it, if any, is not. |
| `Validation.Trim` | js/app.js:162 | `trim()`: the leading white space is dropped, then the trailing white space of what is left. Its shape is stated by `Validation.TrimIsInnerSlice`, `Validation.TrimDropsOnlyWhitespace` and `Validation.TrimEmptyIffBlank`. |
| `Validation.TrimIsInnerSlice` | js/app.js:332 | `trim()` returns the slice of the string that starts after the leading white space. The slice neither starts nor ends with white space. |
| `Validation.TrimDropsOnlyWhitespace` | js/app.js:332 | Everything `trim()` drops, before and after the slice it keeps, is white space. |
| `Validation.ValidName` | js/app.js:160-163 | A name is valid exactly when it is non-empty, every character is an ASCII letter or white space, and some character is not white space. |
| `Validation.ValidNameHasLetter` | js/app.js:162 | Equivalently, a name is valid exactly when it consists of letters and white space and holds at least one letter. An all-blank name is invalid. |
| `Validation.ValidPhone` | js/app.js:164-167 | A phone number is valid exactly when it is non-empty and every character is an ASCII digit. |
| `Catalog.StrLess` | js/app.js:215 | JavaScript's `<` on strings: the first differing character decides, and a proper prefix comes first. Its order properties are the three lemmas below. |
| `Catalog.StrLessIrreflexive` | js/app.js:215 | No string is less than itself under JavaScript's string order. |
| `Catalog.StrLessTransitive` | js/app.js:215 | JavaScript's string order is transitive. |
| `Catalog.StrLessTotal` | js/app.js:217 | Of two different strings, one is less than the other. |
| `Catalog.KeyOf` | js/app.js:205-212 | The value `a[this.sortBy]` the comparator reads: a number exactly for `price` and `spaces`, which the code passes through `Number()`, and text for `subject` and `location`. |
| `Catalog.KeyLess` | js/app.js:214-218 | The `<` and `>` the comparator applies to two keys: numbers compare as numbers and text with `Catalog.StrLess`. Only keys of the same kind are ever less. |
| `Catalog.KeyLessTotalOrder` | js/app.js:205-212 | The keys of one field form a strict total order: numbers for `price` and `spaces`, text for the other fields. |
| `Catalog.Compare` | js/app.js:214-218 | The comparator only ever answers 1 or -1, never 0. |
| `Catalog.CompareTiesBothWays` | js/app.js:214-218 | On two records with equal keys the comparator answers -1 in both orders, so it is not a consistent comparator. |
| `Catalog.Insert` | js/app.js:204-219 | Inserting into an ordered sequence gives an ordered sequence whose multiset has exactly one more element, the inserted record. |
| `Catalog.SortLessons` | js/app.js:201-221 | The sorted copy is a permutation of the ledger. Its keys do not decrease for `Asc` and do not increase for `Desc`. |
| `Cart.AfterAdd` | js/app.js:349-366 | If the record has a space left and no cart entry has its id, the cart gains the record's copy (old spaces) at its end, the record loses one space and stays at 0 or more, and no other record changes. Otherwise nothing changes. Distinct cart ids and non-negative spaces are preserved. |
| `Cart.ReturnSpace` | js/app.js:371-374 | The ledger's first record with the id gains one space. No other record changes, and nothing changes when no record has the id. Non-negative spaces are preserved. |
| `Cart.DropFirst` | js/app.js:377-380 | The first cart entry with the id is removed and the rest keep their order. With no such entry the cart is unchanged. |
| `Cart.AfterRemove` | js/app.js:369-381 | A removal applies `Cart.ReturnSpace` to the ledger and `Cart.DropFirst` to the cart. The ledger keeps its length and non-negative spaces, and the cart loses one entry exactly when it holds one with the id. |
| `Cart.RemoveAtUnique` | js/app.js:379 | Splicing one entry out of a cart with distinct ids keeps the ids distinct. |
| `Cart.RemoveAtMembers` | js/app.js:379 | Splicing out entry `c` of a cart with distinct ids leaves exactly the entries whose id differs from entry `c`'s. |
| `Cart.RemoveDropsId` | js/app.js:377-380 | On a cart with distinct ids, removal keeps the ids distinct and removes exactly the entries with the item's id. |
| `Cart.AddSpacesAccount` | js/app.js:359-361 | An add removes one space from the ledger exactly when it adds one entry to the cart. Otherwise both stay the same. |
| `Cart.RemoveSpacesAccount` | js/app.js:371-380 | A removal adds one space to the ledger when the ledger knows the id, and removes one cart entry when the cart has it. These are independent of each other. |
| `Cart.ReturnSpaceUndoesTake` | js/app.js:360-374 | Giving a space back to the record that just lost one restores the ledger, when that record is the first with its id. |
| `Cart.DropFirstUndoesAppend` | js/app.js:359-380 | Removing the entry just appended, when no earlier entry has its id, restores the cart. |
| `Cart.AddThenRemoveRestores` | js/app.js:349-381 | A successful add followed by removing the same lesson restores both the ledger and the cart. |
| `Cart.AddIdempotent` | js/app.js:352-357 | Adding the same lesson twice leaves the same state as adding it once. |
| `Cart.TotalPrice` | js/app.js:75-77 | The total of a cart whose prices are all non-negative is non-negative. |
| `Cart.TotalPriceAppend` | js/app.js:76 | The total of two carts joined end to end is the sum of their totals. |
| `Cart.TotalPriceRemoveAt` | js/app.js:76 | Removing entry `c` lowers the total by that entry's price. |
| `Cart.AddRaisesTotal` | js/app.js:349-366 | A successful add raises the total by the lesson's price. Any other add leaves the total. |
| `Cart.RemoveLowersTotal` | js/app.js:369-381 | A removal lowers the total by the price recorded in the removed entry, and leaves it when the cart has no entry with the id. |
| `Cart.Run` | js/app.js:349-381 | Any sequence of adds and removes keeps the number of ledger records. |
| `Cart.RunKeepsInvariants` | js/app.js:349-381 | Across any sequence of adds and removes, cart ids stay distinct and no record's spaces drop below zero. |
| `Checkout.PutFor` | js/app.js:403-414 | An entry gets at most one PUT. It gets one exactly when the ledger has a record with its id, and the PUT names that id. |
| `Checkout.AllPuts` | js/app.js:402-415 | The PUTs of a checkout in which none is rejected: `Checkout.PutFor` of each entry, in cart order. Their shape is stated by `Checkout.AllPutsSound` and `Checkout.AllPutsComplete`. |
| `Checkout.AllPutsSound` | js/app.js:402-415 | There is at most one PUT per cart entry. Each PUT names a cart id the ledger knows and carries the current spaces of the ledger's first record with that id. |
| `Checkout.AllPutsComplete` | js/app.js:402-415 | When the ledger knows every entry, there is one PUT per entry, and PUT `k` is for entry `k` with that lesson's current ledger spaces. |
| `Checkout.Sync` | js/app.js:402-415 | The loop as written: entries the ledger does not know are skipped, a not-ok answer is passed over, and a rejected PUT throws out of the loop. Its outcomes are stated by `Checkout.SyncMeetsPuts`. |
| `Checkout.FirstRejected` | js/app.js:402-415 | The position of the first cart entry whose PUT is sent and rejected, or the cart's length when there is none. Every earlier entry that sends a PUT is not rejected. |
| `Checkout.SyncStopsAtFirstRejected` | js/app.js:402-415 | The loop runs to its end exactly when no sent PUT is rejected. Otherwise it has sent exactly the PUTs of the entries up to and including the first rejected one, and none after it. |
| `Checkout.SyncSendsPrefix` | js/app.js:402-415 | The loop runs to its end exactly when no sent PUT is rejected, and then it has sent every PUT in cart order. Otherwise it has sent a non-empty prefix of them. |
| `Checkout.SyncMeetsPuts` | js/app.js:402-415 | The two lemmas above together: all PUTs and completion when none is rejected; otherwise a non-empty prefix that is exactly the PUTs of the entries up to the first rejected one. |
| `Checkout.LoadedLessons` | js/app.js:229-325 | The ledger a load leaves: the loaded records on an ok answer, otherwise the fallback list, which has twelve records with distinct ids. |
| `Checkout.RunCheckout` | js/app.js:389-432 | The checkout as written. The POST always comes first, and the cart is either cleared in full or left as it was. |
| `Checkout.RunCheckoutOutcomes` | js/app.js:389-432 | The POST is always sent first. If it is not ok or is rejected, nothing else is sent and the state is unchanged. If it is ok and no PUT is rejected, every PUT is sent, then a reload; the cart ends empty and the ledger is the reloaded one. If a PUT is rejected, the PUTs of the entries up to and including the first rejected one are sent and no later ones; there is no reload, and the state is unchanged. The cart is either cleared in full or left as it was. |
| `Checkout.NoPutWithoutOrder` | js/app.js:400-428 | A checkout sends a PUT only if its POST came back ok. |
| `Checkout.OnePutPerEntry` | js/app.js:402-415 | When every entry is in the ledger and no PUT is rejected, the trace is the POST, one PUT per entry, then the reload. Entry `k`'s PUT comes right after the first `k` PUTs and carries that lesson's current ledger spaces. |
| `Frontend.CheckoutForm.constructor` | js/app.js:65-73 | The form starts with empty fields and both flags down. This agrees with both checks on empty fields. |
| `Frontend.CheckoutForm.ValidateName` | js/app.js:160-163 | The name flag becomes the name check of the current name. |
| `Frontend.CheckoutForm.ValidatePhone` | js/app.js:164-167 | The phone flag becomes the phone check of the current number. |
| `Frontend.CheckoutForm.OnNameInput` | js/app.js:118-126 | An input event stores the text in the name field and then sets the flag from it, so the flags stay current. |
| `Frontend.CheckoutForm.OnPhoneInput` | js/app.js:133-141 | The same for the phone field. |
| `Frontend.CheckoutForm.HandleCheckout` | js/app.js:168-183 | An order is emitted exactly when both flags are up. It carries the name, the phone, the cart and the cart's total. With current flags, an emitted order has a valid name and phone. |
| `Frontend.App.constructor` | js/app.js:190-198 | The root starts with an empty ledger, an empty cart and an empty query, sorted by subject ascending. |
| `Frontend.App.FilteredLessons` | js/app.js:200-222 | The view is a permutation of the ledger, ordered by the chosen field and direction. As a function, it cannot change the ledger. |
| `Frontend.App.LoadLessons` | js/app.js:229-326 | The ledger becomes `Checkout.LoadedLessons` of the answer: the loaded records on an ok answer, or the fallback list on a not-ok or rejected one. Only the ledger changes. |
| `Frontend.App.SearchLessons` | js/app.js:332-344 | A blank trimmed query reloads the catalogue. Otherwise the trimmed query is sent; an ok answer replaces the ledger, and any other answer leaves it. |
| `Frontend.App.AddToCart` | js/app.js:349-366 | The new ledger and cart are exactly `Cart.AfterAdd` of the old ones. |
| `Frontend.App.RemoveFromCart` | js/app.js:369-381 | The new ledger and cart are exactly `Cart.AfterRemove` of the old ones: `Cart.ReturnSpace` on the ledger, then `Cart.DropFirst` on the cart. |
| `Frontend.SendPuts` | js/app.js:402-415 | The loop sends the PUTs one at a time in cart order and stops at a rejected one. What it sends, and whether it ran to its end, are exactly `Checkout.Sync`. |
| `Frontend.App.ProcessCheckout` | js/app.js:389-433 | The requests sent and the final ledger and cart are exactly those of `Checkout.RunCheckout`, whose outcomes `Checkout.RunCheckoutOutcomes` lists. |

## Left out

- Vue plumbing is presentation only: component registration, templates, the disabled binding of the add button, `toggleCart` and `showCart`.
- `getSubjectImage` and `onImageError` only resolve image URLs and patch the page.
- `alert` and `console.error` are UI side effects and do not affect state.
- HTTP, `fetch` and JSON encoding are replaced by given answers (`Response<T>`). A body that fails to decode behaves like a rejected request, because it throws inside the same `try`.
- The 300 ms debounce in `searchLessons` (`setTimeout`/`clearTimeout`) is timer-driven. `Frontend.App.SearchLessons` models only the callback that runs once the timer fires.
- Asynchrony is not modelled. Each operation runs to completion, so user actions that land between the awaits of a checkout or a search are not covered. The reload that an empty search starts is not awaited in the source; here it completes at once.
- The `isSubmitting` flag is set and cleared around a synchronous emit, so nothing observable depends on it.
- The `mounted` hook only calls `loadLessons`. It is `Frontend.App.constructor` followed by `Frontend.App.LoadLessons`.
- JavaScript numbers are modelled as integers, and `Number(...)` as the identity. Fractional prices and `NaN` are not modelled.
- String comparison uses Unicode scalar values, where JavaScript compares UTF-16 code units. The two orders differ only between characters above U+FFFF and characters from U+E000 to U+FFFF.
- `Frontend.App.AddToCart` takes the lesson as its position in the ledger. In the source, the card passes the ledger's own record object, because the sorted view is a shallow copy. A record from a ledger that has since been replaced is not modelled.
- Any `sortOrder` other than `'asc'` sorts descending, so the setting is modelled as `Asc | Desc`.
- The source leaves the sort algorithm to the JavaScript engine. `Catalog.SortLessons` is an insertion sort driven by the source's comparator. The contracts do not say how records with equal keys are ordered, because the source does not fix it.
- `Frontend.App.ProcessCheckout` is given one answer per cart entry (`puts[k]` answers the PUT for entry `k`). The answers of entries that send no PUT are unused.
- `Checkout.AllPutsSound` is weaker than the source when some cart entries are missing from the ledger (after a search, say). It says only that there are no more PUTs than entries and what each PUT carries, not which entries get one. `Checkout.AllPutsComplete` covers the case where the ledger knows every entry.
