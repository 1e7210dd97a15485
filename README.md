# Inventory app: scan, review and duplicate-suppressed stock adjustments

A Dafny model of the core of a small inventory client. The user scans a
QR code naming a product. The app looks the product up in a remote table
store and shows its name and stock. The user then records a write-off or
a supply of some quantity. Two mechanisms keep the same adjustment from
being sent twice:

- a local replay check in the screen component, which compares the hash
  `type-productId-qty-timestamp` with the last accepted one;
- a five-minute cooldown cache in the store client, keyed by
  `type-productId-qty`.

Files:

- `wrappers.dfy`: module `Wrappers`, the `Option` type (JavaScript's
  `null`/`undefined` next to a present value).
- `numerals.dfy`: module `Numerals`. It models how JavaScript writes a
  non-negative integer (`${n}`, `n.toString()`) and `padStart`, and proves
  the string facts the keys and the date stamp rely on.
- `api.dfy`: module `Api`, modelling `src/servises/api.ts`. It covers
  product lookup with field defaults, the date stamp, the table choice and
  the cache keys. The class `Api` holds the `operationCache` map, and its
  `CreateOperation` method checks the cache, writes and then records.
- `app.dfy`: module `App`, modelling `src/App.tsx`. The class `App` holds
  the component state (`view`, `product`, `qty`, `error`, `isProcessing`,
  `lastOperation`) and has one method per event: scan, operation, back and
  typing a quantity. It also has the two button-enable predicates. The
  method `ScanThenRepeatedWriteoff` checks one sequence against these
  contracts: a stock of 10, a write-off of 3, a refused immediate repeat,
  and an accepted repeat after the cooldown.

Inputs from the outside world are parameters of the methods:

- the parsed scan;
- the store's answer to a lookup (`Option<StoreRecord>`);
- the store's answer to a write (`WriteOutcome`);
- the two clock readings (`now` for the hash, `apiNow` inside the client);
- today's date (`CalendarDate`).

`HandleScan` returns the id it looked up and `HandleOperation` the write it
sent, `None` when none was made. This is how "no fetch" and "no remote
write" are stated.

The model keeps these behaviours of `src/App.tsx`:

- A failed scan does not clear the loaded product: only the view and the
  error change. `Back` changes only the view.
- A failed operation does not leave the product view.
- A failed write shows the thrown `Error`'s message as it is
  (src/App.tsx:79), so an `Error` with an empty message leaves the error
  empty: `App.App.HandleOperation` does not promise a non-empty error after
  a failed write.
- `handleScan` itself does not test the view. In the program it is reached
  only from the scanner, which is mounted in the scan view alone
  (src/App.tsx:89-91); `App.HandleScan` may also be called in
  `ProductView`, a case the program never produces, so the model is more
  general there.
- The replay hash carries the full millisecond timestamp. By
  `App.OperationHashInjective`, the local check fires only when type,
  product id, quantity and timestamp all repeat.
- Nothing in `handleOperation` itself stops a write-off larger than the
  stock. Only the disabled button does, so non-negative stock is proved
  under `WriteoffEnabled`.

## Model

| member | source | states |
|---|---|---|
| `Numerals.NatToString` | src/servises/api.ts:34 | the text of a non-negative number is a non-empty string of decimal digits |
| `Numerals.NatToStringValue` | src/servises/api.ts:12-14 | reading the numeral back gives the number, and its length is exactly the number's count of decimal places (no leading zeros) |
| `Numerals.NatToStringInjective` | src/servises/api.ts:34 | distinct numbers have distinct numerals |
| `Numerals.NatToStringLength` | src/servises/api.ts:12 | a number in [10^(k-1), 10^k) is written with exactly k digits |
| `Numerals.PadStart` | src/servises/api.ts:12-14 | `padStart(width, c)` yields a string of length max(length of s, width) |
| `Numerals.PadStartSuffix` | src/servises/api.ts:12-14 | the padded string ends with the original string |
| `Numerals.PadStartFill` | src/servises/api.ts:12-14 | every character placed in front of the original is the pad character |
| `Numerals.ZeroPadValue` | src/servises/api.ts:13-14 | zero-padding a numeral keeps it a digit string of the same value |
| `Numerals.SplitAtLastDash` | src/servises/api.ts:34 | `a-d` with no '-' in `d` determines both `a` and `d`, even if `a` contains '-' |
| `Api.GetProduct` | src/servises/api.ts:18-30 | a failed lookup gives no product; a found record keeps its id, a missing name becomes "" and a missing stock 0, and the falsy-value default never alters a present name or stock |
| `Api.Pad2` | src/servises/api.ts:12-14 | `toString().padStart(2, '0')` of a month or day; what it yields is stated by `TwoDigitField` |
| `Api.TwoDigitField` | src/servises/api.ts:12-14 | a month or day below 100 padded to two places is its tens digit followed by its units digit |
| `Api.FormattedDate` | src/servises/api.ts:10-15 | `getFormattedDate` for a given date; its layout and read-back are stated by `FormattedDateFields`, `FormattedDateReadsBack` and `FormattedDateIsIso` |
| `Api.FormattedDateFields` | src/servises/api.ts:10-15 | the date stamp is the year's numeral, '-', two month digits, '-', two day digits |
| `Api.FormattedDateReadsBack` | src/servises/api.ts:10-15 | the stamp ends in "-MM-DD"; the part before it reads back as the year, MM as getMonth()+1 and DD as the day |
| `Api.FormattedDateIsIso` | src/servises/api.ts:10-15 | for a four-digit year the stamp is 10 characters, '-' at positions 4 and 7 and digits elsewhere (ISO 8601 calendar date, YYYY-MM-DD) |
| `Api.TableName` | src/servises/api.ts:45 | write-offs are filed into 'Списания' and supplies into 'Поставки', and only those |
| `Api.TypeName` | src/servises/api.ts:34 | 'writeoff' and 'supply', which start with different letters, so the type at the head of a key tells the two kinds apart |
| `Api.CacheKey` | src/servises/api.ts:34 | the key `type-productId-qty`; `CacheKeyInjective` states that it identifies the call |
| `Api.TypePrefixDetermines` | src/servises/api.ts:34 | a key `type-rest` determines its operation type and its rest |
| `Api.CacheKeyInjective` | src/servises/api.ts:34 | two calls share a cache key if and only if they agree on type, product id and quantity |
| `Api.InCooldown` | src/servises/api.ts:38-40 | a key is refused when it is cached and the clock is less than 300000 ms past its entry; what a refusal does is stated by `Api.Api.CreateOperation` |
| `Api.LatestIsNewest` | src/servises/api.ts:38-40 | in a spaced history every accepted key is still cached, at a time no earlier than any of its acceptances |
| `Api.AcceptKeepsSpacing` | src/servises/api.ts:38-43 | a write the cache does not refuse keeps every two acceptances of one key at least 300000 ms apart (of the lazy-expiry model; see Left out) |
| `Api.Api.constructor` | src/servises/api.ts:4 | the cache starts empty, with no accepted writes |
| `Api.Api.CreateOperation` | src/servises/api.ts:32-72 | a key younger than 300000 ms is refused with the cooldown error, with no write and the cache unchanged; otherwise the record goes to the table of its type with the date stamp; after a successful write the key maps to `now` and nothing else changes; a failed write rethrows and leaves the cache unchanged; the model's spacing invariant is kept |
| `App.OperationHash` | src/App.tsx:53 | the hash `type-productId-qty-now`, the client's cache key followed by '-' and the timestamp; `OperationHashInjective` states that it identifies the submission |
| `App.AdjustedStock` | src/App.tsx:70-72 | a supply never lowers the stock, a write-off never raises it, and the stock changes exactly when the quantity is not zero |
| `App.ErrorText` | src/App.tsx:79 | the message of a thrown `Error`, else the fallback text; its use is stated by `App.App.HandleOperation` |
| `App.OperationHashInjective` | src/App.tsx:53-56 | two submissions hash alike if and only if type, product id, quantity and timestamp all agree |
| `App.App.constructor` | src/App.tsx:14-19 | the app starts at the scanner, with no product, an empty quantity, no error, nothing in flight and no last operation |
| `App.App.Ready` | src/App.tsx:50 | the guard of `handleOperation`: a product, a quantity and nothing in flight; what failing it does is stated by `App.App.HandleOperation` |
| `App.App.WriteoffEnabled` | src/App.tsx:128-132 | an enabled write-off button implies the operation guard passes and the stock minus the quantity is non-negative |
| `App.App.SupplyEnabled` | src/App.tsx:143 | the supply button plus a loaded product is exactly the operation guard |
| `App.App.SetQty` | src/App.tsx:110-118 | typing sets the quantity and nothing else |
| `App.App.Back` | src/App.tsx:100-101 | back returns to the scanner and changes nothing else, not even the product |
| `App.App.HandleScan` | src/App.tsx:29-47 | an unparsable scan or one without a truthy id stays at the scanner with a non-empty error and makes no lookup; an unknown id stays there with 'Товар не найден'; a known id moves to the product view with no error, the store's stock and id, and the payload's name if truthy, else the store's name; the product view is reached exactly when the error is empty |
| `App.App.HandleOperation` | src/App.tsx:49-83 | with no product, an empty quantity or an operation in flight nothing changes and nothing is sent; a repeat of the last accepted submission (same timestamp) is refused locally and sends nothing; a cooldown refusal sends nothing and changes neither stock nor last operation; a successful write adds the quantity for a supply and subtracts it for a write-off, empties the quantity, records the hash and clears the error; a failed write keeps product, quantity and last operation and shows the error; the client's history gains exactly one acceptance on success and none otherwise; the busy flag ends false; an enabled write-off leaves a non-negative stock |

## Left out

- `src/components/scanner.tsx` is not part of this model. It covers camera
  acquisition, the QR decoder callback and stopping the media tracks. All
  of it is I/O and a foreign library.
- The store's lookup and create calls are not modelled. Their answers are
  method inputs (`Option<StoreRecord>`, `WriteOutcome`).
- The logging of errors through `console.error` is left out.
- `JSON.parse` is not modelled. A scan is either `Malformed` with the
  engine's non-empty message, or `Decoded` with an optional string `id`
  and `name`. Non-string JSON values for `id` or `name` are not modelled.
- The quantity field is `Option<nat>`: empty or a non-negative whole
  number. Negative, fractional and non-numeric input is not modelled, and
  neither are `Number(...)`'s NaN or floating-point results. The hash
  writes the quantity as its canonical numeral, so an input such as "03"
  is not distinguished from "3".
- Stocks are unbounded integers, so floating-point precision of large
  stocks is not modelled.
- The 5-second error auto-clear effect (src/App.tsx:22-27) is a timer and
  is not modelled, so `error` changes only through the handlers.
- `Api.Api.CreateOperation`: the cache's `setTimeout` deletion
  (src/servises/api.ts:57) becomes a lazy check with the same strict `<`
  and the same 300000 ms. The two differ in two cases. When the clock is
  set back, the source accepts a call whose clock reads less than 300000 ms
  after an entry its timer has freed; the model refuses it. When a timer
  outlives a newer entry for its key, the source deletes that newer entry:
  the clock is read before the awaited write (line 35) and the timer is
  armed after it (line 57) without checking the value it removes. For
  example, a write of key K at t0 that takes 2000 ms, a second write of K
  at t0+300500, and a third at t0+303000: the first write's timer fires
  near t0+302000 and removes the second write's entry, so the source
  accepts the third write, and the model refuses it. The 300000 ms spacing
  of `Spaced` and `Api.AcceptKeepsSpacing` is therefore a property of the
  model, not of the program.
- `Date.now()` and `new Date()` are parameters. Years are non-negative
  (`nat`), so the sign a negative year would print is not modelled.
- Async interleaving is not modelled. Each handler runs to completion, so
  `isProcessing` is false at every method boundary. Not captured: a scan
  arriving while a lookup is pending, a click while a write is in flight,
  and two `createOperation` calls for one key in flight together.
- Rendering, CSS classes and the disabled state of the quantity input are
  left out.
