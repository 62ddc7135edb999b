# Ticket booking controllers

A model of the client-side state logic of a bus-ticket booking web application.
The application has two pages. Each page keeps local copies of rows from a
hosted table store, and each page updates those copies in response to user
actions.

- **Home** (`src/app/page.tsx`) is the public page. It holds the full ticket list
  (`tickets`), a derived list (`filteredTickets`, the field `filtered` here), the two
  search selects (origin and destination) and an error message. Searching sets the
  filtered list to the tickets that match the selected regions and still have
  seats. Buying asks for a name, inserts a booking row that copies the ticket's
  route, date, time and price, and on success takes one seat off every listed
  ticket with that id. The filtered list then becomes every ticket that still has
  seats. The page's markup (page.tsx:112-156) renders only the header, the two
  selects and the Search button: it never reads `filteredTickets`, and nothing in
  the file calls `handleBuy`. The model states what the handlers do to the state;
  "filtered" always means the contents of `filteredTickets`, not something on
  screen.
- **Admin** (`src/app/admin/page.tsx`) holds a seven-input form (origin,
  destination, date, time, price, count, bus model) with an optional id, plus the
  ticket list. Saving refuses a form with an empty input. Otherwise it sends an
  update of the form's id when that id is truthy and an insert when it is not. On
  success it resets the form and re-fetches the list. Deleting needs a truthy id and
  a confirmation. The table shows only the rows whose count text parses to a
  positive number.

Each page is a `class Controller` whose fields are the page's state hooks. Both
pages start a fetch when they mount (page.tsx:33-35, admin/page.tsx:36-39), so a
page load is the constructor followed by `FetchTickets`. Every
handler is a method whose frame names the fields it may change and whose
postcondition gives the new state. The store, the name prompt and the
confirmation dialog are parameters: a `Fetched` value for a `select`, a `bool` for
the outcome of an insert, update or delete, an `Option<string>` for the prompt
answer and a `bool` for the confirmation. Each controller logs the store
requests it issues in `requests`, so "no store operation" is stated as "`requests`
is unchanged".

The filters are a single generic `Sequences.Filter` (JavaScript's
`Array.prototype.filter`). It is proved to keep exactly the elements that pass, in
their original order, each as many times as it occurs. On Home, the invariant
`Valid()` says that the filtered list is always a subsequence of the full list. Every
handler preserves it.

Four behaviours of the code are modelled as written and shown by lemmas:

- After a purchase, the filtered list is rebuilt from the seat-count test alone, so
  the search criteria are dropped (`Home.CriteriaDroppedAfterPurchase`).
- The decrement has no floor, so a zero count becomes negative
  (`Home.DecrementUnguarded`).
- A fetch sets the filtered list to the raw rows, sold-out tickets included
  (`Home.Controller.FetchTickets`).
- An id of 0 is falsy. A form holding it is saved as an insert
  (`Admin.IdZeroInserts`), and delete ignores it (`Admin.Controller.HandleDelete`).

A save tests the id for truthiness (admin/page.tsx:84), so id 0 is saved as an
insert. A purchase decrements every listed ticket whose id equals the bought one
(page.tsx:85-87), not only the entry that was bought.

## Model

| member | source | states |
|---|---|---|
| `Sequences.Filter` | src/app/page.tsx:53-60 | the result is a subsequence of the input, no longer than it, and holds an element exactly when the input holds it and it passes the predicate |
| `Sequences.FilterCounts` | src/app/page.tsx:53-60 | every passing element is kept as many times as it occurs, and no failing element is kept |
| `Sequences.FilterCons` | src/app/page.tsx:53-60 | filtering a list keeps its head exactly when the head passes, followed by the filtered tail |
| `Sequences.FilterAppend` | src/app/page.tsx:53-60 | filtering distributes over concatenation, so the input order is kept |
| `Sequences.FilterAgree` | src/app/page.tsx:56-58 | two predicates that agree on the list's elements select the same list |
| `Sequences.FilterStronger` | src/app/page.tsx:56-58 | a stricter predicate selects a subsequence of what a weaker one selects |
| `Sequences.SubsequenceReflexive` | src/app/page.tsx:42-43 | a list is a subsequence of itself (both lists equal after a fetch) |
| `Numerals.ParseInt` | src/app/admin/page.tsx:316 | decimal `parseInt`: it yields a number exactly when the text starts with a digit, or with a sign followed by a digit; a negative result needs a leading '-', and otherwise the result is at least 0 |
| `Numerals.DigitPrefix` | src/app/admin/page.tsx:316 | the result is the longest prefix of the text that consists of decimal digits |
| `Numerals.Show` | src/app/admin/page.tsx:316 | the decimal text of a natural is non-empty, all digits, with no leading zero unless the number is 0 |
| `Numerals.ShowValue` | src/app/admin/page.tsx:316 | the value of the decimal text of `n` is `n` |
| `Numerals.DigitPrefixOfDigits` | src/app/admin/page.tsx:316 | the digit prefix of a text made only of digits is the whole text |
| `Numerals.ParseShow` | src/app/admin/page.tsx:316 | `parseInt` of the decimal text of `n` gives back `n` |
| `Numerals.ParseNegatedShow` | src/app/admin/page.tsx:316 | `parseInt` of "-" followed by the decimal text of `n` gives `-n` |
| `Numerals.DigitsPositive` | src/app/admin/page.tsx:316 | a digit string is worth more than zero exactly when one of its digits is not '0' |
| `Numerals.ParsePositive` | src/app/admin/page.tsx:316 | a non-empty digit string parses, and it parses to a positive number exactly when some digit is not '0' |
| `Home.Matches` | src/app/page.tsx:56-58 | a matching ticket has seats and agrees with every non-empty criterion; with both criteria empty, or equal to the ticket's own route, it matches exactly when it has seats |
| `Home.SearchResult` | src/app/page.tsx:52-61 | the filtered tickets are, in list order and with their multiplicities, exactly those where each criterion is empty or equal to the ticket's field and the count is positive |
| `Home.Available` | src/app/page.tsx:90 | the result is the subsequence of tickets with a positive count, each kept as many times as it is listed, and no other |
| `Home.SearchAnyIsAvailable` | src/app/page.tsx:56-58 | with both criteria empty, a search selects exactly the tickets with seats left |
| `Home.SearchWithinAvailable` | src/app/page.tsx:52-61 | whatever the criteria, a search selects a subsequence of the tickets with seats left |
| `Home.Decrement` | src/app/page.tsx:85-87 | the length is kept, every ticket with the bought id loses exactly one seat, and every other ticket and every other field is unchanged |
| `Home.DecrementSeats` | src/app/page.tsx:85-87 | the total seat count drops by the number of list entries with the bought id |
| `Home.DecrementVisibility` | src/app/page.tsx:85-90 | after a purchase, the bought entry stays in the filtered list exactly when it had more than one seat |
| `Home.BuyTwiceExample` | src/app/page.tsx:52-90 | an example: searching from Toshkent finds the ticket and from Andijon finds nothing; two purchases take 2 seats to 1 (still in the filtered list) and then to 0 (dropped from it) |
| `Home.DecrementUnguarded` | src/app/page.tsx:86 | a purchase of a ticket with count 0 leaves it at -1 |
| `Home.CriteriaDroppedAfterPurchase` | src/app/page.tsx:52-90 | a ticket that the search excluded is back in the filtered list after a purchase of another ticket |
| `Home.Controller.constructor` | src/app/page.tsx:23-30 | empty criteria, empty lists, no error, no requests |
| `Home.Controller.FetchTickets` | src/app/page.tsx:37-50 | logs a select; on success both lists become the fetched rows (or `[]`) and the error is kept; on failure the lists are kept and the error is set; the filtered list stays a subsequence of the full list |
| `Home.Controller.SetParam` | src/app/page.tsx:132-134 | sets the named criterion and keeps the other one |
| `Home.Controller.HandleSearch` | src/app/page.tsx:52-61 | the filtered list becomes the search result over the full list; the full list is unchanged |
| `Home.Controller.HandleBuy` | src/app/page.tsx:63-95 | a missing or empty name changes nothing; otherwise an insert of a booking copying the id, name, route, date, time and price is logged; on success the full list is decremented and the filtered list becomes its available tickets; on failure both lists are kept |
| `Admin.FormsEqual` | src/app/admin/page.tsx:11-20 | two forms with the same id and the same text in all seven inputs are equal |
| `Admin.SetField` | src/app/admin/page.tsx:53-57 | the named input takes the new text; the other six inputs and the id are kept |
| `Admin.SetFieldDetermined` | src/app/admin/page.tsx:53-57 | `SetField`'s contract determines its result: a form with the same id, the new text in the named input and the old text in the other six is that result |
| `Admin.SetFieldUnchanged` | src/app/admin/page.tsx:53-57 | setting an input to its current text leaves the form unchanged |
| `Admin.SetFieldTwice` | src/app/admin/page.tsx:53-57 | of two changes to one input, the last wins |
| `Admin.SetFieldCommutes` | src/app/admin/page.tsx:53-57 | changes to two different inputs commute |
| `Admin.Complete` | src/app/admin/page.tsx:60-71 | the form passes the check exactly when none of the seven inputs is empty |
| `Admin.Truthy` | src/app/admin/page.tsx:84 | an optional id is falsy exactly when it is absent or 0 |
| `Admin.PayloadOf` | src/app/admin/page.tsx:73-81 | the payload carries each of the seven inputs unchanged, and it has no id |
| `Admin.RequestFor` | src/app/admin/page.tsx:83-91 | a save issues an update exactly when the id is truthy, keyed by that id, and an insert otherwise; either way the payload is the seven inputs |
| `Admin.IdZeroInserts` | src/app/admin/page.tsx:84 | a form holding id 0 is saved as an insert |
| `Admin.CountPositive` | src/app/admin/page.tsx:316 | a row passes only when its count text is non-empty and does not start with '-'; a count made of digits alone passes exactly when one digit is not '0' |
| `Admin.Displayed` | src/app/admin/page.tsx:315-317 | the table shows, in list order, exactly the rows whose count parses to a positive number, each as many times as it is listed |
| `Admin.DisplayedRendered` | src/app/admin/page.tsx:316 | a row whose count is the decimal text of `n` is shown exactly when `n > 0`; a negative count text is never shown |
| `Admin.Controller.constructor` | src/app/admin/page.tsx:23-32 | an empty form with no id, an empty list, no requests |
| `Store.Refreshed` | src/app/admin/page.tsx:44-48 | after a fetch the list is the previous one on failure, the rows on success, and `[]` when the rows are `null` |
| `Admin.Controller.FetchTickets` | src/app/admin/page.tsx:41-51 | logs a select; on success the list becomes the rows (or `[]`); on failure it is kept; the form is not touched |
| `Admin.Controller.HandleChange` | src/app/admin/page.tsx:53-57 | the form becomes the old form with one input replaced |
| `Admin.Controller.HandleEdit` | src/app/admin/page.tsx:115-117 | the form becomes the given row, id included; by `HandleSaveOrUpdate`'s contract, a next save of a row with no empty input then issues `RequestFor` of that row (an update when its id is truthy), while a row with an empty input is refused and issues nothing |
| `Admin.Controller.HandleSaveOrUpdate` | src/app/admin/page.tsx:59-113 | an incomplete form changes nothing and issues nothing; otherwise the update-or-insert request is logged; on success the form is reset and the list re-fetched; on failure the form and list are kept |
| `Admin.Controller.HandleDelete` | src/app/admin/page.tsx:119-131 | a falsy id or a declined confirmation issues nothing; otherwise a delete of that id is logged and, on success, the list is re-fetched; on failure the list is kept |

## Left out

- The store client itself (`createClient`, `select`, `insert`, `update`, `delete`). Only its outcome is modelled, as a parameter. The model does not say what the store does with a request, so "the refreshed list shows the new row" is not modelled.
- The timing of the re-fetch after an admin save or delete. The source starts it without waiting for it; the model applies its result at once.
- Concurrency: overlapping purchases that read the same count, and responses that arrive out of order.
- `toast`, `alert` and `console.error` messages, the `loading` and `isClient` flags, JSX rendering, styling and navigation.
- The region, departure-time and bus-model option lists, which nothing validates against.
- The category browse page, which reads an unrelated product API.
- `Numerals.ParseInt`: models `parseInt` as an optional sign followed by the longest run of decimal digits. It does not skip leading whitespace, does not read `0x` hexadecimal prefixes and does not lose precision above 2^53.
- Prices and seat counts are numbers on the public page and text on the admin page, as declared in each file (page.tsx:17-18, admin/page.tsx:17-18). The mismatch between the two is not reconciled. The public page models both as integers, so fractional prices and fractional counts (which the admin page's number inputs accept) are not modelled there.
- `Admin.Truthy`: treats only an absent id and 0 as falsy. `NaN` ids cannot occur in the model, since ids are integers.
