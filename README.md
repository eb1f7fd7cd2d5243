# Farm marketplace: the record rules of the request handlers

A Dafny model of the handlers of an Express + PostgreSQL marketplace. Farmers
publish produce listings. Buyers send price offers on them, place orders by
e-mail address, give star ratings, and exchange messages. The model covers the
rules these handlers enforce on the shared tables. HTTP, SQL text and JSON
shaping are left out.

The database is one `Database.Store` object. It holds a map per keyed table
(users, listings, offers, orders) and a sequence per table whose reads depend
on row order (ratings, messages). It also holds the serial counters and a
monotone clock. `Store.Valid()` is the invariant every handler keeps:

- every key is its row's id;
- accounts never share an email, a username or a phone;
- a buyer has at most one offer per listing;
- an e-mail address rates a listing at most once, with 1 to 5 stars;
- messages are stored oldest first, with distinct ids, and nobody messages themselves.

Each handler that changes a table is a method on the store. It returns `Ok(row)`, or
`Err(Error(status, reason))` with the HTTP status the handler answers. Its guard
chain is a pure function, checked in the handler's own order, so the first
failing check decides the error. The method runs that function and then applies
the effect. If the request is refused, nothing changes. The read handlers
(ListingById, ImageToDownload, ViewOffer, ViewOrder, Conversation, Mailbox) are
functions of the tables. Most return a `Result` in the same way; Mailbox, which
never refuses, returns the listed rows. GetListingRating builds its
distribution with loops, so it is a method that reads the store without
changing it.

Modules, one per controller:

- `Common`: options, results, errors, and request inputs. `Input` models JavaScript truthiness: a falsy number fails the "required" check, not the "positive" check.
- `Text`: JavaScript white space, `trim`, and ASCII case mapping.
- `Database`: rows, column enums, the store, and shared lookups.
- `Accounts`: `controller/authController.js`.
- `Listings`: `controller/listingController.js`.
- `Offers`: `controller/offerController.js`.
- `Orders`: `controller/orderController.js`.
- `Ratings`: `controller/ratingController.js`.
- `Messages`: `controller/messageController.js`.

## Model

| member | source | states |
|---|---|---|
| Common.OptionalText | controller/orderController.js:103 | `x \|\| null` stores NULL exactly for an empty text, otherwise the text itself |
| Text.Trim | controller/messageController.js:25 | the result is a contiguous slice of the input, everything cut off before and after it is white space, and it neither starts nor ends with white space |
| Text.TrimEmptyIffAllSpace | controller/messageController.js:25-30 | a text trims to "" exactly when it consists of JavaScript white space only |
| Text.TrimIdempotent | controller/messageController.js:57 | trimming a trimmed text changes nothing |
| Text.ToLower | controller/authController.js:310-331 | each of 'A'..'Z' becomes its lower-case partner and every other character is kept |
| Text.ToUpper | controller/listingController.js:229 | each of 'a'..'z' becomes its upper-case partner and every other character is kept |
| Text.ToLowerIdempotent | controller/authController.js:319-331 | lower-casing the stored lower-cased email changes nothing |
| Text.ToUpperIgnoresCase | controller/listingController.js:229 | upper-casing a string, its upper-cased form or its lower-cased form gives the same text |
| Text.Utf16Length | controller/authController.js:56-67 | JavaScript's `length`: at least one and at most two units per character, exactly one each when all characters lie in the Basic Multilingual Plane |
| Database.ParseUserType | controller/authController.js:33-37 | accepts exactly "personal" and "farmer", returning the value spelled that way |
| Database.ParseOrderStatus | controller/orderController.js:442-447 | accepts exactly the six order statuses, returning the value spelled that way |
| Database.ParsePaymentStatus | controller/orderController.js:507-512 | accepts exactly pending, paid, failed and refunded |
| Database.ParsePaymentMethod | controller/orderController.js:40-45 | accepts exactly the four payment methods |
| Database.NamesParse | controller/orderController.js:40-45 | every enum value is accepted under its own spelling, so no value is unreachable |
| Database.ActiveUserByEmail | controller/orderController.js:72-85 | finds an id exactly when an active account has that email, and the id found is that account's |
| Accounts.EmailMatchesPattern | controller/authController.js:40-45 | every address accepted by the email predicate matches `local@domain.tld`, with no white space or extra '@' in any part |
| Accounts.PatternIsEmail | controller/authController.js:40-45 | every string matching the regular expression is accepted |
| Accounts.EmailIsPattern | controller/authController.js:40-45 | the email predicate and the regular expression accept the same strings |
| Accounts.CheckRegistration | controller/authController.js:26-91 | each check gives its own refusal in the handler's order: missing fields, user type, email, phone, password under 6 UTF-16 units, username under 3 UTF-16 units (all 400), then a duplicate email, username or phone (409); success exactly when all pass; the inserted account is active and carries the request's fields |
| Accounts.RegistrationStatuses | controller/authController.js:26-80 | a refusal is 409 exactly for a duplicate account, and 400 for every other reason |
| Accounts.AstralUsernameIsLongEnough | controller/authController.js:63-67 | a two-emoji username is four UTF-16 units long, so it meets the three-unit minimum |
| Accounts.RegistrationKeepsAccountsUnique | controller/authController.js:70-91 | an accepted registration keeps emails, usernames and phones unique |
| Accounts.Register | controller/authController.js:86-91 | inserts exactly the accepted account under a fresh id, or changes nothing |
| Accounts.CheckPasswordChange | controller/authController.js:194-245 | the checks in order: fields present, confirmation equal, at least 6 UTF-16 units (400), then the account (404), then the current password (401); then 400 when the new password matches the stored one; success exactly when every check passes; sending the current password as the new one never succeeds |
| Accounts.CheckEmailChange | controller/authController.js:272-331 | each check gives its own refusal in the handler's order: missing fields (400), malformed address (400), unknown account (404), wrong password (401), the same address ignoring case (400), an address another account holds (409); success exactly when both fields are given, the address is well formed, the password matches, the address differs from the current one ignoring case, and no other account holds its lower-cased form; the stored email is the lower-cased address |
| Accounts.ChangeEmail | controller/authController.js:329-331 | rewrites only the caller's row, or nothing, and keeps the store invariant (unique emails) |
| Listings.CheckNewListing | controller/listingController.js:66-127 | required fields, then quantity > 0, then price > 0, then farmer-only (403); the new listing is exactly the request's fields with the parsed quantity and price, owned by the caller, and active unless `isActive` says otherwise |
| Listings.AddListing | controller/listingController.js:112-125 | inserts exactly the accepted listing under a fresh id, or nothing |
| Listings.ApplyPatch | controller/listingController.js:498-566 | a patched listing keeps its id and owner, and a supplied quantity or price is positive |
| Listings.PatchChangesOnlySupplied | controller/listingController.js:498-566 | for each of the ten columns, a supplied field takes the new value and a field left out keeps its old one (images change only when files were uploaded); id and owner are kept; an empty patch changes nothing |
| Listings.SetClauses | controller/listingController.js:498-572 | a bad quantity is refused before a bad price; otherwise the SET list has at most ten clauses, and none exactly when nothing is supplied |
| Listings.AssignColumn | controller/listingController.js:498-566 | appending one column's clause to the SET list applies that column to the row |
| Listings.ColumnsArePatch | controller/listingController.js:498-566 | applying the ten columns in the handler's order is applying the whole patch |
| Listings.SetClausesApply | controller/listingController.js:600-611 | running the UPDATE with the built SET list yields the listing with exactly the supplied fields replaced |
| Listings.Push | controller/listingController.js:498-566 | one `updateFields.push` with `paramCount++`: a supplied field adds its clause and one to the counter, an absent one adds nothing |
| Listings.BuildSetClauses | controller/listingController.js:498-566 | the imperative field-by-field construction yields exactly `SetClauses`, and the counter equals the number of clauses |
| Listings.UpdateListing | controller/listingController.js:484-611 | 404 unless the caller owns the listing, then 400 for a bad quantity, a bad price or an empty patch; on success the row becomes the patched listing and nothing else changes |
| Listings.DeleteListing | controller/listingController.js:659-686 | succeeds exactly for the owner, and then removes only that listing |
| Listings.ListingById | controller/listingController.js:415-440 | ids that are not positive integers get 400; otherwise the listing is shown exactly when it exists and its farmer is active |
| Listings.ImageToDownload | controller/listingController.js:706-735 | 404 for a missing listing; an index is accepted exactly when 0 <= i < number of images; then 404 if the file is not on disk |
| Listings.SortField | controller/listingController.js:228 | the ORDER BY column is always whitelisted, equals `sortBy` exactly when `sortBy` is whitelisted, and otherwise is created_at |
| Listings.SortDirection | controller/listingController.js:229 | the direction is ASC or DESC: the upper-cased `sortOrder` when it is one of them, otherwise DESC |
| Listings.SortDirectionIgnoresCase | controller/listingController.js:229 | for every `sortOrder`, its upper-cased and lower-cased forms give the same direction |
| Listings.SortDirectionExamples | controller/listingController.js:229 | "asc" sorts ascending and "Desc" descending; "ascending" falls back to DESC |
| Offers.CheckOffer | controller/offerController.js:10-67 | missing fields, then price > 0, then an open listing with an active farmer (404), then not your own listing, then no earlier offer on it; the new offer is pending, has the parsed price, and stores the message as `message \|\| null` does |
| Offers.SendOffer | controller/offerController.js:61-67 | inserts exactly one pending offer under a fresh id, or nothing, and keeps one offer per (listing, buyer) |
| Offers.OfferKeepsPairsUnique | controller/offerController.js:49-67 | inserting for a pair with no offer keeps the pairs unique |
| Offers.SecondOfferRefused | controller/offerController.js:49-58 | after a successful offer, the same buyer's next offer on that listing is refused as a duplicate |
| Offers.ParseAction | controller/offerController.js:282-287 | accepts exactly "accept" and "reject" |
| Offers.CheckRespond | controller/offerController.js:282-315 | action (400), then offer with its listing (404), then ownership (403), then pending (400); success yields the offer with the answer's status |
| Offers.RejectPendingSiblings | controller/offerController.js:329-336 | exactly the other pending offers of that listing become rejected; all other rows are unchanged |
| Offers.RespondToOffer | controller/offerController.js:317-336 | on success the table becomes the answered table; on refusal it is unchanged |
| Offers.AnswerKeepsPairsUnique | controller/offerController.js:317-336 | an answer keeps the key set and the pairs, and every row either stays or moves from pending to an answer |
| Offers.AcceptClosesListing | controller/offerController.js:317-336 | after an accept, the target is accepted and no offer on that listing is pending |
| Offers.RejectTouchesOnlyTarget | controller/offerController.js:317-326 | a rejection changes the target row only |
| Offers.AnswerKeepsAnswered | controller/offerController.js:311-336 | offers already accepted or rejected keep their rows through any answer |
| Offers.SecondAnswerRefused | controller/offerController.js:311-315 | an answered offer cannot be answered again |
| Offers.CheckWithdraw | controller/offerController.js:438-459 | 404 unless the caller is the offer's buyer, then 400 unless it is pending |
| Offers.DeleteOffer | controller/offerController.js:459 | removes exactly that pending offer, or nothing |
| Offers.WithdrawFreesPair | controller/offerController.js:438-459 | withdrawing never removes an answered offer, and it frees the pair for a new offer |
| Offers.ViewOffer | controller/offerController.js:362-386 | non-positive or unparsable ids get 400; the offer is shown exactly when its joins succeed and the caller is its buyer or the listing's farmer |
| Offers.OnlyPartiesSeeOffer | controller/offerController.js:362-386 | a third party never sees an offer |
| Orders.CheckOrder | controller/orderController.js:17-105 | the seven checks in order (fields, email, quantity > 0, payment method, open listing, stock, registered buyer); the order snapshots the listing's price with total = quantity x unit price, both statuses pending, the matched buyer's id, and the delivery notes as `deliveryNotes \|\| null` stores them |
| Orders.CreateOrder | controller/orderController.js:4-141 | inserts exactly the accepted order, or nothing; the listing table and its stock are not touched; totals stay consistent |
| Orders.InsertOrder | controller/orderController.js:92-105 | the INSERT stores the row under the next serial |
| Orders.StockBoundInclusive | controller/orderController.js:65-70 | ordering exactly the stock passes the stock check, and more than it never succeeds |
| Orders.StockNotReserved | controller/orderController.js:65-105 | the same full-stock order is accepted again, so accepted quantities may add up to more than the stock |
| Orders.CheckStatusUpdate | controller/orderController.js:442-479 | the status name is checked before any lookup, then order (404), then ownership (403); success changes only the order status and the farmer's notes |
| Orders.CheckPaymentUpdate | controller/orderController.js:507-544 | the same order of checks; success changes only the payment status |
| Orders.UpdateOrderStatus | controller/orderController.js:473-479 | rewrites only that order, or nothing |
| Orders.UpdatePaymentStatus | controller/orderController.js:538-544 | rewrites only that order, or nothing |
| Orders.AnyStatusFollowsAny | controller/orderController.js:442-479 | the owner can move an order from any status to any other |
| Orders.AnyPaymentStatusFollowsAny | controller/orderController.js:507-544 | the owner can set any payment status from any other |
| Orders.UpdatesCommute | controller/orderController.js:473-544 | a status update and a payment update give the same row in either order |
| Orders.ViewOrder | controller/orderController.js:369-387 | the order is shown exactly when its joins succeed and the caller is its buyer or the listing's farmer; otherwise 404 |
| Orders.OnlyPartiesSeeOrder | controller/orderController.js:379 | a third party never sees an order |
| Orders.SnapshotSurvivesRepricing | controller/orderController.js:88-105 | after the farmer edits or reprices the listing, the order is visible to the same callers, with its original unit and total price |
| Ratings.CheckRating | controller/ratingController.js:10-74 | fields, email, 1..5 stars, an active listing (its farmer is not checked), a registered email, no earlier rating, in that order; the new rating carries the listing, the email and the parsed stars |
| Ratings.AddRating | controller/ratingController.js:69-74 | appends exactly the accepted rating, or nothing, keeping one 1..5 rating per (listing, email) |
| Ratings.RatingKeepsPairsUnique | controller/ratingController.js:57-74 | appending a 1..5 rating for a fresh pair keeps the pairs unique and the values in range |
| Ratings.SecondRatingRefused | controller/ratingController.js:57-66 | once an address has rated a listing, its next attempt is refused |
| Ratings.ValuesOf | controller/ratingController.js:115-138 | every value listed comes from a row of that listing; there are no more values than rows; they lie in 1..5 when the table's do |
| Ratings.ValuesOfLength | controller/ratingController.js:115-127 | the listing has exactly as many values as it has rows, the `COUNT(*)` of the statistics query |
| Ratings.ValuesOfCounts | controller/ratingController.js:131-138 | each star value occurs among the listing's values exactly as often as the listing has rows with that value |
| Ratings.ValuesOfComplete | controller/ratingController.js:115-138 | every row of the listing contributes its value |
| Ratings.Count | controller/ratingController.js:131-138 | a group's count is the number of occurrences of its value, positive exactly when the value occurs |
| Ratings.Grouped | controller/ratingController.js:131-138 | GROUP BY yields one row per distinct value, with that value's count |
| Ratings.Distribution | controller/ratingController.js:140-146 | keys 1..5 are always present, and every key holds its value's count (0 when absent) |
| Ratings.MinOrZero | controller/ratingController.js:152 | 0 for no ratings, otherwise the smallest value |
| Ratings.MaxOrZero | controller/ratingController.js:153 | 0 for no ratings, otherwise the largest value |
| Ratings.GetListingRating | controller/ratingController.js:103-155 | 404 exactly when the listing does not exist; otherwise the number of the listing's rows, the bounds, and a distribution with exactly the keys 1..5, each holding the number of the listing's rows with that many stars |
| Ratings.CountsSumToTotal | controller/ratingController.js:127-146 | when values are in 1..5 the five counts add up to the total |
| Ratings.BoundsInRange | controller/ratingController.js:152-153 | the bounds lie in 1..5 for a rated listing and are both 0 otherwise |
| Messages.CheckMessage | controller/messageController.js:10-57 | fields, a parsable receiver id, non-empty trimmed text, an active receiver (404), then not yourself; the stored text is the trimmed text |
| Messages.StoredTextIsTrimmed | controller/messageController.js:25-57 | the stored text is non-empty, starts and ends with a non-space character, and re-sending it stores the same text |
| Messages.SendMessage | controller/messageController.js:53-58 | appends exactly the accepted message, stamped with the current time, or nothing |
| Messages.InsertMessage | controller/messageController.js:53-58 | the INSERT appends the row and keeps the table oldest first, with distinct ids |
| Messages.AppendKeepsOrder | controller/messageController.js:53-58 | a row with the next id and the current time keeps the table's invariants |
| Messages.ParseBox | controller/messageController.js:91-132 | "sent" and "received" pick their box; anything else picks both directions |
| Messages.Mailbox | controller/messageController.js:91-132 | every listed row belongs to the box (sender, receiver or either, with the joined users present), and `isFromMe` holds exactly for the caller's own rows |
| Messages.MailboxComplete | controller/messageController.js:91-132 | every row of the box is listed |
| Messages.MailboxNewestFirst | controller/messageController.js:98 | the box is listed newest first |
| Messages.NewestFirst | controller/messageController.js:91-112 | a new message heads its sender's sent box and its receiver's received box |
| Messages.BoxesSplitByAuthor | controller/messageController.js:159 | rows in the sent box are all the caller's; rows in the received box never are |
| Messages.Thread | controller/messageController.js:230-252 | every listed row is between exactly the two users, and `isFromMe` holds exactly when the caller sent it |
| Messages.ThreadComplete | controller/messageController.js:230-236 | every row between the two users is listed |
| Messages.ThreadOldestFirst | controller/messageController.js:233 | the conversation is listed oldest first |
| Messages.Conversation | controller/messageController.js:201-236 | a missing or "undefined" id gets 400, an unparsable one 400, an unknown or inactive user 404; otherwise the thread |
| Messages.ThreadSymmetric | controller/messageController.js:230-252 | both parties see the same rows, with `isFromMe` flipped |
| Messages.SentMessageEndsThread | controller/messageController.js:53-58 | a new message ends the conversation between its two parties |
| Messages.Find | controller/messageController.js:287-290 | finds a stored row with that id exactly when one exists |
| Messages.CheckDelete | controller/messageController.js:287-296 | succeeds exactly when a row with that id has the caller as sender or receiver; otherwise 404 |
| Messages.Without | controller/messageController.js:299 | the DELETE keeps only rows with other ids, all taken from the table |
| Messages.WithoutRemovesOne | controller/messageController.js:299 | with distinct ids the DELETE removes exactly that row and keeps the others in order |
| Messages.WithoutAbsent | controller/messageController.js:299 | deleting an id that no row carries changes nothing |
| Messages.RemoveKeepsOrder | controller/messageController.js:299 | removing one row keeps the table's invariants |
| Messages.DeleteMessage | controller/messageController.js:287-299 | removes exactly that one message, or nothing |

## Left out

- HTTP, routing, JWT verification and the pg pool are not modelled. The caller's id is a parameter. `index.js` does not mount the orders or ratings routers; the model covers the handlers, not whether they can be reached.
- Password hashing is not modelled. Where a handler compares a password with bcrypt, the outcome is a boolean parameter, and hashes are not stored.
- File I/O is not modelled: uploads, `fs.unlink` of old or deleted images, and `res.download`. Whether a stored image file exists is a parameter (`files`).
- List and search endpoints with no record rule are left out: getMyOffers, getListingOffers, getMyOrders, getFarmerOrders, getMyListings, getFilterOptions, getRatingByEmail, and the ILIKE and price filters of getAllListings. The sort whitelist of getAllListings is modelled.
- LIMIT/OFFSET pagination and its page counts are left out, in getMessages, getConversation and the list endpoints.
- Numbers are left out as floating point. Amounts are reals, and parseFloat/parseInt are abstracted as an optional parsed value (`None` for NaN). The product `quantity * unitPrice` is exact here.
- Ratings.GetListingRating: the rounded `averageRating` (a floating-point AVG) is not modelled.
- Non-integer path ids, which make PostgreSQL raise an error (answered with 500), are left out. Path ids are naturals, or parsed optional integers where the handler validates them.
- Concurrency is left out. Each handler is one atomic step, so the check-then-insert races and the two-statement accept are not modelled.
- Timestamps are left out except a monotone clock for message `created_at`. `updated_at` is not modelled.
- NULL text columns are "", except the optional notes and messages that the handlers store as NULL.
- Case mapping is ASCII only.
- Strings are sequences of Unicode scalar values, so a lone UTF-16 surrogate cannot be represented. `length` is modelled by `Text.Utf16Length`, which counts two units for a character outside the Basic Multilingual Plane.
- Accounts.CheckPasswordChange: the two bcrypt outcomes are parameters, required only to agree when the current and the new password are the same text; nothing else about bcrypt is modelled.
- Error message texts are abstracted into `Reason` constructors. The stock error keeps the quantity and unit it names.
- Foreign-key and cascade behaviour is not modelled, because the database schema is not part of this model. Deleting a listing leaves its offers, orders and ratings in place; the joins in the read views then hide them.
- Listings.ImageToDownload: a listing's `images_info` is always stored as a JSON array, so the "no images" 404 is never reached; an empty image list is refused by the index check.
- Messages.Mailbox, Messages.Thread: the ORDER BY is modelled through the table's insertion order, which the store keeps chronological.
- Ratings.Grouped: the ORDER BY of the GROUP BY rows is not modelled. The handler files each row under its own key, so the order does not affect the result.
