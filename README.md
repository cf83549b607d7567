# EcoFinds mock data store, modelled in Dafny

EcoFinds is a second-hand marketplace front end. Its "backend" is one
module of the web application, `src/lib/mock-data.ts`. That module holds
four module-level arrays: users, product listings, cart entries and past
purchases. It also keeps a session flag in the browser's local storage.
Every API call (sign-in, sign-up, catalogue queries, listing
create/update/delete, profile update, cart add/remove/set-quantity) reads
or changes those arrays in place.

This project models that store as the class `Store.MockStore`. The class
has one `seq` field per array and a `loggedIn: bool` for the session
flag. Readers are functions with `reads this`. Mutators are methods with
`modifies` clauses. Each method that changes a collection is proved
against a pure function of the old state that returns a `Step`, the
call's result together with the collection afterwards. `LoginUser` is
proved against `Accounts.Login`, which returns only a result, because
signing in changes nothing but the flag. `LogoutUser` only clears the
flag. The meaning is proved about those functions: contracts on the
functions themselves, plus lemmas relating several calls.

- `types.dfy`: the records of `src/types/index.ts`, the store's error
  messages, and the `{ ...old, ...patch }` merge.
- `text.dfy`: ASCII lower-casing, substring search, and the decimal
  rendering used in generated ids.
- `seqs.dfy`: `findIndex`, `find`, `filter` and `splice(k, 1)` on
  sequences.
- `catalogue.dfy`: the catalogue queries (filter, search, newest-first
  stable sort) and what creating, updating and deleting a listing does.
- `accounts.dfy`: sign-in by e-mail, sign-up, profile update and the
  session's user.
- `cart.dfy`: adding, removing and setting the quantity of cart entries.
- `store.dfy`: the seeded store and its API as methods and functions of
  `MockStore`, plus the sign-up, list and delete walk-through.

Two behaviours of the code are kept on purpose:

- **Generated ids can collide.** The generated ids `prod{n}`, `cart{n}`
  and `user{n}` use the collection's length plus one. After a deletion
  the next id is `prod{L}`, where L is the length before the deletion.
  It repeats an id still in use exactly when an entry numbered `prod{L}`
  is still present. The same holds for `cart{L}`. Users are never
  deleted, so `user{n}` does not repeat. See `Catalogue.IdsCanCollide` and
  `Cart.CartIdsCanCollide`. Because of this, every lookup is stated in
  terms of the *first* match.
- **The session user is always `users[0]`.** `getCurrentUser` returns
  the first stored user whenever the flag is set, whoever signed in or
  signed up (`src/lib/mock-data.ts:81-82`). A caller might expect
  `getCurrentUser` to return the newly signed-up user, but the code
  returns `users[0]`. `Store.SignUpListAndDelete` proves the
  consequence: after a sign-up the session user is the first stored
  user, so a listing made through the session is filed under that user.

## Model

| member | source | states |
|---|---|---|
| Types.MergeProduct | src/lib/mock-data.ts:144 | `{ ...p, ...d }`: a patch with no field present leaves the product unchanged, every field the patch carries overrides the stored one, and every field it does not carry keeps its stored value |
| Types.MergeUser | src/lib/mock-data.ts:166 | the same for users: an empty patch changes nothing, every field the patch carries wins, and every other field (the avatar included) keeps its stored value |
| Text.Lower | src/lib/mock-data.ts:116 | lower-casing keeps the length and leaves no upper-case letter; each upper-case letter becomes its lower-case counterpart (code point plus 32), and every other character is unchanged |
| Text.Includes | src/lib/mock-data.ts:116 | the empty needle is contained in every string, and a needle longer than the haystack never is |
| Text.IncludesIff | src/lib/mock-data.ts:116 | `includes` holds exactly when the needle occurs at some position of the haystack (both directions) |
| Text.Decimal | src/lib/mock-data.ts:132 | the number inside a generated id is rendered as at least one digit, digits only, with no leading zero for positive numbers |
| Text.DecimalRoundTrip | src/lib/mock-data.ts:132 | reading the rendered digits back gives the number |
| Text.DecimalInjective | src/lib/mock-data.ts:132 | two numbers render alike exactly when they are equal |
| Text.Prefixed | src/lib/mock-data.ts:97 | a generated id `prefix{n}` starts with the prefix, continues with digits only, and those digits read back as `n` |
| Text.PrefixedInjective | src/lib/mock-data.ts:97 | `prefix{a}` equals `prefix{b}` exactly when a equals b |
| Seqs.FindIndex | src/lib/mock-data.ts:142 | the result is -1 exactly when no element matches; otherwise it is the first matching position |
| Seqs.FindIndexAppend | src/lib/mock-data.ts:186 | appending an element keeps an existing first match; otherwise the appended element is the first match if it matches |
| Seqs.Find | src/lib/mock-data.ts:123 | `find` yields nothing exactly when no element matches; otherwise it yields the element at the first matching position |
| Seqs.Filter | src/lib/mock-data.ts:113 | `filter` returns no more elements than it is given, only elements of the input that satisfy the predicate, and every element of the input that satisfies it |
| Seqs.FilterAppend | src/lib/mock-data.ts:113 | `filter` keeps the input order: filtering a concatenation concatenates the filtered parts |
| Seqs.FilterCount | src/lib/mock-data.ts:113 | `filter` keeps every occurrence of an accepted element and none of a rejected one (multiset count) |
| Seqs.FilterEmptyIff | src/lib/mock-data.ts:158 | `filter` returns nothing exactly when no element satisfies the predicate |
| Seqs.RemoveFirstMatch | src/lib/mock-data.ts:150-152 | after splicing out the first match, no match remains exactly when the sequence held exactly one |
| Catalogue.ProductId | src/lib/mock-data.ts:132 | the product id `prod{n}` starts with `prod` and its digits read back as `n` |
| Catalogue.ProductIdInjective | src/lib/mock-data.ts:132 | generated product ids are equal exactly when their numbers are |
| Catalogue.InsertPermutes | src/lib/mock-data.ts:118 | one insertion step of the sort adds exactly the inserted product |
| Catalogue.InsertNewestFirst | src/lib/mock-data.ts:118 | one insertion step keeps a newest-first sequence newest first |
| Catalogue.SortNewestFirst | src/lib/mock-data.ts:118 | the sort by `createdAt`, newest first, returns a permutation of its input ordered non-increasingly by creation time |
| Catalogue.SortKeepsMembers | src/lib/mock-data.ts:118 | the sort neither adds nor drops a product |
| Catalogue.SortStable | src/lib/mock-data.ts:118 | the sort is stable: products created at the same instant keep their order in the store |
| Catalogue.Query | src/lib/mock-data.ts:111-118 | the catalogue query returns products of the store only, newest first |
| Catalogue.QueryExact | src/lib/mock-data.ts:109-119 | `getProducts` returns, newest first, each product that has the requested category and whose lower-cased title contains the lower-cased term, as often as the store holds it, and nothing else |
| Catalogue.Listings | src/lib/mock-data.ts:158-159 | a seller's listings are products of the store sold by that seller, newest first |
| Catalogue.ListingsExact | src/lib/mock-data.ts:156-160 | `getUserListings` returns, newest first, exactly the products of that seller, with their multiplicity |
| Catalogue.Create | src/lib/mock-data.ts:126-138 | without a session user it fails with "User not authenticated" and leaves the listings unchanged; otherwise the new listing is placed in front of the old sequence, with id `prod{old length + 1}`, the session user's name as seller name, `now` as creation time, and the other fields from the draft |
| Catalogue.Update | src/lib/mock-data.ts:140-146 | it fails with "Product not found" exactly when no listing has the id, and then changes nothing; otherwise the first listing with the id is replaced by itself overridden with the patch and returned, and the length and every other position are unchanged |
| Catalogue.Delete | src/lib/mock-data.ts:148-153 | it fails with "Product not found" exactly when no listing has the id, and then changes nothing; otherwise exactly the first listing with the id is spliced out, the others keep their order, and the length drops by one |
| Catalogue.CreateThenDelete | src/lib/mock-data.ts:126-153 | deleting by id a listing that was just created restores the previous listings |
| Catalogue.UpdateThenFind | src/lib/mock-data.ts:121-146 | after an update that leaves the id alone, looking the id up yields the merged record |
| Catalogue.UpdateIdempotent | src/lib/mock-data.ts:140-146 | repeating an update whose patch leaves the id alone returns the same record and changes nothing more; an empty patch leaves the listings unchanged |
| Catalogue.DeleteThenFind | src/lib/mock-data.ts:121-153 | after a deletion, looking the id up finds nothing exactly when the id was unique; a duplicate becomes visible otherwise |
| Catalogue.IdsCanCollide | src/lib/mock-data.ts:132 | deleting `prod1` from `[prod1, prod2]` and then creating a listing leaves two listings with id `prod2` |
| Accounts.UserId | src/lib/mock-data.ts:97 | the user id `user{n}` starts with `user` and its digits read back as `n` |
| Accounts.Current | src/lib/mock-data.ts:81-82 | the session user exists exactly when the flag is set and some user is stored, and is then the first stored user |
| Accounts.Login | src/lib/mock-data.ts:85-93 | it fails with "Invalid credentials" exactly when no user has the e-mail; otherwise it returns the first user with that e-mail |
| Accounts.SignUp | src/lib/mock-data.ts:95-101 | it always succeeds, appends the new user after the old ones, numbers it `user{old length + 1}`, and gives it the e-mail and name supplied and no avatar |
| Accounts.UpdateProfile | src/lib/mock-data.ts:162-168 | it fails with "User not found" exactly when no user has the id, and then changes nothing; otherwise only the first user with the id is overridden with the patch and returned |
| Accounts.UpdateProfileIdempotent | src/lib/mock-data.ts:162-168 | repeating a profile update whose patch leaves the id alone returns the same user and changes nothing more; an empty patch leaves the users unchanged |
| Accounts.SignUpThenLogin | src/lib/mock-data.ts:85-101 | after a sign-up, signing in with the same e-mail finds the newcomer unless an earlier user has that e-mail, in which case it finds the earlier one |
| Accounts.UserIdInjective | src/lib/mock-data.ts:97 | generated user ids are equal exactly when their numbers are |
| Accounts.SignUpSessionUser | src/lib/mock-data.ts:76-101 | after a sign-up the session user is the first stored user, which is the newcomer only when nobody was stored before |
| Cart.CartId | src/lib/mock-data.ts:185 | the cart entry id `cart{n}` starts with `cart` and its digits read back as `n` |
| Cart.Add | src/lib/mock-data.ts:175-189 | it fails with "Product not found" exactly when no listing has the id, and then leaves the cart unchanged; an entry already holding the product grows by `quantity`, with the length and the other entries unchanged; otherwise a new entry `cart{old length + 1}` holding the found listing and `quantity` is appended at the end |
| Cart.Remove | src/lib/mock-data.ts:191-199 | it fails with "Item not found in cart" exactly when no entry has the id, and then changes nothing; otherwise exactly the first entry with the id is spliced out and the others keep their order |
| Cart.SetQuantity | src/lib/mock-data.ts:201-214 | it succeeds exactly when the entry exists and the quantity is positive; an unknown id fails and changes nothing; a quantity of zero or less splices the entry out and still fails; otherwise only that entry's quantity is set |
| Cart.NonPositiveQuantityRemoves | src/lib/mock-data.ts:205-207 | setting a quantity of zero or less leaves the cart as removing the entry would, and reports an error |
| Cart.AddTwice | src/lib/mock-data.ts:175-189 | adding the same product twice leaves one entry holding it with the earlier quantity plus both added quantities, and the cart grows by at most one entry |
| Cart.AddThenRemove | src/lib/mock-data.ts:185-195 | removing the entry that an add just appended restores the cart, provided no entry already had the generated id |
| Cart.CartIdsCanCollide | src/lib/mock-data.ts:185 | removing `cart1` from `[cart1, cart2]` and then adding a product creates a second `cart2`; removing `cart2` then takes out the older entry |
| Store.MockStore.constructor | src/lib/mock-data.ts:3-73 | the store starts with the seeded user, five listings, two cart entries and two purchases, and with the persisted session flag |
| Store.MockStore.CurrentUser | src/lib/mock-data.ts:76-83 | `getCurrentUser` yields a user exactly when the flag is set and some user is stored, and it is then the first stored user |
| Store.MockStore.LoginUser | src/lib/mock-data.ts:85-93 | the result is the sign-in of `Accounts.Login`; the flag is set afterwards when it was set before or the sign-in succeeded |
| Store.MockStore.SignupUser | src/lib/mock-data.ts:95-101 | the users and result are those of `Accounts.SignUp`, and the flag is set |
| Store.MockStore.LogoutUser | src/lib/mock-data.ts:103-106 | the flag is cleared |
| Store.MockStore.GetProducts | src/lib/mock-data.ts:109-119 | the result is newest first and holds each selected stored product as often as the store does, and nothing else; the store is only read |
| Store.MockStore.GetProductById | src/lib/mock-data.ts:121-124 | nothing is found exactly when no listing has the id; otherwise the result is the first listing with it |
| Store.MockStore.CreateProduct | src/lib/mock-data.ts:126-138 | the result and new listings are those of `Catalogue.Create` for the session user |
| Store.MockStore.UpdateProduct | src/lib/mock-data.ts:140-146 | the result and new listings are those of `Catalogue.Update` |
| Store.MockStore.DeleteProduct | src/lib/mock-data.ts:148-153 | the result and new listings are those of `Catalogue.Delete` |
| Store.MockStore.GetUserListings | src/lib/mock-data.ts:156-160 | the result is newest first and holds exactly the stored listings of that seller, with their multiplicity |
| Store.MockStore.UpdateUserProfile | src/lib/mock-data.ts:162-168 | the result and new users are those of `Accounts.UpdateProfile` |
| Store.MockStore.AddToCart | src/lib/mock-data.ts:175-189 | the result and new cart are those of `Cart.Add` over the current listings |
| Store.MockStore.RemoveFromCart | src/lib/mock-data.ts:191-199 | the result and new cart are those of `Cart.Remove` |
| Store.MockStore.UpdateCartItemQuantity | src/lib/mock-data.ts:201-214 | the result and new cart are those of `Cart.SetQuantity` |
| Store.SignUpListAndDelete | src/lib/mock-data.ts:76-160 | in the sign-up, list and delete walk-through, the newcomer is appended and the session user is the first stored user (the old first user when there was one); the listing is filed under that user; the seller's listings taken before the deletion contain it and only listings of that seller; deleting it restores the catalogue; its frame leaves the cart and the purchase history untouched |

## Left out

- The artificial `setTimeout` delays and the `async`/`Promise` wrapping. Each call is one atomic step; interleaving of concurrent calls is not modelled.
- Local storage. The `isLoggedIn` entry is the boolean field `loggedIn`, and the `typeof window` guard is dropped. Only the browser is modelled. On the server the flag is never written, so `getCurrentUser` stays null even after a sign-in or sign-up. The model covers that branch only in the initial state, built with `persistedLogin == false`; `LoginUser` and `SignupUser` always set the flag.
- Clock and date handling. `Date.now()`, `toISOString()` and the `new Date(...).getTime()` comparison in the sort become an integer `createdAt` (milliseconds). The current time is a parameter of the constructor and of `CreateProduct`.
- `price` is a JavaScript number in the source. Here it is an integer amount in cents; the store does no arithmetic on it.
- Text.Lower: lower-casing covers ASCII letters only, not the full Unicode case mapping of `toLowerCase`.
- Object aliasing. Cart and purchase entries hold value snapshots of the listing they were made from, and returned records are values. A caller that mutates a returned object, or a cart entry's product object shared with the listings array, is not modelled.
- Types.MergeUser: a patch can set an avatar but cannot remove one. A patch field explicitly set to `undefined`, which JavaScript's spread would copy, is treated as absent.
- Quantities are integers. Fractional or non-finite JavaScript numbers passed as a quantity are not modelled.
- Store.MockStore.GetCartItems and Store.MockStore.GetPreviousPurchases ignore their user argument and return the stored sequence. They carry no contract beyond that.
- The React/Next.js views and the zod form schemas of the product and profile forms are not part of this model. Their bounds on title, description, price and username are checked only in the UI and are never enforced by the store.
