# KHM furniture storefront — a Dafny model of its front-end logic

The storefront is a React single-page application. Most of it is markup, but a
small set of sequential decisions sits underneath the views, and this project
models that logic and proves properties about it:

- the session controller (`AuthProvider`): the stored bearer token, the
  signed-in user, the bootstrap `loading` flag and the two modal flags;
- the flows built on the session:
  - the Google sign-in modal with its phone-entry step;
  - the profile editor;
  - the contact form;
  - the once-per-browser-session sign-in prompt of `App`;
- the catalogue pages (home, products, product detail):
  - liked-id lists;
  - offer lookup by populated or raw product reference;
  - case-insensitive name search;
  - the category / general partition, the tab counts and the per-category
    grouping;
  - the price and order total shown to the customer;
  - the login gating of orders and reviews;
- the small view computations:
  - the product card;
  - the ad carousel;
  - the star widget;
  - the call dialog's number formatting;
  - the brand ticker's twenty-fold row.

Every server call is an input `Response<T>`: either `Ok(data)` or
`Err(failure)`, where the failure is no response or an HTTP status. Each
handler is therefore a pure function from the current state and the call's
outcome to the next state. Handlers that may skip the call return the request
they sent as an `Option`, so "nothing is posted" is stated directly.
`localStorage` and `sessionStorage` are `map<string, string>` held in the
state. JavaScript truthiness of a stored string (the empty string is falsy) is
`Common.StoredTruthy`. Timers are abstract events: the carousel's interval is a
tick and the prompt's timeout is a fire.

One module per source component. Files:

- `common.dfy`: `Option`, `Response`, and the JavaScript string and array
  helpers the pages use (`trim`, ASCII `toLowerCase`, `includes`, `filter`).
- `catalogue.dfy`: the records the server sends, plus the list logic shared
  by the pages.
- `auth.dfy`: the session controller.
- `login_modal.dfy`, `profile_modal.dfy`, `login_prompt.dfy`,
  `contact.dfy`: the flows built on the session.
- `product_detail.dfy`, `products.dfy`, `home.dfy`: the pages.
- `product_card.dfy`, `ad_banner.dfy`, `star_rating.dfy`,
  `call_options.dfy`, `brand_scroller.dfy`: the view components.

## Model

| member | source | states |
|---|---|---|
| Common.Trim | src/components/ProfileModal.jsx:21-28 | `trim()` yields a contiguous piece of the input with only white space before and after it and no white space at either end of its own; it is empty exactly when the input is all white space |
| Common.Contains | src/pages/Products.jsx:54-55 | `includes`, written as a left-to-right scan, succeeds exactly when the query occurs at some position of the name |
| Common.ContainsEmpty | src/pages/Products.jsx:54-55 | every string includes the empty query |
| Common.Filter | src/pages/Products.jsx:51-55 | `Array.prototype.filter` keeps exactly the elements that pass the test, in their order (an order-preserving subsequence), each as often as it occurred |
| Common.ToLower | src/pages/Products.jsx:55 | `toLowerCase` keeps the length, lower-cases each ASCII capital and keeps every other character, so no ASCII capital remains |
| Common.ToLowerIdempotent | src/pages/Products.jsx:55 | lower-casing an already lower-cased query changes nothing |
| Catalogue.FindOffer | src/pages/Products.jsx:49 | `getOffer` returns the first offer whose product refers to the id, as a populated `_id` or as a raw id; it returns nothing exactly when no offer refers to the id |
| Catalogue.FindProduct | src/pages/Products.jsx:40 | `products.find` returns the first product with the id, and nothing exactly when no product has it |
| Catalogue.ActiveOffer | src/components/ProductCard.jsx:6 | an offer counts only when one was found, and then exactly when it is marked `isActive` |
| Catalogue.DisplayPrice | src/pages/ProductDetail.jsx:97-98 | the price shown is the discounted price under an existing, active offer, and the list price otherwise |
| Catalogue.ApplyLike | src/pages/Home.jsx:37 | `liked` appends the id without de-duplication; not liked removes every occurrence of the id, keeps the order, and keeps every other id with its multiplicity |
| Catalogue.LikeThenUnlike | src/pages/Home.jsx:37 | a like followed by an unlike ends where a lone unlike ends |
| Catalogue.ReviewArrived | src/pages/Home.jsx:24-26 | the `{...prev, [id]: data}` merge used by the home and products pages adds or overwrites only the entry of `id` and keeps every other entry; a failed fetch changes nothing |
| Catalogue.ReviewsCommute | src/pages/Home.jsx:23-27 | the per-product fetches may answer in any order: summaries of different products give the same map either way |
| Auth.Init | src/context/AuthContext.jsx:9-12 | the provider starts with no user, `loading` true and both modal flags false, over the browser's storage |
| Auth.Bootstrap | src/context/AuthContext.jsx:14-24 | `loading` ends false on every path. Without a truthy stored token, user and storage are untouched. With a token, a verified user is signed in and the token kept; a failed verify evicts the token and nothing else |
| Auth.BootstrapWithoutTokenIgnoresServer | src/context/AuthContext.jsx:15-23 | without a stored token the outcome of verify plays no part, because no verify call is made |
| Auth.BootstrapFromInit | src/context/AuthContext.jsx:9-24 | from the initial state, bootstrap signs a user in exactly when a truthy token is stored and the server verifies it; a rejected token is removed |
| Auth.GoogleLogin | src/context/AuthContext.jsx:26-31 | success stores `res.token`, signs `res.user` in and returns the whole response data; a failure reaches the caller and changes nothing |
| Auth.GoogleLoginThenReload | src/context/AuthContext.jsx:14-31 | after a Google sign-in, the next page load verifies the stored token: it signs in whoever the server vouches for exactly when the issued token was non-empty, and evicts a token the server rejects |
| Auth.UpdateProfile | src/context/AuthContext.jsx:33-37 | success replaces the user with the server's profile; the token is never touched; a failure changes nothing |
| Auth.UpdateProfileKeepsReload | src/context/AuthContext.jsx:14-37 | a profile update leaves the token alone, so the next page load goes exactly as it would have without the update |
| Auth.Logout | src/context/AuthContext.jsx:39-42 | the user is gone and exactly the token key leaves storage: every other stored key keeps its value and no key is added. `loading` and both modal flags are kept |
| Auth.LogoutIdempotent | src/context/AuthContext.jsx:39-42 | logging out twice is logging out once |
| Auth.LogoutThenBootstrap | src/context/AuthContext.jsx:14-42 | after a logout, a bootstrap signs nobody in, whatever the server would answer |
| Auth.SetShowLoginModal | src/context/AuthContext.jsx:11 | the setter changes the login-modal flag and nothing else in the session |
| Auth.SetShowProfileModal | src/context/AuthContext.jsx:12 | the setter changes the profile-modal flag and nothing else in the session |
| LoginModal.Render | src/components/LoginModal.jsx:13-70 | nothing renders unless `showLoginModal`; the phone form shows exactly in the phone step, and the close button exactly outside it |
| LoginModal.GoogleSuccess | src/components/LoginModal.jsx:15-31 | `loading` ends false. Success with `needsPhone` enters the phone step and keeps the modal open; success without it closes the modal. A failure leaves the session and the step as they were. The session's `loading` and profile-modal flag never change |
| LoginModal.PhoneSubmit | src/components/LoginModal.jsx:33-51 | a phone shorter than ten characters is rejected and `updateProfile` is not called. Otherwise it is called with `(user?.name, phone)`. Success closes the modal, leaves the phone step and clears the phone. Failure keeps everything but `loading`, which ends false. The session's `loading` and profile-modal flag never change |
| LoginModal.Dismiss | src/components/LoginModal.jsx:54-70 | the backdrop and the close button close the modal only outside the phone step, and touch nothing else |
| LoginModal.PhoneStepIsSticky | src/components/LoginModal.jsx:33-70 | once in the phone step, no run of dismissals, typing, and submits that the length check refuses or the server fails closes the modal, leaves the step or changes the user |
| LoginModal.PhoneSignInStaysOpen | src/components/LoginModal.jsx:15-70 | after a Google sign-in that answers `needsPhone`, the modal stays open in the phone step, signed in as the returned user, until a phone is saved |
| ProfileModal.Seed | src/components/ProfileModal.jsx:11-15 | with a user, the form becomes the user's name and phone, with `''` for a missing phone; without a user, the form keeps its contents |
| ProfileModal.Render | src/components/ProfileModal.jsx:17 | the modal renders exactly when it is asked for and a user is signed in, and then shows the form as it stands |
| ProfileModal.OpenModalShowsProfile | src/components/ProfileModal.jsx:11-17 | once the seeding effect has run, an open modal shows the signed-in user's own name and phone, with `''` for a missing phone |
| ProfileModal.Validate | src/components/ProfileModal.jsx:21-28 | a blank name is refused first. Then a blank phone, or an untrimmed phone shorter than ten characters, is refused. A form passes exactly when neither holds |
| ProfileModal.Submit | src/components/ProfileModal.jsx:19-39 | `updateProfile` is called exactly when validation passes, with the form's name and phone. Success signs in the server's profile and closes the modal. Failure leaves the session unchanged. `loading` ends false |
| ProfileModal.SeededFormOfCompleteProfile | src/components/ProfileModal.jsx:11-31 | a user whose stored name and phone already pass validation can save the seeded form as it is |
| LoginPrompt.Mount | src/App.jsx:17-26 | a prompt is scheduled exactly when the session is not loading, nobody is signed in, and the session flag is not set |
| LoginPrompt.AuthChanged | src/App.jsx:17-29 | when `user` or `loading` changes, the pending prompt is cancelled and re-scheduled only under the same three conditions. While loading or signed in, no new prompt is scheduled. Once the flag is set, none is ever scheduled. When neither changes, the effect does not re-run and a pending prompt stays pending |
| LoginPrompt.Fire | src/App.jsx:23-26 | a pending prompt opens the login modal, records `loginPopupShown` in session storage and is no longer pending; a prompt that is not pending does nothing |
| LoginPrompt.PromptAtMostOnce | src/App.jsx:17-29 | over any run of session changes and timer events, the prompt opens at most once per browser session, and never when the flag was already set |
| ProductDetail.Mount | src/pages/ProductDetail.jsx:12-19 | the page starts with no product or offer, unliked, the order form closed and empty with quantity 1, and the review form at five stars with no comment |
| ProductDetail.ProductLoaded | src/pages/ProductDetail.jsx:24 | a fetched product is stored; a failed fetch changes nothing |
| ProductDetail.OffersLoaded | src/pages/ProductDetail.jsx:26-29 | the first offer referring to the route id becomes the offer. With no match, or on failure, the offer stays as it was. Nothing else changes |
| ProductDetail.LikesLoaded | src/pages/ProductDetail.jsx:30 | the page is liked exactly when the visitor's liked ids contain the route id |
| ProductDetail.LikeToggled | src/pages/ProductDetail.jsx:35-41 | after a toggle, the liked flag is the server's `liked`; a failure leaves it |
| ProductDetail.OrderClick | src/pages/ProductDetail.jsx:43-50 | without a user, the login modal opens and the order form does not; with one, the order form opens |
| ProductDetail.SubmitOrder | src/pages/ProductDetail.jsx:52-67 | the form is posted as it stands. Success closes the form and resets it to an empty address and quantity 1. A 401 opens the login modal. Any other failure changes nothing |
| ProductDetail.SubmitReview | src/pages/ProductDetail.jsx:69-89 | without a user, nothing is posted and the login modal opens. Success resets the form to five stars and no comment, and re-fetches the reviews. A 401 opens the login modal; other failures change nothing |
| ProductDetail.SignedOutOrderIsPosted | src/pages/ProductDetail.jsx:52-89 | after a logout, an order is still posted as it stands and only the server's 401 opens the login modal, while a review is not posted at all and the modal opens at once |
| ProductDetail.OrderAgainAfterSuccess | src/pages/ProductDetail.jsx:52-60 | after a successful order, submitting again posts one item with no address |
| ProductDetail.ReviewAgainAfterSuccess | src/pages/ProductDetail.jsx:69-80 | after a successful review, reviewing again posts five stars with no comment |
| ProductDetail.DigitPrefix | src/pages/ProductDetail.jsx:216 | `parseInt` reads the longest run of decimal digits: a prefix of the input, all digits, followed by a non-digit or by the end |
| ProductDetail.ParseInt | src/pages/ProductDetail.jsx:216 | `parseInt` gives a number, not `NaN`, exactly when a digit follows the leading white space and an optional sign; the number is the value of the longest run of digits there, negated after a minus sign |
| ProductDetail.ParseQuantity | src/pages/ProductDetail.jsx:216 | the parsed value, or 1 when it is falsy, is never zero: non-numeric input and zero become 1, and any other parsed value, negatives included, is kept |
| ProductDetail.ParseIntDecimal | src/pages/ProductDetail.jsx:216 | `parseInt` reads the decimal form of `n` back as `n` |
| ProductDetail.ParseIntNegatedDecimal | src/pages/ProductDetail.jsx:216 | `parseInt` reads a minus sign followed by the decimal form of `n` as `-n` |
| ProductDetail.QuantityRoundTrip | src/pages/ProductDetail.jsx:216 | typing a positive count sets exactly that quantity |
| ProductDetail.NegativeQuantityKept | src/pages/ProductDetail.jsx:215-216 | a negative count passes through unchanged: nothing enforces the input's `min={1}` |
| ProductDetail.QuantityFallsBackToOne | src/pages/ProductDetail.jsx:216 | typing zero, or clearing the field, sets the quantity to 1 |
| ProductDetail.QuantityTyped | src/pages/ProductDetail.jsx:216 | typing stores `ParseQuantity` of the input as the quantity (the `parseInt` value, or 1 when that is NaN or zero) and changes nothing else |
| ProductDetail.ShownTotal | src/pages/ProductDetail.jsx:218 | once the product is loaded, the total is the shown price times the quantity |
| ProductDetail.TotalAfterTyping | src/pages/ProductDetail.jsx:97-218 | after typing a positive count `n`, the total is the discounted price times `n` under an active offer, and the list price times `n` otherwise |
| Products.DropProduct | src/pages/Products.jsx:44 | every product with the id leaves the liked-product list; the rest keep their order and multiplicity |
| Products.ToggleLike | src/pages/Products.jsx:35-47 | `liked` appends the id, and appends the product only when it is on the page. Not liked removes every occurrence of the id from both lists and nothing else. Unlike keeps the remaining ids and products in their order. A failure changes nothing. No other field changes |
| Products.ToggleTwice | src/pages/Products.jsx:35-47 | a like then an unlike leaves both liked lists exactly as a lone unlike would; in between, the id is listed, and so is the product when it is on the page |
| Products.OfKind | src/pages/Products.jsx:51-52 | exactly the products whose `categoryType` is the given kind (`'category'` or `'non-category'`), in catalogue order, each as often as in the catalogue |
| Products.PartitionDisjoint | src/pages/Products.jsx:51-52 | no product is in both lists, and a product of any other `categoryType` is in neither |
| Products.FilterBySearch | src/pages/Products.jsx:54-55 | the order-preserving subsequence of products whose lower-cased name contains the lower-cased query, each kept as often as it occurs in the list (the liked list may hold duplicates) |
| Products.EmptySearchKeepsAll | src/pages/Products.jsx:54-55 | an empty search returns the whole list |
| Products.SearchIgnoresQueryCase | src/pages/Products.jsx:54-55 | a query and its lower-cased form select the same products |
| Products.Tabs | src/pages/Products.jsx:57-62 | the tab counts are the lengths of the unsearched lists, so the two partition tabs never count more than "All Products" |
| Products.PartitionSize | src/pages/Products.jsx:51-52 | the lists of two different kinds together are no longer than the catalogue |
| Products.InCategory | src/pages/Products.jsx:131-133 | exactly the products that refer to the category by populated `_id` or raw id, in order, each as often as in the list |
| Products.CategoryGroups | src/pages/Products.jsx:130-134 | the headings are taken from the categories in their order (a subsequence), so a list of distinct categories gives distinct headings. Each group is non-empty and holds exactly that category's products; every category with products gets a group |
| Products.GroupedProductsBelong | src/pages/Products.jsx:128-134 | every product under a category heading is a category product of the catalogue that refers to that category |
| Home.VisitorId | src/pages/Home.jsx:14-18 | a stored id is reused and storage is untouched. Otherwise a `'v_'` id is generated and stored under `visitorId` before use. Other keys are kept |
| Home.VisitorIdIsStable | src/pages/Home.jsx:14-18 | once an id is obtained, every later visit reuses it, whatever random digits it would draw |
| Home.ToggleLike | src/pages/Home.jsx:34-39 | `liked` appends the id. Not liked removes every occurrence and keeps the other ids in order with their multiplicities. A failure changes nothing |
| Home.ToggleTwice | src/pages/Home.jsx:37 | like then unlike ends without the id, exactly as a lone unlike would |
| Contact.Prefill | src/pages/Contact.jsx:14-18 | the mobile field takes the user's phone only when a user with a non-empty phone exists; otherwise the form is untouched |
| Contact.SenderName | src/pages/Contact.jsx:35 | the posted name is never empty: it is the user's name, or `'User'` when that is empty |
| Contact.Submit | src/pages/Contact.jsx:20-47 | nothing is posted without a user, or with a blank mobile. Otherwise the query carries the sender name, mobile and message. Success clears the message and keeps the mobile; failure keeps both. `loading` ends false |
| Contact.PrefilledPhoneIsAccepted | src/pages/Contact.jsx:14-38 | a signed-in user with a non-blank phone can send straight after the prefill, and the query carries that phone |
| ProductCard.Round | src/components/ProductCard.jsx:59 | `Math.round` yields the integer within half a unit of the value, rounding halves up |
| ProductCard.RoundWhole | src/components/ProductCard.jsx:59 | a whole-number average is shown as itself |
| ProductCard.FirstImage | src/components/ProductCard.jsx:13 | the first image, or the placeholder when there is none or it is empty |
| ProductCard.FirstSpecs | src/components/ProductCard.jsx:45-47 | at most the first two specifications, in order |
| ProductCard.Render | src/components/ProductCard.jsx:5-72 | the badge appears exactly under an active offer. The price shown is the discounted price, with the list price struck, under an active offer, and the list price alone otherwise. The rating is the rounded average and the count is the count, both 0 without a summary |
| ProductCard.LikeClick | src/components/ProductCard.jsx:26 | the like callback receives the product id, and is invoked exactly when one is supplied |
| AdBanner.Mount | src/components/AdBanner.jsx:5-10 | the carousel starts at slide 0 with the fetched ads, or with none on failure, in a valid state |
| AdBanner.TimerInstalled | src/components/AdBanner.jsx:12-16 | the auto-advance interval exists only with more than one ad, that is, exactly when the dots are rendered |
| AdBanner.Tick | src/components/AdBanner.jsx:12-16 | with more than one ad the slide advances cyclically; with one or none there is no interval and nothing changes; validity is preserved |
| AdBanner.DotClick | src/components/AdBanner.jsx:32-38 | dot `i` exists only with more than one ad and `i` below their number, and selects slide `i`; validity is preserved |
| AdBanner.Render | src/components/AdBanner.jsx:18-48 | nothing renders without ads. Otherwise the current ad shows, with one dot per ad (only the current one active) when there are several ads. "Learn More" shows exactly when the ad has a redirect link |
| AdBanner.AlwaysInRange | src/components/AdBanner.jsx:12-38 | however the carousel is ticked and clicked, the current slide stays within the ads |
| StarRating.Stars | src/components/StarRating.jsx:3-18 | exactly five stars numbered 1 to 5 in order; star `k` is filled exactly when `k <= rating`; all are disabled exactly when there is no `onRate` |
| StarRating.FilledStars | src/components/StarRating.jsx:8-18 | the filled stars form a prefix, and their number is the rating clamped to 0..5 |
| StarRating.Click | src/components/StarRating.jsx:12-14 | a click reports the star's number, exactly when the star is enabled |
| StarRating.ClickRatesItsNumber | src/components/StarRating.jsx:8-14 | with `onRate`, clicking the k-th star rates `k`; without it, no click rates |
| CallOptions.Render | src/components/CallOptionsModal.jsx:5-10 | nothing renders while closed; when open, exactly the two fixed numbers, primary first |
| CallOptions.HandleCall | src/components/CallOptionsModal.jsx:12-15 | choosing a number navigates to `tel:+91` followed by the number, and always closes the dialog |
| CallOptions.Display | src/components/CallOptionsModal.jsx:42 | the display is `+91 `, the first five digits, a space, then the rest |
| CallOptions.DisplayRoundTrip | src/components/CallOptionsModal.jsx:42 | the digits read back out of the display are the original number: the two slices concatenate back to it |
| BrandScroller.Repeat | src/components/BrandScroller.jsx:15 | `Array(k).fill(xs).flat()` has `k` times as many entries as the brand list |
| BrandScroller.RepeatAdd | src/components/BrandScroller.jsx:15 | `a` copies followed by `b` copies are `a + b` copies |
| BrandScroller.RepeatBlock | src/components/BrandScroller.jsx:15 | the block of `n` entries starting at `m * n` is the brand list, in order |
| BrandScroller.RepeatAt | src/components/BrandScroller.jsx:15 | entry `i` of the row is brand `i mod n` |
| BrandScroller.HalvesAgree | src/components/BrandScroller.jsx:15 | both halves of the row are ten copies of the list, so the half-width scroll loops without a seam |
| BrandScroller.Mount | src/components/BrandScroller.jsx:7-9 | the fetched brands, or none on failure |
| BrandScroller.Render | src/components/BrandScroller.jsx:11-15 | nothing renders without brands; otherwise the twenty-fold row |

## Left out

- HTTP and axios. Every call's outcome is an input, and the request
  interceptor of `src/services/api.js` is not part of this model. It attaches
  the bearer header when a token is stored.
- Concurrency. Asynchronous interleaving and stale responses are out of scope:
  each response is applied as one atomic transition, in whatever order the
  caller chooses.
- Real time. Timers become events: the 5-second carousel interval is
  `AdBanner.Tick`, and the 10-second prompt is `LoginPrompt.Fire`.
- Randomness. `Math.random().toString(36)` is the `random` parameter of
  `Home.VisitorId`.
- Visitor-id variants. The variant in the products and product-detail pages
  always re-writes the id; only the home page's version is modelled.
- The product detail page's review list. Its fetch and re-fetch are reduced to
  the `refetch` flag of `ProductDetail.SubmitReview`; the list's contents are
  not modelled.
- `LoginPrompt.AuthChanged`: React compares `user` by reference, but the model
  compares it by value. A new user object with equal contents re-runs the
  effect in the browser and not in the model. The effect's guards give the
  same answer either way.
- `Common.ToLower`: covers ASCII letters only. JavaScript's full Unicode case
  mapping, including characters whose lower case is longer, is not modelled.
- `ProductDetail.ParseInt`: base ten only. The `0x` prefix cannot come from a
  number input, and precision loss beyond 2^53 is not modelled.
- Floating point. Prices and totals are integers, and `toLocaleString`
  formatting is not modelled. `ProductCard.Round` is exact rounding on reals,
  with no `NaN`.
- String lengths. They count characters, not UTF-16 code units.
- `Auth.GoogleLogin`: the token is always a string. When the server omits it,
  `localStorage` would store the text `undefined`; that case is not modelled.
- The profile modal's link to the user. That `showProfileModal` implies a
  signed-in user is not stated as an invariant: only rendering is gated
  (`ProfileModal.Render`), and the session never enforces it.
- The login requirement of orders. `submitOrder` posts without checking the
  user; only the button and the server's 401 guard it, as
  `ProductDetail.SignedOutOrderIsPosted` shows.
- Presentation:
  - JSX markup, styling, toasts and the Google widget's internals.
  - Routing and provider wiring (`src/main.jsx`).
  - The purely presentational Navbar, Footer and floating call button.
  - The carousel's media-type choice between video and image is carried as
    data only.
