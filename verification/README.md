# BeatBuddy Sales Pro — order cart, survey and task tracker in Dafny

This project models the parts of the BeatBuddy Sales Pro field-sales app that compute something.

- **Order entry.** A catalog search that ignores case and matches a product's name or category. The distinct category pills. A cart of `{id, name, unit, price, quantity}` lines, built with Add and the −/+ buttons. The cart totals. The hand-off of the cart to the review screen.
- **Order review.** The same quantity rule, plus removing a line. The scheme discount is 5% rounded down on subtotals above 500. The screen also has the total, the payment-terms guard on submission, and the order record that the delayed submission produces.
- **Survey.** Previous/Next paging over a question index kept inside the question list. An answer map keyed by question id. A submit guard that requires every question except the last, free-text one.
- **Activities.** An append-only list of completed task ids. The pending list derived from it. The completed and pending counts. The completion rate, rounded to a whole percentage. The motivation card shown at 80% or more.

## Layout

| file | module | contents |
|---|---|---|
| `wrappers.dfy` | `Wrappers` | `Option` (stands for JavaScript's `undefined`/`null` results) |
| `text.dfy` | `Text` | ASCII lower-casing, substring search (`includes`) |
| `sequences.dfy` | `Sequences` | subsequences, duplicates, first occurrence, de-duplication (`[...new Set(s)]`) |
| `catalog.dfy` | `Catalog` | products, the mock catalog, the search filter, the category list |
| `cart.dfy` | `Cart` | cart lines, `addToCart`, `updateQuantity`, `removeItem`, totals, and their lemmas |
| `order_entry.dfy` | `OrderEntry` | class `OrderEntryScreen` (search box and cart state, its handlers) |
| `order_review.dfy` | `OrderReview` | discount and total, the order record, class `OrderReviewScreen` with its submission phases |
| `survey.dfy` | `Survey` | questions, the submit guard, class `SurveyScreen` |
| `activities.dfy` | `Activities` | tasks, pending list, counts, completion rate, class `ActivitiesScreen` |

React state that a handler replaces becomes a field of a class, and the handler becomes a method with `modifies this`. The screens are `OrderEntryScreen.searchQuery`/`cart`, `OrderReviewScreen.cart`/`paymentTerms`/`orderNotes`/`phase` (the last standing for `isSubmitting`), `SurveyScreen.answers`/`currentQuestion` and `ActivitiesScreen.completedTasks`. The new values those handlers compute, and everything derived during rendering, are functions. The method contracts tie each new state to those functions, and the lemmas state what the functions guarantee.

The cart invariant `Cart.Valid` has two parts: product ids are unique, and every quantity is at least 1. The constructor of each screen establishes it, and every cart handler preserves it.

Order submission is a three-state machine held in `OrderReviewScreen.phase`:

1. `Building` is the screen's state before submission.
2. `HandleSubmitOrder` moves it to `Submitting(items, terms, notes)`. That snapshot is what the delayed callback closes over when the button is pressed.
3. `FinishSubmission` moves it to `Submitted(order)`.

The spinner flag `isSubmitting` is `phase.Submitting?`.

`handleSubmitOrder` has no empty-cart check; it only tests the payment terms. An empty cart is kept away from the button only because the screen then renders "No items in cart" instead of the order (`OrderReviewScreen.SubmitEnabled`, used by `OrderReview.SubmitScenario`).

## Model

| member | source | states |
|---|---|---|
| Text.Lower | src/pages/OrderEntry.tsx:46-47 | an ASCII capital becomes its lower-case letter (code + 32); every other character is kept; the result is never a capital |
| Text.LowerStr | src/pages/OrderEntry.tsx:46-47 | `toLowerCase` keeps the length and lower-cases every character in place |
| Text.LowerStrIdempotent | src/pages/OrderEntry.tsx:46-47 | lower-casing twice is lower-casing once |
| Text.Includes | src/pages/OrderEntry.tsx:46-47 | `includes` holds exactly when the pattern occurs at some position of the text |
| Text.IncludesEmpty | src/pages/OrderEntry.tsx:46-47 | every text includes the empty string |
| Text.IncludesSelf | src/pages/OrderEntry.tsx:46-47 | every text includes itself |
| Catalog.Search | src/pages/OrderEntry.tsx:45-48 | the filter returns only catalog products whose lower-cased name or category contains the lower-cased query, and never more products than the catalog has |
| Catalog.SearchComplete | src/pages/OrderEntry.tsx:45-48 | no matching product is dropped by the filter |
| Catalog.SearchKeepsOrder | src/pages/OrderEntry.tsx:45-48 | the filtered list is a subsequence of the catalog (catalog order kept) |
| Catalog.SearchEmptyQuery | src/pages/OrderEntry.tsx:45-48 | the empty query (the "All" pill) returns the whole catalog unchanged |
| Catalog.CategoryPillShowsCategory | src/pages/OrderEntry.tsx:111-129 | clicking a category pill lists every product of that category |
| Catalog.CategoryList | src/pages/OrderEntry.tsx:81 | `products.map(p => p.category)`: one category per product, position by position |
| Catalog.Categories | src/pages/OrderEntry.tsx:81 | the category list holds exactly the catalog's categories, none twice |
| Sequences.DistinctSpec | src/pages/OrderEntry.tsx:81 | `[...new Set(s)]` holds exactly the values of `s`, without duplicates |
| Sequences.DistinctFirstAppearanceOrder | src/pages/OrderEntry.tsx:81 | `[...new Set(s)]` lists values in the order of their first occurrence in `s` |
| Sequences.FirstIndex | src/pages/OrderEntry.tsx:81 | the position returned holds the value, and no earlier position does |
| Catalog.MockCategories | src/pages/OrderEntry.tsx:34-43 | the mock catalog's pills are Beverages, Snacks, Cooking, Staples, Home Care, Personal Care, in that order |
| Cart.Ids | src/pages/OrderEntry.tsx:21-27 | the line ids, position by position |
| Cart.IndexOf | src/pages/OrderEntry.tsx:51 | `find` by id returns the first line with that id |
| Cart.QuantityOf | src/pages/OrderEntry.tsx:134-135 | the quantity shown beside a product is 0 when it has no line, and with unique ids it is exactly that product's line quantity; under the invariant it is positive exactly when the product is in the cart |
| Cart.AddToCart | src/pages/OrderEntry.tsx:50-61 | after `addToCart` the product is in the cart |
| Cart.AddToCartExisting | src/pages/OrderEntry.tsx:51-57 | on a product already in the cart, that line's quantity rises by exactly 1; length and all other lines unchanged |
| Cart.AddToCartNew | src/pages/OrderEntry.tsx:58-59 | on a new product, one quantity-1 line is appended at the end and earlier lines are unchanged |
| Cart.AddToCartValid | src/pages/OrderEntry.tsx:50-61 | `addToCart` preserves unique ids and quantities of at least 1 |
| Cart.AddToCartTotals | src/pages/OrderEntry.tsx:50-61 | `addToCart` raises the item count by 1 and the amount by the product's price (the existing line's price for a product already in the cart) |
| Cart.AddTwiceFromEmpty | src/pages/OrderEntry.tsx:50-71 | adding a product twice to an empty cart gives one line of quantity 2, the same as adding it once then pressing + |
| Cart.Adjusted | src/pages/OrderEntry.tsx:64-69 | the map callback leaves other ids alone, drops a line whose new quantity is not positive, and otherwise sets `quantity + change` |
| Cart.UpdateQuantity | src/pages/OrderReview.tsx:42-50 | `updateQuantity` never lengthens the cart |
| Cart.UpdateQuantityAbsent | src/pages/OrderEntry.tsx:63-71 | `updateQuantity` on an id not in the cart changes nothing |
| Cart.UpdateQuantityAt | src/pages/OrderEntry.tsx:63-71 | on the line at position k the quantity becomes max(0, q + change); at 0 exactly that line is deleted, otherwise only that line changes; all other lines keep their order |
| Cart.UpdateQuantityValid | src/pages/OrderReview.tsx:42-50 | `updateQuantity` preserves unique ids and quantities of at least 1 |
| Cart.UpdateQuantityTotals | src/pages/OrderEntry.tsx:63-79 | `updateQuantity` changes the item count by (new − old quantity) and the amount by price × (new − old quantity) |
| Cart.DecrementByQuantityRemoves | src/pages/OrderEntry.tsx:63-71 | pressing − down to zero removes the product from the cart |
| Cart.RemoveItem | src/pages/OrderReview.tsx:52-54 | `removeItem` never lengthens the cart |
| Cart.RemoveItemAbsent | src/pages/OrderReview.tsx:52-54 | `removeItem` on an absent id leaves the cart unchanged |
| Cart.RemoveItemAt | src/pages/OrderReview.tsx:52-54 | `removeItem` deletes exactly the line with that id; all other lines keep their order |
| Cart.RemoveItemGone | src/pages/OrderReview.tsx:52-54 | after `removeItem` no line has that id |
| Cart.RemoveItemValid | src/pages/OrderReview.tsx:52-54 | `removeItem` preserves unique ids and quantities of at least 1 |
| Cart.RemoveItemTotals | src/pages/OrderReview.tsx:52-72 | `removeItem` lowers the item count by the line's quantity and the subtotal by its price × quantity |
| Cart.SumAppend | src/pages/OrderReview.tsx:56-58 | the `reduce` sum over two concatenated carts is the sum of their sums |
| Cart.SumCons | src/pages/OrderReview.tsx:56-58 | the sum of a cart is its first line's value plus the sum of the rest |
| Cart.SumUpdate | src/pages/OrderReview.tsx:56-58 | replacing one line changes the sum by the difference of the two lines |
| Cart.SumRemove | src/pages/OrderReview.tsx:56-58 | deleting one line lowers the sum by that line's value |
| Cart.EmptyCartTotals | src/pages/OrderEntry.tsx:73-79 | the empty cart has amount 0 and item count 0 |
| Cart.TotalItemsAtLeastLines | src/pages/OrderEntry.tsx:77-79 | under the invariant the item count is at least the number of lines |
| Cart.SubtotalNonNegative | src/pages/OrderReview.tsx:56-58 | with non-negative prices and quantities the subtotal is non-negative |
| OrderEntry.OrderEntryScreen.constructor | src/pages/OrderEntry.tsx:30-43 | the screen opens with an empty search box and an empty cart, satisfying the invariant |
| OrderEntry.OrderEntryScreen.SetSearchQuery | src/pages/OrderEntry.tsx:105-124 | the search box and pills set the query and leave the cart alone |
| OrderEntry.OrderEntryScreen.FilteredProducts | src/pages/OrderEntry.tsx:45-48 | the listed products are exactly the catalog products matching the query; the empty query lists the catalog |
| OrderEntry.OrderEntryScreen.AddToCart | src/pages/OrderEntry.tsx:50-61 | the cart becomes `Cart.AddToCart` of the old cart; the invariant holds, and for a catalog product every line is still a catalog product |
| OrderEntry.OrderEntryScreen.UpdateQuantity | src/pages/OrderEntry.tsx:63-71 | the cart becomes `Cart.UpdateQuantity` of the old cart, keeping the invariant and catalog-only lines |
| OrderEntry.UpdateQuantityKeepsLines | src/pages/OrderEntry.tsx:63-71 | every line left by `updateQuantity` has the id of a line that was already there |
| OrderEntry.OrderEntryScreen.ReviewOrder | src/pages/OrderEntry.tsx:199-214 | the hand-off is offered exactly when the cart is non-empty, carries the cart unchanged, and meets the review screen's cart invariant with at least one item |
| OrderReview.SchemeDiscount | src/pages/OrderReview.tsx:60-64 | 0 up to a subtotal of 500; above it, the largest d with 20·d ≤ subtotal (5% rounded down); never more than a non-negative subtotal |
| OrderReview.SchemeDiscountExamples | src/pages/OrderReview.tsx:60-64 | 500 → 0, 501 → 25, 600 → 30, 1000 → 50 |
| OrderReview.SchemeShownIffAboveThreshold | src/pages/OrderReview.tsx:198 | the scheme card and discount row appear exactly when the subtotal exceeds 500 |
| OrderReview.TotalAmount | src/pages/OrderReview.tsx:66-68 | total = subtotal − discount lies between 0 and a non-negative subtotal; it equals the subtotal up to 500 and is strictly less above |
| OrderReview.DiscountCliff | src/pages/OrderReview.tsx:60-68 | a subtotal of 500 pays 500 while 501 pays 476: the total is not monotone in the subtotal |
| OrderReview.MakeOrder | src/pages/OrderReview.tsx:91-99 | the record carries the items, terms, notes and id as given, and subtotal, discount and total computed from those items |
| OrderReview.OrderFiguresConsistent | src/pages/OrderReview.tsx:91-99 | in the record total = subtotal − discount, 0 ≤ discount ≤ subtotal, 0 ≤ total ≤ subtotal, and a non-empty valid cart has at least one item |
| OrderReview.OrderReviewScreen.constructor | src/pages/OrderReview.tsx:37-40 | the screen opens on the handed-over cart (or an empty cart), no terms, no notes, not submitting |
| OrderReview.OrderReviewScreen.UpdateQuantity | src/pages/OrderReview.tsx:42-50 | the cart becomes `Cart.UpdateQuantity` of the old cart, the invariant is kept, nothing else changes |
| OrderReview.OrderReviewScreen.RemoveItem | src/pages/OrderReview.tsx:52-54 | the cart becomes `Cart.RemoveItem` of the old cart, no longer holds the id, keeps the invariant; nothing else changes |
| OrderReview.OrderReviewScreen.SelectPaymentTerms | src/pages/OrderReview.tsx:250-253 | choosing one of the four drop-down entries sets non-empty payment terms and nothing else |
| OrderReview.OrderReviewScreen.SetOrderNotes | src/pages/OrderReview.tsx:265-268 | typing notes sets the notes and nothing else |
| OrderReview.OrderReviewScreen.HandleSubmitOrder | src/pages/OrderReview.tsx:74-86 | accepted exactly when payment terms are set; refused changes nothing and leaves the spinner off; accepted sets the spinner and captures cart, terms and notes |
| OrderReview.OrderReviewScreen.FinishSubmission | src/pages/OrderReview.tsx:87-102 | the spinner stops and the record is built from the captured cart, terms and notes with the given order id |
| OrderReview.SubmitScenario | src/pages/OrderReview.tsx:74-102 | a press of the enabled submit button (order view shown, not submitting) followed by the delayed step yields a record exactly when terms were set; the record is made from the cart, terms and notes at the press and holds at least one item |
| OrderReview.OpenReview | src/pages/OrderReview.tsx:37 | the "Review Order" hand-off followed by this screen opening: offered only for a non-empty cart, and the review screen then holds that cart, satisfies the cart invariant, shows the order rather than the empty view, and has submit enabled |
| OrderReview.SmallOrderExample | src/pages/OrderReview.tsx:56-72 | two teas at 150: subtotal 300, no discount, total 300, 2 items |
| OrderReview.DiscountedOrderExample | src/pages/OrderReview.tsx:56-72 | two teas and one rice: subtotal 750, discount 37, total 713, 3 items |
| Survey.RequiredQuestions | src/pages/Survey.tsx:72 | `slice(0, -1)`: every question but the last, in order |
| Survey.FirstUnanswered | src/pages/Survey.tsx:72 | `find` returns an unanswered question of the list, and nothing exactly when every question is answered |
| Survey.FirstUnansweredIsFirst | src/pages/Survey.tsx:72 | the question found comes no later than any unanswered question |
| Survey.CompleteIff | src/pages/Survey.tsx:71-88 | the survey can be submitted exactly when every question but the last has a non-empty answer |
| Survey.NextGuardMatchesSubmit | src/pages/Survey.tsx:184 | when every required question is multiple-choice, the survey can be submitted exactly when Next is enabled on every question before the last |
| Survey.SurveyScreen.constructor | src/pages/Survey.tsx:22-23 | the survey opens on the first question with no answers |
| Survey.SurveyScreen.Current | src/pages/Survey.tsx:90 | the question on screen is one of the survey's questions |
| Survey.SurveyScreen.HandleAnswerChange | src/pages/Survey.tsx:52-57 | the answer for that id is set to the value, every other key and the position are unchanged; a non-empty answer to the question on screen enables Next, clearing a multiple-choice one disables it, other answers leave Next as it was |
| Survey.SurveyScreen.HandleNext | src/pages/Survey.tsx:59-63 | while Next is shown (Submit is not) the index moves one forward; on the last question, where Submit replaces Next, it stays; it never passes the last question |
| Survey.SurveyScreen.HandlePrevious | src/pages/Survey.tsx:65-69 | while Previous is shown the index moves one back; on the first question, where Previous is hidden, it stays at 0 |
| Survey.SurveyScreen.HandleSubmit | src/pages/Survey.tsx:71-88 | completes exactly when every question but the last is answered; otherwise some earlier question is unanswered |
| Survey.MockSurveyNeedsFirstThree | src/pages/Survey.tsx:25-50 | with the screen's questions, submit needs answers to questions 1, 2 and 3 and nothing else, which is the same as Next being enabled on each of them |
| Survey.AnswerThenComplete | src/pages/Survey.tsx:52-88 | choosing an answer to question 3 completes a survey whose first two are answered; clearing it does not |
| Activities.PendingTasks | src/pages/Activities.tsx:118 | pending tasks are today's tasks whose id is not completed |
| Activities.PendingComplete | src/pages/Activities.tsx:118 | no task with an uncompleted id is left out of the pending list |
| Activities.PendingKeepsOrder | src/pages/Activities.tsx:118 | the pending list keeps today's order |
| Activities.NothingCompletedAllPending | src/pages/Activities.tsx:24-118 | with nothing completed every task is pending |
| Activities.CompletedCount | src/pages/Activities.tsx:134-146 | the displayed completed count plus the pending count is the number of tasks, and it counts the tasks whose id is completed |
| Activities.PendingPlusCompleted | src/pages/Activities.tsx:142-146 | every task is counted either as pending or as completed |
| Activities.CompletedAmongCount | src/pages/Activities.tsx:118 | with distinct task ids, the completed tasks are the ids present both in today's tasks and in the completed list |
| Activities.CompletedCountIsLength | src/pages/Activities.tsx:118-146 | with the screen's invariant, completed = length of the completed list and pending = tasks − completed |
| Activities.RoundRatio | src/pages/Activities.tsx:119 | `Math.round(n / d)`: the nearest integer, halves rounded up |
| Activities.CompletionRate | src/pages/Activities.tsx:119 | the rate is the completed percentage rounded to the nearest integer, lies in [0, 100], is 100 with nothing pending and 0 with nothing completed |
| Activities.RateBounds | src/pages/Activities.tsx:119 | rounding the completed share keeps the rate in [0, 100], 100 when all done, 0 when none |
| Activities.RateHundredMeansDone | src/pages/Activities.tsx:119 | with fewer than 200 tasks the rate reads 100 exactly when nothing is pending |
| Activities.MockMotivationNeedsAllDone | src/pages/Activities.tsx:269 | with today's four tasks, three done reads 75%, so the motivation card appears exactly when all four are done |
| Activities.ActivitiesScreen.constructor | src/pages/Activities.tsx:24-67 | the screen opens with nothing completed, satisfying the invariant |
| Activities.ActivitiesScreen.HandleTaskComplete | src/pages/Activities.tsx:88-90 | the id is appended at the end; earlier ids keep their order |
| Activities.ActivitiesScreen.MarkComplete | src/pages/Activities.tsx:168-195 | the button on a pending card appends that task's id, keeps the completed list duplicate-free and within today's ids, and removes exactly one task from the pending list |

## Left out

- Rendering, routing and toasts: the JSX, `navigate(...)` and `useToast` are not modelled. A handler's outcome is returned as a value instead: `accepted`, `completed`, or the hand-off `Option`.
- The 2-second `setTimeout` of the order submission is not modelled as time. It is the two steps `HandleSubmitOrder` and `FinishSubmission`.
- OrderReview.FinishSubmission: the order id `"ORD" + Date.now()` depends on the clock, so it is a parameter `orderId`.
- OrderReview.SchemeDiscount: computed as the integer `(subtotal * 5) / 100` rather than the floating-point `Math.floor(subtotal * 0.05)`. Prices are whole rupees in the catalog, but a float product that falls just below a whole number is not modelled.
- Activities.RoundRatio: `Math.round` of a floating-point quotient is modelled as exact rounding of the rational `n / d`, halves up. Float error in `(c / t) * 100` is not modelled.
- Activities.CompletionRate: requires at least one task. With none, the source computes 0/0 (NaN); the screen always has four tasks.
- Text.Lower: `toLowerCase` is modelled on ASCII letters only. The catalog strings are ASCII; Unicode case mapping is not modelled.
- Cart.LineFor: the product spread `{ ...product, quantity: 1 }` also copies `category` into the cart line. The model keeps only the `CartItem` fields (id, name, unit, price, quantity), because nothing reads a line's category.
- OrderReview.OrderReviewScreen.SelectPaymentTerms: only the four drop-down values are modelled, since the terms can be set only through the drop-down.
- The same name/category filter in `src/pages/ProductKnowledge.tsx` is `Catalog.Search` again. The title-only filter in `src/pages/HelpTraining.tsx` is not modelled separately.
- The survey progress percentage, number formatting, and the static, display-only screens (Orders, OrderDetails, Leaderboard, Home, Profile, OutletDetail, OrderConfirmation, Login, Payment, AddNote, Attendance, StockCheck, Visits) are not part of this model.
- The "Completed Today" list of pre-completed mock tasks on the activities screen is static display data and is not modelled.
