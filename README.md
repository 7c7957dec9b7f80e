# Espace Naturaē storefront: cart engine and selection state

This project models the core of the Espace Naturaē storefront component (`App.tsx`):

- **The cart.** `addToCart`, `updateCartQuantity` and `removeFromCart` are the updaters React's `setCart` applies to the previous list of cart lines. The model writes them as pure functions over `seq<CartItem>`.
- **Derived values.** The cart total and the badge count are folds over the cart.
- **Prices.** A price is a number or a text such as "à partir de 18". A text price is cleaned down to digits and dots and then parsed. When nothing parses, the price is 0.
- **Checkout text.** The order e-mail lists one line per cart line.
- **Component state.** The component owns the cart, the panel flag, the product shown on the detail page, its active option, the quantity stepper and the glossary's active letter. Event handlers and the selection-reset effect overwrite this state. It is modelled as the class `Storefront.Shop`, whose methods call the pure functions.
- **Glossary.** The letter bar shows the distinct upper-cased initials, sorted. The letter filter keeps the entries that start with the active letter.

The modules are:

- `Wrappers`: `Option`.
- `Arrays`: JavaScript's `find`, `map` and `filter`, and the subsequence relation.
- `Prices`: the price datatype and the text-to-number conversion.
- `Cart`: the updaters, folds and cart invariant.
- `CartProperties`: the lemmas about the updaters and folds.
- `Glossary`, `OrderSummary`, `Storefront`.
- `Catalog`: two catalog products used as concrete cases.

The code is modelled as written, including where its matching is looser than a reader might expect:

- An add with no option matches every line of that product, whatever option the line carries. It then increments all of them.
- The update predicate tests whether the line has no option. It does not test whether a label was passed.
- A remove with no label, or with an empty label, removes every line of that product.

Each React state update is one atomic step from the previous state to the next.

## Model

| member | source | states |
|---|---|---|
| Arrays.Find | App.tsx:48-51 | `find` gives none exactly when no element satisfies the predicate; otherwise it gives an element of the list that satisfies it |
| Arrays.Map | App.tsx:54-58 | `map` keeps the length, and element i of the result is f applied to element i of the input |
| Arrays.Filter | App.tsx:87-89 | `filter` keeps a subsequence, in order. An element is kept iff it is in the input and satisfies the predicate. The result equals the input iff every element satisfies the predicate |
| Arrays.SubsequenceTransitive | App.tsx:87-89 | a subsequence of a subsequence is a subsequence of the original |
| Arrays.FilterIdempotent | App.tsx:87-89 | filtering twice with one predicate equals filtering once |
| Arrays.FilterCount | App.tsx:87-89 | `filter` keeps every copy of a value that satisfies the predicate and no copy of one that does not |
| Arrays.FilterKeepsEveryCopy | App.tsx:87-89 | every occurrence of a satisfying element survives the filter, as often as it appears in the input |
| Arrays.FilterFilter | App.tsx:87-89 | filtering by one predicate and then another is filtering once by both |
| Arrays.FilterCommute | App.tsx:87-89 | two filters may be applied in either order |
| Prices.KeepNumeric | App.tsx:63 | `replace(/[^0-9.]/g, '')` leaves only digits and dots, keeps every digit and dot of the input, and leaves all-numeric text unchanged |
| Prices.LeadingDigits | App.tsx:63 | the digit run that `parseFloat` reads is all digits and stops at the first non-digit |
| Prices.ParseDecimal | App.tsx:63 | `parseFloat` on the cleaned text never yields a negative number |
| Prices.ResolvePrice | App.tsx:61-70 | a numeric price is kept. A text price resolves to a value of at least 0, and to 0 when it holds no digit (NaN becomes 0) |
| Prices.FractionBounds | App.tsx:63 | the digits after the decimal point contribute a value in [0, 1) |
| Prices.NoDigitsNoNumber | App.tsx:63-70 | text without digits cleans to something `parseFloat` cannot read (NaN) |
| Prices.NoDigitsKept | App.tsx:63 | cleaning text without digits leaves only dots |
| Prices.DecimalText | App.tsx:63 | the decimal text of a whole number is a non-empty run of digits |
| Prices.DecimalTextValue | App.tsx:63 | reading the decimal text of n back as digits gives n |
| Prices.ParseDecimalText | App.tsx:63 | round trip: parsing the decimal text of n gives exactly n |
| Prices.LeadingDigitsStop | App.tsx:63 | the digit run `parseFloat` reads ends exactly where the digits end |
| Prices.ParseDigitsPoint | App.tsx:63 | digits, a point and more digits, such as "12.5" or "5.", parse to the whole part plus the fraction; anything after the fraction digits, such as a second point, is ignored |
| Prices.ParseDecimalPoint | App.tsx:63 | the decimal text of n followed by a point and digits ds parses to n plus the fraction of ds, whatever non-digit text follows |
| Prices.ParseLeadingPoint | App.tsx:63 | a point followed by at least one digit, such as ".5", parses to the fraction alone |
| Prices.StripWords | App.tsx:63 | words with no digit or point in front of a number are removed by the cleaning, which leaves the number |
| Prices.ResolveWordsThenNumber | App.tsx:61-70 | for all words without digits or points and every whole number n, the text price "words n" resolves to n |
| Prices.ResolveWordsThenDecimal | App.tsx:61-70 | for all such words, every n and all digits ds, the text price "words n.ds" resolves to n plus the fraction of ds |
| Prices.AllDigitsLeading | App.tsx:63 | on an all-digit text, the digit run read is the whole text |
| Prices.ResolveStartingAt18 | App.tsx:61-70 | the catalog price text "à partir de 18" resolves to 18, as an instance of ResolveWordsThenNumber |
| Prices.KeepNumericConcat | App.tsx:63 | cleaning distributes over concatenation |
| Prices.NothingNumericKept | App.tsx:63 | text with no digit and no dot cleans to the empty text |
| Prices.ComingSoonResolvesToZero | App.tsx:61-70 | the not-orderable label holds no number, so it would resolve to 0 |
| Cart.Add | App.tsx:47-72 | if some line matches (same id, and no option given or an equal option label), the length is kept. Each matching line grows by `quantityToAdd` and the other lines are unchanged. Otherwise exactly one line is appended after the unchanged cart. It has the product's id, name, category and image, quantity `quantityToAdd`, the given option, and the option's resolved price or else the product's |
| Cart.Update | App.tsx:76-84 | the length is kept. A line of that id with no option, or with an equal option label, gets `max(1, quantity + delta)`; its other fields are kept. Every other line is unchanged |
| Cart.Remove | App.tsx:86-90 | the result is a subsequence of the cart. It holds exactly the lines that are not (same id and (no or empty label, or equal option label)). It equals the cart iff nothing matches |
| Cart.TimesIsProduct | App.tsx:94 | the line total computed by repeated addition equals `price × quantity` |
| CartProperties.TotalAppend | App.tsx:92-95 | the total of a concatenation is the sum of the totals |
| CartProperties.CountAppend | App.tsx:453 | the count of a concatenation is the sum of the counts |
| CartProperties.CountAtLeastLines | App.tsx:453 | in a well-formed cart the badge count is at least the number of lines, and it is 0 iff the cart is empty |
| CartProperties.TotalNonNegative | App.tsx:92-95 | with positive quantities and non-negative prices, the total is at least 0 |
| CartProperties.BumpedCount | App.tsx:54-58 | incrementing the matching lines raises the count by `quantityToAdd` times the number of matching lines |
| CartProperties.BumpedTotal | App.tsx:54-58 | incrementing the matching lines raises the total by the sum of their unit prices times `quantityToAdd` |
| CartProperties.NoMatchCountsZero | App.tsx:48-53 | no line matches the add predicate iff the number of matching lines is 0 |
| CartProperties.AddCount | App.tsx:47-72 | when nothing matches, an add raises the count by `quantityToAdd`. When k lines match, it raises the count by k times `quantityToAdd` |
| CartProperties.AppendCount | App.tsx:66-71 | appending a line raises the count by its quantity |
| CartProperties.AddTotal | App.tsx:47-72 | when nothing matches, an add raises the total by the resolved price times `quantityToAdd`. Otherwise it raises the total by the matching lines' unit prices times `quantityToAdd` |
| CartProperties.AddTwiceMerges | App.tsx:47-72 | adding the same product and option twice to a cart with no match gives one new line holding the sum of the two quantities |
| CartProperties.AddKeepsWellFormed | App.tsx:47-72 | an add with a positive quantity keeps the cart invariant: one line per (id, option label), every quantity at least 1, every stored price a number |
| CartProperties.AppendKeepsWellFormed | App.tsx:66-71 | appending a line with a fresh key, a positive quantity and a numeric price keeps the invariant |
| CartProperties.CardAddGrowsEverySize | App.tsx:48-58 | adding a product from its card (no option) to a cart holding two sizes of that product increments both lines, so the count grows by 2 |
| CartProperties.UpdateAllAt | App.tsx:77-83 | after a series of updates, each line's quantity is the clamped running sum if the line matches, and is unchanged otherwise; no other field changes |
| CartProperties.ClampedSumBounds | App.tsx:79 | the clamped quantity after a series of deltas is at least the unclamped sum, and at least 1 after any update |
| CartProperties.ClampedSumOfIncrements | App.tsx:79 | with only non-negative deltas from a quantity of at least 1, the clamp never acts |
| CartProperties.UpdateKeepsWellFormed | App.tsx:77-83 | an update keeps the cart invariant, in particular every quantity stays at least 1 |
| CartProperties.RemoveIdempotent | App.tsx:87-89 | removing twice equals removing once |
| CartProperties.RemoveTwiceKeepsOrder | App.tsx:87-89 | after two removals the remaining lines are lines of the original cart in their original order |
| CartProperties.RemovesCommute | App.tsx:87-89 | the order of two removals does not matter |
| CartProperties.RemoveSplitsTotal | App.tsx:87-95 | the total and the count of the cart are those of the kept lines plus those of the removed lines |
| CartProperties.FilterKeepsKeysUnique | App.tsx:87-89 | filtering a cart with unique keys keeps the keys unique |
| CartProperties.RemoveKeepsWellFormed | App.tsx:87-89 | a remove keeps the cart invariant |
| Glossary.UpperCase | App.tsx:121-123 | an ASCII lower-case letter maps to its upper-case letter, any other character maps to itself, and the result is never an ASCII lower-case letter |
| Glossary.Initials | App.tsx:121 | element k is the upper-cased first character of entry k's name |
| Glossary.Distinct | App.tsx:121 | `Array.from(new Set(...))` holds exactly the values of the input, each once |
| Glossary.Insert | App.tsx:121 | inserting into a sorted sequence keeps it sorted and adds exactly that value |
| Glossary.HeadBelow | App.tsx:121 | the head of a sorted sequence lies below everything inserted after it |
| Glossary.SortedCons | App.tsx:121 | a value no greater than a sorted sequence's head can be put in front of it |
| Glossary.Sort | App.tsx:121 | `.sort()` gives a sorted permutation of its input |
| Glossary.InsertStrict | App.tsx:121 | inserting a new value into a strictly increasing sequence keeps it strictly increasing |
| Glossary.StrictCons | App.tsx:121 | a value below every element can be put in front of a strictly increasing sequence |
| Glossary.SortStrict | App.tsx:121 | sorting distinct values gives a strictly increasing sequence |
| Glossary.LettersAreSortedInitials | App.tsx:121 | the letter bar is strictly increasing, and a character is in it iff it is some entry's upper-cased initial |
| Glossary.FilterGlossary | App.tsx:122-124 | with no active letter, every entry is listed. With a letter, the result is a subsequence holding exactly the entries whose upper-cased initial is that letter |
| Glossary.FilterGlossaryKeepsEveryCopy | App.tsx:122-124 | an entry under the active letter is listed as many times as it appears in the glossary |
| Glossary.FilterNonEmptyIffLetter | App.tsx:121-124 | the filter for a letter lists something iff that letter is on the letter bar |
| OrderSummary.ItemLines | App.tsx:100-103 | one order line per cart line, in cart order |
| OrderSummary.Split | App.tsx:103 | splitting always yields at least one piece |
| OrderSummary.SplitWithout | App.tsx:103 | text without the separator splits into itself alone |
| OrderSummary.SplitAfter | App.tsx:103 | a separator after a piece without separators splits off exactly that piece |
| OrderSummary.SplitJoin | App.tsx:103 | round trip: splitting lines joined with a separator none of them holds gives the lines back |
| OrderSummary.LineHasNoNewline | App.tsx:102 | an order line holds no newline when the name, the option label and the number texts hold none |
| OrderSummary.ItemsListHasOneLinePerItem | App.tsx:100-103 | reading the order's item list back line by line gives exactly one line per cart line |
| OrderSummary.JoinAppend | App.tsx:103 | joining two non-empty lists puts one separator between their joined texts |
| OrderSummary.OrderBodyIsJoin | App.tsx:105 | for a non-empty cart, the order body is the greeting's lines, the item lines, an empty line, the total line and the customer-details lines, joined with newlines |
| OrderSummary.OrderBodyLines | App.tsx:97-105 | for a non-empty cart whose texts hold no newline, reading the order body line by line gives the greeting's lines, one line per cart line in cart order, an empty line, "Total : " with the amount, and the customer-details lines |
| Storefront.DefaultOption | App.tsx:30-34 | an option is chosen iff the product declares one, and then it is the first |
| Storefront.Shop.constructor | App.tsx:10-15 | initial state: an empty cart, a closed panel, no selection, no active option, no active letter, and a quantity of 1 |
| Storefront.Shop.AddToCart | App.tsx:44-74 | a not-orderable product changes neither the cart nor the panel flag. Any other product sets the cart to the add updater's result and opens the panel. The invariant is kept |
| Storefront.Shop.AddFromCard | App.tsx:158 | a card adds one unit with no option |
| Storefront.Shop.AddSelectedToCart | App.tsx:319 | the detail page adds the selected product with the active option and the stepper's quantity |
| Storefront.Shop.UpdateCartQuantity | App.tsx:76-84 | the cart becomes the update updater's result, and the invariant is kept |
| Storefront.Shop.RemoveFromCart | App.tsx:86-90 | the cart becomes the remove updater's result, and the invariant is kept |
| Storefront.Shop.SetCartOpen | App.tsx:502 | the panel flag takes the given value |
| Storefront.Shop.ViewDetails | App.tsx:27-37 | the product becomes selected. If the selection changed, the active option becomes the default option and the quantity becomes 1. Otherwise both are kept |
| Storefront.Shop.ChooseOption | App.tsx:268-271 | the chosen option of the selected product becomes active |
| Storefront.Shop.DecrementDetailQuantity | App.tsx:289 | the quantity goes down by 1, but never below 1 |
| Storefront.Shop.IncrementDetailQuantity | App.tsx:296 | the quantity goes up by exactly 1 |
| Storefront.Shop.SetActiveLetter | App.tsx:214-222 | the active letter takes the given value |
| Storefront.Shop.VisibleGlossary | App.tsx:122-124 | the listed entries are exactly the glossary filter's result, in the glossary's order: all of them with no letter, or those with the active initial |
| Storefront.SelectionResetsBetweenProducts | App.tsx:27-37 | opening one product, raising the quantity, then opening a different product with no options leaves no active option and a quantity of 1 |
| Catalog.LipBalmIsComingSoon | constants.ts:32-41 | the lip balm is the product the not-orderable guard stops, and the face balm is not |
| Catalog.FaceBalmFromCard | constants.ts:4-17 | adding the face balm from its card to an empty cart gives one line priced 18 with no option |

## Left out

- JSX rendering, view switching and the navigation bar (App.tsx:141-580): presentation only.
- `renderProductMedia` (App.tsx:126-139): HTML rewriting for display.
- `window.scrollTo` and the `mailto:` navigation (App.tsx:41, 107-108): browser side effects.
- `encodeURIComponent` of the order subject and body: a built-in that is not part of this model. The model builds the plain body text (`OrderSummary.OrderBody`).
- JavaScript's number-to-text conversion in the order text is a parameter, `show`, of `OrderSummary.ItemLine` and `OrderSummary.OrderBody`.
- The contact form state and its message (App.tsx:18-25, 111-119): field dumps with no logic.
- The `localeCompare` sort of the glossary entries in the page body (App.tsx:231): locale-dependent ordering.
- Glossary.UpperCase: upper-cases ASCII letters only, not the full Unicode case mapping, and never yields several characters for one.
- Prices.ParseDecimal: only reads the digit-and-dot text left by the cleaning step. Signs, exponents and "Infinity" cannot reach it, because the cleaning removes them. Text after a second dot is ignored, as `parseFloat` does.
- IEEE-754 rounding of prices and of `price × quantity`: prices are exact `real` values.
- React's asynchronous, batched state scheduling and the intermediate render between a selection change and its reset effect: each update is one atomic step.
- Storefront.Shop.ViewDetails: compares products by value, while React compares object references. The catalog's products are distinct values, so the two comparisons agree on them.
- Storefront.Shop.AddToCart: requires `quantityToAdd` of at least 1, the value every caller passes (App.tsx:158, 193, 319), so that the cart invariant holds. The pure `Cart.Add` takes any quantity.
- A product's description, ingredients, INCI list and `options` list are spread into a cart line by the source but never read from it, so `CartItem` does not carry them.
- Glossary entry names must be non-empty (`Glossary.NamesNonEmpty`). An empty name would make `name[0].toUpperCase()` throw.
- OrderSummary.OrderBodyLines: stated for a non-empty cart only. The checkout button appears only when the cart has lines (App.tsx:558), and with an empty cart the item block would be an empty text rather than a line.
- `constants.ts` is static data. Two of its products appear in `Catalog` as concrete cases.
