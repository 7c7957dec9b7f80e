/**
 * The cart engine of the storefront component (App.tsx:44-95, 453): the three
 * updaters that React's `setCart` applies to the previous cart list, and the two
 * folds the page derives from it, the total and the item count.
 */
module Cart {
  import opened Wrappers
  import opened Arrays
  import opened Prices

  /** A purchasable variant of a product, e.g. a jar size; `name` is the source's `label`. */
  datatype ProductOption = ProductOption(name: string, price: Price)

  /** A catalog product; an absent `options` list behaves as an empty one. */
  datatype Product = Product(id: string, name: string, category: string, price: Price,
                             image: string, options: seq<ProductOption>)

  /** A cart line: the product's display fields spread into a record, plus
      the quantity, the chosen option and the unit price fixed when it was added. */
  datatype CartItem = CartItem(id: string, name: string, category: string, image: string,
                               quantity: int, selectedOption: Option<ProductOption>, price: Price)

  /** The not-orderable guard of App.tsx:45: only the product's own price is compared. */
  predicate IsComingSoon(product: Product) { product.price == Label(ComingSoon) }

  function Max(a: int, b: int): int { if a < b then b else a }

  // ---------------------------------------------------------------- add

  /** The `find` and `map` predicate of addToCart (App.tsx:48-51, 55): with no
      option, any line of that product matches, whatever option it carries. */
  predicate AddMatches(item: CartItem, id: string, option: Option<ProductOption>)
  {
    item.id == id &&
    (option.None? || (item.selectedOption.Some? && item.selectedOption.value.name == option.value.name))
  }

  /** The line appended when nothing matches (App.tsx:61-71). */
  function NewItem(product: Product, option: Option<ProductOption>, quantityToAdd: int): CartItem
  {
    var priceToUse := if option.Some? then option.value.price else product.price;
    CartItem(product.id, product.name, product.category, product.image,
             quantityToAdd, option, Amount(ResolvePrice(priceToUse)))
  }

  /** One line after a repeated add: a matching line grows by `quantityToAdd`. */
  function Bump(item: CartItem, id: string, option: Option<ProductOption>, quantityToAdd: int): CartItem
  {
    if AddMatches(item, id, option) then item.(quantity := item.quantity + quantityToAdd) else item
  }

  /** The updater of addToCart (App.tsx:47-72). */
  function Add(cart: seq<CartItem>, product: Product, option: Option<ProductOption>, quantityToAdd: int)
    : (r: seq<CartItem>)
    ensures (exists i :: 0 <= i < |cart| && AddMatches(cart[i], product.id, option)) ==>
              |r| == |cart| &&
              forall i :: 0 <= i < |cart| ==>
                r[i] == if AddMatches(cart[i], product.id, option)
                        then cart[i].(quantity := cart[i].quantity + quantityToAdd)
                        else cart[i]
    ensures (forall i :: 0 <= i < |cart| ==> !AddMatches(cart[i], product.id, option)) ==>
              |r| == |cart| + 1 && r[..|cart|] == cart &&
              r[|cart|].id == product.id && r[|cart|].name == product.name &&
              r[|cart|].category == product.category && r[|cart|].image == product.image &&
              r[|cart|].quantity == quantityToAdd &&
              r[|cart|].selectedOption == option &&
              r[|cart|].price == Amount(ResolvePrice(if option.Some? then option.value.price else product.price))
  {
    var matches := (item: CartItem) => AddMatches(item, product.id, option);
    if Find(cart, matches).Some? then
      Map(cart, (item: CartItem) => Bump(item, product.id, option, quantityToAdd))
    else
      cart + [NewItem(product, option, quantityToAdd)]
  }

  // ---------------------------------------------------------------- update

  /** The predicate of updateCartQuantity (App.tsx:78): it asks whether the LINE
      has no option, not whether a label was passed. */
  predicate UpdateMatches(item: CartItem, id: string, optionLabel: Option<string>)
  {
    item.id == id &&
    (item.selectedOption.None? || Some(item.selectedOption.value.name) == optionLabel)
  }

  function Step(item: CartItem, id: string, optionLabel: Option<string>, delta: int): CartItem
  {
    if UpdateMatches(item, id, optionLabel) then item.(quantity := Max(1, item.quantity + delta))
    else item
  }

  /** The updater of updateCartQuantity (App.tsx:77-83). */
  function Update(cart: seq<CartItem>, id: string, optionLabel: Option<string>, delta: int)
    : (r: seq<CartItem>)
    ensures |r| == |cart|
    ensures forall i :: 0 <= i < |cart| ==>
              r[i] == cart[i].(quantity := if UpdateMatches(cart[i], id, optionLabel)
                                           then Max(1, cart[i].quantity + delta)
                                           else cart[i].quantity)
  {
    Map(cart, (item: CartItem) => Step(item, id, optionLabel, delta))
  }

  // ---------------------------------------------------------------- remove

  /** The predicate of removeFromCart (App.tsx:88); an empty label is falsy in
      JavaScript and so means "no label", like an absent one. */
  predicate RemoveMatches(item: CartItem, id: string, optionLabel: Option<string>)
  {
    item.id == id &&
    (optionLabel.None? || optionLabel.value == "" ||
     (item.selectedOption.Some? && item.selectedOption.value.name == optionLabel.value))
  }

  /** The updater of removeFromCart (App.tsx:87-89). */
  function Remove(cart: seq<CartItem>, id: string, optionLabel: Option<string>): (r: seq<CartItem>)
    ensures IsSubsequence(r, cart)
    ensures forall i :: 0 <= i < |r| ==> r[i] in cart && !RemoveMatches(r[i], id, optionLabel)
    ensures forall i :: 0 <= i < |cart| && !RemoveMatches(cart[i], id, optionLabel) ==> cart[i] in r
    ensures r == cart <==> forall i :: 0 <= i < |cart| ==> !RemoveMatches(cart[i], id, optionLabel)
  {
    Filter(cart, (item: CartItem) => !RemoveMatches(item, id, optionLabel))
  }

  // ---------------------------------------------------------------- folds

  /** `typeof item.price === 'number' ? item.price : 0` (App.tsx:93). */
  function NumericPrice(p: Price): real
  {
    if p.Amount? then p.value else 0.0
  }

  /** `price * quantity` for a whole quantity, written as repeated addition so
      that the solver treats it as a linear term; TimesIsProduct below shows it
      is the product. */
  function Times(price: real, k: int): real
    decreases if k < 0 then -k else k
  {
    if k == 0 then 0.0 else if k > 0 then Times(price, k - 1) + price else Times(price, k + 1) - price
  }

  lemma {:induction false} TimesIsProduct(price: real, k: int)
    ensures Times(price, k) == price * k as real
    decreases if k < 0 then -k else k
  {
    if k > 0 {
      TimesIsProduct(price, k - 1);
    } else if k < 0 {
      TimesIsProduct(price, k + 1);
    }
  }

  /** `price * item.quantity` (App.tsx:94). */
  function LineTotal(item: CartItem): real
  {
    Times(NumericPrice(item.price), item.quantity)
  }

  /** `cartTotal`, a left fold (App.tsx:92-95). */
  function Total(cart: seq<CartItem>): real
  {
    if cart == [] then 0.0 else Total(cart[..|cart| - 1]) + LineTotal(cart[|cart| - 1])
  }

  /** The badge count, a left fold over quantities (App.tsx:453). */
  function Count(cart: seq<CartItem>): int
  {
    if cart == [] then 0 else Count(cart[..|cart| - 1]) + cart[|cart| - 1].quantity
  }

  /** How many lines an add of (`id`, `option`) would grow. */
  function MatchCount(cart: seq<CartItem>, id: string, option: Option<ProductOption>): nat
  {
    if cart == [] then 0
    else MatchCount(cart[..|cart| - 1], id, option) + if AddMatches(cart[|cart| - 1], id, option) then 1 else 0
  }

  /** The sum of the unit prices of those lines. */
  function MatchedPrice(cart: seq<CartItem>, id: string, option: Option<ProductOption>): real
  {
    if cart == [] then 0.0
    else MatchedPrice(cart[..|cart| - 1], id, option)
         + if AddMatches(cart[|cart| - 1], id, option) then NumericPrice(cart[|cart| - 1].price) else 0.0
  }

  // ---------------------------------------------------------------- invariants

  /** The identity of a line: its product and its option label, if any. */
  function KeyOf(item: CartItem): (string, Option<string>)
  {
    (item.id, if item.selectedOption.Some? then Some(item.selectedOption.value.name) else None)
  }

  ghost predicate UniqueKeys(cart: seq<CartItem>)
  {
    forall i, j :: 0 <= i < j < |cart| ==> KeyOf(cart[i]) != KeyOf(cart[j])
  }

  /** What every reachable cart satisfies: one line per key, every quantity at
      least 1, every stored price a number. */
  ghost predicate WellFormed(cart: seq<CartItem>)
  {
    UniqueKeys(cart) &&
    forall i :: 0 <= i < |cart| ==> cart[i].quantity >= 1 && cart[i].price.Amount?
  }
}
