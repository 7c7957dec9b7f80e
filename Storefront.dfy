/**
 * The state the storefront component owns (App.tsx:10-15) and the handlers
 * that overwrite it: the cart and its panel flag, the product detail selection
 * with its option and quantity stepper, and the glossary's active letter.
 * Each React state update is one atomic step on the previous state.
 */
module Storefront {
  import opened Wrappers
  import opened Prices
  import opened Cart
  import opened CartProperties
  import opened Glossary

  /** The option made active when a product is opened (App.tsx:30-34). */
  function DefaultOption(product: Product): (r: Option<ProductOption>)
    ensures r.Some? <==> |product.options| > 0
    ensures r.Some? ==> r.value == product.options[0]
  {
    if |product.options| > 0 then Some(product.options[0]) else None
  }

  class Shop {
    var cart: seq<CartItem>
    var isCartOpen: bool
    var selectedProduct: Option<Product>
    var activeOption: Option<ProductOption>
    var activeLetter: Option<char>
    var detailQuantity: int

    /** The cart is well formed, the stepper never shows less than 1, and the
        active option, if any, is one the selected product offers. */
    ghost predicate Valid()
      reads this
    {
      WellFormed(cart) && detailQuantity >= 1 &&
      (selectedProduct.None? ==> activeOption.None?) &&
      (selectedProduct.Some? && activeOption.Some? ==> activeOption.value in selectedProduct.value.options)
    }

    /** The initial `useState` values (App.tsx:10-15). */
    constructor ()
      ensures Valid()
      ensures cart == [] && !isCartOpen && selectedProduct == None && activeOption == None
      ensures activeLetter == None && detailQuantity == 1
    {
      cart := [];
      isCartOpen := false;
      selectedProduct := None;
      activeOption := None;
      activeLetter := None;
      detailQuantity := 1;
    }

    /** addToCart (App.tsx:44-74): a not-orderable product changes nothing;
        otherwise the cart takes the add updater and the panel opens. */
    method AddToCart(product: Product, option: Option<ProductOption>, quantityToAdd: int)
      requires Valid() && quantityToAdd >= 1
      modifies `cart, `isCartOpen
      ensures Valid()
      ensures IsComingSoon(product) ==> cart == old(cart) && isCartOpen == old(isCartOpen)
      ensures !IsComingSoon(product) ==> cart == Add(old(cart), product, option, quantityToAdd) && isCartOpen
    {
      if IsComingSoon(product) {
        return;
      }
      AddKeepsWellFormed(cart, product, option, quantityToAdd);
      cart := Add(cart, product, option, quantityToAdd);
      isCartOpen := true;
    }

    /** The product card's button (App.tsx:158, 193): one unit, no option. */
    method AddFromCard(product: Product)
      requires Valid()
      modifies `cart, `isCartOpen
      ensures Valid()
      ensures IsComingSoon(product) ==> cart == old(cart) && isCartOpen == old(isCartOpen)
      ensures !IsComingSoon(product) ==> cart == Add(old(cart), product, None, 1) && isCartOpen
    {
      AddToCart(product, None, 1);
    }

    /** The detail page's button (App.tsx:319): the selected product with the
        active option and the stepper's quantity. */
    method AddSelectedToCart()
      requires Valid() && selectedProduct.Some?
      modifies `cart, `isCartOpen
      ensures Valid()
      ensures IsComingSoon(selectedProduct.value) ==> cart == old(cart) && isCartOpen == old(isCartOpen)
      ensures !IsComingSoon(selectedProduct.value) ==>
                cart == Add(old(cart), selectedProduct.value, activeOption, detailQuantity) && isCartOpen
    {
      AddToCart(selectedProduct.value, activeOption, detailQuantity);
    }

    /** updateCartQuantity (App.tsx:76-84). */
    method UpdateCartQuantity(id: string, optionLabel: Option<string>, delta: int)
      requires Valid()
      modifies `cart
      ensures Valid()
      ensures cart == Update(old(cart), id, optionLabel, delta)
    {
      UpdateKeepsWellFormed(cart, id, optionLabel, delta);
      cart := Update(cart, id, optionLabel, delta);
    }

    /** removeFromCart (App.tsx:86-90). */
    method RemoveFromCart(id: string, optionLabel: Option<string>)
      requires Valid()
      modifies `cart
      ensures Valid()
      ensures cart == Remove(old(cart), id, optionLabel)
    {
      RemoveKeepsWellFormed(cart, id, optionLabel);
      cart := Remove(cart, id, optionLabel);
    }

    /** The cart badge and the panel's close controls (App.tsx:454, 502, 508). */
    method SetCartOpen(open: bool)
      modifies `isCartOpen
      ensures isCartOpen == open
    {
      isCartOpen := open;
    }

    /** Opening a product's page (App.tsx:159, 194) and the reset effect it
        triggers (App.tsx:28-37). The effect runs only when the selection
        actually changes, so re-opening the product already shown keeps the
        option and quantity chosen. */
    method ViewDetails(product: Product)
      requires Valid()
      modifies `selectedProduct, `activeOption, `detailQuantity
      ensures Valid()
      ensures selectedProduct == Some(product)
      ensures old(selectedProduct) != Some(product) ==>
                activeOption == DefaultOption(product) && detailQuantity == 1
      ensures old(selectedProduct) == Some(product) ==>
                activeOption == old(activeOption) && detailQuantity == old(detailQuantity)
    {
      var changed := selectedProduct != Some(product);
      selectedProduct := Some(product);
      if changed {
        activeOption := DefaultOption(product);
        detailQuantity := 1;
      }
    }

    /** An option button of the detail page (App.tsx:268-271). */
    method ChooseOption(option: ProductOption)
      requires Valid() && selectedProduct.Some? && option in selectedProduct.value.options
      modifies `activeOption
      ensures Valid()
      ensures activeOption == Some(option)
    {
      activeOption := Some(option);
    }

    /** The stepper's minus button (App.tsx:289): never below 1. */
    method DecrementDetailQuantity()
      requires Valid()
      modifies `detailQuantity
      ensures Valid()
      ensures detailQuantity >= 1
      ensures detailQuantity == if old(detailQuantity) > 1 then old(detailQuantity) - 1 else 1
    {
      detailQuantity := Max(1, detailQuantity - 1);
    }

    /** The stepper's plus button (App.tsx:296): no ceiling. */
    method IncrementDetailQuantity()
      requires Valid()
      modifies `detailQuantity
      ensures Valid()
      ensures detailQuantity == old(detailQuantity) + 1
    {
      detailQuantity := detailQuantity + 1;
    }

    /** The glossary's "all" button and letter buttons (App.tsx:214, 222). */
    method SetActiveLetter(letter: Option<char>)
      modifies `activeLetter
      ensures activeLetter == letter
    {
      activeLetter := letter;
    }

    /** The entries the glossary page lists under the current letter (App.tsx:122-124). */
    method VisibleGlossary(items: seq<GlossaryItem>) returns (visible: seq<GlossaryItem>)
      requires NamesNonEmpty(items)
      ensures visible == FilterGlossary(items, activeLetter)
      ensures activeLetter.None? ==> visible == items
      ensures activeLetter.Some? ==>
                forall k :: 0 <= k < |visible| ==> visible[k] in items && Initial(visible[k]) == activeLetter.value
      ensures activeLetter.Some? ==>
                forall k :: 0 <= k < |items| && Initial(items[k]) == activeLetter.value ==> items[k] in visible
    {
      visible := FilterGlossary(items, activeLetter);
    }
  }

  /** Opening product A and then a different product B without options leaves no
      active option and a quantity of 1, whatever the stepper showed before. */
  method SelectionResetsBetweenProducts(shop: Shop, a: Product, b: Product)
    requires shop.Valid() && a != b && |b.options| == 0
    modifies shop
    ensures shop.Valid()
    ensures shop.selectedProduct == Some(b) && shop.activeOption == None && shop.detailQuantity == 1
  {
    shop.ViewDetails(a);
    shop.IncrementDetailQuantity();
    shop.ViewDetails(b);
  }
}
