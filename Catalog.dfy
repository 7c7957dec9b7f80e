/**
 * Two entries of the static catalog (constants.ts:4-17, 32-41), used as
 * concrete cases: a product priced by text with two sizes, and the product
 * marked as not yet orderable.
 */
module Catalog {
  import opened Wrappers
  import opened Prices
  import opened Cart

  const FaceBalm: Product :=
    Product("1", "Baume de suif pour le visage à la calendula", "Visage & Corps",
            Label("à partir de 18"), "/images/baume-visage-calendula.jpg",
            [ProductOption("15g", Amount(18.0)), ProductOption("30g", Amount(30.0))])

  const LipBalm: Product :=
    Product("3", "Baume à Lèvres", "Soin des Lèvres", Label("Bientôt disponible"),
            "/images/baume-levres.jpg", [])

  /** The lip balm is the product the not-orderable guard stops. */
  lemma LipBalmIsComingSoon()
    ensures IsComingSoon(LipBalm) && !IsComingSoon(FaceBalm)
  {
  }

  /** Adding the face balm from its card (no size chosen) to an empty cart gives
      one line at the "à partir de 18" price, 18, with no option. */
  lemma FaceBalmFromCard()
    ensures |Add([], FaceBalm, None, 1)| == 1
    ensures Add([], FaceBalm, None, 1)[0].price == Amount(18.0)
    ensures Add([], FaceBalm, None, 1)[0].selectedOption == None
  {
    ResolveStartingAt18("à partir de ", "18");
    assert "à partir de " + "18" == FaceBalm.price.text;
  }
}
