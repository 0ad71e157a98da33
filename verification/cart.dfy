/** The cart page: quantity updates and removal, the totals with a promo
    code, shipping and 20% VAT, promo-code validation, and the checkout
    sequence driven by the chaos engine. */
module Cart {
  import Text
  import Seqs
  import Chaos
  import opened Wrappers
  import opened Products

  datatype CartItem = CartItem(product: Product, quantity: int)

  // ---------------------------------------------------------------- items

  /** One item after `updateQuantity`'s map step. */
  function Requantify(item: CartItem, productId: string, quantity: int): CartItem {
    if item.product.id == productId then item.(quantity := if quantity < 0 then 0 else quantity) else item
  }

  /** The map step of `updateQuantity`, item by item. */
  function SetQuantity(items: seq<CartItem>, productId: string, quantity: int): (r: seq<CartItem>)
    ensures |r| == |items|
    ensures forall i :: 0 <= i < |r| ==> r[i] == Requantify(items[i], productId, quantity)
  {
    if |items| == 0 then [] else [Requantify(items[0], productId, quantity)] + SetQuantity(items[1..], productId, quantity)
  }

  /** The filter step of `updateQuantity`: items with a positive quantity stay. */
  predicate Kept(item: CartItem) {
    item.quantity > 0
  }

  /** Sets the quantity of the matching items to `max(0, quantity)`, then
      drops every item whose quantity is not positive. */
  function UpdateQuantity(items: seq<CartItem>, productId: string, quantity: int): (r: seq<CartItem>)
    ensures forall i :: 0 <= i < |r| ==> r[i].quantity > 0
    ensures forall x :: x in r && x.product.id != productId ==> x in items
    ensures forall x :: x in items && x.product.id != productId && x.quantity > 0 ==> x in r
    ensures forall x :: x in items && x.product.id == productId && quantity > 0 ==> x.(quantity := quantity) in r
    ensures quantity <= 0 ==> forall x :: x in r ==> x.product.id != productId
    ensures Seqs.SubseqOf(r, SetQuantity(items, productId, quantity))
  {
    var updated := SetQuantity(items, productId, quantity);
    RequantifiedIn(items, productId, quantity);
    Seqs.FilterSubseq(updated, Kept);
    Seqs.Filter(updated, Kept)
  }

  /** Every item reappears, requantified, after the map step. */
  lemma RequantifiedIn(items: seq<CartItem>, productId: string, quantity: int)
    ensures forall x :: x in items ==> Requantify(x, productId, quantity) in SetQuantity(items, productId, quantity)
  {
    var updated := SetQuantity(items, productId, quantity);
    forall x | x in items ensures Requantify(x, productId, quantity) in updated {
      var i :| 0 <= i < |items| && items[i] == x;
      assert updated[i] == Requantify(x, productId, quantity);
    }
  }

  /** The items of products other than `productId`. */
  function Without(productId: string): CartItem -> bool {
    (x: CartItem) => x.product.id != productId
  }

  /** The items of product `productId`. */
  function Only(productId: string): CartItem -> bool {
    (x: CartItem) => x.product.id == productId
  }

  /** Drops every item of the given product. */
  function RemoveItem(items: seq<CartItem>, productId: string): (r: seq<CartItem>)
    ensures forall x :: x in r <==> x in items && x.product.id != productId
    ensures Seqs.SubseqOf(r, items)
  {
    Seqs.FilterSubseq(items, Without(productId));
    Seqs.Filter(items, Without(productId))
  }

  /** Setting a quantity to zero or less is removing the product, as long as
      every item in the cart has a positive quantity. */
  lemma {:induction false} ZeroQuantityRemoves(items: seq<CartItem>, productId: string, quantity: int)
    requires quantity <= 0
    requires forall i :: 0 <= i < |items| ==> items[i].quantity > 0
    ensures UpdateQuantity(items, productId, quantity) == RemoveItem(items, productId)
  {
    if |items| > 0 {
      ZeroQuantityRemoves(items[1..], productId, quantity);
      var rest := SetQuantity(items[1..], productId, quantity);
      assert ([Requantify(items[0], productId, quantity)] + rest)[1..] == rest;
    }
  }

  // --------------------------------------------------------------- totals

  /** `item.product.price * item.quantity`. */
  function LineTotal(item: CartItem): real {
    item.product.price * item.quantity as real
  }

  /** `reduce((sum, item) => sum + price * quantity, 0)`. */
  function Subtotal(items: seq<CartItem>): real {
    if |items| == 0 then 0.0
    else LineTotal(items[0]) + Subtotal(items[1..])
  }

  /** With non-negative prices and quantities the subtotal is non-negative. */
  lemma {:induction false} SubtotalNonNegative(items: seq<CartItem>)
    requires forall i :: 0 <= i < |items| ==> items[i].product.price >= 0.0 && items[i].quantity >= 0
    ensures Subtotal(items) >= 0.0
  {
    if |items| > 0 {
      SubtotalNonNegative(items[1..]);
      var p, q := items[0].product.price, items[0].quantity as real;
      assert LineTotal(items[0]) == p * q;
      assert p * q >= 0.0;
    }
  }

  /** Removing a product lowers the subtotal by exactly that product's lines. */
  lemma {:induction false} SubtotalRemove(items: seq<CartItem>, productId: string)
    ensures Subtotal(items)
            == Subtotal(RemoveItem(items, productId))
               + Subtotal(Seqs.Filter(items, Only(productId)))
  {
    if |items| > 0 {
      SubtotalRemove(items[1..], productId);
      var k := Seqs.Filter(items[1..], Without(productId));
      var d := Seqs.Filter(items[1..], Only(productId));
      if items[0].product.id == productId {
        assert Seqs.Filter(items, Without(productId)) == k;
        assert Seqs.Filter(items, Only(productId)) == [items[0]] + d;
        assert ([items[0]] + d)[1..] == d;
        assert Subtotal([items[0]] + d) == LineTotal(items[0]) + Subtotal(d);
      } else {
        assert Seqs.Filter(items, Without(productId)) == [items[0]] + k;
        assert Seqs.Filter(items, Only(productId)) == d;
        assert ([items[0]] + k)[1..] == k;
        assert Subtotal([items[0]] + k) == LineTotal(items[0]) + Subtotal(k);
      }
    }
  }

  datatype Promo = Promo(discount: int, minAmount: int)

  /** The promo-code table, keyed by upper-case code. */
  function LookupPromo(code: string): (p: Option<Promo>)
    ensures p.Some? ==> 0 < p.value.discount <= 100 && p.value.minAmount > 0
    ensures p.Some? <==> code in {"WELCOME10", "SAVE20", "BIG50"}
  {
    if code == "WELCOME10" then Some(Promo(10, 50))
    else if code == "SAVE20" then Some(Promo(20, 100))
    else if code == "BIG50" then Some(Promo(50, 500))
    else None
  }

  /** `Math.min(subtotal * discount / 100, subtotal)` for an applied code, 0
      otherwise. */
  function PromoDiscount(subtotal: real, appliedPromo: Option<string>): (d: real)
    ensures subtotal >= 0.0 ==> 0.0 <= d <= subtotal
    ensures appliedPromo.None? ==> d == 0.0
    ensures appliedPromo.Some? && LookupPromo(appliedPromo.value).None? ==> d == 0.0
    ensures subtotal >= 0.0 && appliedPromo.Some? && LookupPromo(appliedPromo.value).Some? ==>
              d == subtotal * (LookupPromo(appliedPromo.value).value.discount as real / 100.0)
    ensures subtotal < 0.0 && appliedPromo.Some? && LookupPromo(appliedPromo.value).Some? ==> d == subtotal
  {
    if appliedPromo.Some? && appliedPromo.value != "" && LookupPromo(appliedPromo.value).Some? then
      var off := subtotal * (LookupPromo(appliedPromo.value).value.discount as real / 100.0);
      if off < subtotal then off else subtotal
    else 0.0
  }

  datatype Shipping = Standard | Express

  function ShippingCost(shipping: Shipping): real {
    match shipping
    case Express => 15.99
    case Standard => 5.99
  }

  datatype Totals = Totals(subtotal: real, discount: real, shipping: real, tax: real, total: real)

  /** The summary shown beside the cart. */
  function ComputeTotals(items: seq<CartItem>, appliedPromo: Option<string>, shippingMethod: Shipping): (t: Totals)
    ensures t.subtotal == Subtotal(items)
    ensures t.total == (t.subtotal - t.discount) * 1.2 + t.shipping
    ensures t.tax == (t.subtotal - t.discount) / 5.0
    ensures t.subtotal >= 0.0 ==> 0.0 <= t.discount <= t.subtotal && t.total >= t.shipping
    ensures t.discount == PromoDiscount(t.subtotal, appliedPromo)
    ensures t.shipping == 15.99 <==> shippingMethod == Express
    ensures t.shipping == 5.99 <==> shippingMethod == Standard
  {
    var subtotal := Subtotal(items);
    var discount := PromoDiscount(subtotal, appliedPromo);
    var shipping := ShippingCost(shippingMethod);
    var tax := (subtotal - discount) * 0.2;
    Totals(subtotal, discount, shipping, tax, subtotal - discount + shipping + tax)
  }

  // ---------------------------------------------------------------- promo

  const InvalidPromo: string := "Code promo invalide"

  function MinimumMessage(minAmount: int): string {
    "Minimum " + Text.Decimal(minAmount) + "€ requis pour ce code"
  }

  /** `handleApplyPromo`: the new applied code and the error message. */
  function ApplyPromo(promoCode: string, subtotal: real, appliedPromo: Option<string>): (r: (Option<string>, string))
    ensures LookupPromo(Text.Upper(promoCode)).None? ==> r == (appliedPromo, InvalidPromo)
    ensures LookupPromo(Text.Upper(promoCode)).Some? && subtotal < LookupPromo(Text.Upper(promoCode)).value.minAmount as real ==>
              r == (appliedPromo, MinimumMessage(LookupPromo(Text.Upper(promoCode)).value.minAmount))
    ensures r.1 == "" <==> LookupPromo(Text.Upper(promoCode)).Some?
                           && subtotal >= LookupPromo(Text.Upper(promoCode)).value.minAmount as real
    ensures r.1 == "" ==> r.0 == Some(Text.Upper(promoCode))
  {
    var code := Text.Upper(promoCode);
    match LookupPromo(code)
    case None => (appliedPromo, InvalidPromo)
    case Some(promo) =>
      if subtotal < promo.minAmount as real then (appliedPromo, MinimumMessage(promo.minAmount))
      else (Some(code), "")
  }

  /** A code that was accepted takes exactly its percentage off the subtotal,
      in whatever case it was typed. */
  lemma AcceptedPromoDiscount(promoCode: string, subtotal: real, appliedPromo: Option<string>)
    requires ApplyPromo(promoCode, subtotal, appliedPromo).1 == ""
    ensures var code := Text.Upper(promoCode);
            PromoDiscount(subtotal, ApplyPromo(promoCode, subtotal, appliedPromo).0)
              == subtotal * (LookupPromo(code).value.discount as real / 100.0)
  {
    var code := Text.Upper(promoCode);
    var promo := LookupPromo(code).value;
    assert subtotal >= promo.minAmount as real;
    var f := promo.discount as real / 100.0;
    assert 0.0 < f <= 1.0;
    assert subtotal * f <= subtotal;
  }

  /** Once applied, a code is never checked against its minimum again: a
      cart that later drops below the minimum keeps the full percentage off. */
  lemma MinimumNotRechecked(code: string, subtotal: real)
    requires LookupPromo(code).Some?
    requires 0.0 < subtotal < LookupPromo(code).value.minAmount as real
    ensures PromoDiscount(subtotal, Some(code)) == subtotal * (LookupPromo(code).value.discount as real / 100.0)
    ensures PromoDiscount(subtotal, Some(code)) > 0.0
  {
    var f := LookupPromo(code).value.discount as real / 100.0;
    assert 0.0 < f <= 1.0;
    assert subtotal * f > 0.0;
  }

  /** Typing the code in lower case is the same as typing it in upper case. */
  lemma PromoCaseInsensitive(promoCode: string, subtotal: real, appliedPromo: Option<string>)
    ensures ApplyPromo(Text.Lower(promoCode), subtotal, appliedPromo) == ApplyPromo(Text.Upper(promoCode), subtotal, appliedPromo)
  {
    assert Text.Upper(Text.Lower(promoCode)) == Text.Upper(Text.Upper(promoCode));
  }

  // ------------------------------------------------------------- checkout

  const ServerError: string := "Erreur serveur: Impossible de traiter la commande"

  /** What `handleCheckout` does: nothing on an empty cart, a failure after
      the first wait, or a confirmation after both waits (the cart is then
      emptied). */
  datatype Checkout = Ignored | Failed(message: string, first: Chaos.Wait) | Confirmed(first: Chaos.Wait, second: Chaos.Wait)

  function HandleCheckout(unit: Chaos.UnitMap, cfg: Chaos.ChaosConfig, items: seq<CartItem>): (c: Checkout)
    ensures c.Ignored? <==> |items| == 0
    ensures c.Failed? <==> |items| > 0 && cfg.enabled && Chaos.ShouldTriggerError(unit, cfg.seed, cfg.errorRate, 2)
    ensures c.Failed? ==> c.message == ServerError
    ensures !c.Ignored? ==> c.first == Chaos.SimulateNetworkDelay(unit, cfg.seed, cfg, 1)
    ensures c.Confirmed? ==> c.second == Chaos.SimulateNetworkDelay(unit, cfg.seed, cfg, 3)
  {
    if |items| == 0 then Ignored
    else
      var first := Chaos.SimulateNetworkDelay(unit, cfg.seed, cfg, 1);
      if cfg.enabled && Chaos.ShouldTriggerError(unit, cfg.seed, cfg.errorRate, 2) then Failed(ServerError, first)
      else Confirmed(first, Chaos.SimulateNetworkDelay(unit, cfg.seed, cfg, 3))
  }

  /** The cart once `handleCheckout` has settled: emptied by a confirmed
      order, kept as it was by an empty cart or a simulated server error. */
  function CartAfterCheckout(unit: Chaos.UnitMap, cfg: Chaos.ChaosConfig, items: seq<CartItem>): (r: seq<CartItem>)
    ensures |r| == 0 <==> |items| == 0 || !(cfg.enabled && Chaos.ShouldTriggerError(unit, cfg.seed, cfg.errorRate, 2))
    ensures |r| > 0 ==> r == items
  {
    match HandleCheckout(unit, cfg, items)
    case Confirmed(_, _) => []
    case _ => items
  }

  /** A checkout either keeps every line or empties the cart, and it empties
      a non-empty cart exactly when the order is confirmed. */
  lemma CheckoutKeepsOrEmpties(unit: Chaos.UnitMap, cfg: Chaos.ChaosConfig, items: seq<CartItem>)
    requires |items| > 0
    ensures CartAfterCheckout(unit, cfg, items) == [] <==> HandleCheckout(unit, cfg, items).Confirmed?
    ensures HandleCheckout(unit, cfg, items).Failed? ==> CartAfterCheckout(unit, cfg, items) == items
  {
  }

  /** With chaos off a non-empty cart always checks out, without waiting. */
  lemma CheckoutWithoutChaos(unit: Chaos.UnitMap, cfg: Chaos.ChaosConfig, items: seq<CartItem>)
    requires !cfg.enabled && |items| > 0
    ensures HandleCheckout(unit, cfg, items) == Confirmed(Chaos.NoWait, Chaos.NoWait)
  {
  }

  /** The jitter of the first wait (index 1) is drawn at index 2, the very
      draw that decides the server error. So under the chaos policy a failed
      checkout always had its first wait shortened by more than 160 ms below
      the base draw. */
  lemma FailedCheckoutSharesDraw(unit: Chaos.UnitMap, cfg: Chaos.ChaosConfig, items: seq<CartItem>)
    requires cfg.enabled && cfg.networkLatency == Chaos.ChaosLatency && cfg.errorRate == Chaos.ChaosErrorRate
    requires HandleCheckout(unit, cfg, items).Failed?
    ensures var base := Chaos.SeededRandomRange(unit, cfg.seed, 100.0, 2000.0, 1);
            var w := HandleCheckout(unit, cfg, items).first;
            w.WaitFor? && w.ms <= Chaos.Max0(base - 160.0)
  {
    var u := Chaos.SeededRandom(unit, cfg.seed, 2);
    assert u < 0.1;
    assert Chaos.JitterIndex(1) == 2;
    var jitter := Chaos.SeededRandomRange(unit, cfg.seed, -200.0, 200.0, 2);
    assert jitter == -200.0 + Chaos.Scale(u, 400.0);
    Chaos.ScaleMonotone(u, 0.1, 400.0);
  }
}
