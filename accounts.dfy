/**
 * The seller profile: its store slug, assigned on save, and the four aggregates the
 * seller pages show (average rating, review count, active products, paid orders).
 */
module Accounts {
  import opened Tables
  import opened Slugs
  import opened Users
  import opened Products
  import opened OrderModels

  /** The columns of a seller profile that the model needs; contact and social fields are free text. */
  datatype SellerProfile = SellerProfile(user: UserId, storeName: string, storeSlug: string, isActive: bool)

  /**
   * `SellerProfile.save`: an empty store slug becomes the slug of the store name, once,
   * with no numeric suffix; a slug that is already set is kept as it is.
   */
  function SaveProfile(p: SellerProfile): (r: SellerProfile)
    ensures r.user == p.user && r.storeName == p.storeName && r.isActive == p.isActive
    ensures p.storeSlug != "" ==> r.storeSlug == p.storeSlug
    ensures p.storeSlug == "" ==> r.storeSlug == Slugify(p.storeName) && IsSlugText(r.storeSlug)
  {
    if p.storeSlug == "" then p.(storeSlug := Slugify(p.storeName)) else p
  }

  /** Two profiles clash on one of the unique columns: the user (one-to-one), the store name or the store slug. */
  predicate ProfileClash(a: SellerProfile, b: SellerProfile)
  {
    a.user == b.user || a.storeName == b.storeName || a.storeSlug == b.storeSlug
  }

  predicate UniqueProfiles(rs: seq<SellerProfile>)
  {
    forall i, j :: 0 <= i < j < |rs| ==> !ProfileClash(rs[i], rs[j])
  }

  /** The unique indexes let `p` in: its saved form clashes with no existing row. */
  predicate CreateAccepts(rows: seq<SellerProfile>, p: SellerProfile)
  {
    forall x :: x in rows ==> !ProfileClash(x, SaveProfile(p))
  }

  /**
   * Two stores whose names slugify alike cannot both be created with a generated slug:
   * whatever the table held, once the first is in, the second is refused, because
   * without a suffix loop its slug hits the slug's unique index.
   */
  lemma GeneratedSlugsCollide(rows: seq<SellerProfile>, a: SellerProfile, b: SellerProfile)
    requires a.storeSlug == "" && b.storeSlug == ""
    requires Slugify(a.storeName) == Slugify(b.storeName)
    ensures !CreateAccepts(rows + [SaveProfile(a)], b)
  {
    var table := rows + [SaveProfile(a)];
    assert table[|rows|] == SaveProfile(a);
    assert ProfileClash(table[|rows|], SaveProfile(b));
  }

  /** A profile that clashes with no existing row keeps the table free of clashes. */
  lemma AppendKeepsUnique(rs: seq<SellerProfile>, saved: SellerProfile)
    requires UniqueProfiles(rs)
    requires forall i :: 0 <= i < |rs| ==> !ProfileClash(rs[i], saved)
    ensures UniqueProfiles(rs + [saved])
  {
    var rs' := rs + [saved];
    forall i, j | 0 <= i < j < |rs'| ensures !ProfileClash(rs'[i], rs'[j]) {
      assert rs'[i] == rs[i];
    }
  }

  /** The seller profile table. */
  class ProfileTable {
    var rows: seq<SellerProfile>

    constructor ()
      ensures rows == []
    {
      rows := [];
    }

    /**
     * Creating a profile: `save` fills in the slug, then the unique indexes refuse a row
     * that repeats an existing user, store name or store slug.
     */
    method Create(p: SellerProfile) returns (ok: bool)
      modifies this
      ensures ok <==> CreateAccepts(old(rows), p)
      ensures rows == if ok then old(rows) + [SaveProfile(p)] else old(rows)
      ensures UniqueProfiles(old(rows)) ==> UniqueProfiles(rows)
    {
      var saved := SaveProfile(p);
      ok := forall i | 0 <= i < |rows| :: !ProfileClash(rows[i], saved);
      if ok {
        if UniqueProfiles(rows) {
          AppendKeepsUnique(rows, saved);
        }
        rows := rows + [saved];
      } else {
        var i :| 0 <= i < |rows| && ProfileClash(rows[i], saved);
        assert rows[i] in rows;
      }
    }
  }

  /** The product of this review belongs to the seller. */
  predicate OfSeller(r: Review, products: map<ProductId, Product>, seller: UserId)
  {
    r.product in products && products[r.product].seller == seller
  }

  /** `Review.objects.filter(product__seller=...)`: every review of the seller's products, with or without a user. */
  function SellerReviews(reviews: seq<Review>, products: map<ProductId, Product>, seller: UserId): (rs: seq<Review>)
    ensures forall r :: r in rs <==> r in reviews && OfSeller(r, products, seller)
  {
    Filter(reviews, (r: Review) => OfSeller(r, products, seller))
  }

  /** `SellerProfile.total_reviews`. */
  function TotalReviews(reviews: seq<Review>, products: map<ProductId, Product>, seller: UserId): (n: nat)
    ensures n == |SellerReviews(reviews, products, seller)| && n <= |reviews|
  {
    |SellerReviews(reviews, products, seller)|
  }

  /** `SellerProfile.average_rating`: 0 without reviews, else the mean over all reviews of all the seller's products. */
  function SellerAverageRating(reviews: seq<Review>, products: map<ProductId, Product>, seller: UserId): (avg: real)
    ensures TotalReviews(reviews, products, seller) == 0 ==> avg == 0.0
    ensures TotalReviews(reviews, products, seller) > 0 ==>
              avg * TotalReviews(reviews, products, seller) as real
              == Sum(Ratings(SellerReviews(reviews, products, seller))) as real
  {
    Mean(Ratings(SellerReviews(reviews, products, seller)))
  }

  /** With validated ratings, a reviewed seller averages between 1 and 5. */
  lemma SellerAverageInRange(reviews: seq<Review>, products: map<ProductId, Product>, seller: UserId)
    requires forall r :: r in SellerReviews(reviews, products, seller) ==> ValidRating(r)
    requires TotalReviews(reviews, products, seller) > 0
    ensures 1.0 <= SellerAverageRating(reviews, products, seller) <= 5.0
  {
    var rs := SellerReviews(reviews, products, seller);
    var xs := Ratings(rs);
    forall i | 0 <= i < |xs| ensures 1 <= xs[i] <= 5 {
      assert rs[i] in rs;
    }
    MeanBounds(xs, 1, 5);
  }

  /** The average is positive exactly when the count is: both range over the same reviews. */
  lemma SellerAveragePositiveIffReviewed(reviews: seq<Review>, products: map<ProductId, Product>, seller: UserId)
    requires forall r :: r in SellerReviews(reviews, products, seller) ==> ValidRating(r)
    ensures SellerAverageRating(reviews, products, seller) > 0.0 <==> TotalReviews(reviews, products, seller) > 0
  {
    if TotalReviews(reviews, products, seller) > 0 {
      SellerAverageInRange(reviews, products, seller);
    }
  }

  /**
   * Unlike the product aggregates, the seller aggregates keep reviews without a user:
   * such a review of one of the seller's products is counted.
   */
  lemma OrphanCountedForSeller(reviews: seq<Review>, products: map<ProductId, Product>, seller: UserId, orphan: Review)
    requires orphan.user.None? && OfSeller(orphan, products, seller)
    ensures TotalReviews(reviews + [orphan], products, seller) == TotalReviews(reviews, products, seller) + 1
    ensures ReviewCount(reviews + [orphan], orphan.product) == ReviewCount(reviews, orphan.product)
  {
    var keep := (r: Review) => OfSeller(r, products, seller);
    FilterConcat(reviews, [orphan], keep);
    assert Filter([orphan], keep) == [orphan];
    OrphanIgnored(reviews, orphan.product, orphan);
  }

  /**
   * The query set `self.user.products.filter(is_active=True)`, as a set of ids: a reference
   * definition, whose ensures only spell out membership; the promises about it are the lemmas below.
   */
  function ActiveProducts(products: map<ProductId, Product>, seller: UserId): (r: set<ProductId>)
    ensures forall k :: k in r <==> k in products && products[k].seller == seller && products[k].isActive
  {
    set k | k in products && products[k].seller == seller && products[k].isActive
  }

  /** All the seller's products, active or not. */
  function SellerProducts(products: map<ProductId, Product>, seller: UserId): (r: set<ProductId>)
    ensures forall k :: k in r <==> k in products && products[k].seller == seller
  {
    set k | k in products && products[k].seller == seller
  }

  /** `SellerProfile.total_products`: inactive products are not counted. */
  function TotalProducts(products: map<ProductId, Product>, seller: UserId): (n: nat)
    ensures n == |ActiveProducts(products, seller)| && n <= |SellerProducts(products, seller)|
  {
    SubsetCard(ActiveProducts(products, seller), SellerProducts(products, seller));
    |ActiveProducts(products, seller)|
  }

  /** Deactivating one of the seller's active products lowers `total_products` by exactly one. */
  lemma DeactivateLowersTotal(products: map<ProductId, Product>, seller: UserId, k: ProductId)
    requires k in products && products[k].seller == seller && products[k].isActive
    ensures TotalProducts(products[k := products[k].(isActive := false)], seller) == TotalProducts(products, seller) - 1
  {
    var after := products[k := products[k].(isActive := false)];
    assert ActiveProducts(after, seller) == ActiveProducts(products, seller) - {k};
  }

  /** The item is a line for one of the seller's products. */
  predicate SellsItem(it: OrderItem, products: map<ProductId, Product>, seller: UserId)
  {
    it.product in products && products[it.product].seller == seller
  }

  /** The order the item belongs to exists and is paid. */
  predicate PaidLine(it: OrderItem, orders: seq<Order>)
  {
    it.order < |orders| && orders[it.order].status == Paid
  }

  /** `Order.objects.filter(items__product__seller=..., status='paid').distinct()`. */
  function SoldOrders(orders: seq<Order>, items: seq<OrderItem>, products: map<ProductId, Product>, seller: UserId): (r: set<OrderId>)
    ensures forall o :: o in r ==> o < |orders| && orders[o].status == Paid
    ensures forall i :: 0 <= i < |items| && PaidLine(items[i], orders) && SellsItem(items[i], products, seller) ==>
              items[i].order in r
    ensures forall o :: o in r ==> exists i :: 0 <= i < |items| && items[i].order == o && SellsItem(items[i], products, seller)
  {
    set i | 0 <= i < |items| && PaidLine(items[i], orders) && SellsItem(items[i], products, seller) :: items[i].order
  }

  /** `SellerProfile.total_sales`: the number of distinct paid orders holding a line of the seller's. */
  function TotalSales(orders: seq<Order>, items: seq<OrderItem>, products: map<ProductId, Product>, seller: UserId): (n: nat)
    ensures n == |SoldOrders(orders, items, products, seller)|
    ensures (forall i :: 0 <= i < |items| ==> !(PaidLine(items[i], orders) && SellsItem(items[i], products, seller))) ==> n == 0
  {
    |SoldOrders(orders, items, products, seller)|
  }

  /** The ids of the paid orders. */
  function PaidOrders(orders: seq<Order>): (r: set<OrderId>)
    ensures forall o :: o in r <==> 0 <= o < |orders| && orders[o].status == Paid
  {
    set o | 0 <= o < |orders| && orders[o].status == Paid
  }

  /** Only paid orders are counted, each at most once. */
  lemma TotalSalesBound(orders: seq<Order>, items: seq<OrderItem>, products: map<ProductId, Product>, seller: UserId)
    ensures TotalSales(orders, items, products, seller) <= |PaidOrders(orders)|
  {
    SubsetCard(SoldOrders(orders, items, products, seller), PaidOrders(orders));
  }

  /** A further line of the seller's in an order that is already counted leaves `total_sales` alone. */
  lemma SecondLineCountsOnce(orders: seq<Order>, items: seq<OrderItem>, products: map<ProductId, Product>, seller: UserId, it: OrderItem)
    requires it.order in SoldOrders(orders, items, products, seller)
    ensures TotalSales(orders, items + [it], products, seller) == TotalSales(orders, items, products, seller)
  {
    var before := SoldOrders(orders, items, products, seller);
    var after := SoldOrders(orders, items + [it], products, seller);
    forall o | o in after ensures o in before {
      var i :| 0 <= i < |items + [it]| && (items + [it])[i].order == o && SellsItem((items + [it])[i], products, seller);
      if i < |items| {
        assert (items + [it])[i] == items[i];
      }
    }
    forall o | o in before ensures o in after {
      var i :| 0 <= i < |items| && items[i].order == o && SellsItem(items[i], products, seller);
      assert (items + [it])[i] == items[i];
    }
    assert after == before;
  }

  /**
   * Paying a pending order that holds a line of the seller's adds exactly one sale;
   * while it was pending it was not counted.
   */
  lemma PayingAddsOneSale(orders: seq<Order>, items: seq<OrderItem>, products: map<ProductId, Product>, seller: UserId, o: OrderId, k: nat)
    requires o < |orders| && orders[o].status == Pending
    requires k < |items| && items[k].order == o && SellsItem(items[k], products, seller)
    ensures o !in SoldOrders(orders, items, products, seller)
    ensures TotalSales(orders[o := orders[o].(status := Paid)], items, products, seller)
            == TotalSales(orders, items, products, seller) + 1
  {
    var paid := orders[o := orders[o].(status := Paid)];
    var before := SoldOrders(orders, items, products, seller);
    var after := SoldOrders(paid, items, products, seller);
    forall x | x in after ensures x in before + {o} {
      if x != o {
        var i :| 0 <= i < |items| && items[i].order == x && SellsItem(items[i], products, seller);
        assert PaidLine(items[i], orders);
      }
    }
    forall x | x in before + {o} ensures x in after {
      if x == o {
        assert PaidLine(items[k], paid);
      } else {
        var i :| 0 <= i < |items| && items[i].order == x && SellsItem(items[i], products, seller);
        assert PaidLine(items[i], paid);
      }
    }
    assert after == before + {o};
  }

  /** Shipping a paid order takes it out of `total_sales`: only the status `paid` counts. */
  lemma ShippingRemovesSale(orders: seq<Order>, items: seq<OrderItem>, products: map<ProductId, Product>, seller: UserId, o: OrderId)
    requires o in SoldOrders(orders, items, products, seller)
    ensures TotalSales(orders[o := orders[o].(status := Shipped)], items, products, seller)
            == TotalSales(orders, items, products, seller) - 1
  {
    var shipped := orders[o := orders[o].(status := Shipped)];
    var before := SoldOrders(orders, items, products, seller);
    var after := SoldOrders(shipped, items, products, seller);
    forall x | x in after ensures x in before - {o} {
      var i :| 0 <= i < |items| && items[i].order == x && SellsItem(items[i], products, seller);
      assert PaidLine(items[i], orders);
    }
    forall x | x in before - {o} ensures x in after {
      var i :| 0 <= i < |items| && items[i].order == x && SellsItem(items[i], products, seller);
      assert PaidLine(items[i], shipped);
    }
    assert after == before - {o};
  }
}
