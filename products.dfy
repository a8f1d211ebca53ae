/**
 * The catalogue models: categories and products with their generated slugs, the
 * product table that `Product.save` writes, reviews with their per-product rating
 * aggregates, the `Review.clean` hook and the one-review-per-(product, user) rule.
 */
module Products {
  import opened Wrappers
  import opened Tables
  import opened Slugs
  import opened Users

  type ProductId = nat
  type CategoryId = nat

  datatype Category = Category(name: string, slug: string)

  /** `Category.save`: an empty slug is derived from the name; a set slug is never touched. */
  function SaveCategory(c: Category): (r: Category)
    ensures r.name == c.name
    ensures c.slug != "" ==> r == c
    ensures c.slug == "" ==> r.slug == Slugify(c.name) && IsSlugText(r.slug)
  {
    if c.slug == "" then c.(slug := Slugify(c.name)) else c
  }

  /**
   * A product row. `id` is `None` until the row is first written; `price` is in
   * cents (the two-decimal `DecimalField`); `stock` is a `PositiveIntegerField`.
   */
  datatype Product = Product(
    id: Option<ProductId>,
    name: string,
    slug: string,
    description: string,
    price: int,
    category: Option<CategoryId>,
    seller: UserId,
    stock: nat,
    isActive: bool)

  /**
   * The query set `Product.objects.exclude(id=self.id)`, projected on the slug column: a
   * reference definition, whose ensures only spell out membership.
   */
  function OtherSlugs(rows: map<ProductId, Product>, self: Option<ProductId>): (r: set<string>)
    ensures forall k :: k in rows && Some(k) != self ==> rows[k].slug in r
    ensures forall s :: s in r ==> exists k :: k in rows && Some(k) != self && rows[k].slug == s
  {
    set k | k in rows && Some(k) != self :: rows[k].slug
  }

  /** The slugs of the rows whose key is in `keys` (a part of the table). */
  function SlugsOfKeys(rows: map<ProductId, Product>, self: Option<ProductId>, keys: set<ProductId>): set<string>
  {
    set k | k in keys && k in rows && Some(k) != self :: rows[k].slug
  }

  /** There are no more distinct slugs among the other rows than there are rows. */
  lemma {:induction false} SlugsOfKeysBound(rows: map<ProductId, Product>, self: Option<ProductId>, keys: set<ProductId>)
    ensures |SlugsOfKeys(rows, self, keys)| <= |keys|
    decreases keys
  {
    if keys != {} {
      var x :| x in keys;
      var rest := keys - {x};
      SlugsOfKeysBound(rows, self, rest);
      var smaller := SlugsOfKeys(rows, self, rest);
      var all := SlugsOfKeys(rows, self, keys);
      if x in rows && Some(x) != self {
        assert all == smaller + {rows[x].slug};
      } else {
        assert all == smaller;
      }
    }
  }

  /** The number of distinct slugs held by other products is at most the number of rows. */
  lemma OtherSlugsBound(rows: map<ProductId, Product>, self: Option<ProductId>)
    ensures |OtherSlugs(rows, self)| <= |rows|
  {
    SlugsOfKeysBound(rows, self, rows.Keys);
    assert OtherSlugs(rows, self) == SlugsOfKeys(rows, self, rows.Keys);
  }

  /**
   * The base slug of `Product.save`: the slugified name, or, when that is empty,
   * `product-<id>` for a row whose id is truthy and plain `product` otherwise (Python's
   * `if self.id` treats an id of 0 like a missing one).
   */
  function SaveBase(p: Product): (base: string)
    ensures base != ""
    ensures Slugify(p.name) != "" ==> base == Slugify(p.name)
    ensures Slugify(p.name) == "" ==>
              base == (if p.id.Some? && p.id.value != 0 then "product-" + NatToString(p.id.value) else "product")
  {
    var slug := Slugify(p.name);
    if slug != "" then slug
    else if p.id.Some? && p.id.value != 0 then "product-" + NatToString(p.id.value)
    else "product"
  }

  /**
   * The slug `Product.save` writes for `p` against the table `rows`: the slug as given,
   * unless it is empty and the name is not; then the first candidate of `SaveBase(p)`
   * that no other row holds.
   */
  function SettledSlug(rows: map<ProductId, Product>, p: Product): (slug: string)
    ensures p.slug != "" || p.name == "" ==> slug == p.slug
    ensures p.slug == "" && p.name != "" ==>
              slug != "" && slug !in OtherSlugs(rows, p.id)
              && exists k: nat :: slug == Candidate(SaveBase(p), k)
                   && forall j :: 0 <= j < k ==> Candidate(SaveBase(p), j) in OtherSlugs(rows, p.id)
  {
    if p.slug == "" && p.name != "" then
      var base := SaveBase(p);
      var k := FirstFreeSuffix(base, OtherSlugs(rows, p.id));
      Candidate(base, k)
    else p.slug
  }

  /** `super().save()` either writes the row under `id` or hits the unique index on `slug`. */
  datatype SaveResult = Saved(id: ProductId) | IntegrityError

  /** The product table. */
  class Catalog {
    var rows: map<ProductId, Product>
    var nextId: ProductId

    /** Every row knows its own key, and the id sequence is past every key in use. */
    ghost predicate Valid()
      reads this
    {
      forall k :: k in rows ==> rows[k].id == Some(k) && k < nextId
    }

    constructor ()
      ensures Valid() && rows == map[]
    {
      rows := map[];
      nextId := 1;
    }

    /**
     * The slug `Product.save` settles on for `p`: unchanged unless the slug is empty and
     * the name is not; otherwise the first of `base`, `base-1`, `base-2`, ... that no
     * OTHER row holds, found after at most one suffix per row of the table.
     */
    method SlugOnSave(p: Product) returns (slug: string, k: nat)
      ensures p.slug != "" || p.name == "" ==> slug == p.slug
      ensures p.slug == "" && p.name != "" ==>
                slug == Candidate(SaveBase(p), k) && slug != ""
                && slug !in OtherSlugs(rows, p.id)
                && (forall j :: 0 <= j < k ==> Candidate(SaveBase(p), j) in OtherSlugs(rows, p.id))
                && k <= |rows|
      ensures slug == SettledSlug(rows, p)
    {
      slug, k := p.slug, 0;
      if p.slug == "" && p.name != "" {
        slug, k := FirstFreeSlug(SaveBase(p), OtherSlugs(rows, p.id));
        OtherSlugsBound(rows, p.id);
      }
    }

    /**
     * `Product.save`: settle the slug, then write the row (an update for a known id, an
     * insert under a fresh id otherwise). The database's unique index on `slug` is the
     * only way the write can fail, and a generated slug never trips it.
     */
    method Save(p: Product) returns (r: SaveResult)
      requires Valid()
      modifies this
      ensures Valid()
      ensures r.IntegrityError? ==> rows == old(rows)
      ensures r.Saved? && p.id.Some? ==> r.id == p.id.value
      ensures r.Saved? && p.id.None? ==> r.id !in old(rows)
      ensures r.Saved? ==>
                r.id in rows
                && rows == old(rows)[r.id := p.(id := Some(r.id), slug := rows[r.id].slug)]
                && rows[r.id].slug !in OtherSlugs(old(rows), Some(r.id))
      ensures p.slug == "" && p.name != "" ==> r.Saved? && rows[r.id].slug != ""
      ensures r.Saved? ==> rows[r.id].slug == SettledSlug(old(rows), p)
      ensures p.id.Some? && p.id.value in old(rows) ==> nextId == old(nextId)
      ensures p.slug != "" || p.name == "" ==>
                (r.Saved? <==> p.slug !in OtherSlugs(old(rows), p.id))
                && (r.Saved? ==> rows[r.id].slug == p.slug)
    {
      var slug, _ := SlugOnSave(p);
      var id := if p.id.Some? then p.id.value else nextId;
      assert OtherSlugs(rows, Some(id)) == OtherSlugs(rows, p.id);
      if slug in OtherSlugs(rows, Some(id)) {
        return IntegrityError;
      }
      rows := rows[id := p.(id := Some(id), slug := slug)];
      if id >= nextId {
        nextId := id + 1;
      }
      r := Saved(id);
    }
  }

  /**
   * A review row. The user column is modelled as optional: a row whose user
   * reference cannot be resolved is a first-class state that the aggregates filter out.
   */
  datatype Review = Review(product: ProductId, user: Option<UserId>, rating: int, comment: string)

  /** The field validators on `rating`: 1 to 5. */
  predicate ValidRating(r: Review)
  {
    1 <= r.rating <= 5
  }

  /** The query set `self.reviews.filter(user__isnull=False)`: a reference definition, not a property. */
  function RatedReviews(reviews: seq<Review>, pid: ProductId): (rs: seq<Review>)
    ensures |rs| <= |reviews|
    ensures forall r :: r in rs <==> r in reviews && r.product == pid && r.user.Some?
  {
    Filter(reviews, (r: Review) => r.product == pid && r.user.Some?)
  }

  /** The rating column of some reviews. */
  function Ratings(rs: seq<Review>): (xs: seq<int>)
    ensures |xs| == |rs|
    ensures forall i :: 0 <= i < |rs| ==> xs[i] == rs[i].rating
  {
    seq(|rs|, i requires 0 <= i < |rs| => rs[i].rating)
  }

  /** `Product.review_count`: the number of the product's reviews that have a user. */
  function ReviewCount(reviews: seq<Review>, pid: ProductId): (n: nat)
    ensures n == |RatedReviews(reviews, pid)| && n <= |reviews|
  {
    |RatedReviews(reviews, pid)|
  }

  /** `Product.average_rating`: 0 without rated reviews, their mean otherwise. */
  function AverageRating(reviews: seq<Review>, pid: ProductId): (avg: real)
    ensures ReviewCount(reviews, pid) == 0 ==> avg == 0.0
    ensures ReviewCount(reviews, pid) > 0 ==>
              avg * ReviewCount(reviews, pid) as real == Sum(Ratings(RatedReviews(reviews, pid))) as real
  {
    Mean(Ratings(RatedReviews(reviews, pid)))
  }

  /** With validated ratings, a product that has rated reviews averages between 1 and 5. */
  lemma AverageRatingInRange(reviews: seq<Review>, pid: ProductId)
    requires forall r :: r in RatedReviews(reviews, pid) ==> ValidRating(r)
    requires ReviewCount(reviews, pid) > 0
    ensures 1.0 <= AverageRating(reviews, pid) <= 5.0
  {
    var rated := RatedReviews(reviews, pid);
    var xs := Ratings(rated);
    forall i | 0 <= i < |xs| ensures 1 <= xs[i] <= 5 {
      assert rated[i] in rated;
    }
    MeanBounds(xs, 1, 5);
  }

  /** With validated ratings, the average is 0 exactly when the product has no rated review. */
  lemma AverageRatingZeroIffUnrated(reviews: seq<Review>, pid: ProductId)
    requires forall r :: r in RatedReviews(reviews, pid) ==> ValidRating(r)
    ensures AverageRating(reviews, pid) == 0.0 <==> ReviewCount(reviews, pid) == 0
  {
    if ReviewCount(reviews, pid) > 0 {
      AverageRatingInRange(reviews, pid);
    }
  }

  /** A review whose user is missing changes neither the count nor the average. */
  lemma OrphanIgnored(reviews: seq<Review>, pid: ProductId, orphan: Review)
    requires orphan.user.None?
    ensures ReviewCount(reviews + [orphan], pid) == ReviewCount(reviews, pid)
    ensures AverageRating(reviews + [orphan], pid) == AverageRating(reviews, pid)
  {
    var keep := (r: Review) => r.product == pid && r.user.Some?;
    FilterConcat(reviews, [orphan], keep);
    assert Filter([orphan], keep) == [];
    assert RatedReviews(reviews + [orphan], pid) == RatedReviews(reviews, pid);
  }

  /** The outcome of a model validation hook. */
  datatype Check = Passed | Raised(reason: string)

  /**
   * The body of the `try` block in `Review.clean`: no resolvable user, a seller account,
   * or the product's own seller each raise. `isSeller` is the user table's `is_seller`
   * column; a key that is missing from it, or from `products`, is a broken relation,
   * which raises as well.
   */
  function ReviewChecks(r: Review, isSeller: map<UserId, bool>, products: map<ProductId, Product>): (c: Check)
    ensures c == Passed <==>
              r.user.Some? && r.user.value in isSeller && !isSeller[r.user.value]
              && r.product in products && r.user.value != products[r.product].seller
  {
    if r.user.None? || r.user.value !in isSeller then Raised("Review must have a user")
    else if isSeller[r.user.value] then Raised("Sellers cannot review products")
    else if r.product !in products then Raised("Product does not exist")
    else if r.user.value == products[r.product].seller then Raised("Sellers cannot review their own products")
    else Passed
  }

  /** `Review.clean`: the blanket `except Exception` swallows whatever the checks raise. */
  function CleanReview(r: Review, isSeller: map<UserId, bool>, products: map<ProductId, Product>): (c: Check)
    ensures c == Passed
  {
    match ReviewChecks(r, isSeller, products)
    case Raised(_) => Passed
    case Passed => Passed
  }

  /** A seller's review (or a self-review) is rejected by the checks and still passes `clean`. */
  lemma SellerReviewPassesClean(r: Review, isSeller: map<UserId, bool>, products: map<ProductId, Product>)
    requires r.user.Some? && r.user.value in isSeller
    requires isSeller[r.user.value] || (r.product in products && r.user.value == products[r.product].seller)
    ensures ReviewChecks(r, isSeller, products).Raised?
    ensures CleanReview(r, isSeller, products) == Passed
  {
  }

  /** Two reviews clash on `unique_together = ['product', 'user']`; SQL NULLs never clash. */
  predicate Clash(a: Review, b: Review)
  {
    a.product == b.product && a.user.Some? && a.user == b.user
  }

  predicate UniqueReviews(rs: seq<Review>)
  {
    forall i, j :: 0 <= i < j < |rs| ==> !Clash(rs[i], rs[j])
  }

  /** The review table. */
  class ReviewTable {
    var rows: seq<Review>

    constructor ()
      ensures rows == []
    {
      rows := [];
    }

    /** Inserting a review: the unique index refuses a second review of the same product by the same user. */
    method Insert(r: Review) returns (ok: bool)
      modifies this
      ensures ok <==> forall x :: x in old(rows) ==> !Clash(x, r)
      ensures rows == if ok then old(rows) + [r] else old(rows)
      ensures UniqueReviews(old(rows)) ==> UniqueReviews(rows)
    {
      ok := forall i | 0 <= i < |rows| :: !Clash(rows[i], r);
      if ok {
        rows := rows + [r];
      }
    }
  }
}
