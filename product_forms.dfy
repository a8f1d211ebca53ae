/** The catalogue forms: the seller's product form and the buyer's review form. */
module ProductForms {
  import opened Wrappers
  import opened Users
  import opened Products

  /** The fields `ProductForm` exposes (the image upload is not modelled). */
  datatype ProductFormData = ProductFormData(
    name: string,
    description: string,
    price: int,
    category: Option<CategoryId>,
    stock: nat,
    isActive: bool)

  /**
   * Binding a valid `ProductForm` to a product: only the exposed fields change, so
   * the slug, the seller and the id can be set only by `Product.save` and the view.
   */
  function ApplyProductForm(p: Product, data: ProductFormData): (r: Product)
    ensures r.id == p.id && r.slug == p.slug && r.seller == p.seller
    ensures r.name == data.name && r.description == data.description && r.price == data.price
    ensures r.category == data.category && r.stock == data.stock && r.isActive == data.isActive
  {
    p.(name := data.name, description := data.description, price := data.price,
       category := data.category, stock := data.stock, isActive := data.isActive)
  }

  /** The rating choices offered by the review form's select widget. */
  function RatingChoices(): (r: seq<int>)
    ensures |r| == 5
    ensures forall i :: 0 <= i < |r| ==> r[i] == i + 1
    ensures forall x :: x in r <==> 1 <= x <= 5
  {
    [1, 2, 3, 4, 5]
  }

  datatype ReviewData = ReviewData(rating: int, comment: string)

  /**
   * What `ReviewForm.clean` does: returns the cleaned data, raises a validation error,
   * or (for an anonymous user, who has no `is_seller` attribute) fails with an
   * `AttributeError`.
   */
  datatype FormResult = Cleaned(data: ReviewData) | Invalid(message: string) | AttributeError

  /**
   * `ReviewForm.clean`: the role and ownership checks run only when both a user and a
   * product were handed to the form; a seller, and the product's own seller, are refused.
   */
  function CleanReviewForm(user: Option<User>, product: Option<Product>, cleaned: ReviewData): (r: FormResult)
    ensures user.None? || product.None? ==> r == Cleaned(cleaned)
    ensures user.Some? && product.Some? && user.value.Member? ==>
              (r.Invalid? <==> user.value.isSeller || user.value.id == product.value.seller)
    ensures r.Cleaned? ==> r.data == cleaned
    ensures r.AttributeError? <==> user.Some? && product.Some? && user.value.Anonymous?
  {
    if user.Some? && product.Some? then
      match user.value
      case Anonymous => AttributeError
      case Member(id, isSeller) =>
        if isSeller then Invalid("Sellers cannot leave reviews")
        else if id == product.value.seller then Invalid("You cannot review your own products")
        else Cleaned(cleaned)
    else Cleaned(cleaned)
  }
}
