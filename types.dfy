/** The records the store keeps, the errors it raises, and the `{ ...old, ...patch }`
    merge it uses to update a record. */
module Types {

  datatype Option<+T> = None | Some(value: T)

  /** The six listing categories. */
  datatype Category = Electronics | Furniture | Clothing | Books | HomeGoods | Other

  datatype User = User(id: string, email: string, username: string, avatarUrl: Option<string>)

  /** A listing. `price` is an opaque amount in cents (the store does no arithmetic
      on it) and `createdAt` is the creation instant as an integer timestamp. */
  datatype Product = Product(
    id: string,
    title: string,
    description: string,
    category: Category,
    price: int,
    imageUrl: string,
    sellerId: string,
    sellerName: string,
    createdAt: int)

  /** A cart entry holds a snapshot of the product it was created from. */
  datatype CartItem = CartItem(id: string, product: Product, quantity: int)

  datatype OrderItem = OrderItem(id: string, product: Product, quantity: int, purchaseDate: int)

  /** What a caller hands to product creation: a product without id, seller name
      and creation time, which the store fills in. */
  datatype ProductDraft = ProductDraft(
    title: string,
    description: string,
    category: Category,
    price: int,
    imageUrl: string,
    sellerId: string)

  /** A partial product: every field that is present overrides the stored one.
      Nothing stops a patch from rewriting `id`, `sellerId` or `createdAt`. */
  datatype ProductPatch = ProductPatch(
    id: Option<string>,
    title: Option<string>,
    description: Option<string>,
    category: Option<Category>,
    price: Option<int>,
    imageUrl: Option<string>,
    sellerId: Option<string>,
    sellerName: Option<string>,
    createdAt: Option<int>)

  /** A partial user; a present `avatarUrl` sets the avatar. */
  datatype UserPatch = UserPatch(
    id: Option<string>,
    email: Option<string>,
    username: Option<string>,
    avatarUrl: Option<string>)

  /** The messages the store throws, one constructor each. */
  datatype Error =
    | NotAuthenticated      // "User not authenticated"
    | InvalidCredentials    // "Invalid credentials"
    | ProductNotFound       // "Product not found"
    | UserNotFound          // "User not found"
    | ItemNotFound          // "Item not found in cart"
    | QuantityNotPositive   // "Quantity must be positive. Item removed if zero or less."

  /** What a call returns, or the error it throws. */
  datatype Result<+T> = Ok(value: T) | Err(error: Error)

  /** One store call on one collection: its result and the collection afterwards. */
  datatype Step<+T, +E> = Step(result: Result<T>, after: seq<E>)

  function Pick<T>(o: Option<T>, stored: T): T {
    match o
    case Some(v) => v
    case None => stored
  }

  /** The patch that carries no field. */
  const NoProductChange := ProductPatch(None, None, None, None, None, None, None, None, None)
  const NoUserChange := UserPatch(None, None, None, None)

  /** `{ ...p, ...d }` for products: an empty patch changes nothing, every field
      the patch carries overrides the stored one, and every other field keeps
      its stored value. */
  function MergeProduct(p: Product, d: ProductPatch): (r: Product)
    ensures d == NoProductChange ==> r == p
    ensures && (d.id.Some? ==> r.id == d.id.value)
            && (d.title.Some? ==> r.title == d.title.value)
            && (d.description.Some? ==> r.description == d.description.value)
            && (d.category.Some? ==> r.category == d.category.value)
            && (d.price.Some? ==> r.price == d.price.value)
            && (d.imageUrl.Some? ==> r.imageUrl == d.imageUrl.value)
            && (d.sellerId.Some? ==> r.sellerId == d.sellerId.value)
            && (d.sellerName.Some? ==> r.sellerName == d.sellerName.value)
            && (d.createdAt.Some? ==> r.createdAt == d.createdAt.value)
    ensures && (d.id.None? ==> r.id == p.id)
            && (d.title.None? ==> r.title == p.title)
            && (d.description.None? ==> r.description == p.description)
            && (d.category.None? ==> r.category == p.category)
            && (d.price.None? ==> r.price == p.price)
            && (d.imageUrl.None? ==> r.imageUrl == p.imageUrl)
            && (d.sellerId.None? ==> r.sellerId == p.sellerId)
            && (d.sellerName.None? ==> r.sellerName == p.sellerName)
            && (d.createdAt.None? ==> r.createdAt == p.createdAt)
  {
    Product(
      Pick(d.id, p.id), Pick(d.title, p.title), Pick(d.description, p.description),
      Pick(d.category, p.category), Pick(d.price, p.price), Pick(d.imageUrl, p.imageUrl),
      Pick(d.sellerId, p.sellerId), Pick(d.sellerName, p.sellerName), Pick(d.createdAt, p.createdAt))
  }

  /** `{ ...u, ...d }` for users: an empty patch changes nothing, every field
      the patch carries overrides the stored one, and every other field keeps
      its stored value. */
  function MergeUser(u: User, d: UserPatch): (r: User)
    ensures d == NoUserChange ==> r == u
    ensures && (d.id.Some? ==> r.id == d.id.value)
            && (d.email.Some? ==> r.email == d.email.value)
            && (d.username.Some? ==> r.username == d.username.value)
            && (d.avatarUrl.Some? ==> r.avatarUrl == d.avatarUrl)
    ensures && (d.id.None? ==> r.id == u.id)
            && (d.email.None? ==> r.email == u.email)
            && (d.username.None? ==> r.username == u.username)
            && (d.avatarUrl.None? ==> r.avatarUrl == u.avatarUrl)
  {
    User(Pick(d.id, u.id), Pick(d.email, u.email), Pick(d.username, u.username),
         if d.avatarUrl.Some? then d.avatarUrl else u.avatarUrl)
  }
}
