/** The in-memory store that stands in for a backend: four module-level arrays
    (users, products, cart entries, purchases) and the persisted session flag.
    Every call is one atomic step; the artificial delays are not modelled. */
module Store {
  import opened Types
  import opened Seqs
  import Catalogue
  import Accounts
  import Cart

  /** One day in milliseconds, the unit of the seeded timestamps. */
  const Day: int := 24 * 60 * 60 * 1000

  function SeedUsers(): seq<User> {
    [User("user1", "testuser@example.com", "SustainableSally", Some("https://placehold.co/100x100.png"))]
  }

  /** The seeded listings, created between one and ten days before `now`. */
  function Jacket(now: int): Product {
    Product("prod1", "Vintage Leather Jacket",
            "A stylish vintage leather jacket, barely worn. Great condition.",
            Clothing, 7500, "https://placehold.co/600x400.png", "user1", "SustainableSally", now - 1 * Day)
  }

  function Chair(now: int): Product {
    Product("prod2", "Ergonomic Office Chair",
            "Comfortable ergonomic office chair, perfect for home office setups.",
            Furniture, 12000, "https://placehold.co/600x400.png", "user2", "EcoEthan", now - 2 * Day)
  }

  function Novels(now: int): Product {
    Product("prod3", "Classic Novel Set",
            "A collection of 5 classic novels in hardcover.",
            Books, 3000, "https://placehold.co/600x400.png", "user1", "SustainableSally", now - 5 * Day)
  }

  function Headphones(now: int): Product {
    Product("prod4", "Wireless Bluetooth Headphones",
            "Noise-cancelling wireless headphones with great battery life.",
            Electronics, 5000, "https://placehold.co/600x400.png", "user3", "RecycleRita", now - 10 * Day)
  }

  function Mugs(now: int): Product {
    Product("prod5", "Handmade Ceramic Mug Set",
            "Set of 4 beautiful handmade ceramic mugs.",
            HomeGoods, 4000, "https://placehold.co/600x400.png", "user1", "SustainableSally", now - 3 * Day)
  }

  function SeedProducts(now: int): seq<Product> {
    [Jacket(now), Chair(now), Novels(now), Headphones(now), Mugs(now)]
  }

  /** Entries for the second and fourth seeded listings. */
  function SeedCart(now: int): seq<CartItem> {
    [CartItem("cart1", Chair(now), 1), CartItem("cart2", Headphones(now), 2)]
  }

  /** Purchases of the first and third seeded listings, one and two weeks ago. */
  function SeedPurchases(now: int): seq<OrderItem> {
    [ OrderItem("order1", Jacket(now), 1, now - 7 * Day),
      OrderItem("order2", Novels(now), 1, now - 14 * Day) ]
  }

  class MockStore {
    var users: seq<User>
    var products: seq<Product>
    var cart: seq<CartItem>
    var purchases: seq<OrderItem>
    /** The persisted `isLoggedIn` flag; it carries no identity. */
    var loggedIn: bool

    /** The store as the module loads it at time `now`, with whatever session flag
        the browser had persisted. */
    constructor (now: int, persistedLogin: bool)
      ensures users == SeedUsers() && products == SeedProducts(now)
      ensures cart == SeedCart(now) && purchases == SeedPurchases(now)
      ensures loggedIn == persistedLogin
    {
      users := SeedUsers();
      products := SeedProducts(now);
      cart := SeedCart(now);
      purchases := SeedPurchases(now);
      loggedIn := persistedLogin;
    }

    /** The session user: the first stored user whenever the flag is set. */
    function CurrentUser(): (r: Option<User>)
      reads this
      ensures r.Some? <==> loggedIn && |users| > 0
      ensures r.Some? ==> r.value == users[0]
    {
      Accounts.Current(users, loggedIn)
    }

    /** Sign-in by e-mail; the password is ignored. Success sets the flag. */
    method LoginUser(email: string, password: string) returns (r: Result<User>)
      modifies this`loggedIn
      ensures r == Accounts.Login(users, email)
      ensures loggedIn == (old(loggedIn) || r.Ok?)
    {
      var user := Find(users, Accounts.HasEmail(email));
      if user.Some? {
        loggedIn := true;
        return Ok(user.value);
      }
      r := Err(InvalidCredentials);
    }

    /** Sign-up appends a user numbered after the current count and sets the flag. */
    method SignupUser(email: string, username: string, password: string) returns (u: User)
      modifies this`users, this`loggedIn
      ensures Step(Ok(u), users) == Accounts.SignUp(old(users), email, username)
      ensures loggedIn
    {
      u := User(Accounts.UserId(|users| + 1), email, username, None);
      users := users + [u];
      loggedIn := true;
    }

    method LogoutUser()
      modifies this`loggedIn
      ensures !loggedIn
    {
      loggedIn := false;
    }

    /** The catalogue query over the current listings. */
    function GetProducts(filters: Catalogue.Filters): (r: seq<Product>)
      reads this
      ensures Catalogue.NewestFirst(r)
      ensures forall p :: multiset(r)[p] == if Catalogue.Selected(filters, p) then multiset(products)[p] else 0
    {
      Catalogue.QueryExact(products, filters);
      Catalogue.Query(products, filters)
    }

    /** The first listing with that id, if any. */
    function GetProductById(id: string): (r: Option<Product>)
      reads this
      ensures r.None? <==> forall j :: 0 <= j < |products| ==> products[j].id != id
      ensures r.Some? ==> r.value == products[FindIndex(products, Catalogue.HasId(id))] && r.value.id == id
    {
      Find(products, Catalogue.HasId(id))
    }

    /** A new listing for the session user goes in front of all others. */
    method CreateProduct(productData: ProductDraft, now: int) returns (r: Result<Product>)
      modifies this`products
      ensures Step(r, products) == Catalogue.Create(old(products), CurrentUser(), productData, now)
    {
      var currentUser := CurrentUser();
      if currentUser.None? {
        return Err(NotAuthenticated);
      }
      var newProduct := Catalogue.NewProduct(productData, Catalogue.ProductId(|products| + 1),
                                             currentUser.value.username, now);
      products := [newProduct] + products;
      r := Ok(newProduct);
    }

    /** Overrides the first listing with that id by the supplied fields. */
    method UpdateProduct(productId: string, productData: ProductPatch) returns (r: Result<Product>)
      modifies this`products
      ensures Step(r, products) == Catalogue.Update(old(products), productId, productData)
    {
      var productIndex := FindIndex(products, Catalogue.HasId(productId));
      if productIndex == -1 {
        return Err(ProductNotFound);
      }
      products := products[productIndex := MergeProduct(products[productIndex], productData)];
      r := Ok(products[productIndex]);
    }

    /** Splices out the first listing with that id. */
    method DeleteProduct(productId: string) returns (r: Result<()>)
      modifies this`products
      ensures Step(r, products) == Catalogue.Delete(old(products), productId)
    {
      var productIndex := FindIndex(products, Catalogue.HasId(productId));
      if productIndex == -1 {
        return Err(ProductNotFound);
      }
      products := products[..productIndex] + products[productIndex + 1..];
      r := Ok(());
    }

    /** A seller's listings, newest first. */
    function GetUserListings(userId: string): (r: seq<Product>)
      reads this
      ensures Catalogue.NewestFirst(r)
      ensures forall p :: multiset(r)[p] == if p.sellerId == userId then multiset(products)[p] else 0
    {
      Catalogue.ListingsExact(products, userId);
      Catalogue.Listings(products, userId)
    }

    /** Overrides the first user with that id by the supplied fields. */
    method UpdateUserProfile(userId: string, data: UserPatch) returns (r: Result<User>)
      modifies this`users
      ensures Step(r, users) == Accounts.UpdateProfile(old(users), userId, data)
    {
      var userIndex := FindIndex(users, Accounts.HasUserId(userId));
      if userIndex == -1 {
        return Err(UserNotFound);
      }
      users := users[userIndex := MergeUser(users[userIndex], data)];
      r := Ok(users[userIndex]);
    }

    /** The cart, whoever asks. */
    function GetCartItems(userId: string): seq<CartItem>
      reads this
    {
      cart
    }

    /** Adds `quantity` of a listing: an entry already holding it grows, otherwise
        a new entry is appended. */
    method AddToCart(userId: string, productId: string, quantity: int) returns (r: Result<CartItem>)
      modifies this`cart
      ensures Step(r, cart) == Cart.Add(products, old(cart), productId, quantity)
    {
      var product := GetProductById(productId);
      if product.None? {
        return Err(ProductNotFound);
      }
      var existingItemIndex := FindIndex(cart, Cart.HoldsProduct(productId));
      if existingItemIndex > -1 {
        var item := cart[existingItemIndex];
        cart := cart[existingItemIndex := item.(quantity := item.quantity + quantity)];
        r := Ok(cart[existingItemIndex]);
      } else {
        var newItem := CartItem(Cart.CartId(|cart| + 1), product.value, quantity);
        cart := cart + [newItem];
        r := Ok(newItem);
      }
    }

    /** Splices out the first cart entry with that id. */
    method RemoveFromCart(userId: string, cartItemId: string) returns (r: Result<()>)
      modifies this`cart
      ensures Step(r, cart) == Cart.Remove(old(cart), cartItemId)
    {
      var itemIndex := FindIndex(cart, Cart.HasItemId(cartItemId));
      if itemIndex > -1 {
        cart := cart[..itemIndex] + cart[itemIndex + 1..];
        r := Ok(());
      } else {
        r := Err(ItemNotFound);
      }
    }

    /** Sets an entry's quantity; zero or less removes the entry and still fails. */
    method UpdateCartItemQuantity(userId: string, cartItemId: string, quantity: int) returns (r: Result<CartItem>)
      modifies this`cart
      ensures Step(r, cart) == Cart.SetQuantity(old(cart), cartItemId, quantity)
    {
      var itemIndex := FindIndex(cart, Cart.HasItemId(cartItemId));
      if itemIndex > -1 {
        if quantity <= 0 {
          cart := cart[..itemIndex] + cart[itemIndex + 1..];
          return Err(QuantityNotPositive);
        }
        cart := cart[itemIndex := cart[itemIndex].(quantity := quantity)];
        r := Ok(cart[itemIndex]);
      } else {
        r := Err(ItemNotFound);
      }
    }

    /** The purchase history, whoever asks. */
    function GetPreviousPurchases(userId: string): seq<OrderItem>
      reads this
    {
      purchases
    }
  }

  /** The sign-up, list, delete walk-through as the store runs it: after signing
      up the session reports the first stored user, so a listing made through the
      session is filed under that user and shows among that user's listings
      (`mine`, taken before the deletion); deleting it restores the catalogue. */
  method SignUpListAndDelete(store: MockStore, email: string, username: string, draft: ProductDraft, now: int)
    returns (newUser: User, listed: Product, mine: seq<Product>)
    modifies store`users, store`products, store`loggedIn
    ensures store.users == old(store.users) + [newUser] && newUser.email == email
    ensures store.CurrentUser() == Some(store.users[0])
    ensures old(store.users) != [] ==> store.CurrentUser() == Some(old(store.users)[0])
    ensures listed.sellerId == store.users[0].id
    ensures listed in mine && forall p :: p in mine ==> p.sellerId == listed.sellerId
    ensures store.products == old(store.products)
  {
    newUser := store.SignupUser(email, username, "");
    var current := store.CurrentUser();
    var created := store.CreateProduct(draft.(sellerId := current.value.id), now);
    listed := created.value;
    assert store.products[0] == listed;
    mine := store.GetUserListings(current.value.id);
    assert listed in multiset(mine);
    var deleted := store.DeleteProduct(listed.id);
  }
}
