/** The product catalogue: the listing queries (filter, search, newest first) and
    what creating, updating and deleting a listing does to the product sequence. */
module Catalogue {
  import opened Types
  import opened Text
  import opened Seqs

  /** The generated product id `prod{n}`. */
  function ProductId(n: nat): (r: string)
    ensures |r| > 4 && r[..4] == "prod" && DecimalValue(r[4..]) == n
  {
    Prefixed("prod", n)
  }

  /** Generated product ids are equal exactly when the numbers are. */
  lemma ProductIdInjective(a: nat, b: nat)
    ensures ProductId(a) == ProductId(b) <==> a == b
  {
    PrefixedInjective("prod", a, b);
  }

  function HasId(id: string): Product -> bool { (p: Product) => p.id == id }
  function InCategory(c: Category): Product -> bool { (p: Product) => p.category == c }
  function SoldBy(sellerId: string): Product -> bool { (p: Product) => p.sellerId == sellerId }
  function CreatedAt(t: int): Product -> bool { (p: Product) => p.createdAt == t }

  /** The title search: the lower-cased title contains the lower-cased term. */
  function TitleMatches(term: string): Product -> bool {
    (p: Product) => Includes(Lower(p.title), Lower(term))
  }

  /** The optional filters of a catalogue query. */
  datatype Filters = Filters(category: Option<Category>, searchTerm: Option<string>)

  /** The reference meaning of the filters: the category is the requested one, and
      the lower-cased search term occurs somewhere in the lower-cased title. */
  ghost predicate Selected(f: Filters, p: Product) {
    && (f.category.Some? ==> p.category == f.category.value)
    && (f.searchTerm.Some? ==> exists i :: OccursAt(Lower(p.title), Lower(f.searchTerm.value), i))
  }

  /** Ordered by creation time, newest first. */
  ghost predicate NewestFirst(s: seq<Product>) {
    forall i, j :: 0 <= i < j < |s| ==> s[i].createdAt >= s[j].createdAt
  }

  /** Places `x` before the first element that is not newer than it. */
  function Insert(x: Product, t: seq<Product>): seq<Product> {
    if t == [] || t[0].createdAt <= x.createdAt then [x] + t
    else [t[0]] + Insert(x, t[1..])
  }

  /** Insertion adds exactly `x`. */
  lemma {:induction false} InsertPermutes(x: Product, t: seq<Product>)
    ensures multiset(Insert(x, t)) == multiset(t) + multiset{x}
    decreases |t|
  {
    if t != [] && t[0].createdAt > x.createdAt {
      InsertPermutes(x, t[1..]);
      assert t == [t[0]] + t[1..];
    }
  }

  /** Insertion keeps every creation time under a common bound. */
  lemma {:induction false} InsertBelow(x: Product, t: seq<Product>, bound: int)
    requires x.createdAt <= bound
    requires forall j :: 0 <= j < |t| ==> t[j].createdAt <= bound
    ensures forall j :: 0 <= j < |Insert(x, t)| ==> Insert(x, t)[j].createdAt <= bound
    decreases |t|
  {
    if t != [] && t[0].createdAt > x.createdAt {
      InsertBelow(x, t[1..], bound);
    }
  }

  /** Insertion keeps a newest-first sequence newest first. */
  lemma {:induction false} InsertNewestFirst(x: Product, t: seq<Product>)
    requires NewestFirst(t)
    ensures NewestFirst(Insert(x, t))
    decreases |t|
  {
    if t != [] && t[0].createdAt > x.createdAt {
      var tail := t[1..];
      assert NewestFirst(tail) by {
        forall i, j | 0 <= i < j < |tail| ensures tail[i].createdAt >= tail[j].createdAt {
          assert tail[i] == t[i + 1] && tail[j] == t[j + 1];
        }
      }
      InsertNewestFirst(x, tail);
      assert forall j :: 0 <= j < |tail| ==> tail[j] == t[j + 1];
      InsertBelow(x, tail, t[0].createdAt);
      var rest := Insert(x, tail);
      var r := [t[0]] + rest;
      forall i, j | 0 <= i < j < |r| ensures r[i].createdAt >= r[j].createdAt {
        assert r[j] == rest[j - 1];
        if i > 0 {
          assert r[i] == rest[i - 1];
        }
      }
    }
  }

  /** The comparator sort `(a, b) => b.createdAt - a.createdAt`; like the engine's
      sort it is stable, which `SortStable` states. */
  function SortNewestFirst(s: seq<Product>): (r: seq<Product>)
    ensures multiset(r) == multiset(s)
    ensures NewestFirst(r)
  {
    if s == [] then []
    else
      assert s == [s[0]] + s[1..];
      InsertPermutes(s[0], SortNewestFirst(s[1..]));
      InsertNewestFirst(s[0], SortNewestFirst(s[1..]));
      Insert(s[0], SortNewestFirst(s[1..]))
  }

  /** The sort neither invents nor drops a product. */
  lemma SortKeepsMembers(s: seq<Product>)
    ensures forall x :: x in SortNewestFirst(s) <==> x in s
  {
    forall x ensures x in SortNewestFirst(s) <==> x in s {
      assert x in SortNewestFirst(s) <==> x in multiset(SortNewestFirst(s));
      assert x in s <==> x in multiset(s);
    }
  }

  lemma {:induction false} InsertKeepsTies(x: Product, t: seq<Product>, k: int)
    ensures Filter(Insert(x, t), CreatedAt(k)) == (if x.createdAt == k then [x] else []) + Filter(t, CreatedAt(k))
    decreases |t|
  {
    if t == [] || t[0].createdAt <= x.createdAt {
      assert ([x] + t)[1..] == t;
    } else {
      assert ([t[0]] + Insert(x, t[1..]))[1..] == Insert(x, t[1..]);
      InsertKeepsTies(x, t[1..], k);
    }
  }

  /** Stability: listings created at the same instant keep their store order. */
  lemma {:induction false} SortStable(s: seq<Product>, k: int)
    ensures Filter(SortNewestFirst(s), CreatedAt(k)) == Filter(s, CreatedAt(k))
    decreases |s|
  {
    if s != [] {
      InsertKeepsTies(s[0], SortNewestFirst(s[1..]), k);
      SortStable(s[1..], k);
    }
  }

  /** The catalogue query: narrow by category, then by title search (an empty
      term is falsy and narrows nothing), then sort newest first. */
  function Query(ps: seq<Product>, f: Filters): (r: seq<Product>)
    ensures NewestFirst(r)
    ensures forall p :: p in r ==> p in ps
  {
    var byCategory := if f.category.Some? then Filter(ps, InCategory(f.category.value)) else ps;
    var bySearch :=
      if f.searchTerm.Some? && f.searchTerm.value != "" then Filter(byCategory, TitleMatches(f.searchTerm.value))
      else byCategory;
    SortKeepsMembers(bySearch);
    SortNewestFirst(bySearch)
  }

  /** The query returns every selected product as often as the store holds it,
      nothing else, newest first. */
  lemma QueryExact(ps: seq<Product>, f: Filters)
    ensures NewestFirst(Query(ps, f))
    ensures forall p :: multiset(Query(ps, f))[p] == if Selected(f, p) then multiset(ps)[p] else 0
  {
    var byCategory := if f.category.Some? then Filter(ps, InCategory(f.category.value)) else ps;
    forall p
      ensures multiset(Query(ps, f))[p] == if Selected(f, p) then multiset(ps)[p] else 0
    {
      if f.category.Some? {
        FilterCount(ps, InCategory(f.category.value), p);
      }
      assert multiset(byCategory)[p] == if f.category.Some? && p.category != f.category.value then 0 else multiset(ps)[p];
      if f.searchTerm.Some? {
        var term := f.searchTerm.value;
        IncludesIff(Lower(p.title), Lower(term));
        if term != "" {
          FilterCount(byCategory, TitleMatches(term), p);
        }
      }
    }
  }

  /** A seller's listings, newest first. */
  function Listings(ps: seq<Product>, sellerId: string): (r: seq<Product>)
    ensures NewestFirst(r)
    ensures forall p :: p in r ==> p in ps && p.sellerId == sellerId
  {
    SortKeepsMembers(Filter(ps, SoldBy(sellerId)));
    SortNewestFirst(Filter(ps, SoldBy(sellerId)))
  }

  /** Exactly the products of that seller, with their multiplicity, newest first. */
  lemma ListingsExact(ps: seq<Product>, sellerId: string)
    ensures NewestFirst(Listings(ps, sellerId))
    ensures forall p :: multiset(Listings(ps, sellerId))[p] == if p.sellerId == sellerId then multiset(ps)[p] else 0
  {
    forall p
      ensures multiset(Listings(ps, sellerId))[p] == if p.sellerId == sellerId then multiset(ps)[p] else 0
    {
      FilterCount(ps, SoldBy(sellerId), p);
    }
  }

  function NewProduct(d: ProductDraft, id: string, sellerName: string, now: int): Product {
    Product(id, d.title, d.description, d.category, d.price, d.imageUrl, d.sellerId, sellerName, now)
  }

  /** Listing creation on behalf of the session user `current`: without one it
      fails; otherwise the new listing goes in front of all others. */
  function Create(ps: seq<Product>, current: Option<User>, d: ProductDraft, now: int): (st: Step<Product, Product>)
    ensures st.result.Err? <==> current.None?
    ensures st.result.Err? ==> st.result.error == NotAuthenticated && st.after == ps
    ensures st.result.Ok? ==>
      && |st.after| == |ps| + 1
      && st.after[0] == st.result.value
      && st.after[1..] == ps
      && st.result.value.id == ProductId(|ps| + 1)
      && st.result.value.sellerName == current.value.username
      && st.result.value.createdAt == now
      && st.result.value.title == d.title && st.result.value.description == d.description
      && st.result.value.category == d.category && st.result.value.price == d.price
      && st.result.value.imageUrl == d.imageUrl && st.result.value.sellerId == d.sellerId
  {
    match current
    case None => Step(Err(NotAuthenticated), ps)
    case Some(u) =>
      var p := NewProduct(d, ProductId(|ps| + 1), u.username, now);
      Step(Ok(p), [p] + ps)
  }

  /** Listing update: the first product with that id is replaced by itself
      overridden with the patch; nothing else moves. */
  function Update(ps: seq<Product>, id: string, patch: ProductPatch): (st: Step<Product, Product>)
    ensures st.result.Err? <==> FindIndex(ps, HasId(id)) == -1
    ensures st.result.Err? ==> st.result.error == ProductNotFound && st.after == ps
    ensures st.result.Ok? ==>
      var k := FindIndex(ps, HasId(id));
      && 0 <= k < |ps| && ps[k].id == id
      && (forall j :: 0 <= j < k ==> ps[j].id != id)
      && |st.after| == |ps|
      && st.after[k] == MergeProduct(ps[k], patch)
      && st.result.value == st.after[k]
      && (forall j :: 0 <= j < |ps| && j != k ==> st.after[j] == ps[j])
  {
    var k := FindIndex(ps, HasId(id));
    if k == -1 then Step(Err(ProductNotFound), ps)
    else
      var p := MergeProduct(ps[k], patch);
      Step(Ok(p), ps[k := p])
  }

  /** Listing deletion: the first product with that id is spliced out, the
      others keep their order. */
  function Delete(ps: seq<Product>, id: string): (st: Step<(), Product>)
    ensures st.result.Err? <==> FindIndex(ps, HasId(id)) == -1
    ensures st.result.Err? ==> st.result.error == ProductNotFound && st.after == ps
    ensures st.result.Ok? ==>
      var k := FindIndex(ps, HasId(id));
      && 0 <= k < |ps| && ps[k].id == id
      && (forall j :: 0 <= j < k ==> ps[j].id != id)
      && st.after == ps[..k] + ps[k + 1..]
      && |st.after| == |ps| - 1
  {
    var k := FindIndex(ps, HasId(id));
    if k == -1 then Step(Err(ProductNotFound), ps)
    else Step(Ok(()), ps[..k] + ps[k + 1..])
  }

  /** Deleting a listing just created by id removes exactly it again. */
  lemma CreateThenDelete(ps: seq<Product>, current: Option<User>, d: ProductDraft, now: int)
    requires current.Some?
    ensures var c := Create(ps, current, d, now);
      Delete(c.after, c.result.value.id) == Step(Ok(()), ps)
  {
    var c := Create(ps, current, d, now);
    assert FindIndex(c.after, HasId(c.result.value.id)) == 0;
  }

  /** After an update that leaves the id alone, looking the id up yields the
      merged record. */
  lemma UpdateThenFind(ps: seq<Product>, id: string, patch: ProductPatch)
    requires Update(ps, id, patch).result.Ok?
    requires patch.id.None? || patch.id == Some(id)
    ensures Find(Update(ps, id, patch).after, HasId(id)) == Some(MergeProduct(ps[FindIndex(ps, HasId(id))], patch))
  {
    var after := Update(ps, id, patch).after;
    FindIndexAgrees(ps, after, HasId(id));
  }

  /** Updating is idempotent when the patch leaves the id alone, and an empty
      patch leaves the listings as they were. */
  lemma UpdateIdempotent(ps: seq<Product>, id: string, patch: ProductPatch)
    requires patch.id.None? || patch.id == Some(id)
    ensures var once := Update(ps, id, patch).after;
      Update(once, id, patch) == Step(Update(ps, id, patch).result, once)
    ensures Update(ps, id, NoProductChange).after == ps
  {
    var once := Update(ps, id, patch).after;
    FindIndexAgrees(ps, once, HasId(id));
  }

  /** After a deletion the id is no longer found exactly when it was unique:
      ids are not kept unique, so a duplicate becomes visible instead. */
  lemma DeleteThenFind(ps: seq<Product>, id: string)
    requires Delete(ps, id).result.Ok?
    ensures Find(Delete(ps, id).after, HasId(id)).None? <==> |Filter(ps, HasId(id))| == 1
  {
    RemoveFirstMatch(ps, HasId(id));
    FilterEmptyIff(Delete(ps, id).after, HasId(id));
  }

  /** Generated ids collide: delete `prod1` from `[prod1, prod2]`, create a listing,
      and it gets the id `prod2` again. */
  lemma IdsCanCollide(p: Product, q: Product, seller: User, d: ProductDraft, now: int)
    requires p.id == "prod1" && q.id == "prod2"
    ensures var after := Create(Delete([p, q], "prod1").after, Some(seller), d, now).after;
      |after| == 2 && after[0].id == "prod2" && after[1].id == "prod2"
  {
    assert FindIndex([p, q], HasId("prod1")) == 0;
    assert Decimal(2) == "2";
  }
}
