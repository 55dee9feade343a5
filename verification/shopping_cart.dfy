/** The shopping-cart state of the cart demo: an ordered list of line items,
    updated functionally by "add to cart" and "remove from cart", and a total
    derived from the list on every read. */
module ShoppingCart {
  import opened Wrappers

  /** A catalog entry, as the product list and the cart's "+" button supply it. */
  datatype Product = Product(id: int, name: string, price: int)

  /** One cart line: the product's fields copied when it was first added, and a quantity. */
  datatype LineItem = LineItem(id: int, name: string, price: int, quantity: int)

  type Cart = seq<LineItem>

  /** The fixed product list the page offers. */
  const Catalog: seq<Product> := [
    Product(1, "Smartphone", 25999),
    Product(2, "Laptop", 72499),
    Product(3, "Headphones", 4299)
  ]

  /** A user intent forwarded by the display layer. */
  datatype CartAction = Add(product: Product) | Remove(productId: int)

  // ---------------------------------------------------------------------------
  // Invariants
  // ---------------------------------------------------------------------------

  predicate Contains(c: Cart, id: int) {
    exists i :: 0 <= i < |c| && c[i].id == id
  }

  predicate UniqueIds(c: Cart) {
    forall i, j :: 0 <= i < j < |c| ==> c[i].id != c[j].id
  }

  predicate PositiveQuantities(c: Cart) {
    forall i :: 0 <= i < |c| ==> c[i].quantity >= 1
  }

  /** What every cart reachable from the empty cart satisfies. */
  predicate Valid(c: Cart) {
    UniqueIds(c) && PositiveQuantities(c)
  }

  /** The ids of the lines, in cart order. */
  function Ids(c: Cart): (ids: seq<int>)
    ensures |ids| == |c|
    ensures forall i :: 0 <= i < |c| ==> ids[i] == c[i].id
  {
    if |c| == 0 then [] else [c[0].id] + Ids(c[1..])
  }

  // ---------------------------------------------------------------------------
  // The list primitives the handlers use: find, map and filter
  // ---------------------------------------------------------------------------

  /** Position of the first line with the given id. */
  function IndexOf(c: Cart, id: int): (r: Option<nat>)
    ensures r.None? <==> !Contains(c, id)
    ensures r.Some? ==> r.value < |c| && c[r.value].id == id
    ensures r.Some? ==> forall j :: 0 <= j < r.value ==> c[j].id != id
  {
    if |c| == 0 then None
    else if c[0].id == id then Some(0)
    else
      match IndexOf(c[1..], id)
      case None =>
        assert forall i :: 1 <= i < |c| ==> c[i] == c[1..][i - 1];
        None
      case Some(k) => Some(k + 1)
  }

  /** The cart's `find` by id: the first line with the id, if any. */
  function Find(c: Cart, id: int): (r: Option<LineItem>)
    ensures r.None? <==> !Contains(c, id)
    ensures r.Some? ==> r.value.id == id && r.value in c
    ensures r.Some? ==> exists k :: 0 <= k < |c| && r.value == c[k] && forall j :: 0 <= j < k ==> c[j].id != id
  {
    match IndexOf(c, id)
    case None => None
    case Some(k) => Some(c[k])
  }

  /** The cart's `map`: every line with the id gets its quantity moved by `delta`;
      all other lines are kept as they are. */
  function Bump(c: Cart, id: int, delta: int): (r: Cart)
    ensures |r| == |c|
    ensures forall i :: 0 <= i < |c| ==>
              r[i] == if c[i].id == id then c[i].(quantity := c[i].quantity + delta) else c[i]
  {
    if |c| == 0 then []
    else
      var head := if c[0].id == id then c[0].(quantity := c[0].quantity + delta) else c[0];
      [head] + Bump(c[1..], id, delta)
  }

  /** The cart's `filter`: keep the lines whose id differs, in order. */
  function Without(c: Cart, id: int): (r: Cart)
    ensures |r| <= |c|
    ensures forall i :: 0 <= i < |r| ==> r[i].id != id
    ensures !Contains(c, id) ==> r == c
  {
    if |c| == 0 then []
    else (if c[0].id == id then [] else [c[0]]) + Without(c[1..], id)
  }

  /** The filter keeps exactly the lines whose id differs. */
  lemma {:induction false} WithoutMembers(c: Cart, id: int)
    ensures forall x :: x in Without(c, id) <==> x in c && x.id != id
  {
    if |c| > 0 {
      WithoutMembers(c[1..], id);
      assert forall x :: x in c <==> x == c[0] || x in c[1..];
    }
  }

  // ---------------------------------------------------------------------------
  // The handlers
  // ---------------------------------------------------------------------------

  /** `addToCart`: bump the quantity of a product already in the cart, or append
      a new line with quantity 1. */
  function AddToCart(c: Cart, p: Product): (r: Cart)
    ensures Contains(c, p.id) ==> |r| == |c|
    ensures Contains(c, p.id) ==> forall i :: 0 <= i < |c| ==>
              r[i] == if c[i].id == p.id then c[i].(quantity := c[i].quantity + 1) else c[i]
    ensures !Contains(c, p.id) ==> |r| == |c| + 1 && r[..|c|] == c
    ensures !Contains(c, p.id) ==> r[|c|] == LineItem(p.id, p.name, p.price, 1)
  {
    match Find(c, p.id)
    case Some(_) => Bump(c, p.id, 1)
    case None => c + [LineItem(p.id, p.name, p.price, 1)]
  }

  /** `removeFromCart`: an absent id is a no-op; a line with quantity 1 is dropped;
      any other line loses one unit. */
  function RemoveFromCart(c: Cart, id: int): (r: Cart)
    ensures !Contains(c, id) ==> r == c
    ensures Find(c, id).Some? && Find(c, id).value.quantity == 1 ==>
              r == Without(c, id) && forall x :: x in r <==> x in c && x.id != id
    ensures Find(c, id).Some? && Find(c, id).value.quantity != 1 ==>
              |r| == |c| &&
              forall i :: 0 <= i < |c| ==>
                r[i] == if c[i].id == id then c[i].(quantity := c[i].quantity - 1) else c[i]
  {
    match Find(c, id)
    case None => c
    case Some(existing) =>
      if existing.quantity == 1 then WithoutMembers(c, id); Without(c, id) else Bump(c, id, -1)
  }

  function Apply(c: Cart, a: CartAction): Cart {
    match a
    case Add(p) => AddToCart(c, p)
    case Remove(id) => RemoveFromCart(c, id)
  }

  /** The cart after a sequence of actions, applied in order. */
  function Run(c: Cart, actions: seq<CartAction>): Cart
    decreases |actions|
  {
    if |actions| == 0 then c else Run(Apply(c, actions[0]), actions[1..])
  }

  // ---------------------------------------------------------------------------
  // The total
  // ---------------------------------------------------------------------------

  function LineTotal(item: LineItem): int {
    item.price * item.quantity
  }

  /** The sum of price times quantity over the lines. */
  function Total(c: Cart): int {
    if |c| == 0 then 0 else LineTotal(c[0]) + Total(c[1..])
  }

  /** The `reduce` the page runs on every render, accumulating from the left. */
  method ComputeTotal(c: Cart) returns (sum: int)
    ensures sum == Total(c)
    ensures |c| == 0 ==> sum == 0
  {
    sum := 0;
    var i := 0;
    while i < |c|
      invariant 0 <= i <= |c|
      invariant sum == Total(c[..i])
    {
      TotalConcat(c[..i], [c[i]]);
      assert c[..i + 1] == c[..i] + [c[i]];
      sum := sum + c[i].price * c[i].quantity;
      i := i + 1;
    }
    assert c[..i] == c;
  }

  lemma {:induction false} TotalConcat(a: Cart, b: Cart)
    ensures Total(a + b) == Total(a) + Total(b)
  {
    if |a| == 0 {
      assert a + b == b;
    } else {
      assert (a + b)[1..] == a[1..] + b;
      TotalConcat(a[1..], b);
    }
  }

  /** Replacing one line changes the total by the difference of the two lines. */
  lemma TotalUpdate(c: Cart, k: nat, x: LineItem)
    requires k < |c|
    ensures Total(c[k := x]) == Total(c) - LineTotal(c[k]) + LineTotal(x)
  {
    assert c == c[..k] + [c[k]] + c[k + 1..];
    assert c[k := x] == c[..k] + [x] + c[k + 1..];
    TotalConcat(c[..k] + [c[k]], c[k + 1..]);
    TotalConcat(c[..k], [c[k]]);
    TotalConcat(c[..k] + [x], c[k + 1..]);
    TotalConcat(c[..k], [x]);
  }

  /** With non-negative prices the total of a valid cart is never negative. */
  lemma {:induction false} TotalNonNegative(c: Cart)
    requires PositiveQuantities(c)
    requires forall i :: 0 <= i < |c| ==> c[i].price >= 0
    ensures Total(c) >= 0
  {
    if |c| > 0 {
      assert c[0].price * c[0].quantity >= 0;
      TotalNonNegative(c[1..]);
    }
  }

  // ---------------------------------------------------------------------------
  // Lists with unique ids: the map and the filter touch exactly one line
  // ---------------------------------------------------------------------------

  lemma BumpUnique(c: Cart, id: int, delta: int, k: nat)
    requires UniqueIds(c)
    requires k < |c| && c[k].id == id
    ensures Bump(c, id, delta) == c[k := c[k].(quantity := c[k].quantity + delta)]
  {
  }

  /** The tail of a list with unique ids has unique ids and lacks the head's id. */
  lemma UniqueTail(c: Cart)
    requires UniqueIds(c) && |c| > 0
    ensures UniqueIds(c[1..])
    ensures !Contains(c[1..], c[0].id)
  {
    assert forall i :: 0 <= i < |c| - 1 ==> c[1..][i] == c[i + 1];
  }

  lemma {:induction false} WithoutAbsent(c: Cart, id: int)
    requires !Contains(c, id)
    ensures Without(c, id) == c
  {
    if |c| > 0 {
      assert !Contains(c[1..], id) by {
        assert forall i :: 0 <= i < |c| - 1 ==> c[1..][i] == c[i + 1];
      }
      WithoutAbsent(c[1..], id);
    }
  }

  lemma {:induction false} WithoutUnique(c: Cart, id: int, k: nat)
    requires UniqueIds(c)
    requires k < |c| && c[k].id == id
    ensures Without(c, id) == c[..k] + c[k + 1..]
  {
    UniqueTail(c);
    if k == 0 {
      WithoutAbsent(c[1..], id);
      assert c[..0] + c[1..] == c[1..];
    } else {
      assert c[0].id != id;
      WithoutUnique(c[1..], id, k - 1);
      assert c[1..][..k - 1] == c[1..k];
      assert c[1..][k..] == c[k + 1..];
      assert c[..k] == [c[0]] + c[1..k];
    }
  }

  /** The filter works line by line: filtering a concatenation filters each part
      in place, so the kept lines stay in their order, each once. */
  lemma {:induction false} WithoutConcat(a: Cart, b: Cart, id: int)
    ensures Without(a + b, id) == Without(a, id) + Without(b, id)
    decreases |a|
  {
    if |a| > 0 {
      assert (a + b)[0] == a[0];
      assert (a + b)[1..] == a[1..] + b;
      WithoutConcat(a[1..], b, id);
    } else {
      assert a + b == b;
    }
  }

  /** On one line the filter keeps it exactly when its id differs. */
  lemma WithoutSingle(x: LineItem, id: int)
    ensures Without([x], id) == if x.id == id then [] else [x]
  {
    assert [x][1..] == [];
  }

  /** Dropping one line of a valid cart leaves a valid cart. */
  lemma DropPreservesValid(c: Cart, k: nat)
    requires Valid(c) && k < |c|
    ensures Valid(c[..k] + c[k + 1..])
  {
    var r := c[..k] + c[k + 1..];
    assert forall i :: 0 <= i < |r| ==> r[i] == c[if i < k then i else i + 1];
  }

  lemma {:induction false} WithoutAppendMatching(c: Cart, x: LineItem)
    ensures Without(c + [x], x.id) == Without(c, x.id)
  {
    if |c| == 0 {
      assert [x][1..] == [];
    } else {
      assert (c + [x])[1..] == c[1..] + [x];
      WithoutAppendMatching(c[1..], x);
    }
  }

  // ---------------------------------------------------------------------------
  // Properties of add and remove
  // ---------------------------------------------------------------------------

  /** Adding a product already in the cart bumps exactly that line by one. */
  lemma AddExisting(c: Cart, p: Product, k: nat)
    requires UniqueIds(c)
    requires k < |c| && c[k].id == p.id
    ensures AddToCart(c, p) == c[k := c[k].(quantity := c[k].quantity + 1)]
  {
    BumpUnique(c, p.id, 1, k);
  }

  /** Adding a product not in the cart appends one fresh line at the end. */
  lemma AddNew(c: Cart, p: Product)
    requires !Contains(c, p.id)
    ensures AddToCart(c, p) == c + [LineItem(p.id, p.name, p.price, 1)]
  {
  }

  /** Removing an id that is not in the cart changes nothing. */
  lemma RemoveAbsent(c: Cart, id: int)
    requires !Contains(c, id)
    ensures RemoveFromCart(c, id) == c
  {
  }

  /** Removing the last unit of a line deletes that line and keeps the others in order. */
  lemma RemoveLastUnit(c: Cart, id: int, k: nat)
    requires UniqueIds(c)
    requires k < |c| && c[k].id == id && c[k].quantity == 1
    ensures RemoveFromCart(c, id) == c[..k] + c[k + 1..]
  {
    WithoutUnique(c, id, k);
  }

  /** Removing one of several units decrements exactly that line. */
  lemma RemoveOneUnit(c: Cart, id: int, k: nat)
    requires UniqueIds(c)
    requires k < |c| && c[k].id == id && c[k].quantity != 1
    ensures RemoveFromCart(c, id) == c[k := c[k].(quantity := c[k].quantity - 1)]
  {
    BumpUnique(c, id, -1, k);
  }

  lemma AddPreservesValid(c: Cart, p: Product)
    requires Valid(c)
    ensures Valid(AddToCart(c, p))
  {
    var r := AddToCart(c, p);
    if !Contains(c, p.id) {
      forall i, j | 0 <= i < j < |r|
        ensures r[i].id != r[j].id
      {
        if j == |c| {
          assert r[i] == c[i];
        } else {
          assert r[i] == c[i] && r[j] == c[j];
        }
      }
    }
  }

  lemma {:induction false} RemovePreservesValid(c: Cart, id: int)
    requires Valid(c)
    ensures Valid(RemoveFromCart(c, id))
  {
    var found := IndexOf(c, id);
    if found.Some? {
      var k := found.value;
      if c[k].quantity == 1 {
        RemoveLastUnit(c, id, k);
        DropPreservesValid(c, k);
      } else {
        RemoveOneUnit(c, id, k);
      }
    }
  }

  /** Every cart reachable by a sequence of actions from a valid cart is valid. */
  lemma {:induction false} RunPreservesValid(c: Cart, actions: seq<CartAction>)
    requires Valid(c)
    ensures Valid(Run(c, actions))
    decreases |actions|
  {
    if |actions| > 0 {
      match actions[0] {
        case Add(p) => AddPreservesValid(c, p);
        case Remove(id) => RemovePreservesValid(c, id);
      }
      RunPreservesValid(Apply(c, actions[0]), actions[1..]);
    }
  }

  /** Starting from the empty cart, ids stay unique and quantities stay at least 1. */
  lemma ReachableCartsValid(actions: seq<CartAction>)
    ensures UniqueIds(Run([], actions))
    ensures PositiveQuantities(Run([], actions))
  {
    RunPreservesValid([], actions);
  }

  /** Adding a product and then removing its id gives back the original cart. */
  lemma {:induction false} AddThenRemove(c: Cart, p: Product)
    requires PositiveQuantities(c)
    ensures RemoveFromCart(AddToCart(c, p), p.id) == c
  {
    var found := IndexOf(c, p.id);
    if found.Some? {
      AddThenRemoveExisting(c, p, found.value);
    } else {
      var x := LineItem(p.id, p.name, p.price, 1);
      assert AddToCart(c, p) == c + [x];
      assert IndexOf(c + [x], p.id) == Some(|c|);
      WithoutAppendMatching(c, x);
      WithoutAbsent(c, p.id);
    }
  }

  lemma {:induction false} AddThenRemoveExisting(c: Cart, p: Product, k: nat)
    requires PositiveQuantities(c)
    requires IndexOf(c, p.id) == Some(k)
    ensures RemoveFromCart(AddToCart(c, p), p.id) == c
  {
    var a := Bump(c, p.id, 1);
    assert AddToCart(c, p) == a;
    BumpKeepsIndex(c, p.id, 1);
    assert Find(a, p.id) == Some(a[k]);
    assert a[k].quantity == c[k].quantity + 1 != 1;
    assert RemoveFromCart(a, p.id) == Bump(a, p.id, -1);
    BumpInverse(c, p.id, 1);
  }

  /** The map changes quantities only, so the first line with each id stays where it was. */
  lemma {:induction false} BumpKeepsIndex(c: Cart, id: int, delta: int)
    ensures IndexOf(Bump(c, id, delta), id) == IndexOf(c, id)
  {
    if |c| > 0 && c[0].id != id {
      assert Bump(c, id, delta)[1..] == Bump(c[1..], id, delta);
      BumpKeepsIndex(c[1..], id, delta);
    }
  }

  lemma BumpInverse(c: Cart, id: int, delta: int)
    ensures Bump(Bump(c, id, delta), id, -delta) == c
  {
    var a := Bump(c, id, delta);
    var b := Bump(a, id, -delta);
    forall i | 0 <= i < |c|
      ensures b[i] == c[i]
    {
      assert a[i].id == c[i].id;
    }
  }

  /** Adding a product raises the total by the price of its line. */
  lemma AddTotal(c: Cart, p: Product)
    requires UniqueIds(c)
    ensures Find(c, p.id).Some? ==> Total(AddToCart(c, p)) == Total(c) + Find(c, p.id).value.price
    ensures Find(c, p.id).None? ==> Total(AddToCart(c, p)) == Total(c) + p.price
  {
    match IndexOf(c, p.id)
    case Some(k) =>
      AddExisting(c, p, k);
      TotalUpdate(c, k, c[k].(quantity := c[k].quantity + 1));
    case None =>
      AddNew(c, p);
      TotalConcat(c, [LineItem(p.id, p.name, p.price, 1)]);
  }

  /** Dropping one line lowers the total by that line's contribution. */
  lemma {:induction false} TotalDrop(c: Cart, k: nat)
    requires k < |c|
    ensures Total(c[..k] + c[k + 1..]) == Total(c) - LineTotal(c[k])
  {
    assert c == c[..k] + [c[k]] + c[k + 1..];
    TotalConcat(c[..k] + [c[k]], c[k + 1..]);
    TotalConcat(c[..k], [c[k]]);
    TotalConcat(c[..k], c[k + 1..]);
  }

  /** Removing a product in the cart lowers the total by the price of its line;
      removing one that is absent leaves the total alone. */
  lemma RemoveTotal(c: Cart, id: int)
    requires UniqueIds(c)
    ensures Find(c, id).Some? ==> Total(RemoveFromCart(c, id)) == Total(c) - Find(c, id).value.price
    ensures Find(c, id).None? ==> Total(RemoveFromCart(c, id)) == Total(c)
  {
    var found := IndexOf(c, id);
    if found.Some? {
      var k := found.value;
      assert Find(c, id) == Some(c[k]);
      if c[k].quantity == 1 {
        RemoveLastUnit(c, id, k);
        TotalDrop(c, k);
      } else {
        RemoveOneUnit(c, id, k);
        TotalUpdate(c, k, c[k].(quantity := c[k].quantity - 1));
      }
    }
  }

  /** Insertion order: adding keeps the existing ids in place and appends a new id at the end. */
  lemma AddKeepsOrder(c: Cart, p: Product)
    ensures Contains(c, p.id) ==> Ids(AddToCart(c, p)) == Ids(c)
    ensures !Contains(c, p.id) ==> Ids(AddToCart(c, p)) == Ids(c) + [p.id]
  {
  }

  /** Insertion order: removing keeps the remaining ids in their relative order. */
  lemma {:induction false} RemoveKeepsOrder(c: Cart, id: int, k: nat)
    requires UniqueIds(c)
    requires k < |c| && c[k].id == id
    ensures c[k].quantity == 1 ==> Ids(RemoveFromCart(c, id)) == Ids(c)[..k] + Ids(c)[k + 1..]
    ensures c[k].quantity != 1 ==> Ids(RemoveFromCart(c, id)) == Ids(c)
  {
    if c[k].quantity == 1 {
      RemoveLastUnit(c, id, k);
      IdsDrop(c, k);
    } else {
      RemoveOneUnit(c, id, k);
      IdsUpdate(c, k, c[k].(quantity := c[k].quantity - 1));
    }
  }

  lemma IdsDrop(c: Cart, k: nat)
    requires k < |c|
    ensures Ids(c[..k] + c[k + 1..]) == Ids(c)[..k] + Ids(c)[k + 1..]
  {
    var r := c[..k] + c[k + 1..];
    var ids := Ids(c);
    assert |Ids(r)| == |ids[..k] + ids[k + 1..]|;
    forall i | 0 <= i < |r|
      ensures Ids(r)[i] == (ids[..k] + ids[k + 1..])[i]
    {
      if i < k {
        assert r[i] == c[i];
      } else {
        assert r[i] == c[i + 1];
      }
    }
  }

  lemma IdsUpdate(c: Cart, k: nat, x: LineItem)
    requires k < |c| && x.id == c[k].id
    ensures Ids(c[k := x]) == Ids(c)
  {
  }

  /** The walkthrough of the cart: add the smartphone twice, then remove it twice. */
  lemma SmartphoneWalkthrough()
    ensures var phone := Catalog[0];
            var c1 := AddToCart([], phone);
            var c2 := AddToCart(c1, phone);
            var c3 := RemoveFromCart(c2, phone.id);
            var c4 := RemoveFromCart(c3, phone.id);
            && c1 == [LineItem(1, "Smartphone", 25999, 1)] && Total(c1) == 25999
            && c2 == [LineItem(1, "Smartphone", 25999, 2)] && Total(c2) == 51998
            && c3 == c1 && Total(c3) == 25999
            && c4 == [] && Total(c4) == 0
  {
    var phone := Catalog[0];
    var c1 := AddToCart([], phone);
    AddNew([], phone);
    assert c1 == [LineItem(1, "Smartphone", 25999, 1)];
    AddExisting(c1, phone, 0);
    var c2 := AddToCart(c1, phone);
    RemoveOneUnit(c2, 1, 0);
    RemoveLastUnit(c1, 1, 0);
  }

  /** Bumping an earlier product does not move it behind a later one. */
  lemma OrderWalkthrough()
    ensures var laptop := Catalog[1];
            var phone := Catalog[0];
            Ids(AddToCart(AddToCart(AddToCart([], laptop), phone), laptop)) == [2, 1]
  {
    var laptop := Catalog[1];
    var phone := Catalog[0];
    var c1 := AddToCart([], laptop);
    AddNew([], laptop);
    var c2 := AddToCart(c1, phone);
    AddNew(c1, phone);
    AddExisting(c2, laptop, 0);
  }
}
