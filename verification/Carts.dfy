/** The cart service's server: its operations on the tables, the cached cart response, and GetCart. */
module Carts {
  import opened Events
  import opened CartDb

  /** What the product service answers about one product; price in cents. */
  datatype ProductInfo = ProductInfo(id: ProductId, name: string, description: string, price: int)

  datatype CartProduct = CartProduct(product: ProductId, name: string, description: string, price: int, quantity: int)

  datatype CartView = CartView(cart: CartId, user: UserId, products: seq<CartProduct>, totalPrice: int)

  function TotalOf(products: seq<CartProduct>): int {
    if products == [] then 0 else
      var n := |products| - 1;
      TotalOf(products[..n]) + products[n].price * products[n].quantity
  }

  /** The total of a response: each product adds its price times its quantity. */
  lemma {:induction false} TotalAddsUp(a: seq<CartProduct>, b: seq<CartProduct>)
    ensures TotalOf(a + b) == TotalOf(a) + TotalOf(b)
    ensures |b| == 1 ==> TotalOf(b) == b[0].price * b[0].quantity
  {
    if b == [] {
      assert a + b == a;
    } else {
      var n := |b| - 1;
      TotalAddsUp(a, b[..n]);
      assert (a + b)[..|a| + n] == a + b[..n];
    }
  }

  /** What an order may rely on in a cart response, cached or fresh. */
  ghost predicate WellFormed(view: CartView) {
    && (forall i, j :: 0 <= i < j < |view.products| ==> view.products[i].product != view.products[j].product)
    && (forall i :: 0 <= i < |view.products| ==> view.products[i].quantity > 0)
    && view.totalPrice == TotalOf(view.products)
  }

  /** The lines of known products with their stored price, in table order. */
  function ViewProducts(lines: seq<LineRow>, infos: map<ProductId, ProductInfo>): seq<CartProduct> {
    if lines == [] then [] else
      var n := |lines| - 1;
      var line := lines[n];
      ViewProducts(lines[..n], infos)
      + if line.product !in infos then [] else
          var info := infos[line.product];
          [CartProduct(info.id, info.name, info.description, line.price, line.quantity)]
  }

  ghost predicate KeyedById(infos: map<ProductId, ProductInfo>) {
    forall p :: p in infos ==> infos[p].id == p
  }

  ghost predicate HasLine(lines: seq<LineRow>, p: ProductId, quantity: int, price: int) {
    exists i :: 0 <= i < |lines| && lines[i].product == p && lines[i].quantity == quantity && lines[i].price == price
  }

  lemma {:induction false} HasLineAppended(lines: seq<LineRow>, l: LineRow, p: ProductId, quantity: int, price: int)
    ensures HasLine(lines + [l], p, quantity, price)
       <==> HasLine(lines, p, quantity, price) || (l.product == p && l.quantity == quantity && l.price == price)
  {
    var all := lines + [l];
    assert all[|lines|] == l;
    if HasLine(lines, p, quantity, price) {
      var i :| 0 <= i < |lines| && lines[i].product == p && lines[i].quantity == quantity && lines[i].price == price;
      assert all[i] == lines[i];
    }
  }

  /** The response shows exactly the lines of known products, each with its quantity and stored price, and with
      the name and description of the product service. */
  lemma {:induction false} ViewProductsExact(lines: seq<LineRow>, infos: map<ProductId, ProductInfo>, v: CartProduct)
    requires KeyedById(infos)
    ensures v in ViewProducts(lines, infos)
       <==> v.product in infos && HasLine(lines, v.product, v.quantity, v.price)
            && v.name == infos[v.product].name && v.description == infos[v.product].description
  {
    if lines != [] {
      var n := |lines| - 1;
      var line, front := lines[n], lines[..n];
      assert lines == front + [line];
      ViewProductsExact(front, infos, v);
      HasLineAppended(front, line, v.product, v.quantity, v.price);
      if line.product in infos {
        var info := infos[line.product];
        var shown := CartProduct(info.id, info.name, info.description, line.price, line.quantity);
        assert ViewProducts(lines, infos) == ViewProducts(front, infos) + [shown];
      } else {
        assert ViewProducts(lines, infos) == ViewProducts(front, infos);
      }
    }
  }

  ghost predicate DistinctLines(lines: seq<LineRow>) {
    forall i, j :: 0 <= i < j < |lines| ==> lines[i].product != lines[j].product
  }

  ghost predicate LineFor(lines: seq<LineRow>, p: ProductId) {
    exists i :: 0 <= i < |lines| && lines[i].product == p
  }

  ghost predicate ShowsLines(products: seq<CartProduct>, lines: seq<LineRow>) {
    && (forall k :: 0 <= k < |products| ==> products[k].quantity > 0 && LineFor(lines, products[k].product))
    && forall j, k :: 0 <= j < k < |products| ==> products[j].product != products[k].product
  }

  /** UNIQUE(cart_id, product_id) and the CHECK on quantity survive the GetCart loop. */
  lemma {:induction false} ViewProductsWellFormed(lines: seq<LineRow>, infos: map<ProductId, ProductInfo>)
    requires KeyedById(infos) && DistinctLines(lines) && forall i :: 0 <= i < |lines| ==> lines[i].quantity > 0
    ensures ShowsLines(ViewProducts(lines, infos), lines)
  {
    if lines != [] {
      var n := |lines| - 1;
      var front := ViewProducts(lines[..n], infos);
      ViewProductsWellFormed(lines[..n], infos);
      forall k | 0 <= k < |front| ensures front[k].product != lines[n].product && LineFor(lines, front[k].product) {
        assert LineFor(lines[..n], front[k].product);
        var i :| 0 <= i < n && lines[..n][i].product == front[k].product;
        assert lines[i].product == front[k].product;
      }
      assert LineFor(lines, lines[n].product);
    }
  }

  /** Answers of the product service, looked up by id (`clients/product_client.go`). */
  method ProductsById(response: seq<ProductInfo>) returns (infos: map<ProductId, ProductInfo>)
    ensures KeyedById(infos)
    ensures forall p :: p in infos <==> exists i :: 0 <= i < |response| && response[i].id == p
    ensures forall p :: p in infos ==> infos[p] in response
  {
    infos := map[];
    var i := 0;
    while i < |response|
      invariant 0 <= i <= |response|
      invariant KeyedById(infos)
      invariant forall p :: p in infos <==> exists k :: 0 <= k < i && response[k].id == p
      invariant forall p :: p in infos ==> infos[p] in response
    {
      infos := infos[response[i].id := response[i]];
      i := i + 1;
    }
  }

  class CartServer {
    var carts: seq<CartRow>
    var lines: seq<LineRow>
    var cache: map<UserId, CartView>

    ghost function View(): Db
      reads this
    {
      Db(carts, lines)
    }

    /** The tables keep their invariant and every cached response is a well-formed one of its user. */
    ghost predicate Valid()
      reads this
    {
      && CartDb.Valid(View())
      && forall u :: u in cache ==> cache[u].user == u && WellFormed(cache[u])
    }

    constructor ()
      ensures Valid() && View() == Db([], []) && cache == map[]
    {
      carts, lines, cache := [], [], map[];
    }

    method DeleteCartRows(user: UserId)
      modifies this`carts, this`lines
      ensures View() == DeleteCartByUser(old(View()), user)
    {
      var cart := FindCart(carts, user);
      if cart.Some? {
        lines := LinesExcept(lines, cart.value.id, None);
        carts := CartsExcept(carts, user);
      }
    }

    method CreateCartRow(user: UserId, env: Env) returns (found: Option<Found>)
      modifies this`carts
      ensures (View(), found) == CreateCart(old(View()), user, env)
    {
      if env.fault.InsertFails? || FindCart(carts, user).Some? || IdTaken(carts, env.newId) {
        return None;
      }
      carts := carts + [CartRow(env.newId, user, env.now)];
      found := Some(Found(CartRow(env.newId, user, env.now), true));
    }

    method GetOrCreateCartByUserID(user: UserId, env: Env) returns (found: Option<Found>)
      requires Valid()
      modifies this`carts, this`lines
      ensures Valid() && (View(), found) == GetOrCreate(old(View()), user, env)
      ensures found.Some? && found.value.created ==> LinesOf(lines, found.value.cart.id) == []
    {
      GetOrCreateKeepsValid(View(), user, env);
      if env.fault.SelectFails? {
        return None;
      }
      var cart := FindCart(carts, user);
      if cart.None? {
        found := CreateCartRow(user, env);
        return;
      }
      if env.ttlHours.None? {
        return None;
      }
      if Expired(cart.value, env.ttlHours.value, env.now) {
        if env.fault.DeleteFails? {
          return None;
        }
        DeleteCartRows(user);
        found := CreateCartRow(user, env);
        return;
      }
      found := Some(Found(cart.value, false));
    }

    method AddProductToCart(user: UserId, product: ProductId, quantity: int, answer: ProductAnswer, env: Env)
      returns (outcome: Outcome)
      requires Valid()
      modifies this`carts, this`lines
      ensures Valid() && outcome != Aborted
      ensures (View(), outcome) == Perform(old(View()), AddProduct(user, product, quantity, answer, env))
    {
      PerformKeepsValid(View(), AddProduct(user, product, quantity, answer, env));
      var found := GetOrCreateCartByUserID(user, env);
      if found.None? {
        return Failed;
      }
      if found.value.created {
        if env.fault.LinesFails? {
          return Failed;
        }
        var existing := LinesOf(lines, found.value.cart.id);
        if |existing| > 0 {
          return Aborted;
        }
      }
      if answer.FetchFails? {
        return FetchFailed;
      }
      if answer.Unknown? {
        return NotFound;
      }
      var upserted := UpsertLine(Db(carts, lines), LineRow(found.value.cart.id, product, quantity, answer.price));
      if env.fault.WriteFails? || upserted.None? {
        return Failed;
      }
      lines := upserted.value.lines;
      outcome := Done;
    }

    method RemoveProductFromCart(user: UserId, product: ProductId, env: Env) returns (outcome: Outcome)
      requires Valid()
      modifies this`carts, this`lines
      ensures Valid() && (View(), outcome) == Perform(old(View()), RemoveProduct(user, product, env))
    {
      PerformKeepsValid(View(), RemoveProduct(user, product, env));
      var found := GetOrCreateCartByUserID(user, env);
      if found.None? {
        return Failed;
      }
      if found.value.created {
        return Done;
      }
      if env.fault.WriteFails? {
        return Failed;
      }
      lines := LinesExcept(lines, found.value.cart.id, Some(product));
      outcome := Done;
    }

    method ClearCart(user: UserId, env: Env) returns (outcome: Outcome)
      requires Valid()
      modifies this`carts, this`lines
      ensures Valid() && (View(), outcome) == Perform(old(View()), CartOp.ClearCart(user, env))
    {
      PerformKeepsValid(View(), CartOp.ClearCart(user, env));
      var found := GetOrCreateCartByUserID(user, env);
      if found.None? {
        return Failed;
      }
      if found.value.created {
        return Done;
      }
      if env.fault.WriteFails? {
        return Failed;
      }
      lines := LinesExcept(lines, found.value.cart.id, None);
      outcome := Done;
    }

    method DeleteCart(user: UserId, env: Env) returns (outcome: Outcome)
      requires Valid()
      modifies this`carts, this`lines
      ensures Valid() && (View(), outcome) == Perform(old(View()), CartOp.DeleteCart(user, env))
    {
      PerformKeepsValid(View(), CartOp.DeleteCart(user, env));
      var found := GetOrCreateCartByUserID(user, env);
      if found.None? {
        return Failed;
      }
      if found.value.created {
        return Done;
      }
      if env.fault.WriteFails? {
        return Failed;
      }
      DeleteCartRows(user);
      outcome := Done;
    }

    /** `cacheUp`: the cache answers; `infos` is None when the product service fails. */
    method GetCart(user: UserId, cacheUp: bool, infos: Option<map<ProductId, ProductInfo>>, env: Env)
      returns (response: Option<CartView>)
      requires Valid() && (infos.Some? ==> KeyedById(infos.value))
      modifies this`carts, this`lines
      ensures Valid()
      ensures response.Some? ==> response.value.user == user && WellFormed(response.value)
      ensures cacheUp && user in cache ==> response == Some(cache[user]) && View() == old(View())
      ensures !(cacheUp && user in cache) ==>
                var (db, found) := GetOrCreate(old(View()), user, env);
                && View() == db
                && (response.None? <==> found.None? || env.fault.LinesFails? || infos.None?)
                && (response.Some? ==> response.value.cart == found.value.cart.id)
                && (response.Some? ==>
                      response.value.products == ViewProducts(LinesOf(db.lines, found.value.cart.id), infos.value))
    {
      hide GetOrCreate, LinesOf, CartDb.Valid, DistinctLines;
      if cacheUp && user in cache {
        return Some(cache[user]);
      }
      GetOrCreateKeepsValid(View(), user, env);
      var found := GetOrCreateCartByUserID(user, env);
      if found.None? || env.fault.LinesFails? || infos.None? {
        return None;
      }
      var cartProducts := LinesOf(lines, found.value.cart.id);
      var products: seq<CartProduct> := [];
      var totalPrice := 0;
      var i := 0;
      while i < |cartProducts|
        invariant 0 <= i <= |cartProducts|
        invariant products == ViewProducts(cartProducts[..i], infos.value)
        invariant totalPrice == TotalOf(products)
      {
        var line := cartProducts[i];
        assert cartProducts[..i + 1][..i] == cartProducts[..i];
        if line.product in infos.value {
          var info := infos.value[line.product];
          var product := CartProduct(info.id, info.name, info.description, line.price, line.quantity);
          assert (products + [product])[..|products|] == products;
          products := products + [product];
          totalPrice := totalPrice + line.price * line.quantity;
        }
        i := i + 1;
      }
      assert cartProducts[..i] == cartProducts;
      LinesOfDistinct(View(), found.value.cart.id);
      ViewProductsWellFormed(cartProducts, infos.value);
      response := Some(CartView(found.value.cart.id, user, products, totalPrice));
    }

    /** The asynchronous cache write of an earlier GetCart response, whenever it lands. */
    method CacheGetCartResponse(user: UserId, view: CartView)
      requires Valid() && view.user == user && WellFormed(view)
      modifies this`cache
      ensures Valid() && cache == old(cache)[user := view]
    {
      cache := cache[user := view];
    }

    /** The asynchronous cache delete, or the end of the entry's time to live. */
    method DeleteCartCache(user: UserId)
      requires Valid()
      modifies this`cache
      ensures Valid() && cache == old(cache) - {user}
    {
      cache := cache - {user};
    }
  }

  lemma {:induction false} LinesOfDistinct(db: Db, id: CartId)
    requires CartDb.Valid(db)
    ensures DistinctLines(LinesOf(db.lines, id))
    ensures forall i :: 0 <= i < |LinesOf(db.lines, id)| ==> LinesOf(db.lines, id)[i].quantity > 0
  {
    LinesOfExact(db.lines, id);
    var own := LinesOf(db.lines, id);
    forall i | 0 <= i < |own| ensures own[i].quantity > 0 && own[i].cart == id {
      assert own[i] in own && own[i] in db.lines;
      var j :| 0 <= j < |db.lines| && db.lines[j] == own[i];
      assert LineOk(db.carts, db.lines[j]);
    }
  }
}
