/** The cart service's tables, its cart operations on them, and what a cart response is worth. */
module CartDb {
  import opened Events

  type CartId = nat

  datatype CartRow = CartRow(id: CartId, user: UserId, createdAt: int)

  /** A carts_products row; price in cents. */
  datatype LineRow = LineRow(cart: CartId, product: ProductId, quantity: int, price: int)

  datatype Db = Db(carts: seq<CartRow>, lines: seq<LineRow>)

  // ------------------------------------------------ statements

  function FindCart(carts: seq<CartRow>, user: UserId): Option<CartRow> {
    if carts == [] then None
    else if carts[0].user == user then Some(carts[0])
    else FindCart(carts[1..], user)
  }

  predicate IdTaken(carts: seq<CartRow>, id: CartId) {
    exists i :: 0 <= i < |carts| && carts[i].id == id
  }

  /** SELECT ... FROM carts_products WHERE cart_id = id. */
  function LinesOf(lines: seq<LineRow>, id: CartId): seq<LineRow> {
    if lines == [] then [] else
      var n := |lines| - 1;
      LinesOf(lines[..n], id) + if lines[n].cart == id then [lines[n]] else []
  }

  function CartsExcept(carts: seq<CartRow>, user: UserId): seq<CartRow> {
    if carts == [] then []
    else (if carts[0].user == user then [] else [carts[0]]) + CartsExcept(carts[1..], user)
  }

  /** The lines left when those of cart `id` are deleted, or only that of one product of it. */
  function LinesExcept(lines: seq<LineRow>, id: CartId, product: Option<ProductId>): seq<LineRow> {
    if lines == [] then []
    else
      var gone := lines[0].cart == id && (product.None? || lines[0].product == product.value);
      (if gone then [] else [lines[0]]) + LinesExcept(lines[1..], id, product)
  }

  /** DELETE FROM carts WHERE user_id = user, with its cascade. */
  function DeleteCartByUser(db: Db, user: UserId): Db {
    match FindCart(db.carts, user)
    case None => db
    case Some(cart) => Db(CartsExcept(db.carts, user), LinesExcept(db.lines, cart.id, None))
  }

  /** INSERT INTO carts; None when the user or the key is taken. */
  function InsertCart(db: Db, id: CartId, user: UserId, now: int): Option<Db> {
    if FindCart(db.carts, user).Some? || IdTaken(db.carts, id) then None
    else Some(db.(carts := db.carts + [CartRow(id, user, now)]))
  }

  function Upserted(lines: seq<LineRow>, line: LineRow): seq<LineRow> {
    if lines == [] then [line]
    else if lines[0].cart == line.cart && lines[0].product == line.product
    then [lines[0].(quantity := line.quantity)] + lines[1..]     // ON CONFLICT keeps the first price
    else [lines[0]] + Upserted(lines[1..], line)
  }

  /** INSERT ... ON CONFLICT DO UPDATE; None when the CHECK or the foreign key is violated. */
  function UpsertLine(db: Db, line: LineRow): Option<Db> {
    if line.quantity <= 0 || !IdTaken(db.carts, line.cart) then None
    else Some(db.(lines := Upserted(db.lines, line)))
  }

  // ------------------------------------------------ operations

  /** Which statement of the operation returns a database error, if any. */
  datatype Fault = NoFault | SelectFails | DeleteFails | InsertFails | LinesFails | WriteFails

  /** The world an operation runs in: wall clock, CART_TTL_HOURS (None: not a number), the key the
      database would generate next. */
  datatype Env = Env(now: int, ttlHours: Option<int>, newId: CartId, fault: Fault)

  datatype Found = Found(cart: CartRow, created: bool)

  function Expired(cart: CartRow, ttlHours: int, now: int): bool {
    ttlHours != 0 && now > cart.createdAt + ttlHours * 3600
  }

  function CreateCart(db: Db, user: UserId, env: Env): (Db, Option<Found>) {
    var inserted := InsertCart(db, env.newId, user, env.now);
    if env.fault.InsertFails? || inserted.None? then (db, None)
    else (inserted.value, Some(Found(CartRow(env.newId, user, env.now), true)))
  }

  /** Each statement commits on its own: a failing insert after the delete leaves the user without a cart. */
  function GetOrCreate(db: Db, user: UserId, env: Env): (Db, Option<Found>) {
    if env.fault.SelectFails? then (db, None)
    else match FindCart(db.carts, user)
      case None => CreateCart(db, user, env)
      case Some(cart) =>
        if env.ttlHours.None? then (db, None)
        else if !Expired(cart, env.ttlHours.value, env.now) then (db, Some(Found(cart, false)))
        else if env.fault.DeleteFails? then (db, None)
        else CreateCart(DeleteCartByUser(db, user), user, env)
  }

  /** What the product service answers for one product. */
  datatype ProductAnswer = Priced(price: int) | Unknown | FetchFails

  datatype CartOp =
    | GetCart(user: UserId, env: Env)
    | AddProduct(user: UserId, product: ProductId, quantity: int, answer: ProductAnswer, env: Env)
    | RemoveProduct(user: UserId, product: ProductId, env: Env)
    | ClearCart(user: UserId, env: Env)
    | DeleteCart(user: UserId, env: Env)

  datatype Outcome = Done | Failed | NotFound | FetchFailed | Aborted

  function Perform(db: Db, op: CartOp): (Db, Outcome) {
    var (db1, found) := GetOrCreate(db, op.user, op.env);
    if found.None? then (db1, Failed)
    else
      var Found(cart, created) := found.value;
      match op
      case GetCart(_, _) => (db1, Done)
      case AddProduct(_, product, quantity, answer, env) =>
        if created && env.fault.LinesFails? then (db1, Failed)
        else if created && LinesOf(db1.lines, cart.id) != [] then (db1, Aborted)
        else if answer.FetchFails? then (db1, FetchFailed)
        else if answer.Unknown? then (db1, NotFound)
        else
          var upserted := UpsertLine(db1, LineRow(cart.id, product, quantity, answer.price));
          if env.fault.WriteFails? || upserted.None? then (db1, Failed) else (upserted.value, Done)
      case RemoveProduct(_, product, env) =>
        if created then (db1, Done)
        else if env.fault.WriteFails? then (db1, Failed)
        else (db1.(lines := LinesExcept(db1.lines, cart.id, Some(product))), Done)
      case ClearCart(_, env) =>
        if created then (db1, Done)
        else if env.fault.WriteFails? then (db1, Failed)
        else (db1.(lines := LinesExcept(db1.lines, cart.id, None)), Done)
      case DeleteCart(user, env) =>
        if created then (db1, Done)
        else if env.fault.WriteFails? then (db1, Failed)
        else (DeleteCartByUser(db1, user), Done)
  }

  /** A step in the life of the carts: an operation, or a processed order event for a user. */
  datatype CartStep = Op(op: CartOp) | OrderEvent(user: UserId)

  function NextCarts(db: Db, step: CartStep): Db {
    match step
    case Op(op) => Perform(db, op).0
    case OrderEvent(user) => DeleteCartByUser(db, user)
  }

  function RunCarts(db: Db, steps: seq<CartStep>): Db {
    if steps == [] then db else NextCarts(RunCarts(db, steps[..|steps| - 1]), steps[|steps| - 1])
  }

  // ------------------------------------------------ invariant

  ghost predicate OneCartEach(carts: seq<CartRow>) {
    forall i, j :: 0 <= i < j < |carts| ==> carts[i].user != carts[j].user && carts[i].id != carts[j].id
  }

  ghost predicate OneLineEach(lines: seq<LineRow>) {
    forall i, j :: 0 <= i < j < |lines| ==> !(lines[i].cart == lines[j].cart && lines[i].product == lines[j].product)
  }

  ghost predicate LineOk(carts: seq<CartRow>, line: LineRow) {
    line.quantity > 0 && IdTaken(carts, line.cart)
  }

  /** A user has at most one cart, a cart at most one line per product, and no line is empty or orphaned. */
  ghost predicate Valid(db: Db) {
    && OneCartEach(db.carts)
    && OneLineEach(db.lines)
    && forall i :: 0 <= i < |db.lines| ==> LineOk(db.carts, db.lines[i])
  }

  lemma {:induction false} FindCartExact(carts: seq<CartRow>, user: UserId)
    ensures match FindCart(carts, user)
            case None => forall i :: 0 <= i < |carts| ==> carts[i].user != user
            case Some(cart) => cart.user == user && cart in carts
  {
    if carts != [] && carts[0].user != user {
      FindCartExact(carts[1..], user);
      if FindCart(carts[1..], user).None? {
        forall i | 0 <= i < |carts| ensures carts[i].user != user {
          assert i > 0 ==> carts[1..][i - 1] == carts[i];
        }
      }
    }
  }

  lemma {:induction false} CartsExceptExact(carts: seq<CartRow>, user: UserId)
    ensures forall c :: c in CartsExcept(carts, user) <==> c in carts && c.user != user
    ensures OneCartEach(carts) ==> OneCartEach(CartsExcept(carts, user))
    ensures |CartsExcept(carts, user)| <= |carts|
  {
    if carts != [] {
      CartsExceptExact(carts[1..], user);
      var rest := CartsExcept(carts[1..], user);
      assert forall c :: c in carts <==> c == carts[0] || c in carts[1..];
      if OneCartEach(carts) {
        assert OneCartEach(carts[1..]);
        forall j | 0 <= j < |rest| ensures rest[j].user != carts[0].user && rest[j].id != carts[0].id {
          assert rest[j] in carts[1..];
        }
      }
    }
  }

  lemma {:induction false} LinesExceptExact(lines: seq<LineRow>, id: CartId, product: Option<ProductId>)
    ensures forall l :: l in LinesExcept(lines, id, product)
                   <==> l in lines && !(l.cart == id && (product.None? || l.product == product.value))
    ensures OneLineEach(lines) ==> OneLineEach(LinesExcept(lines, id, product))
  {
    if lines != [] {
      LinesExceptExact(lines[1..], id, product);
      var rest := LinesExcept(lines[1..], id, product);
      assert forall l :: l in lines <==> l == lines[0] || l in lines[1..];
      if OneLineEach(lines) {
        assert OneLineEach(lines[1..]);
        forall j | 0 <= j < |rest| ensures !(rest[j].cart == lines[0].cart && rest[j].product == lines[0].product) {
          assert rest[j] in lines[1..];
        }
      }
    }
  }

  lemma {:induction false} LinesOfExact(lines: seq<LineRow>, id: CartId)
    ensures forall l :: l in LinesOf(lines, id) <==> l in lines && l.cart == id
    ensures OneLineEach(lines) ==> OneLineEach(LinesOf(lines, id))
  {
    if lines != [] {
      var n := |lines| - 1;
      LinesOfExact(lines[..n], id);
      var front := LinesOf(lines[..n], id);
      assert forall l :: l in lines <==> l == lines[n] || l in lines[..n];
      if OneLineEach(lines) {
        forall i | 0 <= i < |front| ensures !(front[i].cart == lines[n].cart && front[i].product == lines[n].product) {
          assert front[i] in lines[..n];
        }
      }
    }
  }

  lemma {:induction false} UpsertedExact(lines: seq<LineRow>, line: LineRow)
    ensures OneLineEach(lines) ==> OneLineEach(Upserted(lines, line))
    ensures forall l :: l in Upserted(lines, line) ==>
              l in lines || (l.cart == line.cart && l.product == line.product && l.quantity == line.quantity)
    ensures forall l :: l in Upserted(lines, line) ==>
              (exists m :: m in lines && m.cart == l.cart && m.product == l.product)
              || (l.cart == line.cart && l.product == line.product)
  {
    if lines != [] && !(lines[0].cart == line.cart && lines[0].product == line.product) {
      UpsertedExact(lines[1..], line);
      var rest := Upserted(lines[1..], line);
      forall l | l in rest
        ensures (exists m :: m in lines && m.cart == l.cart && m.product == l.product)
                || (l.cart == line.cart && l.product == line.product)
      {
        if m :| m in lines[1..] && m.cart == l.cart && m.product == l.product {
          assert m in lines;
        }
      }
      if OneLineEach(lines) {
        assert OneLineEach(lines[1..]);
        forall j | 0 <= j < |rest| ensures !(rest[j].cart == lines[0].cart && rest[j].product == lines[0].product) {
          assert rest[j] in rest;
          if m :| m in lines[1..] && m.cart == rest[j].cart && m.product == rest[j].product {
            assert !(m.cart == lines[0].cart && m.product == lines[0].product);
          }
        }
      }
    }
  }

  lemma {:induction false} SameIds(carts: seq<CartRow>, carts': seq<CartRow>, id: CartId)
    requires IdTaken(carts, id) && forall c :: c in carts && c.id == id ==> c in carts'
    ensures IdTaken(carts', id)
  {
    var i :| 0 <= i < |carts| && carts[i].id == id;
    assert carts[i] in carts;
    var j :| 0 <= j < |carts'| && carts'[j] == carts[i];
  }

  lemma {:induction false} RowsDistinct(carts: seq<CartRow>, a: CartRow, b: CartRow)
    requires OneCartEach(carts) && a in carts && b in carts && (a.id == b.id || a.user == b.user)
    ensures a == b
  {
  }

  lemma {:induction false} DeleteKeepsValid(db: Db, user: UserId)
    requires Valid(db)
    ensures Valid(DeleteCartByUser(db, user))
    ensures FindCart(DeleteCartByUser(db, user).carts, user).None?
  {
    var db' := DeleteCartByUser(db, user);
    FindCartExact(db.carts, user);
    FindCartExact(db'.carts, user);
    CartsExceptExact(db.carts, user);
    if FindCart(db.carts, user).Some? {
      var cart := FindCart(db.carts, user).value;
      LinesExceptExact(db.lines, cart.id, None);
      forall i | 0 <= i < |db'.lines| ensures LineOk(db'.carts, db'.lines[i]) {
        var line := db'.lines[i];
        assert line in db.lines && line.cart != cart.id;
        assert LineOk(db.carts, line);
        forall c | c in db.carts && c.id == line.cart ensures c in db'.carts {
          if c.user == user {
            RowsDistinct(db.carts, c, cart);
          }
        }
        SameIds(db.carts, db'.carts, line.cart);
      }
    }
  }

  ghost predicate OfUser(carts: seq<CartRow>, line: LineRow, user: UserId) {
    exists c :: c in carts && c.user == user && c.id == line.cart
  }

  /** The carts and lines left are exactly those of all other users. */
  ghost predicate OnlyOthersLeft(db: Db, user: UserId, db': Db) {
    && (forall c :: c in db'.carts <==> c in db.carts && c.user != user)
    && (forall l :: l in db'.lines <==> l in db.lines && !OfUser(db.carts, l, user))
  }

  /** Deleting by user removes that user's cart with its lines, and nothing else. */
  lemma {:induction false} DeleteExactly(db: Db, user: UserId)
    requires Valid(db)
    ensures OnlyOthersLeft(db, user, DeleteCartByUser(db, user))
  {
    hide OneLineEach, LineOk, CartsExcept, LinesExcept;
    FindCartExact(db.carts, user);
    CartsExceptExact(db.carts, user);
    if FindCart(db.carts, user).Some? {
      var cart := FindCart(db.carts, user).value;
      LinesExceptExact(db.lines, cart.id, None);
      forall l ensures OfUser(db.carts, l, user) <==> l.cart == cart.id {
        if c :| c in db.carts && c.user == user && c.id == l.cart {
          RowsDistinct(db.carts, c, cart);
        }
      }
    }
  }

  lemma {:induction false} LinesOfNone(lines: seq<LineRow>, id: CartId)
    requires forall l :: l in lines ==> l.cart != id
    ensures LinesOf(lines, id) == []
  {
    if lines != [] {
      LinesOfNone(lines[..|lines| - 1], id);
    }
  }

  lemma {:induction false} InsertKeepsValid(db: Db, id: CartId, user: UserId, now: int)
    requires Valid(db) && InsertCart(db, id, user, now).Some?
    ensures Valid(InsertCart(db, id, user, now).value)
    ensures LinesOf(InsertCart(db, id, user, now).value.lines, id) == []
  {
    var db' := InsertCart(db, id, user, now).value;
    FindCartExact(db.carts, user);
    forall i | 0 <= i < |db'.lines| ensures LineOk(db'.carts, db'.lines[i]) {
      assert LineOk(db.carts, db.lines[i]);
      var j :| 0 <= j < |db.carts| && db.carts[j].id == db.lines[i].cart;
      assert db'.carts[j].id == db.lines[i].cart;
    }
    forall l | l in db.lines ensures l.cart != id {
      var i :| 0 <= i < |db.lines| && db.lines[i] == l;
      assert LineOk(db.carts, db.lines[i]);
    }
    LinesOfNone(db.lines, id);
  }

  lemma {:induction false} GetOrCreateKeepsValid(db: Db, user: UserId, env: Env)
    requires Valid(db)
    ensures var (db', found) := GetOrCreate(db, user, env);
            && Valid(db')
            && (found.Some? ==> found.value.cart.user == user && found.value.cart in db'.carts)
            && (found.Some? && found.value.created ==> LinesOf(db'.lines, found.value.cart.id) == [])
  {
    FindCartExact(db.carts, user);
    DeleteKeepsValid(db, user);
    var base := if FindCart(db.carts, user).Some? then DeleteCartByUser(db, user) else db;
    if InsertCart(base, env.newId, user, env.now).Some? {
      InsertKeepsValid(base, env.newId, user, env.now);
    }
  }

  /** The user's old cart is gone; unless the insert fails or its key is taken, a new one stands in its place. */
  ghost predicate StartedAnew(db: Db, user: UserId, env: Env, db': Db, found: Option<Found>) {
    var cart := CartRow(env.newId, user, env.now);
    var inserted := !env.fault.InsertFails? && forall c :: c in db.carts && c.user != user ==> c.id != env.newId;
    && found == (if inserted then Some(Found(cart, true)) else None)
    && (forall c :: c in db'.carts <==> (c in db.carts && c.user != user) || (inserted && c == cart))
    && (forall l :: l in db'.lines <==> l in db.lines && !OfUser(db.carts, l, user))
  }

  lemma {:induction false} CreateExactly(db: Db, user: UserId, env: Env, base: Db)
    requires OnlyOthersLeft(db, user, base)
    ensures var (db', found) := CreateCart(base, user, env);
            StartedAnew(db, user, env, db', found)
  {
    hide OfUser;
    FindCartExact(base.carts, user);
    if IdTaken(base.carts, env.newId) {
      var i :| 0 <= i < |base.carts| && base.carts[i].id == env.newId;
      assert base.carts[i] in base.carts;
    }
    forall c | c in base.carts && c.id == env.newId ensures IdTaken(base.carts, env.newId) {
      var i :| 0 <= i < |base.carts| && base.carts[i] == c;
    }
  }

  /** Which cart an operation works on: the user's own one as long as its time to live, counted in hours from its
      creation, has not passed or is switched off; after that, and without one, a new one. */
  lemma {:induction false} GetOrCreateExactly(db: Db, user: UserId, env: Env)
    requires Valid(db)
    ensures var (db', found) := GetOrCreate(db, user, env);
            && (env.fault.SelectFails? ==> db' == db && found == None)
            && (!env.fault.SelectFails? && (forall c :: c in db.carts ==> c.user != user) ==>
                  StartedAnew(db, user, env, db', found))
            && (forall c :: !env.fault.SelectFails? && c in db.carts && c.user == user ==>
                  if env.ttlHours.None? then db' == db && found == None
                  else if env.ttlHours.value == 0 || env.now <= c.createdAt + 3600 * env.ttlHours.value
                  then db' == db && found == Some(Found(c, false))
                  else if env.fault.DeleteFails? then db' == db && found == None
                  else StartedAnew(db, user, env, db', found))
  {
    hide StartedAnew, OnlyOthersLeft, CreateCart, DeleteCartByUser, OneLineEach, LineOk;
    FindCartExact(db.carts, user);
    if FindCart(db.carts, user).None? {
      NobodyLeft(db, user);
      CreateExactly(db, user, env, db);
    } else {
      DeleteExactly(db, user);
      CreateExactly(db, user, env, DeleteCartByUser(db, user));
      forall c | c in db.carts && c.user == user ensures c == FindCart(db.carts, user).value {
        RowsDistinct(db.carts, c, FindCart(db.carts, user).value);
      }
    }
  }

  lemma {:induction false} NobodyLeft(db: Db, user: UserId)
    requires forall i :: 0 <= i < |db.carts| ==> db.carts[i].user != user
    ensures OnlyOthersLeft(db, user, db)
  {
  }

  ghost predicate SamePlace(a: LineRow, b: LineRow) {
    a.cart == b.cart && a.product == b.product
  }

  ghost predicate HasPlace(lines: seq<LineRow>, line: LineRow) {
    exists m :: m in lines && SamePlace(m, line)
  }

  ghost predicate HasPrice(lines: seq<LineRow>, line: LineRow) {
    exists m :: m in lines && SamePlace(m, line) && m.price == line.price
  }

  /** Where the line's place is taken, its price stays and only the quantity is set; all other lines stay. */
  lemma {:induction false} UpsertedIs(lines: seq<LineRow>, line: LineRow, l: LineRow)
    requires OneLineEach(lines)
    ensures l in Upserted(lines, line)
       <==> if !SamePlace(l, line) then l in lines
            else l.quantity == line.quantity
                 && if HasPlace(lines, line) then HasPrice(lines, l) else l.price == line.price
  {
    if lines != [] {
      var head, rest := lines[0], lines[1..];
      assert lines == [head] + rest;
      assert OneLineEach(rest);
      assert HasPlace(lines, line) <==> SamePlace(head, line) || HasPlace(rest, line);
      assert HasPrice(lines, l) <==> (SamePlace(head, l) && head.price == l.price) || HasPrice(rest, l);
      if SamePlace(head, line) {
        forall m | m in rest ensures !SamePlace(m, line) {
          var j :| 0 <= j < |rest| && rest[j] == m;
          assert lines[j + 1] == m;
        }
      } else {
        UpsertedIs(rest, line, l);
      }
    }
  }

  lemma {:induction false} UpsertKeepsValid(db: Db, line: LineRow)
    requires Valid(db) && UpsertLine(db, line).Some?
    ensures Valid(UpsertLine(db, line).value)
  {
    var db' := UpsertLine(db, line).value;
    UpsertedExact(db.lines, line);
    forall i | 0 <= i < |db'.lines| ensures LineOk(db'.carts, db'.lines[i]) {
      assert db'.lines[i] in db'.lines;
      if db'.lines[i] in db.lines {
        var j :| 0 <= j < |db.lines| && db.lines[j] == db'.lines[i];
        assert LineOk(db.carts, db.lines[j]);
      }
    }
  }

  lemma {:induction false} LinesExceptKeepsValid(db: Db, id: CartId, product: Option<ProductId>)
    requires Valid(db)
    ensures Valid(db.(lines := LinesExcept(db.lines, id, product)))
  {
    LinesExceptExact(db.lines, id, product);
    var lines := LinesExcept(db.lines, id, product);
    forall i | 0 <= i < |lines| ensures LineOk(db.carts, lines[i]) {
      assert lines[i] in db.lines;
      var j :| 0 <= j < |db.lines| && db.lines[j] == lines[i];
      assert LineOk(db.carts, db.lines[j]);
    }
  }

  /** Every operation keeps the invariant whatever fails in it, and none ever ends in the
      "cart was recreated and had products" abort: a recreated cart is empty. */
  lemma {:induction false} PerformKeepsValid(db: Db, op: CartOp)
    requires Valid(db)
    ensures Valid(Perform(db, op).0) && Perform(db, op).1 != Aborted
  {
    GetOrCreateKeepsValid(db, op.user, op.env);
    var (db1, found) := GetOrCreate(db, op.user, op.env);
    if found.Some? {
      match op {
        case GetCart(_, _) =>
        case AddProduct(_, product, quantity, answer, env) =>
          if answer.Priced? && UpsertLine(db1, LineRow(found.value.cart.id, product, quantity, answer.price)).Some? {
            UpsertKeepsValid(db1, LineRow(found.value.cart.id, product, quantity, answer.price));
          }
        case RemoveProduct(_, product, _) => LinesExceptKeepsValid(db1, found.value.cart.id, Some(product));
        case ClearCart(_, _) => LinesExceptKeepsValid(db1, found.value.cart.id, None);
        case DeleteCart(user, _) => DeleteKeepsValid(db1, user);
      }
    }
  }

  /** AddProductToCart, in the cart `GetOrCreateExactly` finds: the place of the product holds the new quantity,
      with its first price or, if it was free, with the price just fetched; every other line and every cart stays. */
  lemma {:induction false} AddExactly(db: Db, op: CartOp)
    requires Valid(db) && op.AddProduct? && GetOrCreate(db, op.user, op.env).1.Some?
    ensures var (db1, found) := GetOrCreate(db, op.user, op.env);
            var (db', outcome) := Perform(db, op);
            && outcome == (if found.value.created && op.env.fault.LinesFails? then Failed
                           else if op.answer == FetchFails then FetchFailed
                           else if op.answer == Unknown then NotFound
                           else if op.env.fault.WriteFails? || op.quantity <= 0 then Failed
                           else Done)
            && (outcome != Done ==> db' == db1)
            && (outcome == Done ==> db'.carts == db1.carts)
            && (outcome == Done ==>
                  var line := LineRow(found.value.cart.id, op.product, op.quantity, op.answer.price);
                  forall l :: l in db'.lines
                         <==> if !SamePlace(l, line) then l in db1.lines
                              else l.quantity == op.quantity
                                   && if HasPlace(db1.lines, line) then HasPrice(db1.lines, l)
                                      else l.price == op.answer.price)
  {
    hide GetOrCreate, SamePlace, HasPlace, HasPrice, Upserted, LinesOf, OneCartEach, LineOk;
    GetOrCreateKeepsValid(db, op.user, op.env);
    var (db1, found) := GetOrCreate(db, op.user, op.env);
    var i :| 0 <= i < |db1.carts| && db1.carts[i] == found.value.cart;
    assert IdTaken(db1.carts, found.value.cart.id);
    if op.answer.Priced? {
      var line := LineRow(found.value.cart.id, op.product, op.quantity, op.answer.price);
      forall l
        ensures l in Upserted(db1.lines, line)
           <==> if !SamePlace(l, line) then l in db1.lines
                else l.quantity == line.quantity
                     && if HasPlace(db1.lines, line) then HasPrice(db1.lines, l) else l.price == line.price
      {
        UpsertedIs(db1.lines, line, l);
      }
    }
  }

  /** RemoveProductFromCart takes the line of this product in this cart away, ClearCart every line of this cart,
      and DeleteCart the user's cart with its lines, unless it has just been created; nothing else ever goes. */
  lemma {:induction false} RemovalsExactly(db: Db, op: CartOp)
    requires Valid(db) && !op.AddProduct? && GetOrCreate(db, op.user, op.env).1.Some?
    ensures var (db1, found) := GetOrCreate(db, op.user, op.env);
            var (db', outcome) := Perform(db, op);
            var Found(cart, created) := found.value;
            var fails := !op.GetCart? && !created && op.env.fault.WriteFails?;
            && outcome == (if fails then Failed else Done)
            && (fails || op.GetCart? || (op.DeleteCart? && created) ==> db' == db1)
            && (!fails && op.RemoveProduct? ==> db'.carts == db1.carts && forall l ::
                  l in db'.lines <==> l in db1.lines && !(l.cart == cart.id && l.product == op.product))
            && (!fails && op.ClearCart? ==> db'.carts == db1.carts && forall l ::
                  l in db'.lines <==> l in db1.lines && l.cart != cart.id)
            && (!fails && op.DeleteCart? && !created ==> OnlyOthersLeft(db1, op.user, db'))
  {
    hide GetOrCreate, OneCartEach, OneLineEach, LineOk, LinesExcept, LinesOf, OnlyOthersLeft, DeleteCartByUser;
    GetOrCreateKeepsValid(db, op.user, op.env);
    var (db1, found) := GetOrCreate(db, op.user, op.env);
    var cart := found.value.cart;
    LinesOfExact(db1.lines, cart.id);
    if found.value.created {
      forall l | l in db1.lines ensures l.cart != cart.id {
        assert l in LinesOf(db1.lines, cart.id) <==> l.cart == cart.id;
      }
    }
    match op {
      case RemoveProduct(_, product, _) => LinesExceptExact(db1.lines, cart.id, Some(product));
      case ClearCart(_, _) => LinesExceptExact(db1.lines, cart.id, None);
      case DeleteCart(user, _) => DeleteExactly(db1, user);
      case GetCart(_, _) =>
    }
  }

  /** Without a cart to work on an operation fails and changes nothing further. */
  lemma {:induction false} NoCartNoChange(db: Db, op: CartOp)
    requires GetOrCreate(db, op.user, op.env).1.None?
    ensures Perform(db, op) == (GetOrCreate(db, op.user, op.env).0, Failed)
  {
    hide GetOrCreate;
  }

  /** The cart lifecycle: the invariant holds after every sequential run of operations, expiries and
      order events, and no operation of the run is ever answered with the recreated-cart abort. */
  lemma {:induction false} CartLifecycle(db: Db, steps: seq<CartStep>)
    requires Valid(db)
    ensures Valid(RunCarts(db, steps))
    ensures forall op :: Perform(RunCarts(db, steps), op).1 != Aborted
  {
    if steps != [] {
      var init, last := steps[..|steps| - 1], steps[|steps| - 1];
      CartLifecycle(db, init);
      match last {
        case Op(op) => PerformKeepsValid(RunCarts(db, init), op);
        case OrderEvent(user) => DeleteKeepsValid(RunCarts(db, init), user);
      }
    }
    forall op ensures Perform(RunCarts(db, steps), op).1 != Aborted {
      PerformKeepsValid(RunCarts(db, steps), op);
    }
  }
}
