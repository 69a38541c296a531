/** The storefront's persistent state and the handlers that change it. Each `localStorage` key
    (`cart`, `users`, `session`, `theme`) is a field that the handlers reassign as a whole, and
    the `data-theme` attribute of the page is one more field. */
module Storefront {
  import opened Wrappers
  import opened Builtins
  import opened Catalog
  import opened Cart
  import opened Auth
  import opened Theme

  /** How a checkout submission ends. `Aborted` is the `TypeError` thrown by `p.price` when a
      line names a product that is not in the catalog: the handler stops before clearing the cart. */
  datatype CheckoutOutcome = LoginRequired | MissingFields | EmptyCart | Aborted | Placed(grandTotal: int)

  class Store {
    /** The product list the page was loaded with, `PRODUCTS`. */
    const catalog: seq<Product>
    var cart: seq<Line>
    var users: seq<User>
    var session: Option<Session>
    var storedTheme: Option<string>
    var theme: Theme

    /** What the handlers keep true: one line per product, every line a catalog product, distinct
        trimmed emails, and a session that belongs to a saved account. */
    ghost predicate Valid()
      reads this
    {
      UniqueIds(cart) && AllInCatalog(catalog, cart) && UniqueEmails(users) && EmailsTrimmed(users) && SessionOf(users, session)
    }

    /** A page load: the persisted values are read back and `initTheme` shows the stored theme. */
    constructor(cart: seq<Line>, users: seq<User>, session: Option<Session>, storedTheme: Option<string>)
      ensures catalog == PRODUCTS
      ensures this.cart == cart && this.users == users && this.session == session
      ensures this.storedTheme == storedTheme && theme == FromStored(storedTheme)
      ensures cart == [] && users == [] && session == None ==> Valid()
    {
      catalog := PRODUCTS;
      this.cart := cart;
      this.users := users;
      this.session := session;
      this.storedTheme := storedTheme;
      theme := FromStored(storedTheme);
    }

    /** `addToCart(id, qty = 1)`: an unknown product changes nothing; otherwise the line for
        `id` gains `qty`, or a new line `{ id, qty }` is appended. The grid's button passes no
        quantity and so adds one item. */
    method AddToCart(id: int, qty: int := 1)
      modifies this`cart
      ensures FindProduct(catalog, id).None? ==> cart == old(cart)
      ensures FindProduct(catalog, id).Some? ==> cart == AddLine(old(cart), id, qty)
      ensures CartCount(cart) == old(CartCount(cart)) + (if FindProduct(catalog, id).Some? then qty else 0)
      ensures old(Valid()) ==> Valid()
      ensures old(Valid()) ==> Total(catalog, cart) == old(Total(catalog, cart)) + (if FindProduct(catalog, id).Some? then FindProduct(catalog, id).value.price * qty else 0)
    {
      var p := FindProduct(catalog, id);
      if p.None? {
        return;
      }
      ghost var before := cart;
      BumpOrAppend(id, qty);
      AddLineKeepsInvariant(catalog, before, id, qty);
      AddLineCount(before, id, qty);
      if AllInCatalog(catalog, before) {
        AddLineTotal(catalog, before, id, qty);
      }
    }

    /** The part of `addToCart` after the catalog check: `found.qty += qty` on the line for
        `id`, or `cart.push({ id, qty })` when there is none. */
    method BumpOrAppend(id: int, qty: int)
      modifies this`cart
      ensures cart == AddLine(old(cart), id, qty)
    {
      var found := FindLine(cart, id);
      if found.Some? {
        var i := found.value;
        cart := cart[i := Line(cart[i].id, cart[i].qty + qty)];
      } else {
        cart := cart + [Line(id, qty)];
      }
    }

    /** `changeQty(id, raw)`: an absent line changes nothing; otherwise its quantity becomes
        `Math.max(1, parseInt(raw) || 1)`. */
    method ChangeQty(id: int, raw: string)
      modifies this`cart
      ensures cart == SetQty(old(cart), id, ParseInt(raw))
      ensures old(Valid()) ==> Valid()
    {
      var parsed := ParseInt(raw);
      PutQty(id, parsed);
    }

    /** `changeQty` given what `parseInt` makes of the typed text (a pure reading, so taking it
        before the lookup changes nothing): the line `find` returns, if any, gets the quantity
        `Math.max(1, parsed || 1)`. */
    method PutQty(id: int, parsed: Option<int>)
      modifies this`cart
      ensures cart == SetQty(old(cart), id, parsed)
      ensures old(Valid()) ==> Valid()
    {
      SetQtyKeepsInvariant(catalog, cart, id, parsed);
      var it := FindLine(cart, id);
      if it.None? {
        return;
      }
      var i := it.value;
      cart := cart[i := Line(cart[i].id, ClampQty(parsed))];
    }

    /** `removeFromCart(id)`: the cart keeps exactly the lines for other products, in order. */
    method RemoveFromCart(id: int)
      modifies this`cart
      ensures cart == Removed(old(cart), id)
      ensures CartCount(cart) == old(CartCount(cart)) - QtySum(LinesFor(old(cart), id))
      ensures old(Valid()) ==> Valid()
    {
      RemoveKeepsInvariant(catalog, cart, id);
      QtySumRemoved(cart, id);
      cart := Removed(cart, id);
    }

    /** The signup form's submit handler: on success `saveUser` appends the new record. */
    method SignUp(rawName: string, rawEmail: string, pw: string, conf: string) returns (outcome: SignupOutcome)
      modifies this`users
      ensures outcome == Signup(old(users), rawName, rawEmail, pw, conf)
      ensures users == AfterSignup(old(users), outcome)
      ensures old(Valid()) ==> Valid()
    {
      outcome := Signup(users, rawName, rawEmail, pw, conf);
      SignupKeepsInvariant(users, rawName, rawEmail, pw, conf);
      users := AfterSignup(users, outcome);
    }

    /** The login form's submit handler: a matching account becomes the session; no match
        changes nothing. */
    method LogIn(rawEmail: string, pw: string) returns (ok: bool)
      modifies this`session
      ensures ok <==> Authenticate(old(users), rawEmail, pw).Some?
      ensures ok ==> session == Some(Session(Authenticate(old(users), rawEmail, pw).value.email,
                                             Authenticate(old(users), rawEmail, pw).value.name))
      ensures !ok ==> session == old(session)
      ensures old(Valid()) ==> Valid()
    {
      var u := Authenticate(users, rawEmail, pw);
      if u.None? {
        return false;
      }
      LoginSessionOf(users, rawEmail, pw);
      session := Some(Session(u.value.email, u.value.name));
      return true;
    }

    /** `logout`: the session is removed. */
    method LogOut()
      modifies this`session
      ensures session == None
      ensures old(Valid()) ==> Valid()
    {
      session := None;
    }

    /** The checkout form's submit handler. The guards run in order: login, then the three
        trimmed fields, then a non-empty cart; only a placed order clears the cart. */
    method Checkout(rawName: string, rawAddr: string, rawPay: string) returns (outcome: CheckoutOutcome)
      modifies this`cart
      ensures outcome == LoginRequired <==> old(session) == None
      ensures outcome == MissingFields <==>
                old(session) != None && (Trim(rawName) == [] || Trim(rawAddr) == [] || Trim(rawPay) == [])
      ensures outcome == EmptyCart <==>
                old(session) != None && Trim(rawName) != [] && Trim(rawAddr) != [] && Trim(rawPay) != [] &&
                old(cart) == []
      ensures outcome == Aborted <==>
                old(session) != None && Trim(rawName) != [] && Trim(rawAddr) != [] && Trim(rawPay) != [] &&
                old(cart) != [] && !AllInCatalog(catalog, old(cart))
      ensures outcome.Placed? ==> AllInCatalog(catalog, old(cart)) && outcome.grandTotal == Total(catalog, old(cart))
      ensures cart == if outcome.Placed? then [] else old(cart)
      ensures old(Valid()) ==> Valid() && !outcome.Aborted?
    {
      if !RequireLogin(session) {
        return LoginRequired;
      }
      var name := Trim(rawName);
      var addr := Trim(rawAddr);
      var pay := Trim(rawPay);
      if name == [] || addr == [] || pay == [] {
        return MissingFields;
      }
      if |cart| == 0 {
        return EmptyCart;
      }
      outcome := PlaceOrder();
    }

    /** The part of the checkout handler past its guards: the invoice loop adds up `grandTotal`,
        then the `cart` key is removed. */
    method PlaceOrder() returns (outcome: CheckoutOutcome)
      modifies this`cart
      ensures outcome.Aborted? || outcome.Placed?
      ensures outcome.Aborted? <==> !AllInCatalog(catalog, old(cart))
      ensures outcome.Placed? ==> outcome.grandTotal == Total(catalog, old(cart))
      ensures cart == if outcome.Placed? then [] else old(cart)
      ensures old(Valid()) ==> Valid() && !outcome.Aborted?
    {
      var grandTotal := InvoiceTotal(catalog, cart);
      if grandTotal.None? {
        return Aborted;
      }
      cart := [];
      return Placed(grandTotal.value);
    }

    /** The toggle button: the shown theme flips and the new name is stored. */
    method ToggleTheme()
      modifies this`theme, this`storedTheme
      ensures theme == Flip(old(theme)) && storedTheme == Some(Name(theme))
      ensures FromStored(storedTheme) == theme
      ensures old(Valid()) ==> Valid()
    {
      var next := Flip(theme);
      theme := next;
      storedTheme := Some(Name(next));
      StoredRoundTrip(next);
    }
  }
}
