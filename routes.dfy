/** The cart routes of main.py: each resolves the visitor's session, changes
    or reads the shared `cart_items` table, and redirects to the cart page. */
module Routes {
  import opened CartLines
  import opened CartTable
  import opened Session

  /** The reply the browser receives: a status, a location and the cookies
      it is asked to set. */
  datatype Reply = Reply(status: int, location: string, setCookies: map<string, Cookie>)

  /** `RedirectResponse(url="/cart", status_code=303)`. */
  const SeeOther := 303
  const CartPage := "/cart"

  /** `add_to_cart`: the visitor's line for the product goes up by one, or is
      created with quantity one; the product id is not checked. The session
      cookie, when issued, travels on the redirect that is returned (the
      corrected form; see `AddToCartAsWritten`). */
  method AddToCart(table: Table, requestCookies: map<string, string>, productId: ProductId, freshToken: string)
    returns (reply: Reply)
    requires table.Valid()
    modifies table
    ensures table.Valid()
    ensures table.rows == Incremented(old(table.rows), LineKey(ResolvedSession(requestCookies, freshToken), productId))
    ensures table.Lines() == Added(old(table.Lines()), LineKey(ResolvedSession(requestCookies, freshToken), productId))
    ensures reply == Reply(SeeOther, CartPage, IssuedCookies(requestCookies, freshToken))
  {
    var redirect := new Response();
    var session := GetOrCreateSessionId(requestCookies, redirect, freshToken);
    table.AddLine(session, productId);
    reply := Reply(SeeOther, CartPage, redirect.setCookies);
  }

  /** `remove_from_cart`: the visitor's line for the product goes down by one,
      or disappears when it held one; nothing happens without a line. The
      session cookie, when issued, travels on the redirect that is returned
      (the corrected form; see `RemoveFromCartAsWritten`). */
  method RemoveFromCart(table: Table, requestCookies: map<string, string>, productId: ProductId, freshToken: string)
    returns (reply: Reply)
    requires table.Valid()
    modifies table
    ensures table.Valid()
    ensures table.rows == Decremented(old(table.rows), LineKey(ResolvedSession(requestCookies, freshToken), productId))
    ensures table.Lines() == Removed(old(table.Lines()), LineKey(ResolvedSession(requestCookies, freshToken), productId))
    ensures reply == Reply(SeeOther, CartPage, IssuedCookies(requestCookies, freshToken))
  {
    var redirect := new Response();
    var session := GetOrCreateSessionId(requestCookies, redirect, freshToken);
    table.RemoveLine(session, productId);
    reply := Reply(SeeOther, CartPage, redirect.setCookies);
  }

  /** `clear_cart`: every line of the visitor's session is deleted. The
      session cookie, when issued, travels on the redirect that is returned
      (the corrected form; see `ClearCartAsWritten`). */
  method ClearCart(table: Table, requestCookies: map<string, string>, freshToken: string)
    returns (reply: Reply)
    requires table.Valid()
    modifies table
    ensures table.Valid()
    ensures table.rows == WithoutSession(old(table.rows), ResolvedSession(requestCookies, freshToken))
    ensures table.Lines() == Cleared(old(table.Lines()), ResolvedSession(requestCookies, freshToken))
    ensures reply == Reply(SeeOther, CartPage, IssuedCookies(requestCookies, freshToken))
  {
    var redirect := new Response();
    var session := GetOrCreateSessionId(requestCookies, redirect, freshToken);
    table.ClearSession(session);
    reply := Reply(SeeOther, CartPage, redirect.setCookies);
  }

  /** `view_cart`: every row of the table, whatever its session (the query
      has no session filter), each with a quantity of at least one. */
  method ViewCart(table: Table) returns (items: seq<CartItem>)
    requires table.Valid()
    ensures items == table.rows
    ensures |items| == |table.Lines()|
    ensures forall k :: k in table.Lines() <==> exists i :: 0 <= i < |items| && KeyOf(items[i]) == k
    ensures forall i :: 0 <= i < |items| ==> items[i].quantity >= 1
  {
    LineCount(table.rows);
    forall k
      ensures k in table.Lines() <==> exists i :: 0 <= i < |table.rows| && KeyOf(table.rows[i]) == k
    {
      QuantitiesOfAt(table.rows, k);
    }
    items := table.rows;
  }

  /** `add_to_cart` as main.py writes it: the cookie is set on the injected
      `response`, but the route returns a redirect of its own, and only that
      redirect reaches the browser, without the cookie. */
  method AddToCartAsWritten(table: Table, requestCookies: map<string, string>, response: Response,
                            productId: ProductId, freshToken: string)
    returns (reply: Reply)
    requires table.Valid()
    modifies table, response
    ensures table.Valid()
    ensures table.rows == Incremented(old(table.rows), LineKey(ResolvedSession(requestCookies, freshToken), productId))
    ensures table.Lines() == Added(old(table.Lines()), LineKey(ResolvedSession(requestCookies, freshToken), productId))
    ensures response.setCookies == old(response.setCookies) + IssuedCookies(requestCookies, freshToken)
    ensures reply == Reply(SeeOther, CartPage, map[])
  {
    var session := GetOrCreateSessionId(requestCookies, response, freshToken);
    table.AddLine(session, productId);
    reply := Reply(SeeOther, CartPage, map[]);
  }

  /** `remove_from_cart` as main.py writes it: the cookie is set on the
      injected `response`, and the redirect returned carries none. */
  method RemoveFromCartAsWritten(table: Table, requestCookies: map<string, string>, response: Response,
                                 productId: ProductId, freshToken: string)
    returns (reply: Reply)
    requires table.Valid()
    modifies table, response
    ensures table.Valid()
    ensures table.rows == Decremented(old(table.rows), LineKey(ResolvedSession(requestCookies, freshToken), productId))
    ensures table.Lines() == Removed(old(table.Lines()), LineKey(ResolvedSession(requestCookies, freshToken), productId))
    ensures response.setCookies == old(response.setCookies) + IssuedCookies(requestCookies, freshToken)
    ensures reply == Reply(SeeOther, CartPage, map[])
  {
    var session := GetOrCreateSessionId(requestCookies, response, freshToken);
    table.RemoveLine(session, productId);
    reply := Reply(SeeOther, CartPage, map[]);
  }

  /** `clear_cart` as main.py writes it: the cookie is set on the injected
      `response`, and the redirect returned carries none. */
  method ClearCartAsWritten(table: Table, requestCookies: map<string, string>, response: Response,
                            freshToken: string)
    returns (reply: Reply)
    requires table.Valid()
    modifies table, response
    ensures table.Valid()
    ensures table.rows == WithoutSession(old(table.rows), ResolvedSession(requestCookies, freshToken))
    ensures table.Lines() == Cleared(old(table.Lines()), ResolvedSession(requestCookies, freshToken))
    ensures response.setCookies == old(response.setCookies) + IssuedCookies(requestCookies, freshToken)
    ensures reply == Reply(SeeOther, CartPage, map[])
  {
    var session := GetOrCreateSessionId(requestCookies, response, freshToken);
    table.ClearSession(session);
    reply := Reply(SeeOther, CartPage, map[]);
  }

  /** As written, a first-time visitor who adds a product and then removes it
      is served under two different sessions: the remove finds no line and
      the added line stays in the table. */
  lemma CartLostAsWritten(m: Quantities, jar: map<string, string>, firstToken: string, secondToken: string,
                          product: ProductId)
    requires !HasSession(jar)
    requires firstToken != secondToken
    requires LineKey(secondToken, product) !in m
    ensures var first := ResolvedSession(jar, firstToken);
      var second := ResolvedSession(NextRequestCookies(jar, map[]), secondToken);
      && first != second
      && Removed(Added(m, LineKey(first, product)), LineKey(second, product)) != m
  {
  }

  /** With the cookie carried on the redirect, the same visitor's remove
      undoes the add. */
  lemma CartKeptCorrected(m: Quantities, jar: map<string, string>, firstToken: string, secondToken: string,
                          product: ProductId)
    requires AllPositive(m)
    requires firstToken != ""
    ensures var first := ResolvedSession(jar, firstToken);
      var second := ResolvedSession(NextRequestCookies(jar, IssuedCookies(jar, firstToken)), secondToken);
      && first == second
      && Removed(Added(m, LineKey(first, product)), LineKey(second, product)) == m
  {
  }

  /** With the corrected routes, a visitor who adds a product and, with the
      cookie the reply set, removes it again leaves the table's lines as they
      were. */
  method AddThenRemove(table: Table, jar: map<string, string>, productId: ProductId,
                       firstToken: string, secondToken: string)
    requires table.Valid() && firstToken != ""
    modifies table
    ensures table.Valid()
    ensures table.Lines() == old(table.Lines())
    ensures table.rows == old(table.rows)
  {
    LinesPositive(table.rows);
    var reply := AddToCart(table, jar, productId, firstToken);
    var next := NextRequestCookies(jar, reply.setCookies);
    reply := RemoveFromCart(table, next, productId, secondToken);
    CartKeptCorrected(old(table.Lines()), jar, firstToken, secondToken, productId);
    DecrementUndoesIncrement(old(table.rows), LineKey(ResolvedSession(jar, firstToken), productId));
  }

  /** With the routes as written, a first-time visitor who adds a product and
      then removes it, sending back whatever cookies the first reply set, does
      not get the table back: the added line stays. */
  method AddThenRemoveAsWritten(table: Table, jar: map<string, string>, productId: ProductId,
                                firstToken: string, secondToken: string)
    requires table.Valid() && !HasSession(jar)
    requires firstToken != secondToken
    requires LineKey(secondToken, productId) !in table.Lines()
    modifies table
    ensures table.Valid()
    ensures table.Lines() != old(table.Lines())
  {
    var injected := new Response();
    var reply := AddToCartAsWritten(table, jar, injected, productId, firstToken);
    var next := NextRequestCookies(jar, reply.setCookies);
    injected := new Response();
    reply := RemoveFromCartAsWritten(table, next, injected, productId, secondToken);
    CartLostAsWritten(old(table.Lines()), jar, firstToken, secondToken, productId);
  }
}
