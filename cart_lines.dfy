/** The abstract cart: every line of the `cart_items` table seen as a quantity
    keyed by its (session, product) pair, and the three changes the handlers of
    main.py make to it. */
module CartLines {

  /** The value of the `session_id` cookie (a string column). */
  type SessionId = string

  /** The `product_id` column (an integer foreign key, never checked). */
  type ProductId = int

  /** The pair every lookup of the handlers filters on. */
  datatype LineKey = LineKey(session: SessionId, product: ProductId)

  /** The quantity of each line in the table, whatever its session. */
  type Quantities = map<LineKey, int>

  /** The table invariant on quantities: no stored line has quantity below one. */
  ghost predicate AllPositive(m: Quantities)
  {
    forall k :: k in m ==> m[k] >= 1
  }

  /** The lines of one visitor's cart. */
  function SessionCart(m: Quantities, s: SessionId): (r: Quantities)
    ensures forall k :: k in r <==> k in m && k.session == s
    ensures forall k :: k in r ==> r[k] == m[k]
  {
    map k | k in m && k.session == s :: m[k]
  }

  /** `add_to_cart`: one more of an existing line, or a new line of one. */
  function Added(m: Quantities, k: LineKey): (r: Quantities)
    ensures r.Keys == m.Keys + {k}
    ensures k in m ==> r[k] == m[k] + 1
    ensures k !in m ==> r[k] == 1
    ensures forall k' :: k' in m && k' != k ==> r[k'] == m[k']
  {
    if k in m then m[k := m[k] + 1] else m[k := 1]
  }

  /** `remove_from_cart`: one fewer of a line above one, the line gone when it
      held one (or less), nothing at all when there is no line. */
  function Removed(m: Quantities, k: LineKey): (r: Quantities)
    ensures k in m && m[k] > 1 ==> r.Keys == m.Keys && r[k] == m[k] - 1
    ensures k in m && m[k] <= 1 ==> r.Keys == m.Keys - {k}
    ensures k !in m ==> r == m
    ensures forall k' :: k' in r && k' != k ==> k' in m && r[k'] == m[k']
  {
    if k in m then
      if m[k] > 1 then m[k := m[k] - 1] else m - {k}
    else
      m
  }

  /** `clear_cart`: every line of session `s` gone, the others kept. */
  function Cleared(m: Quantities, s: SessionId): (r: Quantities)
    ensures forall k :: k in r <==> k in m && k.session != s
    ensures forall k :: k in r ==> r[k] == m[k]
  {
    map k | k in m && k.session != s :: m[k]
  }

  /** Adding never stores a quantity below one. */
  lemma AddedKeepsPositive(m: Quantities, k: LineKey)
    requires AllPositive(m)
    ensures AllPositive(Added(m, k))
  {
  }

  /** Removing never stores a quantity below one: a line at one is deleted,
      not decremented to zero. */
  lemma RemovedKeepsPositive(m: Quantities, k: LineKey)
    requires AllPositive(m)
    ensures AllPositive(Removed(m, k))
  {
  }

  /** Clearing never stores a quantity below one. */
  lemma ClearedKeepsPositive(m: Quantities, s: SessionId)
    requires AllPositive(m)
    ensures AllPositive(Cleared(m, s))
  {
  }

  /** Removing a product right after adding it gives back the cart as it was. */
  lemma RemoveUndoesAdd(m: Quantities, k: LineKey)
    requires k in m ==> m[k] >= 1
    ensures Removed(Added(m, k), k) == m
  {
  }

  /** Adding a product right after removing one of it gives back the cart, as
      long as there was a line to remove. */
  lemma AddUndoesRemove(m: Quantities, k: LineKey)
    requires k in m && m[k] >= 1
    ensures Added(Removed(m, k), k) == m
  {
  }

  /** Adding or removing for one session leaves every other session's cart as
      it was. */
  lemma OtherSessionsUntouched(m: Quantities, k: LineKey, s: SessionId)
    requires s != k.session
    ensures SessionCart(Added(m, k), s) == SessionCart(m, s)
    ensures SessionCart(Removed(m, k), s) == SessionCart(m, s)
  {
  }

  /** After clearing, the session's cart is empty; the other carts are kept. */
  lemma ClearedEmptiesOnlyThatSession(m: Quantities, s: SessionId, s': SessionId)
    ensures SessionCart(Cleared(m, s), s) == map[]
    ensures s' != s ==> SessionCart(Cleared(m, s), s') == SessionCart(m, s')
  {
  }

  /** Clearing twice is clearing once. */
  lemma ClearedIdempotent(m: Quantities, s: SessionId)
    ensures Cleared(Cleared(m, s), s) == Cleared(m, s)
  {
  }
}
