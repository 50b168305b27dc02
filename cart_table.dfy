/** The `cart_items` table as rows, and the in-place updates the cart handlers
    of main.py make to it. */
module CartTable {
  import opened CartLines

  datatype Option<T> = None | Some(value: T)

  /** One row of `cart_items`: its primary key, the visitor's session, the
      product and the quantity. */
  datatype CartItem = CartItem(id: int, sessionId: SessionId, productId: ProductId, quantity: int)

  function KeyOf(item: CartItem): LineKey
  {
    LineKey(item.sessionId, item.productId)
  }

  /** The table invariant: the (session, product) pair and the primary key are
      unique, every id is a positive rowid and every quantity is at least one. */
  ghost predicate WellFormed(rows: seq<CartItem>)
  {
    && (forall i, j :: 0 <= i < j < |rows| ==> KeyOf(rows[i]) != KeyOf(rows[j]))
    && (forall i, j :: 0 <= i < j < |rows| ==> rows[i].id != rows[j].id)
    && (forall i :: 0 <= i < |rows| ==> rows[i].id >= 1 && rows[i].quantity >= 1)
  }

  /** `filter_by(session_id=…, product_id=…).first()`: the position of the
      first row with key `k`, if any. */
  function FirstMatch(rows: seq<CartItem>, k: LineKey): (r: Option<nat>)
    ensures r.Some? ==> r.value < |rows| && KeyOf(rows[r.value]) == k
    ensures r.Some? ==> forall j :: 0 <= j < r.value ==> KeyOf(rows[j]) != k
    ensures r.None? <==> forall j :: 0 <= j < |rows| ==> KeyOf(rows[j]) != k
  {
    if rows == [] then None
    else if KeyOf(rows[0]) == k then Some(0)
    else match FirstMatch(rows[1..], k)
      case None => None
      case Some(i) => Some(i + 1)
  }

  /** The quantity each key has in the table, as the lookup above sees it. */
  function QuantitiesOf(rows: seq<CartItem>): Quantities
  {
    if rows == [] then map[]
    else QuantitiesOf(rows[1..])[KeyOf(rows[0]) := rows[0].quantity]
  }

  /** The largest primary key in the table, 0 for an empty table. */
  function LargestId(rows: seq<CartItem>): (r: int)
    ensures r >= 0
    ensures forall i :: 0 <= i < |rows| ==> rows[i].id <= r
    ensures r != 0 ==> exists i :: 0 <= i < |rows| && rows[i].id == r
  {
    if rows == [] then 0
    else
      var rest := LargestId(rows[1..]);
      if rows[0].id > rest then rows[0].id else rest
  }

  /** The row `add_to_cart` inserts: quantity 1 and the next rowid. */
  function NewLine(rows: seq<CartItem>, k: LineKey): CartItem
  {
    CartItem(LargestId(rows) + 1, k.session, k.product, 1)
  }

  /** The table without its row at position `i`. */
  function DeleteAt(rows: seq<CartItem>, i: nat): (r: seq<CartItem>)
    requires i < |rows|
    ensures |r| == |rows| - 1
    ensures forall j :: 0 <= j < i ==> r[j] == rows[j]
    ensures forall j :: i <= j < |r| ==> r[j] == rows[j + 1]
  {
    rows[..i] + rows[i + 1..]
  }

  /** The table after `add_to_cart` for key `k`. */
  function Incremented(rows: seq<CartItem>, k: LineKey): seq<CartItem>
  {
    match FirstMatch(rows, k)
    case Some(i) => rows[i := rows[i].(quantity := rows[i].quantity + 1)]
    case None => rows + [NewLine(rows, k)]
  }

  /** The table after `remove_from_cart` for key `k`. */
  function Decremented(rows: seq<CartItem>, k: LineKey): seq<CartItem>
  {
    match FirstMatch(rows, k)
    case Some(i) =>
      if rows[i].quantity > 1 then rows[i := rows[i].(quantity := rows[i].quantity - 1)]
      else DeleteAt(rows, i)
    case None => rows
  }

  /** `filter_by(session_id=s).delete()`: the rows of other sessions, in order. */
  function WithoutSession(rows: seq<CartItem>, s: SessionId): (r: seq<CartItem>)
    ensures forall x :: x in r <==> x in rows && x.sessionId != s
    ensures |r| <= |rows|
  {
    if rows == [] then []
    else if rows[0].sessionId == s then WithoutSession(rows[1..], s)
    else [rows[0]] + WithoutSession(rows[1..], s)
  }

  /** A key has a quantity exactly when the lookup finds a row for it, and
      that quantity is the found row's. */
  lemma {:induction false} QuantitiesOfAt(rows: seq<CartItem>, k: LineKey)
    ensures k in QuantitiesOf(rows) <==> FirstMatch(rows, k).Some?
    ensures k in QuantitiesOf(rows) ==> QuantitiesOf(rows)[k] == rows[FirstMatch(rows, k).value].quantity
  {
    if rows != [] && KeyOf(rows[0]) != k {
      QuantitiesOfAt(rows[1..], k);
    }
  }

  /** A row whose key already occurs is found at its own position. */
  lemma FirstMatchAt(rows: seq<CartItem>, i: nat)
    requires WellFormed(rows) && i < |rows|
    ensures FirstMatch(rows, KeyOf(rows[i])) == Some(i)
  {
  }

  /** Changing one row's quantity, where that row is the first of its key,
      changes that key's quantity and no other. */
  lemma {:induction false} QuantitiesOfUpdate(rows: seq<CartItem>, i: nat, q: int)
    requires i < |rows|
    requires forall j :: 0 <= j < i ==> KeyOf(rows[j]) != KeyOf(rows[i])
    ensures QuantitiesOf(rows[i := rows[i].(quantity := q)]) == QuantitiesOf(rows)[KeyOf(rows[i]) := q]
  {
    var rows' := rows[i := rows[i].(quantity := q)];
    if i == 0 {
      assert rows'[1..] == rows[1..];
    } else {
      assert rows'[1..] == rows[1..][i - 1 := rows[i].(quantity := q)];
      QuantitiesOfUpdate(rows[1..], i - 1, q);
    }
  }

  /** Appending a row whose key is new adds that key and changes nothing else. */
  lemma {:induction false} QuantitiesOfAppend(rows: seq<CartItem>, item: CartItem)
    requires FirstMatch(rows, KeyOf(item)).None?
    ensures QuantitiesOf(rows + [item]) == QuantitiesOf(rows)[KeyOf(item) := item.quantity]
  {
    if rows == [] {
      assert [item][1..] == [];
    } else {
      assert (rows + [item])[1..] == rows[1..] + [item];
      QuantitiesOfAppend(rows[1..], item);
    }
  }

  /** Deleting a row of a table with unique keys removes exactly its key. */
  lemma {:induction false} QuantitiesOfDelete(rows: seq<CartItem>, i: nat)
    requires WellFormed(rows) && i < |rows|
    ensures QuantitiesOf(DeleteAt(rows, i)) == QuantitiesOf(rows) - {KeyOf(rows[i])}
  {
    var k := KeyOf(rows[i]);
    if i == 0 {
      assert DeleteAt(rows, 0) == rows[1..];
      assert FirstMatch(rows[1..], k).None?;
      QuantitiesOfAt(rows[1..], k);
      assert QuantitiesOf(rows[1..]) == QuantitiesOf(rows[1..])[k := rows[0].quantity] - {k};
    } else {
      var d := DeleteAt(rows, i);
      assert d[0] == rows[0];
      assert d[1..] == DeleteAt(rows[1..], i - 1);
      assert WellFormed(rows[1..]);
      QuantitiesOfDelete(rows[1..], i - 1);
      assert KeyOf(rows[0]) != k;
    }
  }

  /** Bulk deletion of a session's rows is `Cleared` on quantities. */
  lemma {:induction false} QuantitiesOfWithoutSession(rows: seq<CartItem>, s: SessionId)
    ensures QuantitiesOf(WithoutSession(rows, s)) == Cleared(QuantitiesOf(rows), s)
  {
    if rows != [] {
      QuantitiesOfWithoutSession(rows[1..], s);
      if rows[0].sessionId != s {
        assert ([rows[0]] + WithoutSession(rows[1..], s))[1..] == WithoutSession(rows[1..], s);
      }
    }
  }

  /** The invariant of a table made of a first row and the rest. */
  lemma WellFormedCons(h: CartItem, t: seq<CartItem>)
    requires WellFormed(t) && h.id >= 1 && h.quantity >= 1
    requires forall x :: x in t ==> KeyOf(x) != KeyOf(h) && x.id != h.id
    ensures WellFormed([h] + t)
  {
  }

  /** Every row after the first is distinct from the first, in key and id. */
  lemma WellFormedTail(rows: seq<CartItem>)
    requires WellFormed(rows) && rows != []
    ensures WellFormed(rows[1..])
    ensures forall x :: x in rows[1..] ==> KeyOf(x) != KeyOf(rows[0]) && x.id != rows[0].id
  {
  }

  /** Bulk deletion keeps the table invariant. */
  lemma {:induction false} WithoutSessionWellFormed(rows: seq<CartItem>, s: SessionId)
    requires WellFormed(rows)
    ensures WellFormed(WithoutSession(rows, s))
  {
    if rows != [] {
      WellFormedTail(rows);
      WithoutSessionWellFormed(rows[1..], s);
      if rows[0].sessionId != s {
        WellFormedCons(rows[0], WithoutSession(rows[1..], s));
      }
    }
  }

  /** Raising or lowering one row's quantity to a positive value keeps the
      invariant. */
  lemma SetQuantityWellFormed(rows: seq<CartItem>, i: nat, q: int)
    requires WellFormed(rows) && i < |rows| && q >= 1
    ensures WellFormed(rows[i := rows[i].(quantity := q)])
  {
  }

  /** Appending the row `add_to_cart` inserts for a new key keeps the invariant. */
  lemma AppendWellFormed(rows: seq<CartItem>, k: LineKey)
    requires WellFormed(rows) && FirstMatch(rows, k).None?
    ensures WellFormed(rows + [NewLine(rows, k)])
  {
  }

  /** Deleting a row keeps the invariant. */
  lemma DeleteWellFormed(rows: seq<CartItem>, i: nat)
    requires WellFormed(rows) && i < |rows|
    ensures WellFormed(DeleteAt(rows, i))
  {
  }

  /** The rows `add_to_cart` leaves: unique keys and ids, positive quantities,
      and quantities moved exactly as `Added` says. */
  lemma IncrementedRefinesAdded(rows: seq<CartItem>, k: LineKey)
    requires WellFormed(rows)
    ensures WellFormed(Incremented(rows, k))
    ensures QuantitiesOf(Incremented(rows, k)) == Added(QuantitiesOf(rows), k)
  {
    var found := FirstMatch(rows, k);
    QuantitiesOfAt(rows, k);
    if found.Some? {
      var i := found.value;
      SetQuantityWellFormed(rows, i, rows[i].quantity + 1);
      QuantitiesOfUpdate(rows, i, rows[i].quantity + 1);
    } else {
      AppendWellFormed(rows, k);
      QuantitiesOfAppend(rows, NewLine(rows, k));
    }
  }

  /** The rows `remove_from_cart` leaves: unique keys and ids, positive
      quantities, and quantities moved exactly as `Removed` says. */
  lemma DecrementedRefinesRemoved(rows: seq<CartItem>, k: LineKey)
    requires WellFormed(rows)
    ensures WellFormed(Decremented(rows, k))
    ensures QuantitiesOf(Decremented(rows, k)) == Removed(QuantitiesOf(rows), k)
  {
    var found := FirstMatch(rows, k);
    QuantitiesOfAt(rows, k);
    if found.Some? {
      var i := found.value;
      if rows[i].quantity > 1 {
        SetQuantityWellFormed(rows, i, rows[i].quantity - 1);
        QuantitiesOfUpdate(rows, i, rows[i].quantity - 1);
      } else {
        DeleteWellFormed(rows, i);
        QuantitiesOfDelete(rows, i);
      }
    }
  }

  /** The rows `clear_cart` leaves: the invariant kept and quantities moved
      exactly as `Cleared` says. */
  lemma WithoutSessionRefinesCleared(rows: seq<CartItem>, s: SessionId)
    requires WellFormed(rows)
    ensures WellFormed(WithoutSession(rows, s))
    ensures QuantitiesOf(WithoutSession(rows, s)) == Cleared(QuantitiesOf(rows), s)
  {
    WithoutSessionWellFormed(rows, s);
    QuantitiesOfWithoutSession(rows, s);
  }

  /** `remove_from_cart` right after `add_to_cart` for the same key gives back
      exactly the same rows, ids included. */
  lemma DecrementUndoesIncrement(rows: seq<CartItem>, k: LineKey)
    requires WellFormed(rows)
    ensures Decremented(Incremented(rows, k), k) == rows
  {
    IncrementedRefinesAdded(rows, k);
    var rows' := Incremented(rows, k);
    match FirstMatch(rows, k)
    case Some(i) =>
      FirstMatchAt(rows', i);
      assert rows'[i := rows'[i].(quantity := rows'[i].quantity - 1)] == rows;
    case None =>
      FirstMatchAt(rows', |rows|);
      assert DeleteAt(rows', |rows|) == rows;
  }

  /** Clearing a session twice leaves the same rows as clearing it once. */
  lemma {:induction false} WithoutSessionIdempotent(rows: seq<CartItem>, s: SessionId)
    ensures WithoutSession(WithoutSession(rows, s), s) == WithoutSession(rows, s)
  {
    if rows != [] {
      WithoutSessionIdempotent(rows[1..], s);
      if rows[0].sessionId != s {
        assert ([rows[0]] + WithoutSession(rows[1..], s))[1..] == WithoutSession(rows[1..], s);
      }
    }
  }

  /** With unique keys there is exactly one key per row. */
  lemma {:induction false} LineCount(rows: seq<CartItem>)
    requires WellFormed(rows)
    ensures |QuantitiesOf(rows)| == |rows|
  {
    if rows != [] {
      assert WellFormed(rows[1..]);
      LineCount(rows[1..]);
      assert FirstMatch(rows[1..], KeyOf(rows[0])).None?;
      QuantitiesOfAt(rows[1..], KeyOf(rows[0]));
    }
  }

  /** No line of a well-formed table has a quantity below one. */
  lemma LinesPositive(rows: seq<CartItem>)
    requires WellFormed(rows)
    ensures AllPositive(QuantitiesOf(rows))
  {
  }

  /** The `cart_items` table of main.py:42-50, shared by all visitors. */
  class Table {
    var rows: seq<CartItem>

    ghost predicate Valid()
      reads this
    {
      WellFormed(rows)
    }

    /** The quantity of every line of every session. */
    function Lines(): Quantities
      reads this
    {
      QuantitiesOf(rows)
    }

    constructor ()
      ensures Valid() && rows == []
    {
      rows := [];
    }

    /** The table part of `add_to_cart`: look the line up, then bump its
        quantity in place or insert a new row of quantity 1. */
    method AddLine(session: SessionId, product: ProductId)
      requires Valid()
      modifies this
      ensures Valid()
      ensures rows == Incremented(old(rows), LineKey(session, product))
      ensures Lines() == Added(old(Lines()), LineKey(session, product))
    {
      var k := LineKey(session, product);
      IncrementedRefinesAdded(rows, k);
      var found := FirstMatch(rows, k);
      if found.Some? {
        var i := found.value;
        rows := rows[i := rows[i].(quantity := rows[i].quantity + 1)];
      } else {
        rows := rows + [CartItem(LargestId(rows) + 1, session, product, 1)];
      }
    }

    /** The table part of `remove_from_cart`: look the line up; if there is
        one, decrement it in place when above one, delete it otherwise. */
    method RemoveLine(session: SessionId, product: ProductId)
      requires Valid()
      modifies this
      ensures Valid()
      ensures rows == Decremented(old(rows), LineKey(session, product))
      ensures Lines() == Removed(old(Lines()), LineKey(session, product))
    {
      var k := LineKey(session, product);
      DecrementedRefinesRemoved(rows, k);
      var found := FirstMatch(rows, k);
      if found.Some? {
        var i := found.value;
        if rows[i].quantity > 1 {
          rows := rows[i := rows[i].(quantity := rows[i].quantity - 1)];
        } else {
          rows := rows[..i] + rows[i + 1..];
        }
      }
    }

    /** The table part of `clear_cart`: delete every row of the session. */
    method ClearSession(session: SessionId)
      requires Valid()
      modifies this
      ensures Valid()
      ensures rows == WithoutSession(old(rows), session)
      ensures Lines() == Cleared(old(Lines()), session)
    {
      WithoutSessionRefinesCleared(rows, session);
      rows := WithoutSession(rows, session);
    }
  }
}
