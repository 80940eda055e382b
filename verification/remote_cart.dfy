/**
 * The `db.cart` helpers of the backend client (src/lib/supabase/client.js),
 * run one at a time against the `cart` table. The table is abstracted to a
 * finite map from (user id, product id) to quantity; the key has no size.
 */
module RemoteCart {

  datatype Key = Key(userId: string, productId: string)

  type Rows = map<Key, int>

  /** `addItem(userId, productId, quantity)`: raise an existing row, else insert one. */
  function AddItem(rows: Rows, userId: string, productId: string, quantity: int): (r: Rows)
    ensures r.Keys == rows.Keys + {Key(userId, productId)}
    ensures Key(userId, productId) in rows ==> r[Key(userId, productId)] == rows[Key(userId, productId)] + quantity
    ensures Key(userId, productId) !in rows ==> r[Key(userId, productId)] == quantity
    ensures forall k :: k in rows && k != Key(userId, productId) ==> r[k] == rows[k]
  {
    var key := Key(userId, productId);
    if key in rows then rows[key := rows[key] + quantity] else rows[key := quantity]
  }

  /** `addItem(userId, productId)` with the default quantity of 1. */
  function AddOne(rows: Rows, userId: string, productId: string): (r: Rows)
    ensures Key(userId, productId) in r
    ensures r[Key(userId, productId)] == (if Key(userId, productId) in rows then rows[Key(userId, productId)] else 0) + 1
  {
    AddItem(rows, userId, productId, 1)
  }

  /** `updateQuantity(userId, productId, quantity)`: an update of the matching row only; no row is created. */
  function UpdateQuantity(rows: Rows, userId: string, productId: string, quantity: int): (r: Rows)
    ensures r.Keys == rows.Keys
    ensures Key(userId, productId) in rows ==> r[Key(userId, productId)] == quantity
    ensures forall k :: k in rows && k != Key(userId, productId) ==> r[k] == rows[k]
  {
    var key := Key(userId, productId);
    if key in rows then rows[key := quantity] else rows
  }

  /** `removeItem(userId, productId)`: delete the matching row, if any. */
  function RemoveItem(rows: Rows, userId: string, productId: string): (r: Rows)
    ensures r.Keys == rows.Keys - {Key(userId, productId)}
    ensures forall k :: k in r ==> r[k] == rows[k]
  {
    rows - {Key(userId, productId)}
  }

  /** `clearCart(userId)`: delete every row of that user. */
  function ClearCart(rows: Rows, userId: string): (r: Rows)
    ensures forall k :: k in r <==> k in rows && k.userId != userId
    ensures forall k :: k in r ==> r[k] == rows[k]
  {
    map k | k in rows && k.userId != userId :: rows[k]
  }

  /** `getItems(userId)`: the user's rows, by product id. */
  function ItemsOf(rows: Rows, userId: string): (items: map<string, int>)
    ensures forall p :: p in items <==> Key(userId, p) in rows
    ensures forall p :: p in items ==> items[p] == rows[Key(userId, p)]
  {
    map p | p in (set k | k in rows && k.userId == userId :: k.productId) :: rows[Key(userId, p)]
  }

  /** Two adds of one key are one add of the summed quantity. */
  lemma AddItemTwice(rows: Rows, userId: string, productId: string, q1: int, q2: int)
    ensures AddItem(AddItem(rows, userId, productId, q1), userId, productId, q2)
            == AddItem(rows, userId, productId, q1 + q2)
  {
  }

  /** Removing an absent row is a no-op, and removing twice is removing once. */
  lemma RemoveItemIdempotent(rows: Rows, userId: string, productId: string)
    ensures Key(userId, productId) !in rows ==> RemoveItem(rows, userId, productId) == rows
    ensures RemoveItem(RemoveItem(rows, userId, productId), userId, productId) == RemoveItem(rows, userId, productId)
  {
  }

  /** After `clearCart` the user has no rows, and other users' carts are as before. */
  lemma ClearCartEmptiesOnlyThatUser(rows: Rows, userId: string, other: string)
    requires other != userId
    ensures ItemsOf(ClearCart(rows, userId), userId) == map[]
    ensures ItemsOf(ClearCart(rows, userId), other) == ItemsOf(rows, other)
  {
    var after := ItemsOf(ClearCart(rows, userId), userId);
    assert forall p :: p !in after;
  }

  /** A row added for one user does not show in another user's cart. */
  lemma AddItemIsPerUser(rows: Rows, userId: string, productId: string, quantity: int, other: string)
    requires other != userId
    ensures ItemsOf(AddItem(rows, userId, productId, quantity), other) == ItemsOf(rows, other)
  {
  }
}
