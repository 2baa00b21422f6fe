/**
 * Rows of the four tables the handlers read and write (`users`, `products`, `purchases`,
 * `appointments`), and the first-match lookup that `rows[0]` of a `SELECT ... WHERE` performs.
 * Nullable columns are `Option`s; `None` is SQL NULL, which no `= ?` comparison matches.
 */
module Schema {
  import opened JsValues

  /** A `users` row; `client_id` / `barber_id` are filled in by signup for the two known roles. */
  datatype User = User(
    id: int,
    fullname: string,
    username: string,
    password: string,
    role: string,
    clientId: Option<int>,
    barberId: Option<int>)

  /** The role test every handler writes as `user.role === "barber"`. */
  predicate IsBarberRole(u: User) {
    u.role == "barber"
  }

  predicate IsClientRole(u: User) {
    u.role == "client"
  }

  /** A `products` row, keyed by its id. An empty `image` is a missing (falsy) file name. */
  datatype Product = Product(name: string, price: real, stock: int, image: string, barberId: int)

  /** A `purchases` row, keyed by its id; `purchase_date` is filled in by the database. */
  datatype Purchase = Purchase(productId: int, clientId: int, barberId: int, quantity: int, paymentMethod: string)

  /** An `appointments` row, keyed by its id. */
  datatype Appointment = Appointment(
    name: string,
    date: string,
    time: string,
    description: string,
    clientId: Option<int>,
    barberId: Option<int>)

  /** Index of the first row satisfying `p`, as `rows[0]` of a filtered query in storage order. */
  function FirstWhere<T>(rows: seq<T>, p: T -> bool): (r: Option<nat>)
    ensures r.Some? ==> r.value < |rows| && p(rows[r.value])
    ensures r.Some? ==> forall j :: 0 <= j < r.value ==> !p(rows[j])
    ensures r.None? <==> forall j :: 0 <= j < |rows| ==> !p(rows[j])
  {
    if |rows| == 0 then None
    else if p(rows[0]) then Some(0)
    else match FirstWhere(rows[1..], p)
      case None => None
      case Some(i) => Some(i + 1)
  }

  /** The `users` table keeps its rows in insertion order, and ids only grow. */
  predicate IdsAscending(rows: seq<User>) {
    forall i, j :: 0 <= i < j < |rows| ==> rows[i].id < rows[j].id
  }

  /** `SELECT * FROM users WHERE id = ?`, first row. */
  function UserById(rows: seq<User>, id: int): (r: Option<User>)
    ensures r.Some? ==> r.value in rows && r.value.id == id
    ensures r.None? <==> forall j :: 0 <= j < |rows| ==> rows[j].id != id
  {
    match FirstWhere(rows, (u: User) => u.id == id)
    case None => None
    case Some(i) => Some(rows[i])
  }

  /** With ascending ids, a row is the one row that its own id selects. */
  lemma UserByIdFindsRow(rows: seq<User>, k: nat)
    requires IdsAscending(rows) && k < |rows|
    ensures UserById(rows, rows[k].id) == Some(rows[k])
  {
    var p := (u: User) => u.id == rows[k].id;
    assert p(rows[k]);
    var i := FirstWhere(rows, p).value;
    assert p(rows[i]);
    assert i == k;
  }

  /**
   * The table key a `:id` path parameter selects in `WHERE id = ?`: a string of decimal
   * digits, read as its number. Anything else is taken to select no row.
   */
  function PathId(s: string): (r: Option<int>)
    ensures r.Some? <==> |s| > 0 && AllRadixDigits(s, 10)
    ensures r.Some? ==> r.value >= 0
  {
    if |s| > 0 && AllRadixDigits(s, 10) then Some(ValueOf(s, 10)) else None
  }

  /** The path of a row's own id selects that row; a leading zero selects it as well. */
  lemma PathIdOfId(n: nat)
    ensures PathId(NatToString(n)) == Some(n)
    ensures PathId("0" + NatToString(n)) == Some(n)
  {
    ValueOfDecimal(n);
    ValueOfLeadingZero(NatToString(n), 10);
  }
}
