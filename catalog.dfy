/**
 * `GET /products/barbers-with-products` (src/routes/products.js): the rows of the
 * users-products join, restricted for a barber to their own, are grouped by barber id into a
 * dictionary, and `Object.values` lists the groups. The object's keys are integer ids, which
 * `Object.values` enumerates in ascending numeric order.
 */
module ProductCatalog {
  import opened Schema

  /** A row of the join: the barber's id and name, and one of their products. */
  datatype JoinRow = JoinRow(
    barberId: nat,
    barberName: string,
    productId: int,
    productName: string,
    productPrice: real,
    productStock: int)

  datatype ProductView = ProductView(id: int, name: string, price: real, stock: int)

  datatype BarberGroup = BarberGroup(id: nat, name: string, products: seq<ProductView>)

  /** The object pushed into a group for a row. */
  function View(row: JoinRow): ProductView {
    ProductView(row.productId, row.productName, row.productPrice, row.productStock)
  }

  /** The rows with the given barber id, in row order (`WHERE u.id = ?`). */
  function RowsOf(rows: seq<JoinRow>, id: int): (r: seq<JoinRow>)
    ensures |r| <= |rows|
    ensures forall i :: 0 <= i < |r| ==> r[i].barberId == id
    ensures forall row :: row in r <==> row in rows && row.barberId == id
  {
    if |rows| == 0 then []
    else
      var last := rows[|rows| - 1];
      assert rows == rows[..|rows| - 1] + [last];
      RowsOf(rows[..|rows| - 1], id) + (if last.barberId == id then [last] else [])
  }

  /** The query keeps the rows' order: one more row is appended exactly when it has the id. */
  lemma RowsOfAppend(rows: seq<JoinRow>, x: JoinRow, id: int)
    ensures RowsOf(rows + [x], id) == RowsOf(rows, id) + (if x.barberId == id then [x] else [])
  {
    assert (rows + [x])[..|rows|] == rows;
  }

  /** The rows the role's query returns: a barber gets their own rows, anyone else all rows. */
  function VisibleRows(rows: seq<JoinRow>, user: User): (r: seq<JoinRow>)
    ensures IsBarberRole(user) ==> forall i :: 0 <= i < |r| ==> r[i].barberId == user.id
    ensures !IsBarberRole(user) ==> r == rows
    ensures forall row :: row in r <==> row in rows && (IsBarberRole(user) ==> row.barberId == user.id)
  {
    if IsBarberRole(user) then RowsOf(rows, user.id) else rows
  }

  /** The distinct barber ids of the rows. */
  function BarberIds(rows: seq<JoinRow>): (ids: set<nat>)
    ensures forall b :: b in ids <==> exists i :: 0 <= i < |rows| && rows[i].barberId == b
  {
    if |rows| == 0 then {}
    else
      var prefix := rows[..|rows| - 1];
      var ids := BarberIds(prefix) + {rows[|rows| - 1].barberId};
      assert forall i :: 0 <= i < |prefix| ==> prefix[i] == rows[i];
      ids
  }

  /** The products of one barber, in row order. */
  function ProductsOf(rows: seq<JoinRow>, b: nat): (ps: seq<ProductView>)
    ensures |ps| <= |rows|
  {
    if |rows| == 0 then []
    else
      var last := rows[|rows| - 1];
      ProductsOf(rows[..|rows| - 1], b) + (if last.barberId == b then [View(last)] else [])
  }

  /** A barber's group holds the barber's rows, in row order, each as the object pushed for it. */
  lemma {:induction false} ProductsOfRowsOf(rows: seq<JoinRow>, b: nat)
    ensures |ProductsOf(rows, b)| == |RowsOf(rows, b)|
    ensures forall i :: 0 <= i < |RowsOf(rows, b)| ==> ProductsOf(rows, b)[i] == View(RowsOf(rows, b)[i])
  {
    if |rows| > 0 {
      var prefix := rows[..|rows| - 1];
      ProductsOfRowsOf(prefix, b);
    }
  }

  /** The barber name a group keeps: the one of the row that created the group. */
  function FirstName(rows: seq<JoinRow>, b: nat): string
    requires b in BarberIds(rows)
  {
    var prefix := rows[..|rows| - 1];
    if b in BarberIds(prefix) then FirstName(prefix, b) else rows[|rows| - 1].barberName
  }

  /** The `barbers` dictionary after the `forEach` over the rows. */
  function Grouped(rows: seq<JoinRow>): (m: map<nat, BarberGroup>)
    ensures m.Keys == BarberIds(rows)
  {
    map b | b in BarberIds(rows) :: BarberGroup(b, FirstName(rows, b), ProductsOf(rows, b))
  }

  /** One iteration of the `forEach`: create the row's group if it is new, then push the row. */
  function AddRow(barbers: map<nat, BarberGroup>, row: JoinRow): (r: map<nat, BarberGroup>)
    ensures r.Keys == barbers.Keys + {row.barberId}
  {
    var b := row.barberId;
    var created := if b in barbers then barbers else barbers[b := BarberGroup(b, row.barberName, [])];
    created[b := created[b].(products := created[b].products + [View(row)])]
  }

  lemma {:induction false} ProductsOfAbsent(rows: seq<JoinRow>, b: nat)
    requires b !in BarberIds(rows)
    ensures ProductsOf(rows, b) == []
    decreases |rows|
  {
    if |rows| > 0 {
      var prefix := rows[..|rows| - 1];
      assert forall k :: 0 <= k < |prefix| ==> prefix[k] == rows[k];
      ProductsOfAbsent(prefix, b);
    }
  }

  lemma GroupedStep(rows: seq<JoinRow>, i: nat)
    requires i < |rows|
    ensures Grouped(rows[..i + 1]) == AddRow(Grouped(rows[..i]), rows[i])
  {
    var p := rows[..i + 1];
    var h := AddRow(Grouped(rows[..i]), rows[i]);
    BarberIdsStep(rows, i);
    forall b | b in BarberIds(p)
      ensures Grouped(p)[b] == h[b]
    {
      GroupedStepAt(rows, i, b);
    }
    assert Grouped(p).Keys == h.Keys;
  }

  lemma BarberIdsStep(rows: seq<JoinRow>, i: nat)
    requires i < |rows|
    ensures BarberIds(rows[..i + 1]) == BarberIds(rows[..i]) + {rows[i].barberId}
  {
    var p := rows[..i + 1];
    assert p[..|p| - 1] == rows[..i];
  }

  /** One group after one more row: as `AddRow` leaves or makes it. */
  lemma GroupedStepAt(rows: seq<JoinRow>, i: nat, b: nat)
    requires i < |rows| && b in BarberIds(rows[..i + 1])
    ensures b in AddRow(Grouped(rows[..i]), rows[i])
    ensures Grouped(rows[..i + 1])[b] == AddRow(Grouped(rows[..i]), rows[i])[b]
  {
    var p := rows[..i + 1];
    var prefix := rows[..i];
    assert p[..|p| - 1] == prefix;
    assert p[|p| - 1] == rows[i];
    var g := Grouped(prefix);
    var h := AddRow(g, rows[i]);
    assert ProductsOf(p, b) == ProductsOf(prefix, b) + (if rows[i].barberId == b then [View(rows[i])] else []);
    assert FirstName(p, b) == if b in BarberIds(prefix) then FirstName(prefix, b) else rows[i].barberName;
    if b != rows[i].barberId {
      assert h[b] == g[b];
    } else if b in BarberIds(prefix) {
      assert h[b] == g[b].(products := g[b].products + [View(rows[i])]);
    } else {
      ProductsOfAbsent(prefix, b);
      assert h[b] == BarberGroup(b, rows[i].barberName, [View(rows[i])]);
    }
  }

  /** The `forEach` loop filling the `barbers` dictionary. */
  method GroupRows(rows: seq<JoinRow>) returns (barbers: map<nat, BarberGroup>)
    ensures barbers == Grouped(rows)
  {
    barbers := map[];
    var i := 0;
    assert rows[..0] == [];
    while i < |rows|
      invariant 0 <= i <= |rows|
      invariant barbers == Grouped(rows[..i])
    {
      var row := rows[i];
      ghost var before := barbers;
      if row.barberId !in barbers {
        barbers := barbers[row.barberId := BarberGroup(row.barberId, row.barberName, [])];
      }
      ghost var created := barbers;
      assert created == if row.barberId in before then before
                         else before[row.barberId := BarberGroup(row.barberId, row.barberName, [])];
      var group := barbers[row.barberId];
      barbers := barbers[row.barberId := group.(products := group.products + [View(row)])];
      assert barbers == created[row.barberId := created[row.barberId].(products := created[row.barberId].products + [View(row)])];
      assert barbers == AddRow(before, row);
      GroupedStep(rows, i);
      assert barbers == Grouped(rows[..i + 1]);
      i := i + 1;
    }
    assert rows[..|rows|] == rows;
  }

  /** `m` is the least element of `s`. */
  predicate IsMin(s: set<nat>, m: nat) {
    m in s && forall k :: k in s ==> m <= k
  }
  lemma {:induction false} MinExists(s: set<nat>)
    requires s != {}
    ensures exists m :: IsMin(s, m)
    decreases |s|
  {
    var x :| x in s;
    if s != {x} {
      var t := s - {x};
      MinExists(t);
      var m :| IsMin(t, m);
      var least := if x < m then x else m;
      forall k | k in s ensures least <= k {
        if k != x {
          assert k in t;
        }
      }
      assert IsMin(s, least);
    } else {
      assert IsMin(s, x);
    }
  }
  /** The keys in the order `Object.values` visits integer keys: ascending. */
  method OrderedKeys(ids: set<nat>) returns (keys: seq<nat>)
    ensures forall i, j :: 0 <= i < j < |keys| ==> keys[i] < keys[j]
    ensures forall k :: k in ids <==> k in keys
  {
    keys := [];
    var rest := ids;
    while rest != {}
      invariant forall i, j :: 0 <= i < j < |keys| ==> keys[i] < keys[j]
      invariant forall k :: k in ids <==> k in keys || k in rest
      invariant forall i, k :: 0 <= i < |keys| && k in rest ==> keys[i] < k
      decreases |rest|
    {
      MinExists(rest);
      var k :| IsMin(rest, k);
      keys := keys + [k];
      rest := rest - {k};
    }
  }

  /** The number of products over the groups of a list. */
  function TotalProducts(list: seq<BarberGroup>): nat {
    if |list| == 0 then 0 else TotalProducts(list[..|list| - 1]) + |list[|list| - 1].products|
  }

  /** The number of products over the groups of the given barber ids. */
  function SumSizes(rows: seq<JoinRow>, ids: seq<nat>): nat {
    if |ids| == 0 then 0 else SumSizes(rows, ids[..|ids| - 1]) + |ProductsOf(rows, ids[|ids| - 1])|
  }

  predicate Distinct(ids: seq<nat>) {
    forall i, j :: 0 <= i < j < |ids| ==> ids[i] != ids[j]
  }

  /** Removing the last row removes one product from its barber's group and none elsewhere. */
  lemma {:induction false} SumSizesLastRow(rows: seq<JoinRow>, ids: seq<nat>)
    requires |rows| > 0 && Distinct(ids)
    ensures SumSizes(rows, ids) ==
      SumSizes(rows[..|rows| - 1], ids) + (if rows[|rows| - 1].barberId in ids then 1 else 0)
    decreases |ids|
  {
    if |ids| > 0 {
      var front := ids[..|ids| - 1];
      assert Distinct(front);
      SumSizesLastRow(rows, front);
      assert ids == front + [ids[|ids| - 1]];
      assert rows[|rows| - 1].barberId in ids <==>
        rows[|rows| - 1].barberId in front || rows[|rows| - 1].barberId == ids[|ids| - 1];
      assert rows[|rows| - 1].barberId == ids[|ids| - 1] ==> rows[|rows| - 1].barberId !in front;
    }
  }

  lemma {:induction false} SumSizesNoRows(rows: seq<JoinRow>, ids: seq<nat>)
    requires |rows| == 0
    ensures SumSizes(rows, ids) == 0
    decreases |ids|
  {
    if |ids| > 0 {
      SumSizesNoRows(rows, ids[..|ids| - 1]);
    }
  }

  /**
   * The groups partition the rows: over distinct ids that include every barber id, the group
   * sizes add up to the number of rows, so every row is in exactly one group.
   */
  lemma {:induction false} GroupsPartitionRows(rows: seq<JoinRow>, ids: seq<nat>)
    requires Distinct(ids)
    requires forall b :: b in BarberIds(rows) ==> b in ids
    ensures SumSizes(rows, ids) == |rows|
    decreases |rows|
  {
    if |rows| == 0 {
      SumSizesNoRows(rows, ids);
    } else {
      var prefix := rows[..|rows| - 1];
      assert forall b :: b in BarberIds(prefix) ==> b in BarberIds(rows) by {
        forall b | b in BarberIds(prefix) ensures b in BarberIds(rows) {
          var i :| 0 <= i < |prefix| && prefix[i].barberId == b;
          assert rows[i].barberId == b;
        }
      }
      assert rows[|rows| - 1].barberId in BarberIds(rows);
      GroupsPartitionRows(prefix, ids);
      SumSizesLastRow(rows, ids);
    }
  }

  /** A group's name is the barber name of the first row carrying its id. */
  lemma {:induction false} FirstNameIsFirstRow(rows: seq<JoinRow>, b: nat)
    requires b in BarberIds(rows)
    ensures FirstWhere(rows, (row: JoinRow) => row.barberId == b).Some?
    ensures FirstName(rows, b) == rows[FirstWhere(rows, (row: JoinRow) => row.barberId == b).value].barberName
    decreases |rows|
  {
    var p := (row: JoinRow) => row.barberId == b;
    var prefix := rows[..|rows| - 1];
    var i :| 0 <= i < |rows| && rows[i].barberId == b;
    assert p(rows[i]);
    var j := FirstWhere(rows, p).value;
    if b in BarberIds(prefix) {
      FirstNameIsFirstRow(prefix, b);
      var j' := FirstWhere(prefix, p).value;
      assert p(rows[j']);
      assert j <= j';
      assert prefix[j] == rows[j];
      assert j == j';
    } else {
      assert forall k :: 0 <= k < |prefix| ==> prefix[k] == rows[k] && !p(prefix[k]);
      assert j == |rows| - 1;
    }
  }

  /** `list` holds the groups of `visible`, one per barber id, by ascending id. */
  ghost predicate ListsGroups(list: seq<BarberGroup>, visible: seq<JoinRow>) {
    && (forall i, j :: 0 <= i < j < |list| ==> list[i].id < list[j].id)
    && (forall b :: b in BarberIds(visible) <==> exists i :: 0 <= i < |list| && list[i].id == b)
    && (forall i :: 0 <= i < |list| ==>
          list[i].id in BarberIds(visible)
          && list[i] == BarberGroup(list[i].id, FirstName(visible, list[i].id), ProductsOf(visible, list[i].id)))
  }

  /** The values of the grouped dictionary, read through its keys in ascending order. */
  lemma ListingFromKeys(visible: seq<JoinRow>, barbers: map<nat, BarberGroup>, keys: seq<nat>, list: seq<BarberGroup>)
    requires barbers == Grouped(visible)
    requires forall i, j :: 0 <= i < j < |keys| ==> keys[i] < keys[j]
    requires forall k :: k in barbers.Keys <==> k in keys
    requires |list| == |keys|
    requires forall i :: 0 <= i < |keys| ==> list[i] == barbers[keys[i]]
    ensures ListsGroups(list, visible)
  {
    forall b | b in BarberIds(visible)
      ensures exists i :: 0 <= i < |list| && list[i].id == b
    {
      assert b in keys;
      var i :| 0 <= i < |keys| && keys[i] == b;
      assert list[i].id == b;
    }
  }

  function GroupIds(list: seq<BarberGroup>): (ids: seq<nat>)
    ensures |ids| == |list| && forall i :: 0 <= i < |list| ==> ids[i] == list[i].id
  {
    seq(|list|, i requires 0 <= i < |list| => list[i].id)
  }

  lemma {:induction false} TotalIsSumSizes(list: seq<BarberGroup>, visible: seq<JoinRow>)
    requires forall i :: 0 <= i < |list| ==> list[i].products == ProductsOf(visible, list[i].id)
    ensures TotalProducts(list) == SumSizes(visible, GroupIds(list))
    decreases |list|
  {
    if |list| > 0 {
      var front := list[..|list| - 1];
      TotalIsSumSizes(front, visible);
      assert GroupIds(list)[..|list| - 1] == GroupIds(front);
    }
  }

  /** Every visible row is listed once: the listed groups hold as many products as there are rows. */
  lemma ListedTotal(list: seq<BarberGroup>, visible: seq<JoinRow>)
    requires ListsGroups(list, visible)
    ensures TotalProducts(list) == |visible|
  {
    TotalIsSumSizes(list, visible);
    var ids := GroupIds(list);
    forall b | b in BarberIds(visible) ensures b in ids {
      var i :| 0 <= i < |list| && list[i].id == b;
      assert ids[i] == b;
    }
    GroupsPartitionRows(visible, ids);
  }

  /** A barber's page lists only the barber's own group. */
  lemma OwnGroupOnly(list: seq<BarberGroup>, visible: seq<JoinRow>, id: int)
    requires ListsGroups(list, visible)
    requires forall i :: 0 <= i < |visible| ==> visible[i].barberId == id
    ensures forall i :: 0 <= i < |list| ==> list[i].id == id
  {
    forall i | 0 <= i < |list| ensures list[i].id == id {
      var b := list[i].id;
      assert b in BarberIds(visible);
      var k :| 0 <= k < |visible| && visible[k].barberId == b;
    }
  }

  /** The handler: the role's rows, grouped, listed by ascending barber id. */
  method BarbersWithProducts(rows: seq<JoinRow>, user: User) returns (list: seq<BarberGroup>)
    ensures ListsGroups(list, VisibleRows(rows, user))
    ensures TotalProducts(list) == |VisibleRows(rows, user)|
    ensures IsBarberRole(user) ==> forall i :: 0 <= i < |list| ==> list[i].id == user.id
  {
    var visible := VisibleRows(rows, user);
    var barbers := GroupRows(visible);
    var keys := OrderedKeys(barbers.Keys);
    list := seq(|keys|, i requires 0 <= i < |keys| => barbers[keys[i]]);
    ListingFromKeys(visible, barbers, keys, list);
    ListedTotal(list, visible);
    if IsBarberRole(user) {
      OwnGroupOnly(list, visible, user.id);
    }
  }
}
