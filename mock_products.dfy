/** The fixed product list used while there is no database, and the name
    lookup the receipt workflow uses for order items. */
module MockProducts {

  import Strings

  datatype MockProduct = MockProduct(id: string, name: string, priceText: string, stockQuantity: nat,
                                     categoryId: string, categoryName: string)

  const Products: seq<MockProduct> := [
    MockProduct("1", "Apple", "1.99", 100, "1", "Fruits"),
    MockProduct("2", "Banana", "0.99", 150, "1", "Fruits"),
    MockProduct("3", "Milk", "3.99", 50, "2", "Dairy"),
    MockProduct("4", "Bread", "2.49", 30, "3", "Bakery")
  ]

  /** `mockProducts.find(p => p.id === id)`, over the list `ps`. */
  function NameIn(ps: seq<MockProduct>, id: string, fallback: string): (name: string)
    ensures (exists i :: 0 <= i < |ps| && ps[i].id == id) ==>
              exists i :: 0 <= i < |ps| && ps[i].id == id && name == ps[i].name
                          && forall j :: 0 <= j < i ==> ps[j].id != id
    ensures (forall i :: 0 <= i < |ps| ==> ps[i].id != id) ==> name == fallback
    decreases |ps|
  {
    if ps == [] then fallback
    else if ps[0].id == id then ps[0].name
    else
      var r := NameIn(ps[1..], id, fallback);
      assert forall i :: 1 <= i < |ps| ==> ps[i] == ps[1..][i - 1];
      r
  }

  /** `getProductNameById`: the name of the first product with that id,
      and "Product #<id>" when there is none. */
  function ProductNameById(id: string): (name: string)
    ensures |name| > 0
    ensures (exists i :: 0 <= i < |Products| && Products[i].id == id) ==>
              exists i :: 0 <= i < |Products| && Products[i].id == id && name == Products[i].name
    ensures (forall i :: 0 <= i < |Products| ==> Products[i].id != id) ==> name == "Product #" + id
  {
    NameIn(Products, id, "Product #" + id)
  }

  /** The ids of the list are distinct, so each one names its own product. */
  lemma KnownName(i: nat)
    requires i < |Products|
    ensures ProductNameById(Products[i].id) == Products[i].name
  {
    assert forall a, b :: 0 <= a < b < |Products| ==> Products[a].id != Products[b].id;
  }

  /** Ids "1" to "4" name Apple, Banana, Milk and Bread. */
  lemma KnownNames()
    ensures ProductNameById("1") == "Apple" && ProductNameById("2") == "Banana"
    ensures ProductNameById("3") == "Milk" && ProductNameById("4") == "Bread"
  {
    KnownName(0);
    KnownName(1);
    KnownName(2);
    KnownName(3);
  }

  /** An id outside the list falls back to its "Product #" label. */
  lemma UnknownName()
    ensures ProductNameById("7") == "Product #7"
  {
    assert forall i :: 0 <= i < |Products| ==> Products[i].id != "7";
  }
}
