/**
 * The in-memory product catalog of internal/product/handler.go: a
 * package-level slice of products and a `nextID` counter, changed by the
 * create, update and delete handlers and read by the get-by-id handler.
 */
module ProductHandler {
  import opened Wrappers
  import opened Http
  import opened PathId
  import IdList

  /** A product: its name (`nama`), price (`harga`) and stock (`stok`). */
  datatype Product = Product(id: int, nama: string, harga: int, stok: int)

  const Prefix: string := "/api/products/"
  const InvalidIdMessage: string := "{\"error\": \"Invalid Product ID\"}"
  const NotFoundMessage: string := "{\"error\": \"Product not found\"}"

  /** The ids of a list of products, in list order. */
  function Ids(cs: seq<Product>): seq<int> {
    seq(|cs|, i requires 0 <= i < |cs| => cs[i].id)
  }

  lemma IdsSplice(cs: seq<Product>, i: nat)
    requires i < |cs|
    ensures Ids(cs[..i] + cs[i + 1..]) == IdList.RemoveAt(Ids(cs), i)
  {
  }

  /** The catalog state: the `products` slice and the `nextID` counter. */
  class ProductStore {
    var products: seq<Product>
    var nextID: int
    /** Every id the catalog has ever held, deleted ones included. */
    ghost var issued: set<int>

    /** Ids are unique, and every id ever held lies below `nextID`, so an id
        handed out by create was never held before. */
    ghost predicate Valid()
      reads this
    {
      && IdList.Unique(Ids(products))
      && (forall id :: id in Ids(products) ==> id in issued)
      && (forall id :: id in issued ==> id < nextID)
    }

    /** The seed the package starts with. */
    constructor ()
      ensures Valid()
      ensures products == [
        Product(1, "Indomie Godog", 3500, 10),
        Product(2, "Vit 1000ml", 3000, 40),
        Product(3, "kecap", 12000, 20)]
      ensures nextID == 4 && issued == {1, 2, 3}
    {
      products := [
        Product(1, "Indomie Godog", 3500, 10),
        Product(2, "Vit 1000ml", 3000, 40),
        Product(3, "kecap", 12000, 20)];
      nextID := 4;
      issued := {1, 2, 3};
    }

    /** createProduct: the body's id is replaced by `nextID`, which then
        grows by one, and the product is appended with the body's name, price
        and stock. */
    method Create(body: Option<Product>) returns (r: Reply<Product>)
      requires Valid()
      modifies this
      ensures Valid()
      ensures body.None? ==>
        r == Error(StatusBadRequest, InvalidBodyMessage) &&
        products == old(products) && nextID == old(nextID) && issued == old(issued)
      ensures body.Some? ==>
        var c := body.value.(id := old(nextID));
        && r == Created(c)
        && products == old(products) + [c]
        && nextID == old(nextID) + 1
        && old(nextID) !in old(issued)
        && issued == old(issued) + {old(nextID)}
    {
      if body.None? {
        return Error(StatusBadRequest, InvalidBodyMessage);
      }
      var c := body.value.(id := nextID);
      assert Ids(products + [c]) == Ids(products) + [nextID];
      IdList.AppendUnique(Ids(products), nextID);
      nextID := nextID + 1;
      products := products + [c];
      issued := issued + {c.id};
      r := Created(c);
    }

    /** deleteProduct: an unparsable id is a bad request; otherwise the first
        product with that id is spliced out, keeping the order of the rest,
        or nothing changes and the reply is not-found. `nextID` never moves,
        so a deleted id is not handed out again. */
    method Delete(path: string) returns (r: Reply<Product>)
      requires Valid()
      modifies this
      ensures Valid()
      ensures nextID == old(nextID) && issued == old(issued)
      ensures match Atoi(TrimPrefix(path, Prefix))
        case None =>
          r == Error(StatusBadRequest, InvalidIdMessage) && products == old(products)
        case Some(id) =>
          match IdList.FirstIndex(Ids(old(products)), id)
          case None =>
            r == Error(StatusNotFound, NotFoundMessage) && products == old(products)
          case Some(i) =>
            && r == NoContent
            && products == old(products)[..i] + old(products)[i + 1..]
            && id !in Ids(products)
    {
      var parsed := Atoi(TrimPrefix(path, Prefix));
      if parsed.None? {
        return Error(StatusBadRequest, InvalidIdMessage);
      }
      var id := parsed.value;
      var i := 0;
      while i < |products|
        invariant 0 <= i <= |products|
        invariant products == old(products)
        invariant id !in Ids(products)[..i]
      {
        if products[i].id == id {
          assert Ids(products)[..i + 1] == Ids(products)[..i] + [products[i].id];
          IdList.FirstIndexAt(Ids(products), id, i);
          IdsSplice(products, i);
          IdList.RemoveAtUnique(Ids(products), i);
          products := products[..i] + products[i + 1..];
          return NoContent;
        }
        assert Ids(products)[..i + 1] == Ids(products)[..i] + [products[i].id];
        i := i + 1;
      }
      assert Ids(products)[..i] == Ids(products);
      r := Error(StatusNotFound, NotFoundMessage);
    }

    /** updateProduct: the id is parsed before the body is looked at; the
        first product with that id is replaced in place by the body, whose id
        is forced to the path id. Nothing else in the list changes. */
    method Update(path: string, body: Option<Product>) returns (r: Reply<Product>)
      requires Valid()
      modifies this
      ensures Valid()
      ensures nextID == old(nextID) && issued == old(issued)
      ensures match Atoi(TrimPrefix(path, Prefix))
        case None =>
          r == Error(StatusBadRequest, InvalidIdMessage) && products == old(products)
        case Some(id) =>
          if body.None? then
            r == Error(StatusBadRequest, InvalidBodyMessage) && products == old(products)
          else
            match IdList.FirstIndex(Ids(old(products)), id)
            case None =>
              r == Error(StatusNotFound, NotFoundMessage) && products == old(products)
            case Some(i) =>
              && r == Ok(body.value.(id := id))
              && products == old(products)[i := body.value.(id := id)]
              && Ids(products) == Ids(old(products))
    {
      var parsed := Atoi(TrimPrefix(path, Prefix));
      if parsed.None? {
        return Error(StatusBadRequest, InvalidIdMessage);
      }
      var id := parsed.value;
      if body.None? {
        return Error(StatusBadRequest, InvalidBodyMessage);
      }
      var i := 0;
      while i < |products|
        invariant 0 <= i <= |products|
        invariant products == old(products)
        invariant id !in Ids(products)[..i]
      {
        if products[i].id == id {
          assert Ids(products)[..i + 1] == Ids(products)[..i] + [products[i].id];
          IdList.FirstIndexAt(Ids(products), id, i);
          var updated := body.value.(id := id);
          assert Ids(products[i := updated]) == Ids(products);
          products := products[i := updated];
          return Ok(updated);
        }
        assert Ids(products)[..i + 1] == Ids(products)[..i] + [products[i].id];
        i := i + 1;
      }
      assert Ids(products)[..i] == Ids(products);
      r := Error(StatusNotFound, NotFoundMessage);
    }

    /** getProductByID: the first product with the parsed id, not-found when
        there is none, bad request when the id does not parse. */
    method GetByID(path: string) returns (r: Reply<Product>)
      ensures match Atoi(TrimPrefix(path, Prefix))
        case None => r == Error(StatusBadRequest, InvalidIdMessage)
        case Some(id) =>
          match IdList.FirstIndex(Ids(products), id)
          case None => r == Error(StatusNotFound, NotFoundMessage)
          case Some(i) => r == Ok(products[i])
    {
      var parsed := Atoi(TrimPrefix(path, Prefix));
      if parsed.None? {
        return Error(StatusBadRequest, InvalidIdMessage);
      }
      var id := parsed.value;
      var i := 0;
      while i < |products|
        invariant 0 <= i <= |products|
        invariant id !in Ids(products)[..i]
      {
        if products[i].id == id {
          assert Ids(products)[..i + 1] == Ids(products)[..i] + [products[i].id];
          IdList.FirstIndexAt(Ids(products), id, i);
          return Ok(products[i]);
        }
        assert Ids(products)[..i + 1] == Ids(products)[..i] + [products[i].id];
        i := i + 1;
      }
      assert Ids(products)[..i] == Ids(products);
      r := Error(StatusNotFound, NotFoundMessage);
    }
  }
}
