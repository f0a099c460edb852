/**
 * The in-memory category catalog of internal/category/handler.go: a
 * package-level slice of categories and a `nextID` counter, changed by the
 * create, update and delete handlers and read by the get-by-id handler.
 */
module CategoryHandler {
  import opened Wrappers
  import opened Http
  import opened PathId
  import IdList

  datatype Category = Category(id: int, name: string)

  const Prefix: string := "/api/categories/"
  const InvalidIdMessage: string := "{\"error\": \"Invalid Category ID\"}"
  const NotFoundMessage: string := "{\"error\": \"Category not found\"}"

  /** The ids of a list of categories, in list order. */
  function Ids(cs: seq<Category>): seq<int> {
    seq(|cs|, i requires 0 <= i < |cs| => cs[i].id)
  }

  lemma IdsSplice(cs: seq<Category>, i: nat)
    requires i < |cs|
    ensures Ids(cs[..i] + cs[i + 1..]) == IdList.RemoveAt(Ids(cs), i)
  {
  }

  /** The catalog state: the `categories` slice and the `nextID` counter. */
  class CategoryStore {
    var categories: seq<Category>
    var nextID: int
    /** Every id the catalog has ever held, deleted ones included. */
    ghost var issued: set<int>

    /** Ids are unique, and every id ever held lies below `nextID`, so an id
        handed out by create was never held before. */
    ghost predicate Valid()
      reads this
    {
      && IdList.Unique(Ids(categories))
      && (forall id :: id in Ids(categories) ==> id in issued)
      && (forall id :: id in issued ==> id < nextID)
    }

    /** The seed the package starts with. */
    constructor ()
      ensures Valid()
      ensures categories == [Category(1, "Makanan"), Category(2, "Minuman")]
      ensures nextID == 3 && issued == {1, 2}
    {
      categories := [Category(1, "Makanan"), Category(2, "Minuman")];
      nextID := 3;
      issued := {1, 2};
    }

    /** createCategory: the body's id is replaced by `nextID`, which then
        grows by one, and the category is appended. */
    method Create(body: Option<Category>) returns (r: Reply<Category>)
      requires Valid()
      modifies this
      ensures Valid()
      ensures body.None? ==>
        r == Error(StatusBadRequest, InvalidBodyMessage) &&
        categories == old(categories) && nextID == old(nextID) && issued == old(issued)
      ensures body.Some? ==>
        var c := body.value.(id := old(nextID));
        && r == Created(c)
        && categories == old(categories) + [c]
        && nextID == old(nextID) + 1
        && old(nextID) !in old(issued)
        && issued == old(issued) + {old(nextID)}
    {
      if body.None? {
        return Error(StatusBadRequest, InvalidBodyMessage);
      }
      var c := body.value.(id := nextID);
      assert Ids(categories + [c]) == Ids(categories) + [nextID];
      IdList.AppendUnique(Ids(categories), nextID);
      nextID := nextID + 1;
      categories := categories + [c];
      issued := issued + {c.id};
      r := Created(c);
    }

    /** deleteCategory: an unparsable id is a bad request; otherwise the first
        category with that id is spliced out, keeping the order of the rest,
        or nothing changes and the reply is not-found. `nextID` never moves,
        so a deleted id is not handed out again. */
    method Delete(path: string) returns (r: Reply<Category>)
      requires Valid()
      modifies this
      ensures Valid()
      ensures nextID == old(nextID) && issued == old(issued)
      ensures match Atoi(TrimPrefix(path, Prefix))
        case None =>
          r == Error(StatusBadRequest, InvalidIdMessage) && categories == old(categories)
        case Some(id) =>
          match IdList.FirstIndex(Ids(old(categories)), id)
          case None =>
            r == Error(StatusNotFound, NotFoundMessage) && categories == old(categories)
          case Some(i) =>
            && r == NoContent
            && categories == old(categories)[..i] + old(categories)[i + 1..]
            && id !in Ids(categories)
    {
      var parsed := Atoi(TrimPrefix(path, Prefix));
      if parsed.None? {
        return Error(StatusBadRequest, InvalidIdMessage);
      }
      var id := parsed.value;
      var i := 0;
      while i < |categories|
        invariant 0 <= i <= |categories|
        invariant categories == old(categories)
        invariant id !in Ids(categories)[..i]
      {
        if categories[i].id == id {
          assert Ids(categories)[..i + 1] == Ids(categories)[..i] + [categories[i].id];
          IdList.FirstIndexAt(Ids(categories), id, i);
          IdsSplice(categories, i);
          IdList.RemoveAtUnique(Ids(categories), i);
          categories := categories[..i] + categories[i + 1..];
          return NoContent;
        }
        assert Ids(categories)[..i + 1] == Ids(categories)[..i] + [categories[i].id];
        i := i + 1;
      }
      assert Ids(categories)[..i] == Ids(categories);
      r := Error(StatusNotFound, NotFoundMessage);
    }

    /** updateCategory: the id is parsed before the body is looked at; the
        first category with that id is replaced in place by the body, whose id
        is forced to the path id. Nothing else in the list changes. */
    method Update(path: string, body: Option<Category>) returns (r: Reply<Category>)
      requires Valid()
      modifies this
      ensures Valid()
      ensures nextID == old(nextID) && issued == old(issued)
      ensures match Atoi(TrimPrefix(path, Prefix))
        case None =>
          r == Error(StatusBadRequest, InvalidIdMessage) && categories == old(categories)
        case Some(id) =>
          if body.None? then
            r == Error(StatusBadRequest, InvalidBodyMessage) && categories == old(categories)
          else
            match IdList.FirstIndex(Ids(old(categories)), id)
            case None =>
              r == Error(StatusNotFound, NotFoundMessage) && categories == old(categories)
            case Some(i) =>
              && r == Ok(body.value.(id := id))
              && categories == old(categories)[i := body.value.(id := id)]
              && Ids(categories) == Ids(old(categories))
    {
      var parsed := Atoi(TrimPrefix(path, Prefix));
      if parsed.None? {
        return Error(StatusBadRequest, InvalidIdMessage);
      }
      var id := parsed.value;
      if body.None? {
        return Error(StatusBadRequest, InvalidBodyMessage);
      }
      var i := 0;
      while i < |categories|
        invariant 0 <= i <= |categories|
        invariant categories == old(categories)
        invariant id !in Ids(categories)[..i]
      {
        if categories[i].id == id {
          assert Ids(categories)[..i + 1] == Ids(categories)[..i] + [categories[i].id];
          IdList.FirstIndexAt(Ids(categories), id, i);
          var updated := body.value.(id := id);
          assert Ids(categories[i := updated]) == Ids(categories);
          categories := categories[i := updated];
          return Ok(updated);
        }
        assert Ids(categories)[..i + 1] == Ids(categories)[..i] + [categories[i].id];
        i := i + 1;
      }
      assert Ids(categories)[..i] == Ids(categories);
      r := Error(StatusNotFound, NotFoundMessage);
    }

    /** getCategoryByID: the first category with the parsed id, not-found when
        there is none, bad request when the id does not parse. */
    method GetByID(path: string) returns (r: Reply<Category>)
      ensures match Atoi(TrimPrefix(path, Prefix))
        case None => r == Error(StatusBadRequest, InvalidIdMessage)
        case Some(id) =>
          match IdList.FirstIndex(Ids(categories), id)
          case None => r == Error(StatusNotFound, NotFoundMessage)
          case Some(i) => r == Ok(categories[i])
    {
      var parsed := Atoi(TrimPrefix(path, Prefix));
      if parsed.None? {
        return Error(StatusBadRequest, InvalidIdMessage);
      }
      var id := parsed.value;
      var i := 0;
      while i < |categories|
        invariant 0 <= i <= |categories|
        invariant id !in Ids(categories)[..i]
      {
        if categories[i].id == id {
          assert Ids(categories)[..i + 1] == Ids(categories)[..i] + [categories[i].id];
          IdList.FirstIndexAt(Ids(categories), id, i);
          return Ok(categories[i]);
        }
        assert Ids(categories)[..i + 1] == Ids(categories)[..i] + [categories[i].id];
        i := i + 1;
      }
      assert Ids(categories)[..i] == Ids(categories);
      r := Error(StatusNotFound, NotFoundMessage);
    }
  }
}
