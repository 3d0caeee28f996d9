/** What the products and categories admin pages share: the local list
    updates after a successful request and the request each action sends.
    Items are identified by `idOf`. */
module AdminLists {

  import opened Wrappers
  import Lists

  /** After a successful edit: `prev.map(x => x.id === id ? result : x)`. */
  function Replace<T>(xs: seq<T>, idOf: T -> string, id: string, result: T): (r: seq<T>)
    ensures |r| == |xs|
    ensures forall i :: 0 <= i < |xs| ==> r[i] == if idOf(xs[i]) == id then result else xs[i]
  {
    Lists.MapIf(xs, (x: T) => idOf(x) == id, (x: T) => result)
  }

  /** After a successful create: `[...prev, result]`. */
  function Append<T>(xs: seq<T>, result: T): (r: seq<T>)
    ensures |r| == |xs| + 1 && r[..|xs|] == xs && r[|xs|] == result
  {
    xs + [result]
  }

  /** After a successful delete: `prev.filter(x => x.id !== id)`. */
  function Remove<T>(xs: seq<T>, idOf: T -> string, id: string): (r: seq<T>)
    ensures |r| <= |xs|
    ensures forall i :: 0 <= i < |r| ==> r[i] in xs && idOf(r[i]) != id
    ensures forall i :: 0 <= i < |xs| && idOf(xs[i]) != id ==> xs[i] in r
  {
    Lists.Filter(xs, (x: T) => idOf(x) != id)
  }

  /** Deleting from a list in two parts deletes from each part and keeps
      them in order, so the remaining items keep their relative order. */
  lemma RemoveAppend<T>(a: seq<T>, b: seq<T>, idOf: T -> string, id: string)
    ensures Remove(a + b, idOf, id) == Remove(a, idOf, id) + Remove(b, idOf, id)
  {
    Lists.FilterAppend(a, b, (x: T) => idOf(x) != id);
  }

  /** An edit the server answers with the same id keeps every position's
      id, so the list still holds the same items in the same order. */
  lemma ReplaceKeepsIds<T>(xs: seq<T>, idOf: T -> string, id: string, result: T)
    requires idOf(result) == id
    ensures var r := Replace(xs, idOf, id, result);
      forall i :: 0 <= i < |xs| ==> idOf(r[i]) == idOf(xs[i])
  {
  }

  /** Editing or deleting an id the list does not hold changes nothing. */
  lemma {:induction false} AbsentUnchanged<T>(xs: seq<T>, idOf: T -> string, id: string, result: T)
    requires forall i :: 0 <= i < |xs| ==> idOf(xs[i]) != id
    ensures Replace(xs, idOf, id, result) == xs
    ensures Remove(xs, idOf, id) == xs
  {
    Lists.FilterAll(xs, (x: T) => idOf(x) != id);
  }

  /** Deleting an item after editing it leaves what deleting it alone
      leaves: the edit touched nothing else. */
  lemma {:induction false} RemoveAfterReplace<T>(xs: seq<T>, idOf: T -> string, id: string, result: T)
    requires idOf(result) == id
    ensures Remove(Replace(xs, idOf, id, result), idOf, id) == Remove(xs, idOf, id)
    decreases |xs|
  {
    if xs != [] {
      var r := Replace(xs, idOf, id, result);
      RemoveAfterReplace(xs[1..], idOf, id, result);
      assert r[1..] == Replace(xs[1..], idOf, id, result);
      assert r == [r[0]] + r[1..];
      assert xs == [xs[0]] + xs[1..];
      Lists.FilterAppend([r[0]], r[1..], (x: T) => idOf(x) != id);
      Lists.FilterAppend([xs[0]], xs[1..], (x: T) => idOf(x) != id);
    }
  }

  /** Deleting a just-created item gives back the older items that have
      another id, in their order. */
  lemma RemoveAfterAppend<T>(xs: seq<T>, idOf: T -> string, result: T)
    ensures Remove(Append(xs, result), idOf, idOf(result)) == Remove(xs, idOf, idOf(result))
  {
    Lists.FilterSnoc(xs, result, (x: T) => idOf(x) != idOf(result));
  }

  /** What a request is sent as. */
  datatype Request = Request(verb: string, url: string)

  /** `handleSubmit`: `PUT <collection>/<id>` while an item is being
      edited, `POST <collection>` otherwise. */
  function SubmitRequest(collection: string, editingId: Option<string>): (r: Request)
    ensures r.verb == "PUT" <==> editingId.Some?
    ensures r.verb == "POST" <==> editingId.None?
  {
    match editingId
    case Some(id) => Request("PUT", ItemUrl(collection, id))
    case None => Request("POST", collection)
  }

  /** `handleDelete`: `DELETE <collection>/<id>`. */
  function DeleteRequest(collection: string, id: string): (r: Request)
    ensures r.verb == "DELETE"
  {
    Request("DELETE", ItemUrl(collection, id))
  }

  function ItemUrl(collection: string, id: string): string {
    collection + "/" + id
  }

  /** Saving an edit and deleting address the same item URL, distinct ids
      address distinct URLs, and no item URL is the collection's own. */
  lemma RequestTargets(collection: string, id: string, other: string)
    ensures SubmitRequest(collection, Some(id)).url == DeleteRequest(collection, id).url
    ensures id != other ==> DeleteRequest(collection, id).url != DeleteRequest(collection, other).url
    ensures DeleteRequest(collection, id).url != SubmitRequest(collection, None).url
  {
    assert ItemUrl(collection, id)[|collection| + 1..] == id;
    assert ItemUrl(collection, other)[|collection| + 1..] == other;
  }
}
