/**
 * The list operations the product handlers of server.js perform on the
 * parsed contents of products.json: push, find-and-set-status, and
 * findIndex-and-splice. Every lookup is by strict equality on `id`, and the
 * first match wins when ids repeat (nothing keeps them unique).
 */
module Catalog {
  import opened Wrappers

  datatype Product = Product(id: string, name: string, note: string, price: int, status: string)

  /** `i` is the index `products.findIndex(p => p.id === id)` returns. */
  predicate FirstMatch(ps: seq<Product>, id: string, i: nat)
  {
    i < |ps| && ps[i].id == id && forall j :: 0 <= j < i ==> ps[j].id != id
  }

  /** Some product carries `id`. */
  predicate HasId(ps: seq<Product>, id: string)
  {
    exists j :: 0 <= j < |ps| && ps[j].id == id
  }

  /** `products.findIndex(p => p.id === id)`, with None for -1. */
  function FindIndex(ps: seq<Product>, id: string): (r: Option<nat>)
    ensures r.Some? ==> FirstMatch(ps, id, r.value)
    ensures r.None? ==> forall j :: 0 <= j < |ps| ==> ps[j].id != id
    decreases |ps|
  {
    if ps == [] then None
    else if ps[0].id == id then Some(0)
    else match FindIndex(ps[1..], id)
      case None => None
      case Some(k) => Some(k + 1)
  }

  /** Each id has at most one first match. */
  lemma FirstMatchUnique(ps: seq<Product>, id: string, i: nat, k: nat)
    requires FirstMatch(ps, id, i) && FirstMatch(ps, id, k)
    ensures i == k
  {
  }

  /**
   * `product.status = status` on the first product with `id`. None when no
   * product has that id; otherwise only that product's status changes, to
   * exactly the given value.
   */
  function UpdateStatus(ps: seq<Product>, id: string, status: string): (r: Option<seq<Product>>)
    ensures r.None? <==> !HasId(ps, id)
    ensures r.Some? ==> |r.value| == |ps|
    ensures r.Some? ==> forall i: nat :: FirstMatch(ps, id, i) ==>
      r.value[i] == ps[i].(status := status) &&
      forall j :: 0 <= j < |ps| && j != i ==> r.value[j] == ps[j]
  {
    match FindIndex(ps, id)
    case None => None
    case Some(i) => Some(ps[i := ps[i].(status := status)])
  }

  /** The outcome of `products.splice(index, 1)`. */
  datatype Removal = Removal(removed: Product, rest: seq<Product>)

  /**
   * `findIndex` then `splice(index, 1)`. None when no product has `id`;
   * otherwise exactly the first product with `id` is taken out and the
   * others keep their order.
   */
  function Remove(ps: seq<Product>, id: string): (r: Option<Removal>)
    ensures r.None? <==> !HasId(ps, id)
    ensures r.Some? ==> |r.value.rest| == |ps| - 1
    ensures r.Some? ==> multiset(r.value.rest) + multiset{r.value.removed} == multiset(ps)
    ensures r.Some? ==> forall i: nat :: FirstMatch(ps, id, i) ==>
      r.value.removed == ps[i] && r.value.rest == ps[..i] + ps[i + 1..]
  {
    match FindIndex(ps, id)
    case None => None
    case Some(i) =>
      assert ps == ps[..i] + [ps[i]] + ps[i + 1..];
      Some(Removal(ps[i], ps[..i] + ps[i + 1..]))
  }

  /** Two lists whose ids agree position by position find every id at the same index. */
  lemma FindIndexDependsOnIdsOnly(ps: seq<Product>, qs: seq<Product>, id: string)
    requires |ps| == |qs|
    requires forall j :: 0 <= j < |ps| ==> ps[j].id == qs[j].id
    ensures FindIndex(ps, id) == FindIndex(qs, id)
  {
  }

  /** Setting the same status twice gives the list setting it once gives. */
  lemma UpdateStatusIdempotent(ps: seq<Product>, id: string, status: string)
    requires HasId(ps, id)
    ensures UpdateStatus(ps, id, status).Some?
    ensures UpdateStatus(UpdateStatus(ps, id, status).value, id, status) == UpdateStatus(ps, id, status)
  {
    var i := FindIndex(ps, id).value;
    var once := ps[i := ps[i].(status := status)];
    assert UpdateStatus(ps, id, status) == Some(once);
    FindIndexDependsOnIdsOnly(ps, once, id);
    assert once[i := once[i].(status := status)] == once;
  }

  /** A status update keeps every id where it was, so every later lookup is unaffected. */
  lemma UpdateStatusKeepsLookups(ps: seq<Product>, id: string, status: string, other: string)
    requires HasId(ps, id)
    ensures UpdateStatus(ps, id, status).Some?
    ensures FindIndex(UpdateStatus(ps, id, status).value, other) == FindIndex(ps, other)
  {
  }

  /**
   * After `push(p)` every id is still found where it was, and an id that was
   * absent is found at the new last position exactly when it is `p.id`.
   */
  lemma {:induction false} FindIndexAfterPush(ps: seq<Product>, p: Product, id: string)
    ensures FindIndex(ps + [p], id) ==
      if FindIndex(ps, id).Some? then FindIndex(ps, id)
      else if p.id == id then Some(|ps|)
      else None
    decreases |ps|
  {
    if ps != [] {
      assert (ps + [p])[1..] == ps[1..] + [p];
      FindIndexAfterPush(ps[1..], p, id);
    }
  }

  /** Deleting the id of a product just pushed, when no earlier product had it, restores the list. */
  lemma RemoveUndoesPush(ps: seq<Product>, p: Product)
    requires !HasId(ps, p.id)
    ensures Remove(ps + [p], p.id) == Some(Removal(p, ps))
  {
    var qs := ps + [p];
    FindIndexAfterPush(ps, p, p.id);
    assert FindIndex(qs, p.id) == Some(|ps|);
    assert qs[..|ps|] + qs[|ps| + 1..] == ps;
  }

  /** A status update followed by a delete of the same id removes the same position as the delete alone. */
  lemma RemoveAfterUpdateStatus(ps: seq<Product>, id: string, status: string)
    requires HasId(ps, id)
    ensures UpdateStatus(ps, id, status).Some? && Remove(ps, id).Some?
    ensures Remove(UpdateStatus(ps, id, status).value, id).Some?
    ensures Remove(UpdateStatus(ps, id, status).value, id).value.rest == Remove(ps, id).value.rest
  {
  }
}
