/**
 * loadProducts of js/main.js: the storefront page built from the list
 * GET /api/products returns. DOM nodes become records holding the texts
 * and class lists the elements end up with.
 */
module Storefront {
  import opened Wrappers
  import opened Catalog
  import JsValues

  /** One `.item`: the title, note, status and price elements. */
  datatype Item = Item(
    title: string, titleClasses: seq<string>,
    note: string, noteClasses: seq<string>,
    statusText: string, statusClasses: seq<string>,
    priceText: string, priceClasses: seq<string>)

  /** The contents of `main`: the failure paragraph, or the items in order. */
  datatype Page = LoadFailed | Listing(items: seq<Item>)

  /** The nested conditional that labels a status: always one of the three labels. */
  function Label(status: string): (l: string)
    ensures l == "可購買" || l == "洽談中" || l == "已售出"
    ensures status == "available" ==> l == "可購買"
  {
    if status == "available" then "可購買"
    else if status == "reserved" then "洽談中"
    else "已售出"
  }

  /** The label is 可購買 and 洽談中 for exactly one status each, and 已售出 for every other one. */
  lemma LabelCases(status: string)
    ensures Label(status) == "可購買" <==> status == "available"
    ensures Label(status) == "洽談中" <==> status == "reserved"
    ensures Label(status) == "已售出" <==> status != "available" && status != "reserved"
  {
  }

  /**
   * `classList.add(c)` when `cond` holds: the class list gains `c`, unless
   * it is already there, and loses nothing.
   */
  function AddIf(classes: seq<string>, cond: bool, c: string): (r: seq<string>)
    ensures forall x :: x in r <==> x in classes || (cond && x == c)
    ensures |classes| <= |r| && r[..|classes|] == classes
  {
    if cond && c !in classes then classes + [c] else classes
  }

  /** Adding a class that is already present leaves the list as it was. */
  lemma AddIfPresent(classes: seq<string>, cond: bool, c: string)
    requires c in classes
    ensures AddIf(classes, cond, c) == classes
  {
  }

  /**
   * The `.item` built for one product that is not hidden: the product's own
   * texts, and the base classes `status` and `price` first in their lists.
   */
  function Render(p: Product): (item: Item)
    ensures item.title == p.name && item.note == p.note
    ensures item.statusText == "狀態：" + Label(p.status)
    ensures item.priceText == "NT$ " + JsValues.NumberText(p.price)
    ensures |item.statusClasses| >= 1 && item.statusClasses[0] == "status"
    ensures |item.priceClasses| >= 1 && item.priceClasses[0] == "price"
  {
    var sold := p.status == "sold";
    Item(
      p.name, AddIf([], sold, "sold"),
      p.note, AddIf([], sold, "sold"),
      "狀態：" + Label(p.status), AddIf(AddIf(["status"], p.status == "reserved", "reserved"), sold, "sold"),
      "NT$ " + JsValues.NumberText(p.price), AddIf(["price"], sold, "sold"))
  }

  /**
   * What one product's element shows: its own name and note, "狀態："
   * then its label, "NT$ " then its price; `sold` on all four elements
   * exactly for status "sold", `reserved` on the status element exactly
   * for "reserved".
   */
  lemma RenderShows(p: Product)
    ensures Render(p).title == p.name && Render(p).note == p.note
    ensures Render(p).statusText == "狀態：" + Label(p.status)
    ensures Render(p).priceText == "NT$ " + JsValues.NumberText(p.price)
    ensures ("sold" in Render(p).titleClasses) <==> p.status == "sold"
    ensures ("sold" in Render(p).noteClasses) <==> p.status == "sold"
    ensures ("sold" in Render(p).statusClasses) <==> p.status == "sold"
    ensures ("sold" in Render(p).priceClasses) <==> p.status == "sold"
    ensures ("reserved" in Render(p).statusClasses) <==> p.status == "reserved"
    ensures "status" in Render(p).statusClasses && "price" in Render(p).priceClasses
  {
  }

  /**
   * A status the storefront does not know gets the 已售出 label but none of
   * the `sold` styling; only "sold" itself gets both.
   */
  lemma UnknownStatusLooksSoldButIsNotStyled(p: Product)
    requires p.status !in {"available", "reserved", "sold", "hidden"}
    ensures Render(p).statusText == "狀態：已售出"
    ensures "sold" !in Render(p).statusClasses && "sold" !in Render(p).priceClasses
    ensures "sold" !in Render(p).titleClasses && "sold" !in Render(p).noteClasses
  {
  }

  /** The products the forEach does not skip, in input order. */
  function Visible(ps: seq<Product>): (r: seq<Product>)
    ensures |r| <= |ps|
    ensures forall i :: 0 <= i < |r| ==> r[i].status != "hidden"
    decreases |ps|
  {
    if ps == [] then []
    else if ps[0].status == "hidden" then Visible(ps[1..])
    else [ps[0]] + Visible(ps[1..])
  }

  /** Skipping hidden products commutes with concatenation, so the order of the rest is kept. */
  lemma {:induction false} VisibleAppend(a: seq<Product>, b: seq<Product>)
    ensures Visible(a + b) == Visible(a) + Visible(b)
    decreases |a|
  {
    if a != [] {
      assert (a + b)[0] == a[0] && (a + b)[1..] == a[1..] + b;
      VisibleAppend(a[1..], b);
    } else {
      assert a + b == b;
    }
  }

  /** A product is shown exactly when it is in the list and not hidden. */
  lemma {:induction false} VisibleMembers(ps: seq<Product>, p: Product)
    ensures p in Visible(ps) <==> p in ps && p.status != "hidden"
    decreases |ps|
  {
    if ps != [] {
      VisibleMembers(ps[1..], p);
      assert ps == [ps[0]] + ps[1..];
    }
  }

  /** A list without hidden products is shown whole and in order. */
  lemma {:induction false} VisibleWithoutHidden(ps: seq<Product>)
    requires forall i :: 0 <= i < |ps| ==> ps[i].status != "hidden"
    ensures Visible(ps) == ps
    decreases |ps|
  {
    if ps != [] {
      VisibleWithoutHidden(ps[1..]);
    }
  }

  /**
   * loadProducts: when fetching or parsing failed the page shows the
   * failure paragraph; otherwise it holds one item per product that is not
   * hidden, rendered in input order.
   */
  method LoadProducts(fetched: Option<seq<Product>>) returns (page: Page)
    ensures fetched.None? ==> page == LoadFailed
    ensures fetched.Some? ==>
      page.Listing? &&
      |page.items| == |Visible(fetched.value)| &&
      forall i :: 0 <= i < |page.items| ==> page.items[i] == Render(Visible(fetched.value)[i])
  {
    if fetched.None? {
      return LoadFailed;
    }
    var products := fetched.value;
    var main: seq<Item> := [];
    for k := 0 to |products|
      invariant |main| == |Visible(products[..k])|
      invariant forall i :: 0 <= i < |main| ==> main[i] == Render(Visible(products[..k])[i])
    {
      var p := products[k];
      assert products[..k + 1] == products[..k] + [p];
      VisibleAppend(products[..k], [p]);
      if p.status == "hidden" {
        continue;
      }
      main := main + [Render(p)];
    }
    assert products[..|products|] == products;
    page := Listing(main);
  }
}
