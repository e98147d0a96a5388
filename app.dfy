/** The storefront client: its fixed product catalog, the cart kept in `window.cart`
    and mirrored under the `hw_cart` storage key, the four-entity HTML escaper used when
    chat messages are shown, and the guard that decides what a chat submit sends. */
module App {
  import opened Wrappers
  import opened Text
  import opened HtmlEntities

  // ---------------------------------------------------------------------------
  // Catalog

  datatype Product = Product(id: int, name: string, price: int, tag: string, img: string)

  /** `PRODUCTS`. Prices are whole numbers of reais. */
  const Products: seq<Product> := [
    Product(1, "Notebook Pro 15", 5499, "notebook", ""),
    Product(2, "PC Gamer X", 7999, "pc", ""),
    Product(3, "Monitor 27\" 144Hz", 1299, "monitor", ""),
    Product(4, "Teclado Mecânico", 299, "perif", ""),
    Product(5, "Mouse Gamer", 199, "perif", ""),
    Product(6, "SSD NVMe 1TB", 449, "component", "")
  ]

  /** `catalog.find(p => p.id === id)`: the first product with that id, if any. */
  function FindProduct(catalog: seq<Product>, id: int): (r: Option<Product>)
    ensures r.None? <==> forall i :: 0 <= i < |catalog| ==> catalog[i].id != id
    ensures r.Some? ==> r.value.id == id
    ensures r.Some? ==> exists i :: 0 <= i < |catalog| && catalog[i] == r.value &&
                                    (forall j :: 0 <= j < i ==> catalog[j].id != id)
  {
    if catalog == [] then None
    else if catalog[0].id == id then Some(catalog[0])
    else
      var r := FindProduct(catalog[1..], id);
      assert r.Some? ==> exists i :: 0 <= i < |catalog| && catalog[i] == r.value &&
                                     (forall j :: 0 <= j < i ==> catalog[j].id != id) by {
        if r.Some? {
          var i :| 0 <= i < |catalog| - 1 && catalog[1..][i] == r.value &&
            forall j :: 0 <= j < i ==> catalog[1..][j].id != id;
          assert catalog[i + 1] == r.value;
          assert forall j :: 0 <= j < i + 1 ==> catalog[j].id != id by {
            forall j | 0 <= j < i + 1 ensures catalog[j].id != id {
              if j > 0 { assert catalog[j] == catalog[1..][j - 1]; }
            }
          }
        }
      }
      r
  }

  function Find(id: int): Option<Product>
  {
    FindProduct(Products, id)
  }

  /** The catalog's ids are exactly 1 to 6, each used once, so `find` is unambiguous. */
  lemma CatalogIds(id: int)
    ensures Find(id).Some? <==> 1 <= id <= 6
    ensures Find(id).Some? ==> Find(id).value == Products[id - 1]
  {
    if 1 <= id <= 6 {
      assert Products[id - 1].id == id;
    }
  }

  // ---------------------------------------------------------------------------
  // Cart

  /** One cart line, `{qty, name, price}`. */
  datatype Entry = Entry(qty: int, name: string, price: int)

  type CartMap = map<int, Entry>

  /** The entry copies the catalog product with the same id. */
  predicate MatchesCatalog(id: int, e: Entry)
  {
    var p := Find(id);
    p.Some? && e.name == p.value.name && e.price == p.value.price
  }

  /** The invariant the cart operations keep: every line has a positive quantity and
      the name and price of its catalog product. */
  predicate WellFormed(cart: CartMap)
  {
    forall id :: id in cart ==> cart[id].qty >= 1 && MatchesCatalog(id, cart[id])
  }

  /** The cart after `addToCart(id)` when `p` is the product `find` returned. */
  function Added(cart: CartMap, id: int, p: Product): (r: CartMap)
    ensures id in r && r[id] == Entry((if id in cart then cart[id].qty else 0) + 1, p.name, p.price)
    ensures r.Keys == cart.Keys + {id}
    ensures forall k :: k in cart && k != id ==> r[k] == cart[k]
  {
    cart[id := Entry((if id in cart then cart[id].qty else 0) + 1, p.name, p.price)]
  }

  /** The cart after `removeOne(id)` when `id` has a line: its quantity drops by one and
      the line disappears once the quantity is no longer positive. */
  function Removed(cart: CartMap, id: int): (r: CartMap)
    requires id in cart
    ensures cart[id].qty - 1 <= 0 ==> r.Keys == cart.Keys - {id}
    ensures cart[id].qty - 1 > 0 ==> r.Keys == cart.Keys && r[id] == cart[id].(qty := cart[id].qty - 1)
    ensures forall k :: k in cart && k != id ==> k in r && r[k] == cart[k]
  {
    var q := cart[id].qty - 1;
    if q <= 0 then cart - {id} else cart[id := cart[id].(qty := q)]
  }

  /** Adding a catalog product keeps the cart well formed. */
  lemma AddedWellFormed(cart: CartMap, id: int)
    requires WellFormed(cart) && Find(id).Some?
    ensures WellFormed(Added(cart, id, Find(id).value))
  {
    var r := Added(cart, id, Find(id).value);
    forall k | k in r ensures r[k].qty >= 1 && MatchesCatalog(k, r[k]) {
      if k != id {
        assert r[k] == cart[k];
      }
    }
  }

  /** Removing one unit keeps the cart well formed: a line whose quantity reaches zero
      is deleted rather than kept. */
  lemma RemovedWellFormed(cart: CartMap, id: int)
    requires WellFormed(cart) && id in cart
    ensures WellFormed(Removed(cart, id))
  {
  }

  /** A well-formed cart has no line for an id the catalog lacks. */
  lemma UnknownIdNotInCart(cart: CartMap, id: int)
    requires WellFormed(cart) && Find(id).None?
    ensures id !in cart
  {
  }

  /** On a well-formed cart, removing one unit of a product just added gives back the
      cart as it was. */
  lemma AddThenRemove(cart: CartMap, id: int)
    requires WellFormed(cart) && Find(id).Some?
    ensures Removed(Added(cart, id, Find(id).value), id) == cart
  {
    var p := Find(id).value;
    if id in cart {
      assert cart[id].qty >= 1 && MatchesCatalog(id, cart[id]);
    }
    AddThenRemoveLine(cart, id, p);
  }

  /** Adding `p` and removing one unit restores any cart whose line for `id`, if there is
      one, has a positive quantity and `p`'s name and price. */
  lemma AddThenRemoveLine(cart: CartMap, id: int, p: Product)
    requires id in cart ==> cart[id] == Entry(cart[id].qty, p.name, p.price) && cart[id].qty >= 1
    ensures Removed(Added(cart, id, p), id) == cart
  {
    var a := Added(cart, id, p);
    var r := Removed(a, id);
    if id in cart {
      assert a[id] == cart[id].(qty := cart[id].qty + 1);
      assert r == a[id := cart[id]];
    } else {
      assert r == a - {id};
    }
  }

  /** The cart of one open page and what the page last wrote to `hw_cart`. */
  class Store {
    /** `window.cart`. */
    var cart: CartMap
    /** The value serialised under `hw_cart`; None while nothing has been written. */
    var stored: Option<CartMap>

    /** `setupCart`: the cart starts as the saved value, or empty when there is none. */
    constructor Setup(saved: Option<CartMap>)
      ensures cart == saved.GetOr(map[]) && stored == saved
    {
      cart := saved.GetOr(map[]);
      stored := saved;
    }

    /** `addToCart(id)`. `ok` is false when `find` returns undefined and reading
        `prod.name` throws; by then `entry.qty++` has already raised the quantity of an
        existing line in place, and the cart is not written to storage. */
    method AddToCart(id: int) returns (ok: bool)
      modifies this
      ensures ok <==> Find(id).Some?
      ensures ok ==> cart == Added(old(cart), id, Find(id).value) && stored == Some(cart)
      ensures !ok ==> stored == old(stored)
      ensures !ok && id in old(cart) ==> cart == old(cart)[id := old(cart)[id].(qty := old(cart)[id].qty + 1)]
      ensures !ok && id !in old(cart) ==> cart == old(cart)
      ensures old(WellFormed(cart)) ==> WellFormed(cart)
    {
      var entry := if id in cart then cart[id] else Entry(0, "", 0);
      entry := entry.(qty := entry.qty + 1);
      if id in cart {
        cart := cart[id := entry];
      }
      var prod := Find(id);
      if prod.None? {
        if old(WellFormed(cart)) {
          UnknownIdNotInCart(old(cart), id);
        }
        return false;
      }
      entry := entry.(name := prod.value.name, price := prod.value.price);
      cart := cart[id := entry];
      stored := Some(cart);
      ok := true;
      assert cart == Added(old(cart), id, prod.value);
      if old(WellFormed(cart)) {
        AddedWellFormed(old(cart), id);
      }
    }

    /** `removeOne(id)`: nothing happens, and nothing is written, when `id` has no
        line; otherwise one unit is removed and the cart is written to storage. */
    method RemoveOne(id: int)
      modifies this
      ensures id !in old(cart) ==> cart == old(cart) && stored == old(stored)
      ensures id in old(cart) ==> cart == Removed(old(cart), id) && stored == Some(cart)
      ensures old(WellFormed(cart)) ==> WellFormed(cart)
    {
      if id !in cart {
        return;
      }
      var entry := cart[id].(qty := cart[id].qty - 1);
      cart := cart[id := entry];
      if entry.qty <= 0 {
        cart := cart - {id};
      }
      assert cart == Removed(old(cart), id);
      stored := Some(cart);
      if old(WellFormed(cart)) {
        RemovedWellFormed(old(cart), id);
      }
    }
  }

  // ---------------------------------------------------------------------------
  // HTML escaping (`escapeHtml` of the client)

  /** The lookup table of the replacement callback: four characters are replaced,
      every other one, single quote included, is kept. */
  function ClientReplacement(c: char): (r: string)
    ensures '<' !in r && '>' !in r && '"' !in r
    ensures r == [c] <==> !(c == '&' || c == '<' || c == '>' || c == '"')
    ensures r != [c] ==> Unescape(r) == [c]
  {
    if c == '&' || c == '<' || c == '>' || c == '"' then
      UnescapeEntity(c, []);
      assert EntityFor(c) + [] == EntityFor(c);
      EntityFor(c)
    else [c]
  }

  /** `s.replace(/[&<>"]/g, ...)`: one left-to-right pass replacing each character by
      its table entry. The result holds no `<`, `>` or `"`. */
  function EscapeHtml(s: string): (r: string)
    ensures '<' !in r && '>' !in r && '"' !in r
  {
    if s == [] then [] else ClientReplacement(s[0]) + EscapeHtml(s[1..])
  }

  /** Each `&`, `<` and `>` grows by three or four characters and each `"` by five. */
  lemma {:induction false} EscapeHtmlLength(s: string)
    ensures |EscapeHtml(s)| == |s| + 4 * Count(s, '&') + 3 * (Count(s, '<') + Count(s, '>')) + 5 * Count(s, '"')
  {
    if s != [] {
      EscapeHtmlLength(s[1..]);
    }
  }

  /** Every `&` of the result opens a reference. */
  lemma {:induction false} EscapeHtmlAmps(s: string)
    ensures AmpsOpenEntities(EscapeHtml(s))
  {
    if s != [] {
      EscapeHtmlAmps(s[1..]);
      AmpsOpenEntitiesCons(ClientReplacement(s[0]), EscapeHtml(s[1..]));
    }
  }

  /** A string with none of the four characters is left as it is. */
  lemma {:induction false} EscapeHtmlKeepsPlain(s: string)
    requires '&' !in s && '<' !in s && '>' !in s && '"' !in s
    ensures EscapeHtml(s) == s
  {
    if s != [] {
      assert s[0] in s;
      assert forall c :: c in s[1..] ==> c in s;
      EscapeHtmlKeepsPlain(s[1..]);
      assert s == [s[0]] + s[1..];
    }
  }

  /** Decoding the references recovers the text. */
  lemma {:induction false} EscapeHtmlRoundTrip(s: string)
    ensures Unescape(EscapeHtml(s)) == s
  {
    if s != [] {
      var c := s[0];
      EscapeHtmlRoundTrip(s[1..]);
      if c == '&' || c == '<' || c == '>' || c == '"' {
        UnescapeEntity(c, EscapeHtml(s[1..]));
      } else {
        UnescapePlain(c, EscapeHtml(s[1..]));
      }
      assert s == [c] + s[1..];
    }
  }

  // ---------------------------------------------------------------------------
  // Chat submit guard (`setupChat`'s submit handler)

  /** The `{name, msg}` object the client emits. */
  datatype ChatOut = ChatOut(name: string, msg: string)

  /** The client's submit handler: both fields are trimmed, a blank message sends
      nothing, and a blank name becomes `'Anon'`. */
  function Submit(msgField: string, nameField: string): (r: Option<ChatOut>)
    ensures r.None? <==> AllSpace(msgField)
    ensures r.Some? ==> r.value.msg == Trim(msgField) && r.value.msg != []
    ensures r.Some? && AllSpace(nameField) ==> r.value.name == "Anon"
    ensures r.Some? && !AllSpace(nameField) ==> r.value.name == Trim(nameField)
  {
    var msg := Trim(msgField);
    var name := if Trim(nameField) != "" then Trim(nameField) else "Anon";
    if msg == "" then None else Some(ChatOut(name, msg))
  }

  /** What is sent is never blank and is its own trim: neither the message nor the
      name carries surrounding white space. */
  lemma SubmitSendsTrimmed(msgField: string, nameField: string)
    requires Submit(msgField, nameField).Some?
    ensures var out := Submit(msgField, nameField).value;
      && out.msg != [] && Trim(out.msg) == out.msg
      && out.name != [] && Trim(out.name) == out.name
  {
    TrimIdempotent(msgField);
    SubmitNameTrimmed(msgField, nameField);
  }

  lemma SubmitNameTrimmed(msgField: string, nameField: string)
    requires Submit(msgField, nameField).Some?
    ensures var name := Submit(msgField, nameField).value.name;
      name != [] && Trim(name) == name
  {
    if AllSpace(nameField) {
      AnonIsTrimmed();
    } else {
      TrimIdempotent(nameField);
    }
  }

  lemma AnonIsTrimmed()
    ensures Trim("Anon") == "Anon"
  {
    var a := "Anon";
    assert !IsJsSpace(a[0]) && !IsJsSpace(a[3]);
    TrimIsInnerSlice(a, 0, 4);
    assert a[0..4] == a;
  }
}
