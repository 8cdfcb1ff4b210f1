/**
  The text of one notification (app.py:126-128): a fixed header line, then one
  stanza per product in group order. How a float is printed (`str(float)`
  and the `:.2%` format) is not modelled: `Render` supplies the two renderings.
*/
module Message {
  import opened Extraction

  /** The first line of every message. */
  const Header: string := "UNIQLO 關注商品：\n"

  /** The labels that open a stanza's first two lines. */
  const ItemLabel: string := "\nItem："
  const UrlLabel: string := "\nUrl："

  /** How numbers become text: prices as `str(float)` does, rates as `:.2%` does. */
  datatype Render = Render(price: real -> string, percent: real -> string)

  /** Pieces of text joined end to end. */
  function Concat(pieces: seq<string>): string {
    if pieces == [] then [] else pieces[0] + Concat(pieces[1..])
  }

  /** The labelled lines that describe one product, as the f-string lays them out. */
  function StanzaPieces(p: Product, render: Render): seq<string> {
    [ ItemLabel, p.name,
      UrlLabel, p.url,
      "\nOriginal Price: ", render.price(p.originalPrice),
      "\nCurrent Price: ", render.price(p.currentPrice),
      "\nLowest Price: ", render.price(p.minPrice),
      "\nDiscount Rate：", render.percent(p.discountRate),
      "\n" ]
  }

  /** The text for one product. */
  function Stanza(p: Product, render: Render): string {
    Concat(StanzaPieces(p, render))
  }

  /** The stanzas of a group, in order. */
  function Stanzas(unitProducts: seq<Product>, render: Render): string {
    if unitProducts == [] then [] else Stanza(unitProducts[0], render) + Stanzas(unitProducts[1..], render)
  }

  /** The whole message for one group. */
  function Format(unitProducts: seq<Product>, render: Render): string {
    Header + Stanzas(unitProducts, render)
  }

  /** The text of two groups put together is the text of the first followed by that of the second. */
  lemma {:induction false} StanzasAppend(a: seq<Product>, b: seq<Product>, render: Render)
    ensures Stanzas(a + b, render) == Stanzas(a, render) + Stanzas(b, render)
  {
    if a == [] {
      assert a + b == b;
    } else {
      assert (a + b)[0] == a[0] && (a + b)[1..] == a[1..] + b;
      StanzasAppend(a[1..], b, render);
    }
  }

  /**
    Product `i` of the group appears as its own stanza, after the stanzas of
    the products before it and before those of the products after it.
  */
  lemma StanzaInMessage(unitProducts: seq<Product>, i: nat, render: Render)
    requires i < |unitProducts|
    ensures Stanzas(unitProducts, render)
            == Stanzas(unitProducts[..i], render) + Stanza(unitProducts[i], render)
               + Stanzas(unitProducts[i + 1..], render)
  {
    var before, rest := unitProducts[..i], unitProducts[i..];
    assert unitProducts == before + rest;
    StanzasAppend(before, rest, render);
    assert rest[0] == unitProducts[i] && rest[1..] == unitProducts[i + 1..];
    assert Stanzas(rest, render) == Stanza(rest[0], render) + Stanzas(rest[1..], render);
  }

  /** A stanza opens with the `Item` line and the `Url` line. */
  lemma StanzaLead(p: Product, render: Render)
    ensures Stanza(p, render) == ItemLabel + p.name + UrlLabel + p.url + Concat(StanzaPieces(p, render)[4..])
  {
    var pieces := StanzaPieces(p, render);
    assert Concat(pieces) == pieces[0] + Concat(pieces[1..]);
    assert Concat(pieces[1..]) == pieces[1] + Concat(pieces[2..]);
    assert Concat(pieces[2..]) == pieces[2] + Concat(pieces[3..]);
    assert Concat(pieces[3..]) == pieces[3] + Concat(pieces[4..]);
  }

  /**
    In the message of a group, product `i` is named right after the header and
    the stanzas of the products before it: its `Item` line with its name, then
    its `Url` line with its URL.
  */
  lemma MessageNamesProduct(unitProducts: seq<Product>, i: nat, render: Render)
    requires i < |unitProducts|
    ensures exists post :: Format(unitProducts, render)
              == Header + Stanzas(unitProducts[..i], render)
                 + ItemLabel + unitProducts[i].name + UrlLabel + unitProducts[i].url + post
  {
    var p := unitProducts[i];
    var tail := Concat(StanzaPieces(p, render)[4..]);
    var before := Stanzas(unitProducts[..i], render);
    var after := Stanzas(unitProducts[i + 1..], render);
    StanzaLead(p, render);
    StanzaInMessage(unitProducts, i, render);
    assert Format(unitProducts, render) == Header + (before + Stanza(p, render) + after);
    Regroup(Header, before, ItemLabel, p.name, UrlLabel, p.url, tail, after);
    assert Format(unitProducts, render)
           == Header + before + ItemLabel + p.name + UrlLabel + p.url + (tail + after);
  }

  /** Concatenation regrouped: what moves a stanza's first lines next to the text before it. */
  lemma Regroup(h: string, b: string, l1: string, v1: string, l2: string, v2: string, t: string, a: string)
    ensures h + (b + (l1 + v1 + l2 + v2 + t) + a) == h + b + l1 + v1 + l2 + v2 + (t + a)
  {
  }

  /** A message is the header alone exactly when its group is empty. */
  lemma FormatIsHeaderOnlyIffEmpty(unitProducts: seq<Product>, render: Render)
    ensures Format(unitProducts, render)[..|Header|] == Header
    ensures Format(unitProducts, render) == Header <==> unitProducts == []
  {
    if unitProducts != [] {
      var pieces := StanzaPieces(unitProducts[0], render);
      assert Concat(pieces) == pieces[0] + Concat(pieces[1..]);
      assert |Stanza(unitProducts[0], render)| > 0;
    }
  }

  /** The `message +=` loop over one group. */
  method BuildMessage(unitProducts: seq<Product>, render: Render) returns (message: string)
    ensures message == Format(unitProducts, render)
  {
    message := Header;
    for j := 0 to |unitProducts|
      invariant message == Format(unitProducts[..j], render)
    {
      var product := unitProducts[j];
      assert unitProducts[..j + 1] == unitProducts[..j] + [product];
      StanzasAppend(unitProducts[..j], [product], render);
      assert Stanzas([product], render) == Stanza(product, render) by {
        assert [product][1..] == [];
      }
      message := message + Stanza(product, render);
    }
    assert unitProducts[..|unitProducts|] == unitProducts;
  }
}
