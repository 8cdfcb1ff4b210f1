/**
  The first loop of `main` (app.py:99-114): every line of the product list
  that is not blank after stripping is handed to `get_product_data`, and the
  records that come back are appended to `qualified_products` in line order.
  The browser is the function `load`, which gives what the page at a
  (stripped) URL yields.
*/
module Collection {
  import opened Wrappers
  import opened Text
  import opened Extraction

  /** What one line contributes to `qualified_products`: nothing for a blank line or a failed extraction. */
  function LineResult(line: string, load: string -> Option<PageData>): Option<Product> {
    if Strip(line) == [] then None else GetProductData(load(Strip(line)), line)
  }

  /** The same, as the (at most one element) list appended to `qualified_products`. */
  function Contribution(line: string, load: string -> Option<PageData>): seq<Product> {
    match LineResult(line, load)
    case Some(p) => [p]
    case None => []
  }

  /** Reference definition of the products collected from `lines`, read from the first line on. */
  function Qualified(lines: seq<string>, load: string -> Option<PageData>): seq<Product> {
    if lines == [] then [] else Contribution(lines[0], load) + Qualified(lines[1..], load)
  }

  /** The number of lines that are not blank. */
  function NonBlankCount(lines: seq<string>): nat {
    if lines == [] then 0 else (if IsBlank(lines[0]) then 0 else 1) + NonBlankCount(lines[1..])
  }

  /** The loop over the lines, as the source runs it. */
  method CollectProducts(lines: seq<string>, load: string -> Option<PageData>)
    returns (qualifiedProducts: seq<Product>)
    ensures qualifiedProducts == Qualified(lines, load)
  {
    qualifiedProducts := [];
    for k := 0 to |lines|
      invariant qualifiedProducts == Qualified(lines[..k], load)
    {
      var url := lines[k];
      assert lines[..k + 1] == lines[..k] + [url];
      QualifiedAppend(lines[..k], [url], load);
      assert Qualified([url], load) == Contribution(url, load) by {
        assert [url][1..] == [];
      }
      if Strip(url) == [] {
        continue;
      }
      var productData := GetProductData(load(Strip(url)), url);
      assert productData == LineResult(url, load);
      if productData.Some? {
        qualifiedProducts := qualifiedProducts + [productData.value];
      }
    }
    assert lines[..|lines|] == lines;
  }

  /** Collecting splits along the lines: the products of `a + b` are those of `a` followed by those of `b`. */
  lemma {:induction false} QualifiedAppend(a: seq<string>, b: seq<string>, load: string -> Option<PageData>)
    ensures Qualified(a + b, load) == Qualified(a, load) + Qualified(b, load)
  {
    if a == [] {
      assert a + b == b;
    } else {
      assert (a + b)[0] == a[0] && (a + b)[1..] == a[1..] + b;
      QualifiedAppend(a[1..], b, load);
    }
  }

  /** One line yields its record, or nothing when it is blank or its extraction fails. */
  lemma QualifiedSingle(line: string, load: string -> Option<PageData>)
    ensures Qualified([line], load) == if IsBlank(line) then []
                                       else match GetProductData(load(Strip(line)), line)
                                            case Some(p) => [p]
                                            case None => []
  {
    StripEmptyIffBlank(line);
    assert [line][1..] == [];
  }

  /** At most one product per non-blank line. */
  lemma {:induction false} QualifiedAtMostNonBlank(lines: seq<string>, load: string -> Option<PageData>)
    ensures |Qualified(lines, load)| <= NonBlankCount(lines)
  {
    if lines != [] {
      StripEmptyIffBlank(lines[0]);
      QualifiedAtMostNonBlank(lines[1..], load);
    }
  }

  /**
    Blank lines never reach the browser: two browsers that agree on every
    non-empty URL give the same products, whatever they do with the empty one.
  */
  lemma {:induction false} QualifiedIgnoresEmptyUrl(lines: seq<string>, load: string -> Option<PageData>,
                                                    load': string -> Option<PageData>)
    requires forall u :: u != [] ==> load(u) == load'(u)
    ensures Qualified(lines, load) == Qualified(lines, load')
  {
    if lines != [] {
      QualifiedIgnoresEmptyUrl(lines[1..], load, load');
    }
  }

  /**
    Every collected product comes from a non-blank line of the input: it is the
    record of that line's page, its URL is the stripped line, and it is well formed.
  */
  lemma {:induction false} QualifiedFromNonBlankLines(lines: seq<string>, load: string -> Option<PageData>, j: nat)
    requires j < |Qualified(lines, load)|
    ensures exists k :: 0 <= k < |lines| && !IsBlank(lines[k])
              && Some(Qualified(lines, load)[j]) == GetProductData(load(Strip(lines[k])), lines[k])
    ensures Qualified(lines, load)[j].url != [] && WellFormed(Qualified(lines, load)[j])
  {
    var head := Contribution(lines[0], load);
    StripEmptyIffBlank(lines[0]);
    if j < |head| {
      GetProductDataWellFormed(load(Strip(lines[0])), lines[0]);
    } else {
      QualifiedFromNonBlankLines(lines[1..], load, j - |head|);
      var k :| 0 <= k < |lines[1..]| && !IsBlank(lines[1..][k])
                && Some(Qualified(lines[1..], load)[j - |head|])
                   == GetProductData(load(Strip(lines[1..][k])), lines[1..][k]);
      assert lines[k + 1] == lines[1..][k];
    }
  }
}
