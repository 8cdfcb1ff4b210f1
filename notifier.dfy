/**
  The end of `main` (app.py:116-132) and the run as a whole. Posting to the
  chat channel is recorded as the list `sent` of the texts handed to
  `post_message`, in order. A post that fails with the Slack API error is
  caught inside `post_message` and the loop goes on; every post is taken to
  end in one of those two ways (any other exception would stop the loop, and
  that path is not modelled).
*/
module Notifier {
  import opened Wrappers
  import Text
  import opened Extraction
  import opened Collection
  import opened Batching
  import opened Message

  /** `unit_size`: products per message in this deployment. */
  const UnitSize: nat := 3

  /** The texts of the groups, one message per group, in group order. */
  function Messages(groups: seq<seq<Product>>, render: Render): seq<string> {
    if groups == [] then [] else [Format(groups[0], render)] + Messages(groups[1..], render)
  }

  /** There is one message per group, and message `i` is the text of group `i`. */
  lemma {:induction false} MessagesAt(groups: seq<seq<Product>>, render: Render)
    ensures |Messages(groups, render)| == |groups|
    ensures forall i :: 0 <= i < |groups| ==> Messages(groups, render)[i] == Format(groups[i], render)
  {
    if groups != [] {
      MessagesAt(groups[1..], render);
    }
  }

  /**
    The `for i in range(num_units)` loop: slice group `i` out of the products
    by index arithmetic, build its text and post it.
  */
  method SendInChunks(qualifiedProducts: seq<Product>, unitSize: nat, render: Render)
    returns (sent: seq<string>)
    requires unitSize > 0
    ensures |sent| == CeilDiv(|qualifiedProducts|, unitSize)
    ensures sent == Messages(Chunks(qualifiedProducts, unitSize), render)
  {
    var n := |qualifiedProducts|;
    var numUnits := (n + unitSize - 1) / unitSize;
    ChunkCount(qualifiedProducts, unitSize);
    sent := [];
    for i := 0 to numUnits
      invariant |sent| == i
      invariant forall j :: 0 <= j < i ==> sent[j] == Format(Chunks(qualifiedProducts, unitSize)[j], render)
    {
      var startIndex := i * unitSize;
      var endIndex := if (i + 1) * unitSize < n then (i + 1) * unitSize else n;
      ChunkAt(qualifiedProducts, unitSize, i);
      var unitProducts := qualifiedProducts[startIndex..endIndex];
      var message := BuildMessage(unitProducts, render);
      sent := sent + [message];
    }
    MessagesAt(Chunks(qualifiedProducts, unitSize), render);
  }

  /**
    One whole run after start-up: collect the products of the lines of the
    product list, then post them in groups of `UnitSize`.
  */
  method Run(lines: seq<string>, load: string -> Option<PageData>, render: Render)
    returns (sent: seq<string>)
    ensures |sent| == CeilDiv(|Qualified(lines, load)|, UnitSize)
    ensures sent == Messages(Chunks(Qualified(lines, load), UnitSize), render)
  {
    var qualifiedProducts := CollectProducts(lines, load);
    sent := SendInChunks(qualifiedProducts, UnitSize, render);
  }

  /** Seven products go out as messages of 3, 3 and 1 products; no product means no message. */
  lemma ExampleGroupSizes(s: seq<Product>)
    ensures |s| == 7 ==> |Chunks(s, UnitSize)| == 3 && |Chunks(s, UnitSize)[0]| == 3
                         && |Chunks(s, UnitSize)[1]| == 3 && |Chunks(s, UnitSize)[2]| == 1
    ensures |s| == 0 ==> Chunks(s, UnitSize) == []
  {
    if |s| == 7 {
      assert Chunks(s, UnitSize) == [s[..3]] + Chunks(s[3..], UnitSize);
      assert Chunks(s[3..], UnitSize) == [s[3..][..3]] + Chunks(s[3..][3..], UnitSize);
    }
  }

  /**
    Two product lines with a blank line between them, the second of which
    fails to extract: exactly one message goes out, holding the first line's
    product only.
  */
  lemma ExampleOneFailure(first: string, blank: string, second: string,
                          load: string -> Option<PageData>, render: Render)
    requires !Text.IsBlank(first) && GetProductData(load(Text.Strip(first)), first).Some?
    requires Text.IsBlank(blank)
    requires !Text.IsBlank(second) && load(Text.Strip(second)) == None
    ensures Qualified([first, blank, second], load) == [GetProductData(load(Text.Strip(first)), first).value]
    ensures Messages(Chunks(Qualified([first, blank, second], load), UnitSize), render)
            == [Format([GetProductData(load(Text.Strip(first)), first).value], render)]
  {
    var p := GetProductData(load(Text.Strip(first)), first).value;
    var lines := [first, blank, second];
    Text.StripEmptyIffBlank(first);
    Text.StripEmptyIffBlank(blank);
    Text.StripEmptyIffBlank(second);
    assert Contribution(first, load) == [p];
    assert Contribution(blank, load) == [];
    assert Contribution(second, load) == [];
    assert lines[1..] == [blank, second] && [blank, second][1..] == [second] && [second][1..] == [];
    assert Qualified([second], load) == [];
    assert Qualified([blank, second], load) == [];
    assert Qualified(lines, load) == [p] + Qualified([blank, second], load);
    assert Chunks([p], UnitSize) == [[p]];
    assert [[p]][1..] == [];
  }
}
