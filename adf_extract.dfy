/**
 * Flattening an Atlassian Document Format description into plain text
 * (`_extract_text_from_adf`): every `text` value, depth first, a node's own text
 * before its children's, joined with newlines.
 */
module AdfExtract {
  import opened Wrappers
  import opened Text
  import opened Records

  /** The node's own text, if it is a dict with a `text` key. */
  function OwnText(node: Adf): seq<string>
  {
    if node.Node? && node.text.Some? then [node.text.value] else []
  }

  /** The texts `extract_content(node)` collects, in collection order. */
  function TextsOf(node: Adf): seq<string>
    decreases node, 1
  {
    match node
    case Node(_, content) => OwnText(node) + TextsOfAll(content)
    case Items(items) => TextsOfAll(items)
    case Scalar => []
  }

  function TextsOfAll(nodes: seq<Adf>): seq<string>
    decreases nodes, 0
  {
    if nodes == [] then [] else TextsOfAll(nodes[..|nodes| - 1]) + TextsOf(nodes[|nodes| - 1])
  }

  /** Every value of the tree, depth first, each before its children. */
  ghost function PreOrder(node: Adf): seq<Adf>
    decreases node, 1
  {
    match node
    case Node(_, content) => [node] + PreOrderAll(content)
    case Items(items) => [node] + PreOrderAll(items)
    case Scalar => [node]
  }

  ghost function PreOrderAll(nodes: seq<Adf>): seq<Adf>
    decreases nodes, 0
  {
    if nodes == [] then [] else PreOrderAll(nodes[..|nodes| - 1]) + PreOrder(nodes[|nodes| - 1])
  }

  /** The `text` values of a list of values, taken one value at a time. */
  ghost function TextsIn(nodes: seq<Adf>): seq<string>
  {
    if nodes == [] then [] else TextsIn(nodes[..|nodes| - 1]) + OwnText(nodes[|nodes| - 1])
  }

  lemma {:induction false} TextsInAppend(xs: seq<Adf>, ys: seq<Adf>)
    ensures TextsIn(xs + ys) == TextsIn(xs) + TextsIn(ys)
    decreases |ys|
  {
    if ys == [] {
      assert xs + ys == xs;
    } else {
      var n := |ys| - 1;
      assert (xs + ys)[..|xs + ys| - 1] == xs + ys[..n];
      TextsInAppend(xs, ys[..n]);
    }
  }

  /**
   * The collected texts are exactly the `text` values of the tree's nodes in
   * depth-first pre-order.
   */
  lemma {:induction false} TextsOfIsPreOrder(node: Adf)
    ensures TextsOf(node) == TextsIn(PreOrder(node))
    decreases node, 1
  {
    match node
    case Node(_, content) =>
      TextsOfAllIsPreOrder(content);
      TextsInAppend([node], PreOrderAll(content));
      assert TextsIn([node]) == OwnText(node) by {
        assert [node][..0] == [];
      }
    case Items(items) =>
      TextsOfAllIsPreOrder(items);
      TextsInAppend([node], PreOrderAll(items));
      assert TextsIn([node]) == [] by {
        assert [node][..0] == [];
      }
    case Scalar =>
      assert [node][..0] == [];
  }

  lemma {:induction false} TextsOfAllIsPreOrder(nodes: seq<Adf>)
    ensures TextsOfAll(nodes) == TextsIn(PreOrderAll(nodes))
    decreases nodes, 0
  {
    if nodes != [] {
      var n := |nodes| - 1;
      TextsOfAllIsPreOrder(nodes[..n]);
      TextsOfIsPreOrder(nodes[n]);
      TextsInAppend(PreOrderAll(nodes[..n]), PreOrder(nodes[n]));
    }
  }

  /**
   * `extract_content(node)` appending to the shared `text_parts` list: the list
   * grows by the node's texts.
   */
  method ExtractContent(node: Adf, textParts: seq<string>) returns (parts: seq<string>)
    ensures parts == textParts + TextsOf(node)
    decreases node
  {
    parts := textParts;
    match node {
      case Node(text, content) =>
        if text.Some? {
          parts := parts + [text.value];
        }
        for i := 0 to |content|
          invariant parts == textParts + OwnText(node) + TextsOfAll(content[..i])
        {
          assert content[..i + 1][..i] == content[..i];
          parts := ExtractContent(content[i], parts);
        }
        assert content[..|content|] == content;
      case Items(items) =>
        for i := 0 to |items|
          invariant parts == textParts + TextsOfAll(items[..i])
        {
          assert items[..i + 1][..i] == items[..i];
          parts := ExtractContent(items[i], parts);
        }
        assert items[..|items|] == items;
      case Scalar =>
    }
  }

  /** `_extract_text_from_adf(doc)` for a dict document. */
  method ExtractTextFromAdf(doc: AdfDict) returns (text: string)
    ensures text == FlattenAdf(doc)
    ensures text == JoinLines(TextsIn(PreOrder(doc)))
  {
    var textParts := ExtractContent(doc, []);
    assert textParts == TextsOf(doc);
    TextsOfIsPreOrder(doc);
    text := JoinLines(textParts);
  }

  /** The flattened text as a function, for the other formatters: the pre-order texts joined with newlines. */
  function FlattenAdf(doc: AdfDict): (text: string)
    ensures text == JoinLines(TextsIn(PreOrder(doc)))
  {
    TextsOfIsPreOrder(doc);
    JoinLines(TextsOf(doc))
  }

  /** A document none of whose nodes has a `text` flattens to the empty string. */
  lemma NoTextFlattensToEmpty(doc: AdfDict)
    requires forall i :: 0 <= i < |PreOrder(doc)| ==> OwnText(PreOrder(doc)[i]) == []
    ensures FlattenAdf(doc) == ""
  {
    TextsOfIsPreOrder(doc);
    NoOwnTextNoTexts(PreOrder(doc));
  }

  lemma {:induction false} NoOwnTextNoTexts(nodes: seq<Adf>)
    requires forall i :: 0 <= i < |nodes| ==> OwnText(nodes[i]) == []
    ensures TextsIn(nodes) == []
  {
    if nodes != [] {
      NoOwnTextNoTexts(nodes[..|nodes| - 1]);
    }
  }

  /** Splitting the flattened text on newlines gives back the texts, when none contains a newline. */
  lemma FlattenSplitsBack(doc: AdfDict)
    requires TextsOf(doc) != []
    requires forall i :: 0 <= i < |TextsOf(doc)| ==> '\n' !in TextsOf(doc)[i]
    ensures Split(FlattenAdf(doc), '\n') == TextsIn(PreOrder(doc))
  {
    SplitJoinLines(TextsOf(doc));
    TextsOfIsPreOrder(doc);
  }

  /** `{content:[{text:"A"},{content:[{text:"B"}]}]}` flattens to `"A\nB"`. */
  lemma FlattenExample()
    ensures FlattenAdf(Node(None, [Node(Some("A"), []), Node(None, [Node(Some("B"), [])])])) == "A\nB"
  {
    var a := Node(Some("A"), []);
    var b := Node(Some("B"), []);
    var inner := Node(None, [b]);
    assert TextsOf(a) == ["A"];
    assert TextsOf(b) == ["B"];
    assert TextsOfAll([b]) == ["B"] by { assert [b][..0] == []; }
    assert TextsOf(inner) == ["B"];
    var kids := [a, inner];
    assert kids[..1] == [a] && kids[..1][..0] == [];
    assert TextsOfAll(kids) == ["A", "B"];
  }
}
