/**
 * `getDomPath` (src/components/disco-hyperlink/disco-hyperlink.tsx): the CSS
 * selector path from the outermost visited ancestor down to a link element,
 * which the page uses to say which link a visitor followed.
 *
 * The DOM is an arena of nodes. A node's previous element sibling and parent
 * are earlier in the arena (document order), so every walk ends.
 */
module DomPath {
  import opened Common

  /**
   * One DOM node. An empty `tagName` is a node without one (the document,
   * say); an empty `id` is an element without an id.
   */
  datatype Node = Node(tagName: string, id: string, prev: Option<nat>, parent: Option<nat>)

  /** Sibling and parent links point to earlier nodes. */
  ghost predicate Wf(nodes: seq<Node>) {
    forall i :: 0 <= i < |nodes| ==>
      (nodes[i].prev.Some? ==> nodes[i].prev.value < i) && (nodes[i].parent.Some? ==> nodes[i].parent.value < i)
  }

  /** A link that is null or names a node of the arena. */
  predicate ValidRef(nodes: seq<Node>, el: Option<nat>) {
    el.Some? ==> el.value < |nodes|
  }

  /** The ASCII lower case of a character. */
  function LowerChar(c: char): (r: char)
    ensures 'A' <= c <= 'Z' ==> r as int == c as int + 32
    ensures !('A' <= c <= 'Z') ==> r == c
  {
    if 'A' <= c <= 'Z' then (c as int + 32) as char else c
  }

  /** `toLowerCase`, on ASCII letters. */
  function ToLower(s: string): (r: string)
    ensures |r| == |s|
    ensures forall i :: 0 <= i < |s| ==> r[i] == LowerChar(s[i])
  {
    seq(|s|, i requires 0 <= i < |s| => LowerChar(s[i]))
  }

  /** The decimal digits of `n`, as a template string renders a number. */
  function NatToString(n: nat): (r: string)
    ensures |r| >= 1
    ensures forall i :: 0 <= i < |r| ==> '0' <= r[i] <= '9'
  {
    var digit := ['0' + (n % 10) as char];
    if n < 10 then digit else NatToString(n / 10) + digit
  }

  /** The number a string of decimal digits spells. */
  function DigitsValue(r: string): int {
    if r == [] then 0 else 10 * DigitsValue(r[..|r| - 1]) + (r[|r| - 1] as int - '0' as int)
  }

  /** A count renders as the digits that spell it, without a leading zero. */
  lemma {:induction false} NatToStringValue(n: nat)
    ensures DigitsValue(NatToString(n)) == n
    ensures |NatToString(n)| > 1 ==> NatToString(n)[0] != '0'
  {
    var r := NatToString(n);
    var digit := ['0' + (n % 10) as char];
    if n >= 10 {
      var prefix := NatToString(n / 10);
      NatToStringValue(n / 10);
      assert r == prefix + digit;
      assert r[..|r| - 1] == prefix;
    }
  }

  /** `parts.join(sep)` */
  function Join(parts: seq<string>, sep: string): string {
    if parts == [] then ""
    else if |parts| == 1 then parts[0]
    else parts[0] + sep + Join(parts[1..], sep)
  }

  /** The previous element siblings reached from `p`, nearest first. */
  function PrevSiblings(nodes: seq<Node>, p: Option<nat>): (sibs: seq<nat>)
    requires Wf(nodes) && ValidRef(nodes, p)
    ensures forall k :: 0 <= k < |sibs| ==> sibs[k] < |nodes|
    decreases if p.Some? then p.value + 1 else 0
  {
    if p.None? then [] else [p.value] + PrevSiblings(nodes, nodes[p.value].prev)
  }

  /** How many of the siblings reached from `p` have lower-case tag `tag`. */
  function SameTagBefore(nodes: seq<Node>, p: Option<nat>, tag: string): nat
    requires Wf(nodes) && ValidRef(nodes, p)
    decreases if p.Some? then p.value + 1 else 0
  {
    if p.None? then 0
    else (if ToLower(nodes[p.value].tagName) == tag then 1 else 0) + SameTagBefore(nodes, nodes[p.value].prev, tag)
  }

  /** `n` of `:nth-of-type(n)`: one more than the earlier siblings with the same lower-case tag. */
  function NthOfType(nodes: seq<Node>, i: nat): nat
    requires Wf(nodes) && i < |nodes|
  {
    1 + SameTagBefore(nodes, nodes[i].prev, ToLower(nodes[i].tagName))
  }

  /** The count is zero exactly when no earlier sibling has that tag. */
  lemma {:induction false} SameTagBeforeZero(nodes: seq<Node>, p: Option<nat>, tag: string)
    requires Wf(nodes) && ValidRef(nodes, p)
    ensures SameTagBefore(nodes, p, tag) == 0 <==>
      forall s :: s in PrevSiblings(nodes, p) ==> ToLower(nodes[s].tagName) != tag
    decreases if p.Some? then p.value + 1 else 0
  {
    if p.Some? {
      SameTagBeforeZero(nodes, nodes[p.value].prev, tag);
    }
  }

  /** An element needs `:nth-of-type` exactly when an earlier sibling has its lower-case tag. */
  lemma NthIsOneIff(nodes: seq<Node>, i: nat)
    requires Wf(nodes) && i < |nodes|
    ensures NthOfType(nodes, i) == 1 <==>
      forall s :: s in PrevSiblings(nodes, nodes[i].prev) ==> ToLower(nodes[s].tagName) != ToLower(nodes[i].tagName)
  {
    SameTagBeforeZero(nodes, nodes[i].prev, ToLower(nodes[i].tagName));
  }

  /** The selector of one visited element: `tag#id`, else `tag` or `tag:nth-of-type(n)` for n other than 1. */
  function Segment(nodes: seq<Node>, i: nat): string
    requires Wf(nodes) && i < |nodes|
  {
    var tag := ToLower(nodes[i].tagName);
    if nodes[i].id != "" then tag + "#" + nodes[i].id
    else
      var nth := NthOfType(nodes, i);
      if nth != 1 then tag + ":nth-of-type(" + NatToString(nth) + ")" else tag
  }

  /**
   * The elements the walk visits, outermost first: from `el` up through
   * parents, stopping after the first element with an id or before the
   * first node without a tag.
   */
  function Ancestry(nodes: seq<Node>, el: Option<nat>): (chain: seq<nat>)
    requires Wf(nodes) && ValidRef(nodes, el)
    ensures forall k :: 0 <= k < |chain| ==> chain[k] < |nodes|
    decreases if el.Some? then el.value + 1 else 0
  {
    if el.None? || nodes[el.value].tagName == "" then []
    else if nodes[el.value].id != "" then [el.value]
    else Ancestry(nodes, nodes[el.value].parent) + [el.value]
  }

  /** The selectors of the given elements, in the same order. */
  function Segments(nodes: seq<Node>, chain: seq<nat>): (parts: seq<string>)
    requires Wf(nodes) && forall k :: 0 <= k < |chain| ==> chain[k] < |nodes|
    ensures |parts| == |chain|
    ensures forall k :: 0 <= k < |chain| ==> parts[k] == Segment(nodes, chain[k])
  {
    seq(|chain|, k requires 0 <= k < |chain| => Segment(nodes, chain[k]))
  }

  /** The segments `getDomPath` joins. */
  function PathParts(nodes: seq<Node>, el: Option<nat>): seq<string>
    requires Wf(nodes) && ValidRef(nodes, el)
  {
    Segments(nodes, Ancestry(nodes, el))
  }

  /**
   * The walk: it is empty exactly when the start is null or has no tag; it
   * ends at the start element; each element is the parent of the next; no
   * element but the outermost has an id; and the outermost has an id or a
   * parent that is null or has no tag.
   */
  lemma {:induction false} AncestryShape(nodes: seq<Node>, el: Option<nat>)
    requires Wf(nodes) && ValidRef(nodes, el)
    ensures var chain := Ancestry(nodes, el);
      && (chain == [] <==> el.None? || nodes[el.value].tagName == "")
      && (chain != [] ==> chain[|chain| - 1] == el.value)
      && (forall k :: 0 <= k < |chain| ==> nodes[chain[k]].tagName != "")
      && (forall k :: 1 <= k < |chain| ==>
            nodes[chain[k]].parent == Some(chain[k - 1]) && nodes[chain[k]].id == "")
      && (chain != [] ==>
            var top := nodes[chain[0]];
            top.id != "" || top.parent.None? || nodes[top.parent.value].tagName == "")
    decreases if el.Some? then el.value + 1 else 0
  {
    if el.Some? && nodes[el.value].tagName != "" && nodes[el.value].id == "" {
      var p := nodes[el.value].parent;
      AncestryShape(nodes, p);
      var upper := Ancestry(nodes, p);
      var chain := upper + [el.value];
      assert chain == Ancestry(nodes, el);
      if upper != [] {
        assert chain[|upper| - 1] == upper[|upper| - 1];
      }
      forall k | 1 <= k < |chain|
        ensures nodes[chain[k]].parent == Some(chain[k - 1]) && nodes[chain[k]].id == ""
      {
        if k < |upper| {
          assert chain[k - 1] == upper[k - 1] && chain[k] == upper[k];
        }
      }
    }
  }

  /** A start element with an id yields just `tag#id`. */
  lemma IdEndsWalk(nodes: seq<Node>, i: nat)
    requires Wf(nodes) && i < |nodes| && nodes[i].tagName != "" && nodes[i].id != ""
    ensures PathParts(nodes, Some(i)) == [ToLower(nodes[i].tagName) + "#" + nodes[i].id]
  {
  }

  /** A start that is null or has no tag yields the empty string. */
  lemma {:induction false} TaglessStartIsEmpty(nodes: seq<Node>, el: Option<nat>)
    requires Wf(nodes) && ValidRef(nodes, el)
    requires el.None? || nodes[el.value].tagName == ""
    ensures Join(PathParts(nodes, el), " > ") == ""
  {
    assert Ancestry(nodes, el) == [];
    assert PathParts(nodes, el) == [];
  }

  /** The inner loop of `getDomPath`: counts the earlier siblings with the element's lower-case tag. */
  method NthOfTypeLoop(nodes: seq<Node>, i: nat, selector: string) returns (nth: nat)
    requires Wf(nodes) && i < |nodes| && selector == ToLower(nodes[i].tagName)
    ensures nth == NthOfType(nodes, i)
  {
    var sib := nodes[i].prev;
    nth := 1;
    while sib.Some?
      invariant ValidRef(nodes, sib)
      invariant nth + SameTagBefore(nodes, sib, selector) == 1 + SameTagBefore(nodes, nodes[i].prev, selector)
      decreases if sib.Some? then sib.value + 1 else 0
    {
      if ToLower(nodes[sib.value].tagName) == selector {
        nth := nth + 1;
      }
      sib := nodes[sib.value].prev;
    }
  }

  lemma SegmentsCons(nodes: seq<Node>, i: nat, chain: seq<nat>)
    requires Wf(nodes) && i < |nodes| && forall k :: 0 <= k < |chain| ==> chain[k] < |nodes|
    ensures Segments(nodes, [i] + chain) == [Segment(nodes, i)] + Segments(nodes, chain)
  {
  }

  /** An element with an id is the whole walk; any other tagged element extends its parent's walk. */
  lemma AncestryUnfold(nodes: seq<Node>, i: nat)
    requires Wf(nodes) && i < |nodes| && nodes[i].tagName != ""
    ensures nodes[i].id != "" ==> Ancestry(nodes, Some(i)) == [i]
    ensures nodes[i].id == "" ==> Ancestry(nodes, Some(i)) == Ancestry(nodes, nodes[i].parent) + [i]
  {
  }

  /** One step of the walk, with the elements already visited appended. */
  lemma AncestryStep(nodes: seq<Node>, i: nat, visited: seq<nat>)
    requires Wf(nodes) && i < |nodes| && nodes[i].tagName != ""
    ensures nodes[i].id != "" ==> Ancestry(nodes, Some(i)) + visited == [i] + visited
    ensures nodes[i].id == "" ==>
      Ancestry(nodes, Some(i)) + visited == Ancestry(nodes, nodes[i].parent) + ([i] + visited)
  {
    AncestryUnfold(nodes, i);
    if nodes[i].id == "" {
      ConcatAssoc(Ancestry(nodes, nodes[i].parent), [i], visited);
    }
  }

  /** The walk so far, one element further: the visited elements are the end of the start's walk. */
  lemma WalkStep(nodes: seq<Node>, start: Option<nat>, i: nat, visited: seq<nat>)
    requires Wf(nodes) && ValidRef(nodes, start) && i < |nodes| && nodes[i].tagName != ""
    requires forall k :: 0 <= k < |visited| ==> visited[k] < |nodes|
    requires Ancestry(nodes, start) == Ancestry(nodes, Some(i)) + visited
    ensures forall k :: 0 <= k < |[i] + visited| ==> ([i] + visited)[k] < |nodes|
    ensures nodes[i].id != "" ==> Ancestry(nodes, start) == [i] + visited
    ensures nodes[i].id == "" ==> Ancestry(nodes, start) == Ancestry(nodes, nodes[i].parent) + ([i] + visited)
  {
    AncestryStep(nodes, i, visited);
  }

  /**
   * The selector `getDomPath` builds for one element: its lower-case tag,
   * then `#id`, or `:nth-of-type(n)` when n is not 1.
   */
  method ElementSelector(nodes: seq<Node>, i: nat) returns (selector: string)
    requires Wf(nodes) && i < |nodes|
    ensures selector == Segment(nodes, i)
  {
    selector := ToLower(nodes[i].tagName);
    if nodes[i].id != "" {
      selector := selector + "#" + nodes[i].id;
    } else {
      var nth := NthOfTypeLoop(nodes, i, selector);
      if nth != 1 {
        selector := selector + ":nth-of-type(" + NatToString(nth) + ")";
      }
    }
  }

  /**
   * `getDomPath`: walks up from `start`, prepending one selector per
   * element, stopping after an element with an id, and joins the selectors
   * with `" > "`.
   */
  method GetDomPath(nodes: seq<Node>, start: Option<nat>) returns (path: string)
    requires Wf(nodes) && ValidRef(nodes, start)
    ensures path == Join(PathParts(nodes, start), " > ")
  {
    var parts: seq<string> := [];
    var el := start;
    ghost var visited: seq<nat> := [];
    while el.Some? && nodes[el.value].tagName != ""
      invariant ValidRef(nodes, el)
      invariant forall k :: 0 <= k < |visited| ==> visited[k] < |nodes|
      invariant Ancestry(nodes, start) == Ancestry(nodes, el) + visited
      invariant parts == Segments(nodes, visited)
      decreases if el.Some? then el.value + 1 else 0
    {
      var i := el.value;
      var selector := ElementSelector(nodes, i);
      SegmentsCons(nodes, i, visited);
      WalkStep(nodes, start, i, visited);
      parts := [selector] + parts;
      visited := [i] + visited;
      if nodes[i].id != "" {
        break;
      }
      el := nodes[i].parent;
    }
    assert Ancestry(nodes, start) == visited;
    assert parts == PathParts(nodes, start);
    path := Join(parts, " > ");
  }
}
