/**
 `getDocumentWorkflow`: the chain a document belongs to, read from the
 parent and child links. The application walks the links without a bound:
 on a cycle of parent links its upward loop never ends, and on a cycle of
 child links its recursive descent overflows the stack and throws. Here each
 walk carries a step budget, and the query gives it the size of the
 collection. `AncestorsChain` says where the
 upward walk stops when the budget is not spent; that the budget suffices is
 proved for the four-document chain of the pipeline (`ChainAncestors`,
 `ChainDescendants`), not for every chain without cycles.
 */
module Traversal {
  import opened Wrappers
  import opened Documents

  /** `parent` is what `documents.find` returns for the (truthy) parent id of `child`. */
  predicate ParentOf(docs: seq<Document>, child: Document, parent: Document) {
    IsSet(child.parentDocumentId) && Find(docs, child.parentDocumentId.value) == Some(parent)
  }

  /** The upward walk stops at `d`: it has no parent id, or no document carries it. */
  predicate Orphan(docs: seq<Document>, d: Document) {
    !IsSet(d.parentDocumentId) || Find(docs, d.parentDocumentId.value).None?
  }

  /**
   The ancestors of `d`, oldest first: each step prepends the parent found for
   the current document (`workflow.unshift(parent)`) and stops at an orphan,
   after at most `fuel` steps.
   */
  function Ancestors(docs: seq<Document>, d: Document, fuel: nat): seq<Document>
    decreases fuel
  {
    if fuel == 0 || !IsSet(d.parentDocumentId) then []
    else
      match Find(docs, d.parentDocumentId.value)
      case None => []
      case Some(p) => Ancestors(docs, p, fuel - 1) + [p]
  }

  /**
   The ancestors are documents of the collection, each the parent of the next
   and the last the parent of `d`; unless the budget ran out, the first is an
   orphan, so the walk stopped where the links stop.
   */
  lemma {:induction false} AncestorsChain(docs: seq<Document>, d: Document, fuel: nat)
    ensures var r := Ancestors(docs, d, fuel);
      && |r| <= fuel
      && (forall i | 0 <= i < |r| :: r[i] in docs)
      && (r == [] ==> fuel == 0 || Orphan(docs, d))
      && (r != [] ==> ParentOf(docs, d, r[|r| - 1]))
      && (forall i | 0 < i < |r| :: ParentOf(docs, r[i], r[i - 1]))
      && (r != [] && |r| < fuel ==> Orphan(docs, r[0]))
    decreases fuel
  {
    if fuel > 0 && IsSet(d.parentDocumentId) && Find(docs, d.parentDocumentId.value).Some? {
      var p := Find(docs, d.parentDocumentId.value).value;
      var above := Ancestors(docs, p, fuel - 1);
      AncestorsChain(docs, p, fuel - 1);
      var r := above + [p];
      assert Ancestors(docs, d, fuel) == r;
      forall i | 0 < i < |r|
        ensures ParentOf(docs, r[i], r[i - 1])
      {
        if i < |above| {
          assert r[i] == above[i] && r[i - 1] == above[i - 1];
        }
      }
      assert r != [] && |r| < fuel ==> r[0] == (if above == [] then p else above[0]);
    }
  }

  /**
   `addChildren`, applied to each id of `ids` in turn: a child found in the
   collection is emitted and then its own children, depth first; ids no
   document carries are skipped. `fuel` bounds the depth.
   */
  function Descendants(docs: seq<Document>, ids: seq<string>, fuel: nat): (r: seq<Document>)
    ensures forall i | 0 <= i < |r| :: r[i] in docs
    ensures (forall i | 0 <= i < |ids| :: IdFree(docs, ids[i])) ==> r == []
    decreases fuel, |ids|
  {
    if fuel == 0 || ids == [] then []
    else
      var rest := Descendants(docs, ids[1..], fuel);
      assert forall i | 0 <= i < |ids[1..]| :: ids[1..][i] == ids[i + 1];
      match Find(docs, ids[0])
      case None => rest
      case Some(c) => [c] + Descendants(docs, c.childDocuments, fuel - 1) + rest
  }

  /** Walking a list of ids is walking its two halves one after the other (`forEach`). */
  lemma {:induction false} DescendantsAppend(docs: seq<Document>, a: seq<string>, b: seq<string>, fuel: nat)
    ensures Descendants(docs, a + b, fuel) == Descendants(docs, a, fuel) + Descendants(docs, b, fuel)
    decreases |a|
  {
    if a == [] {
      assert a + b == b;
    } else if fuel > 0 {
      assert (a + b)[0] == a[0];
      assert (a + b)[1..] == a[1..] + b;
      DescendantsAppend(docs, a[1..], b, fuel);
    }
  }

  /**
   `getDocumentWorkflow`: nothing for an unknown id; otherwise the ancestors
   of the first document carrying the id, that document, and its descendants.
   */
  function GetDocumentWorkflow(docs: seq<Document>, id: string): (r: seq<Document>)
    ensures r == [] <==> IdFree(docs, id)
    ensures forall i | 0 <= i < |r| :: r[i] in docs
  {
    match Find(docs, id)
    case None => []
    case Some(d) =>
      var up := Ancestors(docs, d, |docs|);
      AncestorsChain(docs, d, |docs|);
      up + [d] + Descendants(docs, d.childDocuments, |docs|)
  }

  /**
   In the answer for a known id, the document found sits right after its
   ancestors, each of which is the parent of the next, the last being the
   parent of the document found.
   */
  lemma WorkflowShape(docs: seq<Document>, id: string)
    requires Find(docs, id).Some?
    ensures var r := GetDocumentWorkflow(docs, id);
      var d := Find(docs, id).value;
      var k := |Ancestors(docs, d, |docs|)|;
      && k < |r| && r[k] == d
      && (k == 0 || ParentOf(docs, d, r[k - 1]))
      && (forall i | 0 < i < k :: ParentOf(docs, r[i], r[i - 1]))
  {
    var d := Find(docs, id).value;
    var up := Ancestors(docs, d, |docs|);
    AncestorsChain(docs, d, |docs|);
    var r := GetDocumentWorkflow(docs, id);
    assert forall i | 0 <= i < |up| :: r[i] == up[i];
  }

  /**
   Four documents linked as one chain: `a` is a root whose only child is `b`,
   `b`'s only child is `c`, `c`'s only child is `e`, and `e` has none; each is
   what looking up its own id finds.
   */
  predicate Chain(docs: seq<Document>, a: Document, b: Document, c: Document, e: Document) {
    && |docs| >= 4
    && Find(docs, a.id) == Some(a) && Find(docs, b.id) == Some(b)
    && Find(docs, c.id) == Some(c) && Find(docs, e.id) == Some(e)
    && a.id != "" && b.id != "" && c.id != ""
    && !IsSet(a.parentDocumentId) && a.childDocuments == [b.id]
    && b.parentDocumentId == Some(a.id) && b.childDocuments == [c.id]
    && c.parentDocumentId == Some(b.id) && c.childDocuments == [e.id]
    && e.parentDocumentId == Some(c.id) && e.childDocuments == []
  }

  /** Below the chain's members, the walk down emits the rest of the chain in order. */
  lemma ChainDescendants(docs: seq<Document>, a: Document, b: Document, c: Document, e: Document, fuel: nat)
    requires Chain(docs, a, b, c, e)
    ensures fuel >= 1 ==> Descendants(docs, c.childDocuments, fuel) == [e]
    ensures fuel >= 2 ==> Descendants(docs, b.childDocuments, fuel) == [c, e]
    ensures fuel >= 3 ==> Descendants(docs, a.childDocuments, fuel) == [b, c, e]
  {
    if fuel >= 1 {
      assert [e.id][1..] == [];
      assert Descendants(docs, [e.id], fuel) == [e] + Descendants(docs, [], fuel - 1) + [];
    }
    if fuel >= 2 {
      assert [c.id][1..] == [];
      assert Descendants(docs, [c.id], fuel) == [c] + Descendants(docs, [e.id], fuel - 1) + [];
    }
    if fuel >= 3 {
      assert [b.id][1..] == [];
      assert Descendants(docs, [b.id], fuel) == [b] + Descendants(docs, [c.id], fuel - 1) + [];
    }
  }

  /** Above the chain's members, the walk up collects the chain from its root. */
  lemma ChainAncestors(docs: seq<Document>, a: Document, b: Document, c: Document, e: Document, fuel: nat)
    requires Chain(docs, a, b, c, e)
    ensures fuel >= 1 ==> Ancestors(docs, a, fuel) == []
    ensures fuel >= 1 ==> Ancestors(docs, b, fuel) == [a]
    ensures fuel >= 2 ==> Ancestors(docs, c, fuel) == [a, b]
    ensures fuel >= 3 ==> Ancestors(docs, e, fuel) == [a, b, c]
  {
    if fuel >= 1 {
      assert Ancestors(docs, b, fuel) == Ancestors(docs, a, fuel - 1) + [a];
    }
    if fuel >= 2 {
      assert Ancestors(docs, c, fuel) == Ancestors(docs, b, fuel - 1) + [b];
    }
    if fuel >= 3 {
      assert Ancestors(docs, e, fuel) == Ancestors(docs, c, fuel - 1) + [c];
    }
  }

  /** The query on an id that is found is the walk up, the document found, and the walk down. */
  lemma WorkflowAround(docs: seq<Document>, x: Document, up: seq<Document>, down: seq<Document>)
    requires Find(docs, x.id) == Some(x)
    requires Ancestors(docs, x, |docs|) == up && Descendants(docs, x.childDocuments, |docs|) == down
    ensures GetDocumentWorkflow(docs, x.id) == up + [x] + down
  {
  }

  /** The four ways of cutting a four-element sequence around one of its elements. */
  lemma SplitsOfFour<T>(a: T, b: T, c: T, e: T)
    ensures [] + [a] + [b, c, e] == [a, b, c, e]
    ensures [a] + [b] + [c, e] == [a, b, c, e]
    ensures [a, b] + [c] + [e] == [a, b, c, e]
    ensures [a, b, c] + [e] + [] == [a, b, c, e]
  {
  }

  /** Whichever member of a chain is asked about, the whole chain comes back, root first. */
  lemma ChainWorkflow(docs: seq<Document>, a: Document, b: Document, c: Document, e: Document)
    requires Chain(docs, a, b, c, e)
    ensures GetDocumentWorkflow(docs, a.id) == [a, b, c, e]
    ensures GetDocumentWorkflow(docs, b.id) == [a, b, c, e]
    ensures GetDocumentWorkflow(docs, c.id) == [a, b, c, e]
    ensures GetDocumentWorkflow(docs, e.id) == [a, b, c, e]
  {
    var n := |docs|;
    ChainAncestors(docs, a, b, c, e, n);
    ChainDescendants(docs, a, b, c, e, n);
    assert Descendants(docs, [], n) == [];
    WorkflowAround(docs, a, [], [b, c, e]);
    WorkflowAround(docs, b, [a], [c, e]);
    WorkflowAround(docs, c, [a, b], [e]);
    WorkflowAround(docs, e, [a, b, c], []);
    SplitsOfFour(a, b, c, e);
  }
}
