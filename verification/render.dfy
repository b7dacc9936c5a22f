// Building the runtime tree of a surface document and rendering its actions
// (core/runtime/src/ui/mod.rs): nodes are numbered in preorder, and the actions a
// surface offers are its buttons in that order.

module Render {
  import opened Prelude
  import opened Decimal
  import opened TokenStream
  import opened Surface
  import opened SurfacePrint

  datatype RuntimeNode = RuntimeNode(nodeId: string, kind: Kind, properties: map<string, string>, children: seq<RuntimeNode>)

  datatype RuntimeTree = RuntimeTree(title: Option<string>, root: RuntimeNode, nodeCount: nat)

  datatype RenderedAction = RenderedAction(index: nat, nodeId: string, caption: string, action: string)

  function NodeId(n: nat): string {
    "node-" + Digits(n)
  }

  // ---- Documents and runtime trees --------------------------------------

  /** The page node that stands for a whole document. */
  function PageNode(doc: Document): Node {
    Node(Page, map[], doc.children)
  }

  /** A node and all its descendants, parents before children. */
  function Preorder(n: Node): (r: seq<Node>)
    ensures r != [] && r[0] == n
    decreases n, 0
  {
    [n] + PreorderAll(n.children)
  }

  function PreorderAll(nodes: seq<Node>): seq<Node> {
    if nodes == [] then [] else Preorder(nodes[0]) + PreorderAll(nodes[1..])
  }

  /** The document node a runtime node was built from. */
  function Shape(n: RuntimeNode): Node
    decreases n, 0
  {
    Node(n.kind, n.properties, Shapes(n.children))
  }

  function Shapes(nodes: seq<RuntimeNode>): (r: seq<Node>)
    ensures |r| == |nodes|
  {
    if nodes == [] then [] else [Shape(nodes[0])] + Shapes(nodes[1..])
  }

  /** The identifiers of a runtime tree in preorder. */
  function Ids(n: RuntimeNode): seq<string>
    decreases n, 0
  {
    [n.nodeId] + IdsAll(n.children)
  }

  function IdsAll(nodes: seq<RuntimeNode>): seq<string> {
    if nodes == [] then [] else Ids(nodes[0]) + IdsAll(nodes[1..])
  }

  /** The identifiers numbered `from + 1`, ..., `from + count`. */
  function IdRange(from: nat, count: nat): seq<string> {
    seq(count, k requires 0 <= k < count => NodeId(from + 1 + k))
  }

  /** `n` is `source` with its nodes numbered in preorder after `from`. */
  predicate Numbers(n: RuntimeNode, source: Node, from: nat) {
    Shape(n) == source && Ids(n) == IdRange(from, |Preorder(source)|)
  }

  lemma {:induction false} ShapesSnoc(nodes: seq<RuntimeNode>, n: RuntimeNode)
    ensures Shapes(nodes + [n]) == Shapes(nodes) + [Shape(n)]
  {
    if nodes == [] {
      assert nodes + [n] == [n];
    } else {
      ShapesSnoc(nodes[1..], n);
      assert (nodes + [n])[1..] == nodes[1..] + [n];
    }
  }

  lemma {:induction false} IdsSnoc(nodes: seq<RuntimeNode>, n: RuntimeNode)
    ensures IdsAll(nodes + [n]) == IdsAll(nodes) + Ids(n)
  {
    if nodes == [] {
      assert nodes + [n] == [n];
    } else {
      IdsSnoc(nodes[1..], n);
      assert (nodes + [n])[1..] == nodes[1..] + [n];
    }
  }

  lemma {:induction false} PreorderSnoc(nodes: seq<Node>, n: Node)
    ensures PreorderAll(nodes + [n]) == PreorderAll(nodes) + Preorder(n)
  {
    if nodes == [] {
      assert nodes + [n] == [n];
    } else {
      PreorderSnoc(nodes[1..], n);
      assert (nodes + [n])[1..] == nodes[1..] + [n];
    }
  }

  lemma IdRangeJoins(from: nat, a: nat, b: nat)
    ensures IdRange(from, a) + IdRange(from + a, b) == IdRange(from, a + b)
  {
  }

  // ---- Building ---------------------------------------------------------

  method BuildRuntimeNode(source: Node, nextId: nat) returns (node: RuntimeNode, next: nat)
    ensures Numbers(node, source, nextId)
    ensures next == nextId + |Preorder(source)|
    decreases source
  {
    next := nextId + 1;
    var nodeId := NodeId(next);
    var children := [];
    var i := 0;
    while i < |source.children|
      invariant 0 <= i <= |source.children|
      invariant next == nextId + 1 + |PreorderAll(source.children[..i])|
      invariant Shapes(children) == source.children[..i]
      invariant IdsAll(children) == IdRange(nextId + 1, |PreorderAll(source.children[..i])|)
    {
      ghost var done := source.children[..i];
      ghost var seen := |PreorderAll(done)|;
      var child;
      child, next := BuildRuntimeNode(source.children[i], next);
      ShapesSnoc(children, child);
      IdsSnoc(children, child);
      PreorderSnoc(done, source.children[i]);
      IdRangeJoins(nextId + 1, seen, |Preorder(source.children[i])|);
      assert source.children[..i + 1] == done + [source.children[i]];
      children := children + [child];
      i := i + 1;
    }
    assert source.children[..i] == source.children;
    node := RuntimeNode(nodeId, source.kind, source.properties, children);
    IdRangeJoins(nextId, 1, |PreorderAll(source.children)|);
    assert IdRange(nextId, 1) == [nodeId];
  }

  method BuildRuntimeTree(doc: Document) returns (tree: RuntimeTree)
    ensures tree.title == doc.title && Numbers(tree.root, PageNode(doc), 0)
    ensures tree.nodeCount == |Preorder(PageNode(doc))|
  {
    var root, next := BuildRuntimeNode(PageNode(doc), 0);
    tree := RuntimeTree(doc.title, root, next);
  }

  // ---- Rendering --------------------------------------------------------

  function RequiredProperty(properties: map<string, string>, key: string): Result<string, UiError> {
    if key in properties then Ok(properties[key]) else Err(MissingProperty(key))
  }

  predicate IsContainer(kind: Kind) {
    kind.Page? || kind.Column? || kind.Row?
  }

  /** The nodes rendering reaches: it descends into containers only. */
  function Visited(n: RuntimeNode): seq<RuntimeNode>
    decreases n, 0
  {
    [n] + if IsContainer(n.kind) then VisitedAll(n.children) else []
  }

  function VisitedAll(nodes: seq<RuntimeNode>): seq<RuntimeNode> {
    if nodes == [] then [] else Visited(nodes[0]) + VisitedAll(nodes[1..])
  }

  /** The actions after one more node. */
  function WithNode(n: RuntimeNode, actions: seq<RenderedAction>): Result<seq<RenderedAction>, UiError> {
    match n.kind
    case Button =>
      var caption :- RequiredProperty(n.properties, "label");
      var action :- RequiredProperty(n.properties, "action");
      Ok(actions + [RenderedAction(|actions| + 1, n.nodeId, caption, action)])
    case Input =>
      var _ :- RequiredProperty(n.properties, "id");
      Ok(actions)
    case _ => Ok(actions)
  }

  /** The actions after a list of nodes, or the first missing property. */
  function Outcome(nodes: seq<RuntimeNode>, actions: seq<RenderedAction>): Result<seq<RenderedAction>, UiError> {
    if nodes == [] then Ok(actions)
    else
      var more :- WithNode(nodes[0], actions);
      Outcome(nodes[1..], more)
  }

  lemma {:induction false} OutcomeOfConcat(a: seq<RuntimeNode>, b: seq<RuntimeNode>, actions: seq<RenderedAction>)
    ensures Outcome(a, actions).Ok? ==> Outcome(a + b, actions) == Outcome(b, Outcome(a, actions).value)
    ensures Outcome(a, actions).Err? ==> Outcome(a + b, actions) == Outcome(a, actions)
    decreases a
  {
    if a == [] {
      assert a + b == b;
    } else {
      assert (a + b)[1..] == a[1..] + b;
      if WithNode(a[0], actions).Ok? {
        OutcomeOfConcat(a[1..], b, WithNode(a[0], actions).value);
      }
    }
  }

  lemma OutcomeOfOne(n: RuntimeNode, actions: seq<RenderedAction>)
    ensures Outcome([n], actions) == WithNode(n, actions)
  {
    if WithNode(n, actions).Ok? {
      assert [n][1..] == [];
    }
  }

  lemma LeafOutcome(n: RuntimeNode, actions: seq<RenderedAction>)
    requires !IsContainer(n.kind)
    ensures Outcome(Visited(n), actions) == WithNode(n, actions)
  {
    OutcomeOfOne(n, actions);
    assert Visited(n) == [n];
  }

  method RenderButton(node: RuntimeNode, actions: seq<RenderedAction>) returns (r: Result<seq<RenderedAction>, UiError>)
    requires node.kind.Button?
    ensures r == Outcome(Visited(node), actions)
  {
    LeafOutcome(node, actions);
    var caption :- RequiredProperty(node.properties, "label");
    var action :- RequiredProperty(node.properties, "action");
    var index := |actions| + 1;
    return Ok(actions + [RenderedAction(index, node.nodeId, caption, action)]);
  }

  /** One turn of the loop over a container's children. */
  lemma ChildTurn(children: seq<RuntimeNode>, i: nat, actions: seq<RenderedAction>)
    requires i < |children|
    ensures var step := Outcome(Visited(children[i]), actions);
            Outcome(VisitedAll(children[i..]), actions) == (if step.Ok? then Outcome(VisitedAll(children[i + 1..]), step.value) else step)
  {
    assert children[i..][1..] == children[i + 1..];
    OutcomeOfConcat(Visited(children[i]), VisitedAll(children[i + 1..]), actions);
  }

  lemma ContainerTurns(node: RuntimeNode, actions: seq<RenderedAction>)
    requires IsContainer(node.kind)
    ensures Outcome(Visited(node), actions) == Outcome(VisitedAll(node.children[0..]), actions)
    ensures Outcome(VisitedAll(node.children[|node.children|..]), actions) == Ok(actions)
  {
    assert node.children[0..] == node.children;
    OutcomeOfOne(node, actions);
    OutcomeOfConcat([node], VisitedAll(node.children), actions);
  }

  /** A row renders its buttons, texts and inputs itself. */
  method RenderRowChild(child: RuntimeNode, actions: seq<RenderedAction>) returns (r: Result<seq<RenderedAction>, UiError>)
    ensures r == Outcome(Visited(child), actions)
    decreases child, 1
  {
    if child.kind.Button? {
      r := RenderButton(child, actions);
    } else if child.kind.Text? {
      LeafOutcome(child, actions);
      return Ok(actions);
    } else if child.kind.Input? {
      LeafOutcome(child, actions);
      var _ :- RequiredProperty(child.properties, "id");
      return Ok(actions);
    } else {
      r := RenderNode(child, actions);
    }
  }

  /** Text lines are left out; what remains is the actions and the failures. */
  method RenderNode(node: RuntimeNode, given: seq<RenderedAction>) returns (r: Result<seq<RenderedAction>, UiError>)
    ensures r == Outcome(Visited(node), given)
    decreases node, 0
  {
    hide Outcome, Visited, VisitedAll;
    match node.kind
    case Page | Column =>
      var actions := given;
      ContainerTurns(node, given);
      for i := 0 to |node.children|
        invariant Outcome(Visited(node), given) == Outcome(VisitedAll(node.children[i..]), actions)
      {
        ChildTurn(node.children, i, actions);
        actions :- RenderNode(node.children[i], actions);
      }
      ContainerTurns(node, actions);
      return Ok(actions);
    case Row =>
      var actions := given;
      ContainerTurns(node, given);
      for i := 0 to |node.children|
        invariant Outcome(Visited(node), given) == Outcome(VisitedAll(node.children[i..]), actions)
      {
        ChildTurn(node.children, i, actions);
        actions :- RenderRowChild(node.children[i], actions);
      }
      ContainerTurns(node, actions);
      return Ok(actions);
    case Button =>
      r := RenderButton(node, given);
    case Input =>
      LeafOutcome(node, given);
      var _ :- RequiredProperty(node.properties, "id");
      return Ok(given);
    case Text | Spacer =>
      LeafOutcome(node, given);
      return Ok(given);
  }

  method RenderTerminalSurface(tree: RuntimeTree) returns (r: Result<seq<RenderedAction>, UiError>)
    ensures r == Outcome(Visited(tree.root), [])
  {
    r := RenderNode(tree.root, []);
  }

  // ---- What the numbering determines ------------------------------------

  /** Shapes and identifiers in preorder leave nothing open: the numbering is unique. */
  lemma {:induction false} NumberingUnique(a: RuntimeNode, b: RuntimeNode)
    requires Shape(a) == Shape(b) && Ids(a) == Ids(b)
    ensures a == b
    decreases a, 0
  {
    assert a.nodeId == Ids(a)[0] == Ids(b)[0] == b.nodeId;
    assert Ids(a)[1..] == IdsAll(a.children) && Ids(b)[1..] == IdsAll(b.children);
    NumberingsUnique(a.children, b.children);
  }

  lemma {:induction false} IdsCount(n: RuntimeNode)
    ensures |Ids(n)| == |Preorder(Shape(n))|
    decreases n, 0
  {
    IdsCountAll(n.children);
  }

  lemma {:induction false} IdsCountAll(nodes: seq<RuntimeNode>)
    ensures |IdsAll(nodes)| == |PreorderAll(Shapes(nodes))|
    decreases nodes, 0
  {
    if nodes != [] {
      IdsCount(nodes[0]);
      IdsCountAll(nodes[1..]);
      assert Shapes(nodes)[1..] == Shapes(nodes[1..]);
    }
  }

  lemma {:induction false} NumberingsUnique(a: seq<RuntimeNode>, b: seq<RuntimeNode>)
    requires Shapes(a) == Shapes(b) && IdsAll(a) == IdsAll(b)
    ensures a == b
    decreases a, 0
  {
    assert |a| == |Shapes(a)| == |Shapes(b)| == |b|;
    if a != [] {
      assert Shape(a[0]) == Shapes(a)[0] == Shapes(b)[0] == Shape(b[0]);
      assert Shapes(a)[1..] == Shapes(a[1..]) && Shapes(b)[1..] == Shapes(b[1..]);
      IdsCount(a[0]);
      IdsCount(b[0]);
      var n := |Ids(a[0])|;
      assert Ids(a[0]) == IdsAll(a)[..n] && Ids(b[0]) == IdsAll(b)[..n];
      assert IdsAll(a[1..]) == IdsAll(a)[n..] && IdsAll(b[1..]) == IdsAll(b)[n..];
      NumberingUnique(a[0], b[0]);
      NumberingsUnique(a[1..], b[1..]);
      assert a == [a[0]] + a[1..] && b == [b[0]] + b[1..];
    }
  }

  /** No two nodes of a numbered tree share an identifier. */
  lemma IdsDistinct(n: RuntimeNode, source: Node, from: nat, i: nat, j: nat)
    requires Numbers(n, source, from) && i < j < |Ids(n)|
    ensures Ids(n)[i] != Ids(n)[j]
  {
    if Ids(n)[i] == Ids(n)[j] {
      var a, b := Digits(from + 1 + i), Digits(from + 1 + j);
      assert a == NodeId(from + 1 + i)[5..] == NodeId(from + 1 + j)[5..] == b;
      DigitsInjective(from + 1 + i, from + 1 + j);
    }
  }

  // ---- Rendering any tree -----------------------------------------------

  /** The first required property a node lacks: a button's label, then its action; an
      input's id. */
  function Lacks(n: RuntimeNode): Option<string> {
    if n.kind == Button && "label" !in n.properties then Some("label")
    else if n.kind == Button && "action" !in n.properties then Some("action")
    else if n.kind == Input && "id" !in n.properties then Some("id")
    else None
  }

  /** The first node that lacks something is node `k`, and it lacks `key`. */
  predicate FirstLack(nodes: seq<RuntimeNode>, k: nat, key: string) {
    k < |nodes| && Lacks(nodes[k]) == Some(key) && forall j :: 0 <= j < k ==> Lacks(nodes[j]).None?
  }

  lemma LackIsError(n: RuntimeNode, actions: seq<RenderedAction>)
    ensures WithNode(n, actions).Err? <==> Lacks(n).Some?
    ensures Lacks(n).Some? ==> WithNode(n, actions) == Err(MissingProperty(Lacks(n).value))
  {
  }

  /** Rendering any tree fails with the first thing missing on the way through it, and with
      nothing else. */
  lemma {:induction false} FailsAtFirstLack(nodes: seq<RuntimeNode>, actions: seq<RenderedAction>, e: UiError)
    ensures Outcome(nodes, actions) == Err(e) <==> exists k: nat, key :: FirstLack(nodes, k, key) && e == MissingProperty(key)
    decreases nodes
  {
    hide WithNode, Lacks;
    if nodes != [] {
      var rest := nodes[1..];
      LackIsError(nodes[0], actions);
      if Lacks(nodes[0]).Some? {
        assert FirstLack(nodes, 0, Lacks(nodes[0]).value);
      } else {
        FailsAtFirstLack(rest, WithNode(nodes[0], actions).value, e);
        forall k: nat, key | k > 0 ensures FirstLack(nodes, k, key) <==> FirstLack(rest, k - 1, key) {
          assert forall j :: 0 < j < |nodes| ==> nodes[j] == rest[j - 1];
          assert forall j :: 0 <= j < |rest| ==> rest[j] == nodes[j + 1];
        }
        assert forall key :: !FirstLack(nodes, 0, key);
        if k: nat, key :| FirstLack(rest, k, key) && e == MissingProperty(key) {
          assert FirstLack(nodes, k + 1, key);
        }
      }
    }
  }

  // ---- Rendering a parsed document --------------------------------------

  /** The action of a button with identifier number `id`, after `done` others. */
  function ActionOf(n: Node, id: nat, done: nat): seq<RenderedAction> {
    if n.kind.Button? && "label" in n.properties && "action" in n.properties then
      [RenderedAction(done + 1, NodeId(id), n.properties["label"], n.properties["action"])]
    else []
  }

  /** The buttons of a node list, as actions numbered from `done + 1`; the first node
      has identifier number `id`. */
  function ActionsOf(nodes: seq<Node>, id: nat, done: nat): seq<RenderedAction> {
    if nodes == [] then []
    else
      var first := ActionOf(nodes[0], id, done);
      first + ActionsOf(nodes[1..], id + 1, done + |first|)
  }

  predicate LacksId(n: Node) {
    n.kind.Input? && "id" !in n.properties
  }

  predicate SomeLacksId(nodes: seq<Node>) {
    exists k :: 0 <= k < |nodes| && LacksId(nodes[k])
  }

  /** A document node as the parser builds it, or the page around the document. */
  predicate Renderable(n: Node) {
    BuildableNode(n) || (n.kind.Page? && BuildableNodes(n.children))
  }

  /** Node by node, a runtime tree's visit is its document's preorder. */
  predicate VisitMatches(visit: seq<RuntimeNode>, nodes: seq<Node>, ids: seq<string>) {
    |visit| == |nodes| == |ids|
    && forall k :: 0 <= k < |visit| ==>
         visit[k].kind == nodes[k].kind && visit[k].properties == nodes[k].properties && visit[k].nodeId == ids[k]
  }

  lemma VisitsJoin(va: seq<RuntimeNode>, na: seq<Node>, ia: seq<string>, vb: seq<RuntimeNode>, nb: seq<Node>, ib: seq<string>)
    requires VisitMatches(va, na, ia) && VisitMatches(vb, nb, ib)
    ensures VisitMatches(va + vb, na + nb, ia + ib)
  {
  }

  lemma {:induction false} VisitIsPreorder(n: RuntimeNode)
    requires Renderable(Shape(n))
    ensures VisitMatches(Visited(n), Preorder(Shape(n)), Ids(n))
    decreases n, 0
  {
    if IsContainer(n.kind) {
      VisitIsPreorderAll(n.children);
      VisitsJoin([n], [Shape(n)], [n.nodeId], VisitedAll(n.children), PreorderAll(Shapes(n.children)), IdsAll(n.children));
    } else {
      assert Shapes(n.children) == [] && n.children == [];
    }
  }

  lemma {:induction false} VisitIsPreorderAll(nodes: seq<RuntimeNode>)
    requires BuildableNodes(Shapes(nodes))
    ensures VisitMatches(VisitedAll(nodes), PreorderAll(Shapes(nodes)), IdsAll(nodes))
    decreases nodes, 0
  {
    if nodes == [] {
    } else {
      hide VisitMatches, Visited, Preorder, Ids, Shape, BuildableNode;
      assert Shapes(nodes)[1..] == Shapes(nodes[1..]);
      VisitIsPreorder(nodes[0]);
      VisitIsPreorderAll(nodes[1..]);
      VisitsJoin(Visited(nodes[0]), Preorder(Shape(nodes[0])), Ids(nodes[0]),
                 VisitedAll(nodes[1..]), PreorderAll(Shapes(nodes[1..])), IdsAll(nodes[1..]));
    }
  }

  /** Every button of a buildable document has its label and its action. */
  predicate ButtonsComplete(nodes: seq<Node>) {
    forall k :: 0 <= k < |nodes| && nodes[k].kind.Button? ==> "label" in nodes[k].properties && "action" in nodes[k].properties
  }

  lemma {:induction false} BuildableComplete(n: Node)
    requires Renderable(n)
    ensures ButtonsComplete(Preorder(n))
    decreases n, 0
  {
    if n.kind.Button? {
      assert "label" in n.properties.Keys && "action" in n.properties.Keys;
    }
    BuildableCompleteAll(n.children);
  }

  lemma {:induction false} BuildableCompleteAll(nodes: seq<Node>)
    requires BuildableNodes(nodes)
    ensures ButtonsComplete(PreorderAll(nodes))
    decreases nodes, 0
  {
    if nodes != [] {
      BuildableComplete(nodes[0]);
      BuildableCompleteAll(nodes[1..]);
    }
  }

  lemma SomeLacksIdStep(nodes: seq<Node>)
    requires nodes != []
    ensures SomeLacksId(nodes) <==> LacksId(nodes[0]) || SomeLacksId(nodes[1..])
  {
    forall k | 0 <= k < |nodes| && LacksId(nodes[k]) ensures LacksId(nodes[0]) || SomeLacksId(nodes[1..]) {
      if k > 0 {
        assert LacksId(nodes[1..][k - 1]);
      }
    }
    if SomeLacksId(nodes[1..]) {
      var k :| 0 <= k < |nodes[1..]| && LacksId(nodes[1..][k]);
      assert LacksId(nodes[k + 1]);
    }
  }

  lemma NodeMatches(v: RuntimeNode, n: Node, id: nat, actions: seq<RenderedAction>)
    requires v.kind == n.kind && v.properties == n.properties && v.nodeId == NodeId(id)
    requires n.kind.Button? ==> "label" in n.properties && "action" in n.properties
    ensures WithNode(v, actions)
         == (if LacksId(n) then Err(MissingProperty("id")) else Ok(actions + ActionOf(n, id, |actions|)))
  {
    assert actions + [] == actions;
  }

  lemma {:induction false} OutcomeMatches(visit: seq<RuntimeNode>, nodes: seq<Node>, from: nat, actions: seq<RenderedAction>)
    requires VisitMatches(visit, nodes, IdRange(from, |nodes|)) && ButtonsComplete(nodes)
    ensures Outcome(visit, actions)
         == (if SomeLacksId(nodes) then Err(MissingProperty("id")) else Ok(actions + ActionsOf(nodes, from + 1, |actions|)))
    decreases visit
  {
    hide WithNode, ActionOf, LacksId, NodeId;
    if visit == [] {
      assert actions + [] == actions;
    } else {
      SomeLacksIdStep(nodes);
      NodeMatches(visit[0], nodes[0], from + 1, actions);
      if !LacksId(nodes[0]) {
        var first := ActionOf(nodes[0], from + 1, |actions|);
        assert VisitMatches(visit[1..], nodes[1..], IdRange(from + 1, |nodes[1..]|));
        OutcomeMatches(visit[1..], nodes[1..], from + 1, actions + first);
        var rest := ActionsOf(nodes[1..], from + 2, |actions| + |first|);
        assert actions + first + rest == actions + (first + rest);
      }
    }
  }

  /** Rendering is faithful: for every parsed document, rendering its numbered tree
      fails exactly when some input lacks its id, and otherwise offers all the
      document's buttons in preorder, numbered 1, 2, ... and carrying the identifiers
      of their nodes. */
  lemma RenderingIsFaithful(source: string, root: RuntimeNode)
    requires ParseSurface(source).Ok? && Numbers(root, PageNode(ParseSurface(source).value), 0)
    ensures var nodes := Preorder(PageNode(ParseSurface(source).value));
            Outcome(Visited(root), []) == (if SomeLacksId(nodes) then Err(MissingProperty("id")) else Ok(ActionsOf(nodes, 1, 0)))
  {
    hide ParseSurface, BuildableNode, BuildableNodes, Outcome, Visited, ActionsOf, Preorder, Shape, Ids, SomeLacksId, IdRange,
         ButtonsComplete, VisitMatches;
    var doc := ParseSurface(source).value;
    var nodes := Preorder(PageNode(doc));
    ParsedIsBuildable(source);
    VisitIsPreorder(root);
    BuildableComplete(PageNode(doc));
    OutcomeMatches(Visited(root), nodes, 0, []);
    assert [] + ActionsOf(nodes, 1, 0) == ActionsOf(nodes, 1, 0);
  }

  /** The k-th action is the k-th button: indices count up from 1. */
  lemma {:induction false} ActionIndices(nodes: seq<Node>, id: nat, done: nat)
    ensures forall k :: 0 <= k < |ActionsOf(nodes, id, done)| ==> ActionsOf(nodes, id, done)[k].index == done + 1 + k
    decreases nodes
  {
    if nodes != [] {
      ActionIndices(nodes[1..], id + 1, done + |ActionOf(nodes[0], id, done)|);
    }
  }

  // ---- Bound nodes ------------------------------------------------------

  predicate Bound(properties: map<string, string>, keys: seq<string>) {
    "bind" in properties && properties["bind"] in keys
  }

  function CountBoundNodes(n: RuntimeNode, keys: seq<string>): nat
    decreases n, 0
  {
    (if Bound(n.properties, keys) then 1 else 0) + CountBoundAll(n.children, keys)
  }

  function CountBoundAll(nodes: seq<RuntimeNode>, keys: seq<string>): nat {
    if nodes == [] then 0 else CountBoundNodes(nodes[0], keys) + CountBoundAll(nodes[1..], keys)
  }

  /** The positions of the bound nodes: those whose `bind` is one of the keys. */
  function BoundAt(nodes: seq<Node>, keys: seq<string>): set<nat> {
    set k: nat | k < |nodes| && "bind" in nodes[k].properties && nodes[k].properties["bind"] in keys
  }

  lemma BoundAtConcat(a: seq<Node>, b: seq<Node>, keys: seq<string>)
    ensures |BoundAt(a + b, keys)| == |BoundAt(a, keys)| + |BoundAt(b, keys)|
  {
    var shifted := set k | k in BoundAt(b, keys) :: k + |a|;
    ShiftKeepsSize(BoundAt(b, keys), |a|);
    BoundAtParts(a, b, keys);
    assert BoundAt(a, keys) !! shifted;
  }

  lemma BoundAtParts(a: seq<Node>, b: seq<Node>, keys: seq<string>)
    ensures BoundAt(a + b, keys) == BoundAt(a, keys) + set k | k in BoundAt(b, keys) :: k + |a|
  {
    assert forall k: nat :: k < |a + b| ==> (a + b)[k] == if k < |a| then a[k] else b[k - |a|];
    forall k | k in BoundAt(a + b, keys) && k >= |a| ensures exists j :: j in BoundAt(b, keys) && k == j + |a| {
      assert k - |a| in BoundAt(b, keys);
    }
  }

  lemma {:induction false} ShiftKeepsSize(s: set<nat>, offset: nat)
    ensures |(set k | k in s :: k + offset)| == |s|
    decreases s
  {
    if s != {} {
      var x :| x in s;
      ShiftKeepsSize(s - {x}, offset);
      var all, rest := set k | k in s :: k + offset, set k | k in s - {x} :: k + offset;
      forall y | y in all ensures y in rest + {x + offset} {
        var k :| k in s && y == k + offset;
        assert k != x ==> k in s - {x};
      }
      assert all == rest + {x + offset};
    }
  }

  /** The count is that of the bound nodes of the whole document, whatever is nested where. */
  lemma {:induction false} CountsBoundNodes(n: RuntimeNode, keys: seq<string>)
    ensures CountBoundNodes(n, keys) == |BoundAt(Preorder(Shape(n)), keys)|
    decreases n, 0
  {
    CountsBoundAll(n.children, keys);
    OneBound(Shape(n), keys);
    BoundAtConcat([Shape(n)], PreorderAll(Shapes(n.children)), keys);
  }

  lemma OneBound(n: Node, keys: seq<string>)
    ensures |BoundAt([n], keys)| == if Bound(n.properties, keys) then 1 else 0
  {
    assert BoundAt([n], keys) == if Bound(n.properties, keys) then {0} else {};
  }

  lemma {:induction false} CountsBoundAll(nodes: seq<RuntimeNode>, keys: seq<string>)
    ensures CountBoundAll(nodes, keys) == |BoundAt(PreorderAll(Shapes(nodes)), keys)|
    decreases nodes, 0
  {
    if nodes != [] {
      CountsBoundNodes(nodes[0], keys);
      CountsBoundAll(nodes[1..], keys);
      assert Shapes(nodes)[1..] == Shapes(nodes[1..]);
      BoundAtConcat(Preorder(Shape(nodes[0])), PreorderAll(Shapes(nodes[1..])), keys);
    }
  }
}
