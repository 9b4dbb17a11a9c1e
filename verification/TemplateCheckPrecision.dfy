/**
 The other half of the template check: a loop's field it reports missing does fail the render.

 The check walks the tokens once, and remembers for every open loop the list it goes over. Where
 a template renders for every item of every list, each field it reads from a binding is in each
 item, so the check has nothing to say about it; the proof follows the tree, with one scope of
 the check for each binding of the render. That needs the lists the check knows to be the
 render's own, and every `${endfor}` to close a loop. Old-style escapes are shown to add warnings
 only: with or without them the check finds the same problems.
 */
module TemplateCheckPrecision {
  import opened Wrappers
  import opened Template
  import opened TemplateParser
  import opened Render
  import opened TemplateCheck

  predicate NoFieldProblem(st: Checking) {
    forall p :: p in st.findings.problems ==> !p.FieldMissing?
  }

  ghost predicate ListsKnown(k: Knowledge, lists: set<string>, data: TemplateData) {
    ListsMatch(k, lists, data) && forall c :: c in lists ==> k.list(c).Some?
  }

  ghost predicate ScopesKnown(scopes: seq<OpenLoop>) {
    forall i :: 0 <= i < |scopes| ==> scopes[i].items.Some? && scopes[i].items.value.Items?
  }

  /** Wherever the open loops are, the nodes render. */
  ghost predicate RendersEverywhere(nodes: seq<Node>, scopes: seq<OpenLoop>, vars: Vars, data: TemplateData) {
    forall bindings :: AtItems(scopes, bindings) ==> Meaning(nodes, vars, data, bindings).Ok?
  }

  ghost predicate NodeRendersEverywhere(node: Node, scopes: seq<OpenLoop>, vars: Vars, data: TemplateData) {
    forall bindings :: AtItems(scopes, bindings) ==> NodeMeaning(node, vars, data, bindings).Ok?
  }

  /** Unless a list is empty, each open loop can be at any of its items. */
  lemma {:induction false} PickItem(scopes: seq<OpenLoop>, i: nat, item: Vars) returns (bindings: seq<Bound>)
    requires ScopesKnown(scopes) && !AnyEmpty(scopes) && i < |scopes| && item in scopes[i].items.value.items
    ensures AtItems(scopes, bindings) && bindings[i].item == item
  {
    bindings := [];
    var j := 0;
    while j < |scopes|
      invariant j <= |scopes| && AtItems(scopes[..j], bindings)
      invariant i < j ==> bindings[i].item == item
    {
      assert scopes[j].items.value.items != [];
      var picked := if j == i then item else scopes[j].items.value.items[0];
      assert scopes[..j + 1] == scopes[..j] + [scopes[j]];
      bindings := bindings + [Bound(scopes[j].binding, scopes[j].collection, picked)];
      j := j + 1;
    }
    assert scopes[..j] == scopes;
  }

  /** The innermost loop a name reads is at the same place for the check and for the render. */
  lemma {:induction false} InnermostPlace(name: string, scopes: seq<OpenLoop>) returns (i: nat)
    requires InnermostScope(name, scopes).Some?
    ensures i < |scopes| && InnermostScope(name, scopes).value.1 == scopes[i]
    ensures forall bindings :: AtItems(scopes, bindings) ==>
              Innermost(name, bindings) == Some((InnermostScope(name, scopes).value.0, bindings[i]))
  {
    var last := |scopes| - 1;
    if BoundField(name, scopes[last].binding).Some? {
      i := last;
    } else {
      i := InnermostPlace(name, scopes[..last]);
      forall bindings | AtItems(scopes, bindings)
        ensures Innermost(name, bindings) == Some((InnermostScope(name, scopes).value.0, bindings[i]))
      {
        assert AtItems(scopes[..last], bindings[..last]);
      }
    }
  }

  /** A variable that renders everywhere reads a field no item lacks. */
  lemma RenderedFieldIsThere(name: string, scopes: seq<OpenLoop>, vars: Vars, data: TemplateData)
    requires ScopesKnown(scopes) && !AnyEmpty(scopes) && InnermostScope(name, scopes).Some?
    requires NodeRendersEverywhere(NVar(name), scopes, vars, data)
    ensures var (field, scope) := InnermostScope(name, scopes).value;
            scope.items.Some? && Missing(scope.items.value, field).None?
  {
    var (field, scope) := InnermostScope(name, scopes).value;
    var i := InnermostPlace(name, scopes);
    forall item | item in scope.items.value.items ensures field in item {
      var bindings := PickItem(scopes, i, item);
      assert NodeMeaning(NVar(name), vars, data, bindings).Ok?;
    }
  }

  lemma RenderedVarIsThere(k: Knowledge, name: string, st: Checking, vars: Vars, data: TemplateData)
    requires ScopesKnown(st.scopes) && NoFieldProblem(st)
    requires NodeRendersEverywhere(NVar(name), st.scopes, vars, data)
    ensures NoFieldProblem(CheckVar(k, st, name)) && CheckVar(k, st, name).scopes == st.scopes
  {
    if !AnyEmpty(st.scopes) && InnermostScope(name, st.scopes).Some? {
      RenderedFieldIsThere(name, st.scopes, vars, data);
    }
  }

  lemma {:induction false} RenderedTreeHasFields(
    k: Knowledge, nodes: seq<Node>, st: Checking, vars: Vars, data: TemplateData)
    requires Closed(nodes) && ScopesKnown(st.scopes) && NoFieldProblem(st)
    requires ListsKnown(k, ListsIn(nodes), data) && RendersEverywhere(nodes, st.scopes, vars, data)
    ensures NoFieldProblem(CheckPieces(k, Flatten(nodes), st))
    ensures CheckPieces(k, Flatten(nodes), st).scopes == st.scopes
    decreases nodes
  {
    if nodes != [] {
      CheckPiecesConcat(k, FlattenNode(nodes[0]), Flatten(nodes[1..]), st);
      forall bindings | AtItems(st.scopes, bindings)
        ensures NodeMeaning(nodes[0], vars, data, bindings).Ok? && Meaning(nodes[1..], vars, data, bindings).Ok?
      {
        assert Meaning(nodes, vars, data, bindings).Ok?;
      }
      RenderedNodeHasFields(k, nodes[0], st, vars, data);
      RenderedTreeHasFields(k, nodes[1..], CheckPieces(k, FlattenNode(nodes[0]), st), vars, data);
    }
  }

  lemma {:induction false} RenderedNodeHasFields(
    k: Knowledge, node: Node, st: Checking, vars: Vars, data: TemplateData)
    requires ClosedNode(node) && ScopesKnown(st.scopes) && NoFieldProblem(st)
    requires ListsKnown(k, ListsInNode(node), data) && NodeRendersEverywhere(node, st.scopes, vars, data)
    ensures NoFieldProblem(CheckPieces(k, FlattenNode(node), st))
    ensures CheckPieces(k, FlattenNode(node), st).scopes == st.scopes
    decreases node
  {
    match node
    case NText(_) =>
    case NVar(name) =>
      CheckOne(k, PVar(name), st);
      RenderedVarIsThere(k, name, st, vars, data);
    case NFor(binding, collection, separator, body) =>
      var scope := OpenLoop(binding, collection, k.list(collection));
      var entered := CheckFor(k, st, binding, collection);
      LoopChecks(k, node, st);
      LoopBodyRenders(k, node, st.scopes, vars, data);
      RenderedTreeHasFields(k, body, entered, vars, data);
      assert (st.scopes + [scope])[..|st.scopes|] == st.scopes;
  }

  /** A loop that renders renders its body at each of its items. */
  lemma LoopBodyRenders(k: Knowledge, node: Node, scopes: seq<OpenLoop>, vars: Vars, data: TemplateData)
    requires node.NFor? && ListsKnown(k, {node.collection}, data)
    requires NodeRendersEverywhere(node, scopes, vars, data)
    ensures RendersEverywhere(node.body, scopes + [OpenLoop(node.binding, node.collection, k.list(node.collection))], vars, data)
  {
    var inner := scopes + [OpenLoop(node.binding, node.collection, k.list(node.collection))];
    forall bindings | AtItems(inner, bindings) ensures Meaning(node.body, vars, data, bindings).Ok? {
      var outer := bindings[..|scopes|];
      var last := bindings[|scopes|];
      assert AtItems(scopes, outer) by {
        forall i | 0 <= i < |scopes| ensures scopes[i] == inner[i] {
        }
      }
      assert inner[|scopes|] == OpenLoop(node.binding, node.collection, k.list(node.collection));
      assert NodeMeaning(node, vars, data, outer).Ok?;
      assert bindings == outer + [last];
      BodiesOkEach(node.body, node.binding, node.collection, data.collections[node.collection], vars, data, outer, last.item);
    }
  }

  lemma {:induction false} BodiesOkEach(
    body: seq<Node>, binding: string, collection: string, items: seq<Vars>,
    vars: Vars, data: TemplateData, bindings: seq<Bound>, item: Vars)
    requires item in items && Bodies(body, binding, collection, items, vars, data, bindings).Ok?
    ensures Meaning(body, vars, data, bindings + [Bound(binding, collection, item)]).Ok?
  {
    if items[0] != item {
      assert item in items[1..];
      BodiesOkEach(body, binding, collection, items[1..], vars, data, bindings, item);
    }
  }

  /** The check is precise about fields: of a template whose `${endfor}`s all close a loop and
      whose lists are all known, it reports a loop's field as missing only if the render fails —
      whatever the variables, and whether or not the task is sure to render it. */
  lemma FieldProblemsAreReal(k: Knowledge, t: string, vars: Vars, data: TemplateData)
    requires Rendered(t, vars, data).Ok?
    requires NoStray(Parse(t).value) && ListsKnown(k, ListsIn(Parse(t).value), data)
    ensures forall p :: p in Checked(k, t).problems ==> !p.FieldMissing?
  {
    var nodes := Parse(t).value;
    ParseIsExact(t);
    BuildableIsClosed(nodes);
    forall bindings | AtItems([], bindings) ensures Meaning(nodes, vars, data, bindings).Ok? {
      assert bindings == [];
    }
    RenderedTreeHasFields(k, nodes, START, vars, data);
    TokensCheckTree(k, t);
  }

  lemma {:induction false} BuildableIsClosed(nodes: seq<Node>)
    requires Buildable(nodes) && NoStray(nodes)
    ensures Closed(nodes)
  {
    if nodes != [] {
      assert nodes[0] in nodes;
      BuildableIsClosed(nodes[1..]);
    }
  }

  /** What the tokens report beyond old escapes, the tree's pieces report too. */
  lemma TokensCheckTree(k: Knowledge, t: string)
    requires Parse(t).Ok?
    ensures CheckTokens(k, TokensOf(t), START).findings.problems ==
            CheckPieces(k, Flatten(Parse(t).value), START).findings.problems
  {
    HitAtIsGood();
    var tokens := TokensOf(t);
    EscapesOnlyWarn(k, tokens, START, START);
    SlicesAreScan(HitAt, t, 0, 0);
    assert t[0..] == t;
    assert PushText(t[0..0], Scan(HitAt, t)) == Scan(HitAt, t);
    SlicesCheck(k, t, 0, tokens, LexFrom(HitAt, t, 0).1, START);
    ParseIsExact(t);
  }

  predicate SameButEscapes(a: Checking, b: Checking) {
    && a.scopes == b.scopes && a.names == b.names && a.fields == b.fields && a.lists == b.lists
    && a.findings.problems == b.findings.problems
  }

  lemma EscapeOnlyWarns(k: Knowledge, token: Token, a: Checking, b: Checking)
    requires SameButEscapes(a, b)
    ensures SameButEscapes(CheckToken(k, a, token), CheckPiece(k, b, PieceOf(token)))
  {
    match token
    case Var(name) => SameVarCheck(k, a, b, name);
    case _ =>
  }

  lemma SameVarCheck(k: Knowledge, a: Checking, b: Checking, name: string)
    requires SameButEscapes(a, b)
    ensures SameButEscapes(CheckVar(k, a, name), CheckVar(k, b, name))
  {
  }

  lemma {:induction false} EscapesOnlyWarn(k: Knowledge, tokens: seq<Spanned>, a: Checking, b: Checking)
    requires SameButEscapes(a, b)
    ensures SameButEscapes(CheckTokens(k, tokens, a), CheckPieces(k, Pieces(tokens), b))
  {
    if tokens != [] {
      var token := tokens[0].token;
      EscapeOnlyWarns(k, token, a, b);
      EscapesOnlyWarn(k, tokens[1..], CheckToken(k, a, token), CheckPiece(k, b, PieceOf(token)));
      assert Pieces(tokens)[0] == PieceOf(token) && Pieces(tokens)[1..] == Pieces(tokens[1..]);
    }
  }
}
