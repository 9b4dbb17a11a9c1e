/**
 The template parser: an explicit stack of open loops over the lexer's tokens.

 `Build` is what the stack does with the pieces of a template; `Flatten` writes a tree back as
 pieces. They are inverse: the parser builds exactly the tree of balanced loops.

 One case breaks the symmetry. An `${endfor}` with no loop open is read as a variable of that
 name, so a tree may hold such variables at its top level, and only there: such a tree is
 `Buildable`, one without is `Closed`. A piece is text up to a token, or one token; the methods
 cut them out of the template by offsets, as the program does.
 */
module TemplateParser {
  import opened Wrappers
  import opened Template

  /** A loop whose `${endfor}` is still to come, with the nodes before it. */
  datatype Open = Open(binding: string, collection: string, separator: Option<string>, outer: seq<Node>)

  type Parsed = Result<seq<Node>, TemplateError>

  predicate Reserved(binding: string) {
    "@" <= binding
  }

  /** What the rest of the pieces make of the loops still open and the nodes so far. */
  function Build(ps: seq<Piece>, open: seq<Open>, nodes: seq<Node>): Parsed {
    if ps == [] then
      if open != [] then Err(MissingEndFor(open[|open| - 1].collection)) else Ok(nodes)
    else
      match ps[0]
      case PText(text) => Build(ps[1..], open, nodes + [NText(text)])
      case PVar(name) => Build(ps[1..], open, nodes + [NVar(name)])
      case PBad(error) => Err(error)
      case POpen(binding, collection, separator) =>
        if Reserved(binding) then Err(ReservedBinding(binding))
        else Build(ps[1..], open + [Open(binding, collection, separator, nodes)], [])
      case PClose =>
        if open == [] then Build(ps[1..], open, nodes + [NVar(ENDFOR)])
        else
          var top := open[|open| - 1];
          Build(ps[1..], open[..|open| - 1],
                top.outer + [NFor(top.binding, top.collection, top.separator, nodes)])
  }

  /** The template as a tree. */
  ghost function Parse(t: string): Parsed {
    HitAtIsGood();
    Build(Scan(HitAt, t), [], [])
  }

  /** The parser as it runs: over the lexer's tokens, cutting the text between them. */
  method ParseTemplate(t: string) returns (r: Parsed)
    ensures r == Parse(t)
  {
    var found, unclosed := Lex(t);
    SlicesAreScan(HitAt, t, 0, 0);
    assert t[0..] == t;
    r := ParseTokens(t, found, unclosed);
  }

  /** The text since the last token, and the next one. */
  method ParseNext(t: string, textFrom: nat, found: seq<Spanned>, i: nat, ghost unclosed: Option<TemplateError>,
                   open: seq<Open>, nodes: seq<Node>)
    returns (r: Result<(seq<Open>, seq<Node>), TemplateError>)
    requires i < |found| && Tiling(t, textFrom, found[i..])
    ensures found[i].at + found[i].len <= |t| && Tiling(t, found[i].at + found[i].len, found[i + 1..])
    ensures Build(Slices(t, textFrom, found[i..], unclosed), open, nodes) ==
            match r
            case Ok(now) => Build(Slices(t, found[i].at + found[i].len, found[i + 1..], unclosed), now.0, now.1)
            case Err(error) => Err(error)
  {
    var next := found[i];
    var before := if next.at > textFrom then nodes + [NText(t[textFrom..next.at])] else nodes;
    r := TakeToken(next.token, open, before, Slices(t, next.at + next.len, found[i + 1..], unclosed));
  }

  /** The text after the last token. */
  method ParseEnd(t: string, textFrom: nat, unclosed: Option<TemplateError>, open: seq<Open>, nodes: seq<Node>)
    returns (r: Parsed)
    requires textFrom <= |t|
    ensures r == Build(Slices(t, textFrom, [], unclosed), open, nodes)
  {
    if unclosed.Some? {
      return Err(unclosed.value);
    }
    if open != [] {
      return Err(MissingEndFor(open[|open| - 1].collection));
    }
    r := Ok(if textFrom < |t| then nodes + [NText(t[textFrom..])] else nodes);
  }

  method ParseTokens(t: string, found: seq<Spanned>, unclosed: Option<TemplateError>) returns (r: Parsed)
    requires Tiling(t, 0, found)
    ensures r == Build(Slices(t, 0, found, unclosed), [], [])
  {
    var open: seq<Open> := [];
    var nodes: seq<Node> := [];
    var textFrom: nat := 0;
    assert found[0..] == found;
    for i := 0 to |found|
      invariant Tiling(t, textFrom, found[i..])
      invariant Build(Slices(t, 0, found, unclosed), [], []) ==
                Build(Slices(t, textFrom, found[i..], unclosed), open, nodes)
    {
      var taken := ParseNext(t, textFrom, found, i, unclosed, open, nodes);
      if taken.Err? {
        return Err(taken.error);
      }
      textFrom := found[i].at + found[i].len;
      open, nodes := taken.value.0, taken.value.1;
    }
    assert found[|found|..] == [];
    r := ParseEnd(t, textFrom, unclosed, open, nodes);
  }

  /** One token, pushed on or popped from the stack. */
  method TakeToken(token: Token, open: seq<Open>, nodes: seq<Node>, ghost rest: seq<Piece>)
    returns (r: Result<(seq<Open>, seq<Node>), TemplateError>)
    ensures Build([PieceOf(token)] + rest, open, nodes) ==
            match r case Ok(now) => Build(rest, now.0, now.1) case Err(error) => Err(error)
  {
    assert ([PieceOf(token)] + rest)[1..] == rest;
    match token {
      case Escaped(_) => r := Ok((open, nodes + [NText(OPEN)]));
      case Var(name) => r := Ok((open, nodes + [NVar(name)]));
      case Invalid(why) => r := Err(InvalidHeader(why));
      case For(binding, collection, separator) =>
        if Reserved(binding) {
          r := Err(ReservedBinding(binding));
        } else {
          r := Ok((open + [Open(binding, collection, separator, nodes)], []));
        }
      case EndFor =>
        if open != [] {
          var top := open[|open| - 1];
          var loop := NFor(top.binding, top.collection, top.separator, nodes);
          r := Ok((open[..|open| - 1], top.outer + [loop]));
        } else {
          r := Ok((open, nodes + [NVar(ENDFOR)]));
        }
    }
  }

  // ---- The tree, written back as pieces ----

  /** The pieces a tree stands for. A `${endfor}` that closes nothing is read as a variable. */
  function Flatten(nodes: seq<Node>): seq<Piece> {
    if nodes == [] then [] else FlattenNode(nodes[0]) + Flatten(nodes[1..])
  }

  function FlattenNode(node: Node): seq<Piece> {
    match node
    case NText(text) => [PText(text)]
    case NVar(name) => if name == ENDFOR then [PClose] else [PVar(name)]
    case NFor(binding, collection, separator, body) =>
      [POpen(binding, collection, separator)] + Flatten(body) + [PClose]
  }

  function FlattenOpen(open: seq<Open>): seq<Piece> {
    if open == [] then []
    else
      var top := open[|open| - 1];
      FlattenOpen(open[..|open| - 1]) + Flatten(top.outer) + [POpen(top.binding, top.collection, top.separator)]
  }

  lemma {:induction false} FlattenConcat(a: seq<Node>, b: seq<Node>)
    ensures Flatten(a + b) == Flatten(a) + Flatten(b)
  {
    if a == [] {
      assert a + b == b;
    } else {
      assert (a + b)[1..] == a[1..] + b;
      FlattenConcat(a[1..], b);
    }
  }

  lemma FlattenSnoc(a: seq<Node>, n: Node)
    ensures Flatten(a + [n]) == Flatten(a) + FlattenNode(n)
  {
    FlattenConcat(a, [n]);
    assert [n][1..] == [];
    assert Flatten([n]) == FlattenNode(n);
  }

  lemma FlattenLeaf(open: seq<Open>, nodes: seq<Node>, n: Node, p: Piece, rest: seq<Piece>)
    requires FlattenNode(n) == [p]
    ensures FlattenOpen(open) + Flatten(nodes + [n]) + rest == FlattenOpen(open) + Flatten(nodes) + ([p] + rest)
  {
    FlattenSnoc(nodes, n);
  }

  lemma FlattenOpened(open: seq<Open>, top: Open, rest: seq<Piece>)
    ensures FlattenOpen(open + [top]) + Flatten([]) + rest ==
            FlattenOpen(open) + Flatten(top.outer) + ([POpen(top.binding, top.collection, top.separator)] + rest)
  {
    assert (open + [top])[..|open|] == open;
  }

  /** Closing the innermost open loop leaves the pieces as they were. */
  lemma FlattenClosed(open: seq<Open>, nodes: seq<Node>, rest: seq<Piece>)
    requires open != []
    ensures var top := open[|open| - 1];
            var loop := NFor(top.binding, top.collection, top.separator, nodes);
            FlattenOpen(open[..|open| - 1]) + Flatten(top.outer + [loop]) + rest ==
            FlattenOpen(open) + Flatten(nodes) + ([PClose] + rest)
  {
    var top := open[|open| - 1];
    FlattenSnoc(top.outer, NFor(top.binding, top.collection, top.separator, nodes));
  }

  /** No piece is lost or moved by the stack: what it builds, written back, are the pieces it
      was given. */
  lemma {:induction false} BuildThenFlatten(ps: seq<Piece>, open: seq<Open>, nodes: seq<Node>)
    requires PVar(ENDFOR) !in ps && Build(ps, open, nodes).Ok?
    ensures Flatten(Build(ps, open, nodes).value) == FlattenOpen(open) + Flatten(nodes) + ps
  {
    if ps == [] {
      assert FlattenOpen([]) + Flatten(nodes) + ps == Flatten(nodes);
    } else {
      var rest := ps[1..];
      assert ps == [ps[0]] + rest;
      match ps[0]
      case PText(text) =>
        BuildThenFlatten(rest, open, nodes + [NText(text)]);
        FlattenLeaf(open, nodes, NText(text), ps[0], rest);
      case PVar(name) =>
        BuildThenFlatten(rest, open, nodes + [NVar(name)]);
        FlattenLeaf(open, nodes, NVar(name), ps[0], rest);
      case POpen(binding, collection, separator) =>
        var top := Open(binding, collection, separator, nodes);
        BuildThenFlatten(rest, open + [top], []);
        FlattenOpened(open, top, rest);
      case PClose =>
        if open == [] {
          BuildThenFlatten(rest, open, nodes + [NVar(ENDFOR)]);
          FlattenLeaf(open, nodes, NVar(ENDFOR), ps[0], rest);
        } else {
          var top := open[|open| - 1];
          var loop := NFor(top.binding, top.collection, top.separator, nodes);
          BuildThenFlatten(rest, open[..|open| - 1], top.outer + [loop]);
          FlattenClosed(open, nodes, rest);
        }
    }
  }

  /** A tree the parser could build inside a loop: every `${endfor}` in it closes a loop, and no
      binding is reserved. */
  predicate Closed(nodes: seq<Node>) {
    nodes == [] || (ClosedNode(nodes[0]) && Closed(nodes[1..]))
  }

  predicate ClosedNode(node: Node) {
    match node
    case NText(_) => true
    case NVar(name) => name != ENDFOR
    case NFor(binding, _, _, body) => !Reserved(binding) && Closed(body)
  }

  /** The same at the top level, where a stray `${endfor}` is a variable. */
  predicate Buildable(nodes: seq<Node>) {
    forall i :: 0 <= i < |nodes| ==> nodes[i] == NVar(ENDFOR) || ClosedNode(nodes[i])
  }

  /** The stack rebuilds a closed tree wherever its pieces appear. */
  lemma {:induction false} FlattenThenBuild(nodes: seq<Node>, ps: seq<Piece>, open: seq<Open>, before: seq<Node>)
    requires Closed(nodes)
    ensures Build(Flatten(nodes) + ps, open, before) == Build(ps, open, before + nodes)
    decreases nodes
  {
    if nodes == [] {
      assert Flatten(nodes) + ps == ps;
      assert before + nodes == before;
    } else {
      var later := Flatten(nodes[1..]) + ps;
      assert Flatten(nodes) + ps == FlattenNode(nodes[0]) + later;
      NodeThenBuild(nodes[0], later, open, before);
      FlattenThenBuild(nodes[1..], ps, open, before + [nodes[0]]);
      assert before + [nodes[0]] + nodes[1..] == before + nodes;
    }
  }

  lemma {:induction false} NodeThenBuild(node: Node, ps: seq<Piece>, open: seq<Open>, before: seq<Node>)
    requires ClosedNode(node)
    ensures Build(FlattenNode(node) + ps, open, before) == Build(ps, open, before + [node])
    decreases node
  {
    var all := FlattenNode(node) + ps;
    match node
    case NText(_) => assert all[1..] == ps;
    case NVar(_) => assert all[1..] == ps;
    case NFor(binding, collection, separator, body) =>
      var top := Open(binding, collection, separator, before);
      var inside := [PClose] + ps;
      assert all[1..] == Flatten(body) + inside;
      FlattenThenBuild(body, inside, open + [top], []);
      assert [] + body == body;
      assert inside[1..] == ps;
      assert (open + [top])[..|open|] == open;
  }

  /** Parsing is exact: what the parser builds written back is the template's pieces, and any
      tree it could build is rebuilt from its own pieces. */
  lemma ParseIsExact(t: string)
    requires Parse(t).Ok?
    ensures GoodHits(HitAt) && Flatten(Parse(t).value) == Scan(HitAt, t)
    ensures Buildable(Parse(t).value)
  {
    HitAtIsGood();
    var ps := Scan(HitAt, t);
    BuildThenFlatten(ps, [], []);
    assert FlattenOpen([]) + Flatten([]) + ps == ps;
    BuildIsBuildable(ps, [], []);
  }

  ghost predicate OpenBuildable(open: seq<Open>) {
    && (open != [] ==> Buildable(open[0].outer))
    && (forall i :: 0 <= i < |open| ==> !Reserved(open[i].binding))
    && (forall i :: 1 <= i < |open| ==> Closed(open[i].outer))
  }

  lemma {:induction false} ClosedSnoc(nodes: seq<Node>, n: Node)
    requires Closed(nodes) && ClosedNode(n)
    ensures Closed(nodes + [n])
  {
    if nodes == [] {
      assert (nodes + [n])[1..] == [];
    } else {
      assert (nodes + [n])[1..] == nodes[1..] + [n];
      ClosedSnoc(nodes[1..], n);
    }
  }

  lemma {:induction false} BuildIsBuildable(ps: seq<Piece>, open: seq<Open>, nodes: seq<Node>)
    requires PVar(ENDFOR) !in ps && Build(ps, open, nodes).Ok?
    requires OpenBuildable(open) && if open == [] then Buildable(nodes) else Closed(nodes)
    ensures Buildable(Build(ps, open, nodes).value)
  {
    if ps != [] {
      match ps[0]
      case PText(text) =>
        BuildableSnoc(open, nodes, NText(text));
        BuildIsBuildable(ps[1..], open, nodes + [NText(text)]);
      case PVar(name) =>
        BuildableSnoc(open, nodes, NVar(name));
        BuildIsBuildable(ps[1..], open, nodes + [NVar(name)]);
      case POpen(binding, collection, separator) =>
        BuildIsBuildable(ps[1..], open + [Open(binding, collection, separator, nodes)], []);
      case PClose =>
        if open == [] {
          BuildIsBuildable(ps[1..], open, nodes + [NVar(ENDFOR)]);
        } else {
          var top := open[|open| - 1];
          var loop := NFor(top.binding, top.collection, top.separator, nodes);
          BuildableSnoc(open[..|open| - 1], top.outer, loop);
          BuildIsBuildable(ps[1..], open[..|open| - 1], top.outer + [loop]);
        }
    }
  }

  lemma BuildableSnoc(open: seq<Open>, nodes: seq<Node>, n: Node)
    requires ClosedNode(n) && if open == [] then Buildable(nodes) else Closed(nodes)
    ensures if open == [] then Buildable(nodes + [n]) else Closed(nodes + [n])
  {
    if open != [] {
      ClosedSnoc(nodes, n);
    }
  }

  /** A closed tree is rebuilt from its own pieces. */
  lemma ClosedTreeRebuilt(nodes: seq<Node>)
    requires Closed(nodes)
    ensures Build(Flatten(nodes), [], []) == Ok(nodes)
  {
    FlattenThenBuild(nodes, [], [], []);
    assert Flatten(nodes) + [] == Flatten(nodes);
    assert [] + nodes == nodes;
  }

  /** So is one with stray `${endfor}`s between its closed parts. */
  lemma {:induction false} BuildableTreeRebuilt(nodes: seq<Node>, before: seq<Node>)
    requires Buildable(nodes)
    ensures Build(Flatten(nodes), [], before) == Ok(before + nodes)
  {
    if nodes == [] {
      assert before + nodes == before;
    } else {
      var later := Flatten(nodes[1..]);
      if nodes[0] != NVar(ENDFOR) {
        NodeThenBuild(nodes[0], later, [], before);
      }
      BuildableTreeRebuilt(nodes[1..], before + [nodes[0]]);
      assert before + [nodes[0]] + nodes[1..] == before + nodes;
    }
  }
}
