/**
 Rendering a template's tree, and the flat `interpolate` used for parameters.

 `Meaning` says what a tree writes: a loop is its bodies joined by the separator, the innermost
 binding of a name wins, and a value is written as it is. The methods write piece by piece into
 a buffer.
 */
module Render {
  import opened Wrappers
  import opened Text
  import opened Template
  import opened TemplateParser
  import opened TemplatePrint

  type Vars = map<string, string>

  datatype TemplateData = TemplateData(collections: map<string, seq<Vars>>, extraVars: Vars)

  const EMPTY_DATA := TemplateData(map[], map[])

  /** A loop a node sits in, at one of its items. */
  datatype Bound = Bound(binding: string, collection: string, item: Vars)

  type Written = Result<string, TemplateError>

  /** The field `name` reads from a loop over `binding`. */
  function BoundField(name: string, binding: string): Option<string> {
    if binding + "." <= name then Some(name[|binding| + 1..]) else None
  }

  /** The innermost loop, last in `bindings`, that `name` reads a field of. */
  function Innermost(name: string, bindings: seq<Bound>): Option<(string, Bound)> {
    if bindings == [] then None
    else
      var last := bindings[|bindings| - 1];
      match BoundField(name, last.binding)
      case Some(field) => Some((field, last))
      case None => Innermost(name, bindings[..|bindings| - 1])
  }

  function ReadVar(name: string, vars: Vars, data: TemplateData, bindings: seq<Bound>): Written {
    match Innermost(name, bindings)
    case Some((field, bound)) =>
      if field in bound.item then Ok(bound.item[field]) else Err(UndefinedField(field, bound.collection))
    case None =>
      if name in data.extraVars then Ok(data.extraVars[name])
      else if name in vars then Ok(vars[name])
      else Err(UndefinedVar(name))
  }

  function Prepend(text: string, w: Written): Written {
    match w
    case Ok(more) => Ok(text + more)
    case Err(error) => Err(error)
  }

  function Joined(texts: seq<string>, separator: string): string {
    if texts == [] then ""
    else if |texts| == 1 then texts[0]
    else texts[0] + separator + Joined(texts[1..], separator)
  }

  function SeparatorText(separator: Option<string>): string {
    match separator case None => "" case Some(text) => text
  }

  // ---- What a tree means ----

  function Meaning(nodes: seq<Node>, vars: Vars, data: TemplateData, bindings: seq<Bound>): Written
    decreases nodes, 0
  {
    if nodes == [] then Ok("")
    else
      match NodeMeaning(nodes[0], vars, data, bindings)
      case Err(error) => Err(error)
      case Ok(text) => Prepend(text, Meaning(nodes[1..], vars, data, bindings))
  }

  function NodeMeaning(node: Node, vars: Vars, data: TemplateData, bindings: seq<Bound>): Written
    decreases node, 0
  {
    match node
    case NText(text) => Ok(text)
    case NVar(name) => ReadVar(name, vars, data, bindings)
    case NFor(binding, collection, separator, body) =>
      if collection !in data.collections then Err(UndefinedCollection(collection))
      else
        match Bodies(body, binding, collection, data.collections[collection], vars, data, bindings)
        case Err(error) => Err(error)
        case Ok(texts) => Ok(Joined(texts, SeparatorText(separator)))
  }

  /** A loop's body written for each item in turn. */
  function Bodies(body: seq<Node>, binding: string, collection: string, items: seq<Vars>,
                  vars: Vars, data: TemplateData, bindings: seq<Bound>): (r: Result<seq<string>, TemplateError>)
    ensures r.Ok? ==> |r.value| == |items|
    decreases body, 1, |items|
  {
    if items == [] then Ok([])
    else
      match Meaning(body, vars, data, bindings + [Bound(binding, collection, items[0])])
      case Err(error) => Err(error)
      case Ok(text) =>
        match Bodies(body, binding, collection, items[1..], vars, data, bindings)
        case Err(error) => Err(error)
        case Ok(texts) => Ok([text] + texts)
  }

  /** What `render` gives for a template. */
  ghost function Rendered(t: string, vars: Vars, data: TemplateData): Written {
    match Parse(t)
    case Err(error) => Err(error)
    case Ok(nodes) => Meaning(nodes, vars, data, [])
  }

  // ---- Writing into a buffer ----

  method RenderTemplate(t: string, vars: Vars, data: TemplateData) returns (r: Written)
    ensures r == Rendered(t, vars, data)
  {
    var parsed := ParseTemplate(t);
    match parsed
    case Err(error) => r := Err(error);
    case Ok(nodes) =>
      r := WriteNodes(nodes, vars, data, [], "");
      PrependNothing(Meaning(nodes, vars, data, []));
  }

  /** The buffer with the nodes written after what it held. */
  method WriteNodes(nodes: seq<Node>, vars: Vars, data: TemplateData, bindings: seq<Bound>, before: string)
    returns (r: Written)
    ensures r == Prepend(before, Meaning(nodes, vars, data, bindings))
    decreases nodes, 0
  {
    var out := before;
    var i := 0;
    assert nodes[0..] == nodes;
    while i < |nodes|
      invariant i <= |nodes|
      invariant Prepend(before, Meaning(nodes, vars, data, bindings)) ==
                Prepend(out, Meaning(nodes[i..], vars, data, bindings))
    {
      var node := nodes[i];
      ghost var rest := Meaning(nodes[i + 1..], vars, data, bindings);
      assert nodes[i..][1..] == nodes[i + 1..];
      match node {
        case NText(text) =>
          PrependPrepend(out, text, rest);
          out := out + text;
        case NVar(name) =>
          var value := ReadVar(name, vars, data, bindings);
          if value.Err? {
            return Err(value.error);
          }
          PrependPrepend(out, value.value, rest);
          out := out + value.value;
        case NFor(binding, collection, separator, body) =>
          if collection !in data.collections {
            return Err(UndefinedCollection(collection));
          }
          ghost var start := out;
          var written := WriteLoop(body, binding, collection, separator, vars, data, bindings, out);
          if written.Err? {
            return Err(written.error);
          }
          out := written.value;
          PrependPrepend(start, NodeMeaning(node, vars, data, bindings).value, rest);
      }
      i := i + 1;
    }
    assert nodes[i..] == [];
    assert out + "" == out;
    r := Ok(out);
  }

  /** `texts`, then what the remaining items write. */
  ghost function Continued(texts: seq<string>, later: Result<seq<string>, TemplateError>): Result<seq<string>, TemplateError> {
    match later
    case Err(error) => Err(error)
    case Ok(more) => Ok(texts + more)
  }

  /** One item's text moves from the items to come to those written. */
  lemma BodiesStep(texts: seq<string>, body: seq<Node>, binding: string, collection: string, items: seq<Vars>,
                   i: nat, vars: Vars, data: TemplateData, bindings: seq<Bound>)
    requires i < |items|
    ensures var text := Meaning(body, vars, data, bindings + [Bound(binding, collection, items[i])]);
            Continued(texts, Bodies(body, binding, collection, items[i..], vars, data, bindings)) ==
            match text
            case Err(error) => Err(error)
            case Ok(written) =>
              Continued(texts + [written], Bodies(body, binding, collection, items[i + 1..], vars, data, bindings))
  {
    assert items[i..][1..] == items[i + 1..] && items[i..][0] == items[i];
    var text := Meaning(body, vars, data, bindings + [Bound(binding, collection, items[i])]);
    var later := Bodies(body, binding, collection, items[i + 1..], vars, data, bindings);
    if text.Ok? && later.Ok? {
      assert texts + ([text.value] + later.value) == (texts + [text.value]) + later.value;
    }
  }

  /** One loop: its body for each item, the separator between two. */
  method WriteLoop(body: seq<Node>, binding: string, collection: string, separator: Option<string>,
                   vars: Vars, data: TemplateData, bindings: seq<Bound>, before: string) returns (r: Written)
    requires collection in data.collections
    ensures r == Prepend(before, NodeMeaning(NFor(binding, collection, separator, body), vars, data, bindings))
    decreases body, 1
  {
    var items := data.collections[collection];
    var out := before;
    var i := 0;
    ghost var texts: seq<string> := [];
    ghost var all := Bodies(body, binding, collection, items, vars, data, bindings);
    assert items[0..] == items && (all.Ok? ==> [] + all.value == all.value);
    while i < |items|
      invariant i <= |items| && |texts| == i
      invariant out == before + Joined(texts, SeparatorText(separator))
      invariant all == Continued(texts, Bodies(body, binding, collection, items[i..], vars, data, bindings))
    {
      var inner := bindings + [Bound(binding, collection, items[i])];
      BodiesStep(texts, body, binding, collection, items, i, vars, data, bindings);
      if i > 0 {
        out := out + SeparatorText(separator);
      }
      var written := WriteNodes(body, vars, data, inner, out);
      if written.Err? {
        return Err(written.error);
      }
      ghost var text := Meaning(body, vars, data, inner).value;
      JoinedGrows(before, texts, text, SeparatorText(separator));
      out := written.value;
      texts := texts + [text];
      i := i + 1;
    }
    assert items[i..] == [] && texts + [] == texts;
    r := Ok(out);
  }

  lemma JoinedGrows(before: string, texts: seq<string>, text: string, separator: string)
    ensures before + Joined(texts + [text], separator) ==
            if texts == [] then before + Joined(texts, separator) + text
            else before + Joined(texts, separator) + separator + text
  {
    JoinedSnoc(texts, text, separator);
  }

  lemma PrependNothing(w: Written)
    ensures Prepend("", w) == w
  {
    if w.Ok? {
      assert "" + w.value == w.value;
    }
  }

  lemma PrependPrepend(a: string, b: string, w: Written)
    ensures Prepend(a, Prepend(b, w)) == Prepend(a + b, w)
  {
    if w.Ok? {
      assert a + (b + w.value) == a + b + w.value;
    }
  }

  lemma {:induction false} JoinedSnoc(texts: seq<string>, text: string, separator: string)
    ensures Joined(texts + [text], separator) ==
            if texts == [] then text else Joined(texts, separator) + separator + text
  {
    if |texts| > 1 {
      assert (texts + [text])[1..] == texts[1..] + [text];
      JoinedSnoc(texts[1..], text, separator);
    } else if |texts| == 1 {
      assert (texts + [text])[1..] == [text];
    }
  }

  // ---- `interpolate` ----

  /** What is written for the start of `s`, and how much of it that was. */
  function StepAt(s: string, vars: Vars): (r: Result<(string, nat), TemplateError>)
    requires s != ""
    ensures r.Ok? ==> 0 < r.value.1 <= |s|
    ensures s[0] != '$' ==> r == Ok(([s[0]], 1))
  {
    if ESCAPE <= s then Ok((OPEN, 3))
    else if OPEN <= s then
      var after := s[2..];
      var end := IndexOf(after, '}');
      if end == |after| then Err(UnclosedVar)
      else if after[..end] !in vars then Err(UndefinedVar(after[..end]))
      else Ok((vars[after[..end]], end + 3))
    else Ok(([s[0]], 1))
  }

  /** `interpolate` of `s`, one character at a time. */
  function Interpolated(s: string, vars: Vars): Written
    decreases |s|
  {
    if s == "" then Ok("")
    else
      match StepAt(s, vars)
      case Err(error) => Err(error)
      case Ok((text, len)) => Prepend(text, Interpolated(s[len..], vars))
  }

  lemma InterpolatedStep(s: string, vars: Vars, text: string, len: nat, before: string)
    requires s != "" && StepAt(s, vars) == Ok((text, len))
    ensures len <= |s| && Prepend(before, Interpolated(s, vars)) == Prepend(before + text, Interpolated(s[len..], vars))
  {
    PrependPrepend(before, text, Interpolated(s[len..], vars));
  }

  /** Text up to the next `$` is copied. */
  lemma {:induction false} InterpolateCopies(t: string, from: nat, at: nat, vars: Vars, before: string)
    requires from <= at <= |t| && forall i :: from <= i < at ==> t[i] != '$'
    ensures Prepend(before, Interpolated(t[from..], vars)) ==
            Prepend(before + t[from..at], Interpolated(t[at..], vars))
    decreases at - from
  {
    if from == at {
      assert before + t[from..at] == before;
    } else {
      InterpolatedStep(t[from..], vars, [t[from]], 1, before);
      assert t[from..][1..] == t[from + 1..];
      InterpolateCopies(t, from + 1, at, vars, before + [t[from]]);
      assert before + [t[from]] + t[from + 1..at] == before + t[from..at];
    }
  }

  /** Where the next `$` is, from `at` on; the text up to it is copied. */
  lemma CopiesToDollar(t: string, at: nat, vars: Vars, before: string)
    requires at <= |t|
    ensures var start := at + IndexOf(t[at..], '$');
            start <= |t| && Prepend(before, Interpolated(t[at..], vars)) ==
                            Prepend(before + t[at..start], Interpolated(t[start..], vars))
  {
    var tail := t[at..];
    var start := at + IndexOf(tail, '$');
    forall i | at <= i < start ensures t[i] != '$' {
      assert t[i] == tail[i - at];
    }
    InterpolateCopies(t, at, start, vars, before);
  }

  /** `all` is `before`, then what `t` reads as from `at` on. */
  ghost predicate ReadSoFar(all: Written, before: string, t: string, at: nat, vars: Vars) {
    at <= |t| && all == Prepend(before, Interpolated(t[at..], vars))
  }

  lemma StepSoFar(all: Written, before: string, t: string, start: nat, vars: Vars)
    requires start < |t| && ReadSoFar(all, before, t, start, vars)
    ensures match StepAt(t[start..], vars)
            case Err(error) => all == Err(error)
            case Ok(step) => step.1 > 0 && ReadSoFar(all, before + step.0, t, start + step.1, vars)
  {
    match StepAt(t[start..], vars)
    case Err(_) =>
    case Ok(step) =>
      InterpolatedStep(t[start..], vars, step.0, step.1, before);
      assert t[start..][step.1..] == t[start + step.1..];
  }

  lemma AllRead(all: Written, before: string, t: string, vars: Vars)
    requires ReadSoFar(all, before, t, |t|, vars)
    ensures all == Ok(before)
  {
    assert t[|t|..] == "" && before + "" == before;
  }

  /** The text up to the next `$`, copied. */
  method CopyText(ghost all: Written, result: string, t: string, at: nat, ghost vars: Vars) returns (copied: string, start: nat)
    requires ReadSoFar(all, result, t, at, vars)
    ensures at <= start <= |t| && ReadSoFar(all, copied, t, start, vars)
  {
    CopiesToDollar(t, at, vars, result);
    start := at + IndexOf(t[at..], '$');
    copied := result + t[at..start];
  }

  /** What stands at a `$`: the result so far, and where to go on from. */
  method ReadStep(ghost all: Written, copied: string, t: string, start: nat, vars: Vars)
    returns (r: Result<(string, nat), TemplateError>)
    requires start < |t| && ReadSoFar(all, copied, t, start, vars)
    ensures r.Err? ==> all == Err(r.error)
    ensures r.Ok? ==> start < r.value.1 && ReadSoFar(all, r.value.0, t, r.value.1, vars)
  {
    StepSoFar(all, copied, t, start, vars);
    var step := StepAt(t[start..], vars);
    r := if step.Ok? then Ok((copied + step.value.0, start + step.value.1)) else Err(step.error);
  }

  lemma NothingRead(t: string, vars: Vars)
    ensures ReadSoFar(Interpolated(t, vars), "", t, 0, vars)
  {
    PrependNothing(Interpolated(t, vars));
    assert t[0..] == t;
  }

  method Interpolate(t: string, vars: Vars) returns (r: Written)
    ensures r == Interpolated(t, vars)
  {
    ghost var all := Interpolated(t, vars);
    NothingRead(t, vars);
    var result, start := CopyText(all, "", t, 0, vars);
    while start < |t|
      invariant ReadSoFar(all, result, t, start, vars)
      decreases |t| - start
    {
      var next := ReadStep(all, result, t, start, vars);
      if next.Err? {
        return Err(next.error);
      }
      result, start := CopyText(all, next.value.0, t, next.value.1, vars);
    }
    AllRead(all, result, t, vars);
    r := Ok(result);
  }

  // ---- Rendering without loops is interpolation ----

  /** No `${for …}`, readable or not. */
  ghost predicate NoLoops(ps: seq<Piece>) {
    forall p :: p in ps ==> !p.POpen? && (p.PBad? ==> !p.error.InvalidHeader?)
  }

  /** What pieces without loops write. */
  function FlatMeaning(ps: seq<Piece>, vars: Vars): Written
    decreases |ps|, 0
  {
    if ps == [] then Ok("")
    else
      match ps[0]
      case PText(text) => Prepend(text, FlatMeaning(ps[1..], vars))
      case PVar(name) => FlatRead(name, ps[1..], vars)
      case PClose => FlatRead(ENDFOR, ps[1..], vars)
      case PBad(error) => Err(error)
      case POpen(_, collection, _) => Err(UndefinedCollection(collection))
  }

  function FlatRead(name: string, later: seq<Piece>, vars: Vars): Written
    decreases |later|, 1
  {
    if name in vars then Prepend(vars[name], FlatMeaning(later, vars)) else Err(UndefinedVar(name))
  }

  function FlatNodes(ps: seq<Piece>): seq<Node> {
    if ps == [] then []
    else
      var node := match ps[0]
                  case PText(text) => NText(text)
                  case PVar(name) => NVar(name)
                  case _ => NVar(ENDFOR);
      [node] + FlatNodes(ps[1..])
  }

  lemma {:induction false} FlatBuild(ps: seq<Piece>, nodes: seq<Node>)
    requires NoLoops(ps) && NoBad(ps)
    ensures Build(ps, [], nodes) == Ok(nodes + FlatNodes(ps))
  {
    if ps == [] {
      assert nodes + [] == nodes;
    } else {
      var node := FlatNodes(ps)[0];
      assert ps[0] in ps && forall p :: p in ps[1..] ==> p in ps;
      FlatBuild(ps[1..], nodes + [node]);
      assert nodes + [node] + FlatNodes(ps[1..]) == nodes + FlatNodes(ps);
    }
  }

  lemma {:induction false} FlatNodesMean(ps: seq<Piece>, vars: Vars)
    requires NoLoops(ps) && NoBad(ps)
    ensures Meaning(FlatNodes(ps), vars, EMPTY_DATA, []) == FlatMeaning(ps, vars)
  {
    if ps != [] {
      assert ps[0] in ps && forall p :: p in ps[1..] ==> p in ps;
      FlatNodesMean(ps[1..], vars);
      assert FlatNodes(ps)[1..] == FlatNodes(ps[1..]);
    }
  }

  lemma PushTextMeans(text: string, ps: seq<Piece>, vars: Vars)
    ensures FlatMeaning(PushText(text, ps), vars) == Prepend(text, FlatMeaning(ps, vars))
  {
    if OnlyUnclosed(ps) {
    } else if text == "" {
      var w := FlatMeaning(ps, vars);
      assert w.Ok? ==> "" + w.value == w.value;
    } else if ps != [] && IsPlain(ps[0]) {
      PrependPrepend(text, ps[0].text, FlatMeaning(ps[1..], vars));
      assert ([PText(text + ps[0].text)] + ps[1..])[1..] == ps[1..];
    } else {
      assert ([PText(text)] + ps)[1..] == ps;
    }
  }

  /** The same text and the same outcome; the error may be another one. */
  predicate SameOutcome(a: Written, b: Written) {
    a == b || (a.Err? && b.Err?)
  }

  lemma {:induction false} ScanMeansInterpolate(s: string, vars: Vars)
    requires GoodHits(HitAt) && NoLoops(Scan(HitAt, s))
    ensures SameOutcome(FlatMeaning(Scan(HitAt, s), vars), Interpolated(s, vars))
    decreases |s|
  {
    if s != "" {
      assert GoodHit(s, HitAt(s));
      var ps := Scan(HitAt, s);
      match HitAt(s)
      case NeverClosed(_) =>
      case NoToken =>
        var later := Scan(HitAt, s[1..]);
        NoLoopsLater(s[0], later);
        ScanMeansInterpolate(s[1..], vars);
        PushTextMeans([s[0]], later, vars);
      case Found(len, token) =>
        ScanStep(HitAt, s, len, token);
        assert ps[1..] == Scan(HitAt, s[len..]);
        assert ps[0] in ps && forall p :: p in ps[1..] ==> p in ps;
        ScanMeansInterpolate(s[len..], vars);
        TokenThenMeans(s, vars, len, token);
    }
  }

  /** A token, then what follows it. */
  lemma TokenThenMeans(s: string, vars: Vars, len: nat, token: Token)
    requires s != "" && HitAt(s) == Found(len, token) && 0 < len <= |s| && GoodHits(HitAt)
    requires var p := PieceOf(token); !p.POpen? && (p.PBad? ==> !p.error.InvalidHeader?)
    requires SameOutcome(FlatMeaning(Scan(HitAt, s[len..]), vars), Interpolated(s[len..], vars))
    ensures SameOutcome(FlatMeaning([PieceOf(token)] + Scan(HitAt, s[len..]), vars), Interpolated(s, vars))
  {
    var later := Scan(HitAt, s[len..]);
    OneThenMeans(PieceOf(token), later, vars);
    if ESCAPE <= s {
      assert StepAt(s, vars) == Ok((OPEN, 3));
    } else {
      TokenMeansRead(s);
    }
  }

  /** The first piece, then the rest. */
  lemma OneThenMeans(p: Piece, later: seq<Piece>, vars: Vars)
    requires !p.POpen? && !p.PBad?
    ensures FlatMeaning([p] + later, vars) ==
            if p.PText? then Prepend(p.text, FlatMeaning(later, vars))
            else FlatRead(if p.PVar? then p.name else ENDFOR, later, vars)
  {
    assert ([p] + later)[1..] == later;
  }

  lemma NoLoopsLater(c: char, later: seq<Piece>)
    requires NoLoops(PushText([c], later))
    ensures NoLoops(later)
  {
    var ps := PushText([c], later);
    forall p | p in later ensures !p.POpen? && (p.PBad? ==> !p.error.InvalidHeader?) {
      assert p in ps || p == later[0];
    }
  }

  /** Read without loops, a token is the variable its text names. */
  lemma TokenMeansRead(s: string)
    requires HitAt(s).Found? && !(ESCAPE <= s)
    requires var p := PieceOf(HitAt(s).token); !p.POpen? && !p.PBad?
    ensures var end := IndexOf(s[2..], '}');
            && end < |s[2..]| && HitAt(s).len == end + 3
            && PieceOf(HitAt(s).token) == if s[2..][..end] == ENDFOR then PClose else PVar(s[2..][..end])
  {
    var inner := s[2..][..IndexOf(s[2..], '}')];
    if FOR <= inner {
      HeaderPiece(inner);
    } else {
      PlainToken(inner);
    }
  }

  lemma PlainToken(inner: string)
    requires !(FOR <= inner)
    ensures PieceOf(TokenOf(inner)) == if inner == ENDFOR then PClose else PVar(inner)
  {
  }

  lemma HeaderPiece(header: string)
    requires FOR <= header
    ensures var p := PieceOf(TokenOf(header)); p.POpen? || p.PBad?
  {
    LoopPiece(Words(header), After(header, SEPARATOR));
  }

  lemma LoopPiece(parts: seq<string>, separated: Option<string>)
    ensures var p := PieceOf(LoopToken(parts, separated)); p.POpen? || p.PBad?
  {
  }

  /** On a template without `${for ` headers and with nothing but flat variables, `render`
      succeeds exactly when `interpolate` does, with the same text. */
  lemma RenderIsInterpolate(t: string, vars: Vars)
    requires GoodHits(HitAt) && NoLoops(Scan(HitAt, t))
    ensures SameOutcome(Rendered(t, vars, EMPTY_DATA), Interpolated(t, vars))
  {
    var ps := Scan(HitAt, t);
    ScanMeansInterpolate(t, vars);
    if NoBad(ps) {
      FlatBuild(ps, []);
      assert [] + FlatNodes(ps) == FlatNodes(ps);
      FlatNodesMean(ps, vars);
    } else {
      if Parse(t).Ok? {
        BuiltHasNoBad(ps, [], []);
      }
      BadMeansError(ps, vars);
    }
  }

  lemma {:induction false} BadMeansError(ps: seq<Piece>, vars: Vars)
    requires !NoBad(ps)
    ensures FlatMeaning(ps, vars).Err?
  {
    var p :| p in ps && p.PBad?;
    if !ps[0].PBad? {
      assert p in ps[1..];
      BadMeansError(ps[1..], vars);
    }
  }

  // ---- Escaping ----

  /** Each `${` doubled to `$${`. */
  function EscapeAll(s: string): string
    decreases |s|
  {
    if s == "" then ""
    else if OPEN <= s then ESCAPE + EscapeAll(s[2..])
    else [s[0]] + EscapeAll(s[1..])
  }

  lemma {:induction false} EscapedHasNoOpen(s: string)
    ensures !(OPEN <= EscapeAll(s))
    ensures s != "" && !(OPEN <= s) ==> !(ESCAPE <= EscapeAll(s))
    ensures s != "" ==> EscapeAll(s) != "" && EscapeAll(s)[0] == s[0]
    decreases |s|
  {
    var e := EscapeAll(s);
    OpenChars(e);
    if s != "" && !(OPEN <= s) {
      OpenChars(s);
      EscapedHasNoOpen(s[1..]);
      OpenChars(EscapeAll(s[1..]));
      assert e[1..] == EscapeAll(s[1..]);
    }
  }

  /** Interpolating an escaped text gives the text back, whatever the variables. */
  lemma {:induction false} EscapeThenInterpolate(s: string, vars: Vars)
    ensures Interpolated(EscapeAll(s), vars) == Ok(s)
    decreases |s|
  {
    if s != "" {
      var e := EscapeAll(s);
      if OPEN <= s {
        EscapeThenInterpolate(s[2..], vars);
        assert e[3..] == EscapeAll(s[2..]);
        assert OPEN + s[2..] == s;
      } else {
        EscapedHasNoOpen(s);
        EscapeThenInterpolate(s[1..], vars);
        assert e[1..] == EscapeAll(s[1..]);
        assert [s[0]] + s[1..] == s;
      }
    }
  }
}
