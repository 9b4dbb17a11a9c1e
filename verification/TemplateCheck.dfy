/**
 The static check of a template: one flat pass over its tokens that never renders.

 It keeps a stack of bindings, reports each name once, and skips what an empty list never
 renders. `CheckerSound` says that what it accepts renders.
 */
module TemplateCheck {
  import opened Wrappers
  import opened Template
  import opened TemplateParser
  import opened TemplatePrint
  import opened Render
  import opened ReservedNames

  /** A list a template can loop over, as far as it is known before a run. */
  datatype ItemList = Unknown | Unresolved | Items(items: seq<Vars>)

  datatype Why = SomeLack(lacking: nat, all: nat) | NoneHas

  /** How many items lack `field`. */
  function Lacking(items: seq<Vars>, field: string): (n: nat)
    ensures n == |WhereLacking(items, field)| <= |items|
    ensures n == 0 <==> forall item :: item in items ==> field in item
    ensures n == |items| <==> forall item :: item in items ==> field !in item
  {
    if items == [] then 0
    else
      var before, last := items[..|items| - 1], items[|items| - 1];
      assert items == before + [last];
      assert WhereLacking(items, field) == WhereLacking(before, field) + if field in last then {} else {|items| - 1};
      (if field in last then 0 else 1) + Lacking(before, field)
  }

  ghost function WhereLacking(items: seq<Vars>, field: string): set<nat> {
    set i | 0 <= i < |items| && field !in items[i]
  }

  /** Why reading `field` of each item fails, or `None` when it does not: which it never does of
      an empty list. */
  function Missing(list: ItemList, field: string): (why: Option<Why>)
    ensures list.Items? ==> (why.None? <==> forall item :: item in list.items ==> field in item)
    ensures list.Items? ==>
              (why == Some(NoneHas) <==> list.items != [] && forall item :: item in list.items ==> field !in item)
    ensures why.Some? && why.value.SomeLack? ==>
              list.Items? && why.value == SomeLack(|WhereLacking(list.items, field)|, |list.items|)
    ensures !list.Items? ==> why.None?
  {
    if !list.Items? || Lacking(list.items, field) == 0 then None
    else if Lacking(list.items, field) < |list.items| then
      Some(SomeLack(Lacking(list.items, field), |list.items|))
    else Some(NoneHas)
  }

  /** Which of the plan's hosts define a variable. */
  datatype Coverage = AllHosts | SomeHosts(missing: seq<string>) | NoHost

  /** Whether a task renders its template at all. */
  datatype Reach = Sure | Maybe | Never

  /** The items of a step's loop one of its tasks renders for. */
  datatype Looped = Looped(name: string, runs: ItemList, maybe: seq<Vars>, reach: Reach)

  function AllItems(looped: Looped): ItemList {
    match looped.runs
    case Items(runs) => Items(runs + looped.maybe)
    case _ => Unknown
  }

  /** What `${@item…}` a task's template can read. */
  datatype Item = NoLoop | ItemValue | Fields(looped: Looped) | Elsewhere

  /** What is known before a run. */
  datatype Knowledge = Knowledge(
    defined: string -> bool, hosts: string -> Coverage, list: string -> Option<ItemList>,
    item: Item, reach: Reach)

  datatype Problem =
    | Structure(error: TemplateError)
    | NotAList(collection: string)
    | FieldMissing(name: string, why: Why)
    | ItemFieldMissing(name: string, why: Why)
    | NotAnItem(name: string)
    | NotDefined(name: string)

  datatype Warning = FieldMaybeMissing(name: string, why: Why) | OldEscape(name: string)

  datatype Findings = Findings(
    problems: seq<Problem>, undefined: seq<string>, partial: seq<(string, seq<string>)>, warnings: seq<Warning>)

  /** An open loop, with what is known of its list. */
  datatype OpenLoop = OpenLoop(binding: string, collection: string, items: Option<ItemList>)

  /** The check's state between two tokens. */
  datatype Checking = Checking(
    scopes: seq<OpenLoop>, names: set<string>, fields: set<(string, string)>, lists: set<string>,
    escapes: set<string>, findings: Findings)

  const NO_FINDINGS := Findings([], [], [], [])
  const START := Checking([], {}, {}, {}, {}, NO_FINDINGS)

  /** Whether `name`, an `@item` reference, is not what `item` provides. */
  predicate ItemProblem(name: string, item: Item) {
    match item
    case Elsewhere => false
    case NoLoop => true
    case ItemValue => ITEM_FIELD <= name
    case Fields(_) => !(ITEM_FIELD <= name)
  }

  function InnermostScope(name: string, scopes: seq<OpenLoop>): Option<(string, OpenLoop)> {
    if scopes == [] then None
    else
      var last := scopes[|scopes| - 1];
      match BoundField(name, last.binding)
      case Some(field) => Some((field, last))
      case None => InnermostScope(name, scopes[..|scopes| - 1])
  }

  predicate AnyEmpty(scopes: seq<OpenLoop>) {
    exists i :: 0 <= i < |scopes| && scopes[i].items == Some(Items([]))
  }

  function AddProblem(st: Checking, p: Problem): Checking {
    st.(findings := st.findings.(problems := st.findings.problems + [p]))
  }

  function AddWarning(st: Checking, w: Warning): Checking {
    st.(findings := st.findings.(warnings := st.findings.warnings + [w]))
  }

  function CheckToken(k: Knowledge, st: Checking, token: Token): Checking {
    match token
    case For(binding, collection, _) => CheckFor(k, st, binding, collection)
    case EndFor => CheckEndFor(st)
    case Var(name) => CheckVar(k, st, name)
    case Escaped(name) => CheckEscaped(k, st, name)
    case Invalid(_) => st
  }

  function CheckFor(k: Knowledge, st: Checking, binding: string, collection: string): Checking {
    var items := k.list(collection);
    var st1 := if items.None? && collection !in st.lists
               then AddProblem(st, NotAList(collection)).(lists := st.lists + {collection}) else st;
    st1.(scopes := st.scopes + [OpenLoop(binding, collection, items)])
  }

  function CheckEndFor(st: Checking): Checking {
    st.(scopes := if st.scopes == [] then [] else st.scopes[..|st.scopes| - 1])
  }

  function CheckEscaped(k: Knowledge, st: Checking, name: string): Checking {
    var bound := exists i :: 0 <= i < |st.scopes| && BoundField(name, st.scopes[i].binding).Some?;
    if (bound || k.defined(name) || k.hosts(name) != NoHost) && name !in st.escapes then
      AddWarning(st, OldEscape(name)).(escapes := st.escapes + {name})
    else st
  }

  function CheckVar(k: Knowledge, st: Checking, name: string): Checking {
    var unreachable := k.reach == Never || AnyEmpty(st.scopes);
    match InnermostScope(name, st.scopes)
    case Some((field, scope)) => CheckField(k, st, name, field, scope, unreachable)
    case None =>
      if (unreachable && ITEM_FIELD <= name) || name in st.names then st
      else
        var st1 := st.(names := st.names + {name});
        if IsItemVar(name) then CheckItem(k, st1, name)
        else if k.defined(name) then st1
        else
          match k.hosts(name)
          case AllHosts => st1
          case SomeHosts(missing) =>
            st1.(findings := st1.findings.(partial := st1.findings.partial + [(name, missing)]))
          case NoHost =>
            if "@" <= name then AddProblem(st1, NotDefined(name))
            else st1.(findings := st1.findings.(undefined := st1.findings.undefined + [name]))
  }

  function CheckField(
    k: Knowledge, st: Checking, name: string, field: string, scope: OpenLoop, unreachable: bool): Checking
  {
    if unreachable || scope.items.None? then st
    else
      match Missing(scope.items.value, field)
      case None => st
      case Some(why) =>
        if (name, scope.collection) in st.fields then st
        else
          var st1 := st.(fields := st.fields + {(name, scope.collection)});
          if k.reach == Maybe then AddWarning(st1, FieldMaybeMissing(name, why))
          else AddProblem(st1, FieldMissing(name, why))
  }

  function CheckItem(k: Knowledge, st: Checking, name: string): Checking {
    if ItemProblem(name, k.item) then AddProblem(st, NotAnItem(name))
    else if ITEM_FIELD <= name && k.item.Fields? then
      var field := name[|ITEM_FIELD|..];
      match Missing(k.item.looped.runs, field)
      case Some(why) => AddProblem(st, ItemFieldMissing(name, why))
      case None =>
        match Missing(AllItems(k.item.looped), field)
        case Some(why) => AddWarning(st, FieldMaybeMissing(name, why))
        case None => st
    else st
  }

  function CheckTokens(k: Knowledge, tokens: seq<Spanned>, st: Checking): Checking {
    if tokens == [] then st else CheckTokens(k, tokens[1..], CheckToken(k, st, tokens[0].token))
  }

  ghost function TokensOf(t: string): seq<Spanned> {
    HitAtIsGood();
    LexFrom(HitAt, t, 0).0
  }

  /** What the check finds in a template. */
  ghost function Checked(k: Knowledge, t: string): Findings {
    match Parse(t)
    case Err(error) => NO_FINDINGS.(problems := [Structure(error)])
    case Ok(_) => CheckTokens(k, TokensOf(t), START).findings
  }

  method CheckTemplate(k: Knowledge, t: string) returns (findings: Findings)
    ensures findings == Checked(k, t)
  {
    var parsed := ParseTemplate(t);
    if parsed.Err? {
      return NO_FINDINGS.(problems := [Structure(parsed.error)]);
    }
    var tokens, _ := Lex(t);
    var st := START;
    var i := 0;
    assert tokens[0..] == tokens;
    while i < |tokens|
      invariant i <= |tokens|
      invariant CheckTokens(k, tokens, START) == CheckTokens(k, tokens[i..], st)
    {
      assert tokens[i..][1..] == tokens[i + 1..];
      st := CheckToken(k, st, tokens[i].token);
      i := i + 1;
    }
    findings := st.findings;
  }

  // ---- The flat pass over a tree's pieces ----

  predicate Quiet(st: Checking) {
    st.findings == NO_FINDINGS
  }

  /** A step on a piece; text, an escape's included, changes nothing. */
  function CheckPiece(k: Knowledge, st: Checking, p: Piece): Checking {
    match p
    case PText(_) => st
    case PVar(name) => CheckVar(k, st, name)
    case POpen(binding, collection, _) => CheckFor(k, st, binding, collection)
    case PClose => CheckEndFor(st)
    case PBad(_) => st
  }

  function CheckPieces(k: Knowledge, ps: seq<Piece>, st: Checking): Checking {
    if ps == [] then st else CheckPieces(k, ps[1..], CheckPiece(k, st, ps[0]))
  }

  lemma {:induction false} CheckPiecesConcat(k: Knowledge, a: seq<Piece>, b: seq<Piece>, st: Checking)
    ensures CheckPieces(k, a + b, st) == CheckPieces(k, b, CheckPieces(k, a, st))
  {
    if a == [] {
      assert a + b == b;
    } else {
      assert (a + b)[1..] == a[1..] + b;
      CheckPiecesConcat(k, a[1..], b, CheckPiece(k, st, a[0]));
    }
  }

  function Size(f: Findings): nat {
    |f.problems| + |f.undefined| + |f.partial| + |f.warnings|
  }

  lemma StepKeepsFindings(k: Knowledge, st: Checking, token: Token)
    ensures Size(st.findings) <= Size(CheckToken(k, st, token).findings)
  {
  }

  /** No step takes a finding back, so a pass that ends quiet was quiet throughout; and then an
      escape has changed nothing. */
  lemma {:induction false} QuietThroughout(k: Knowledge, tokens: seq<Spanned>, st: Checking)
    requires Quiet(CheckTokens(k, tokens, st))
    ensures Quiet(st)
    ensures CheckTokens(k, tokens, st) == CheckPieces(k, Pieces(tokens), st)
  {
    if tokens != [] {
      var next := CheckToken(k, st, tokens[0].token);
      QuietThroughout(k, tokens[1..], next);
      StepKeepsFindings(k, st, tokens[0].token);
      assert Pieces(tokens)[1..] == Pieces(tokens[1..]);
    }
  }

  function Pieces(tokens: seq<Spanned>): seq<Piece> {
    if tokens == [] then [] else [PieceOf(tokens[0].token)] + Pieces(tokens[1..])
  }

  /** The text between the tokens plays no part. */
  lemma {:induction false} SlicesCheck(
    k: Knowledge, t: string, from: nat, found: seq<Spanned>, unclosed: Option<TemplateError>, st: Checking)
    requires Tiling(t, from, found)
    ensures CheckPieces(k, Slices(t, from, found, unclosed), st) == CheckPieces(k, Pieces(found), st)
    decreases |found|
  {
    if found != [] {
      var next := found[0];
      SlicesCheck(k, t, next.at + next.len, found[1..], unclosed, CheckPiece(k, st, PieceOf(next.token)));
    }
  }

  /** A quiet pass over a template's tokens is a quiet pass over its tree. */
  lemma QuietOnTree(k: Knowledge, t: string)
    requires Parse(t).Ok? && Quiet(CheckTokens(k, TokensOf(t), START))
    ensures Quiet(CheckPieces(k, Flatten(Parse(t).value), START))
  {
    HitAtIsGood();
    var tokens := TokensOf(t);
    QuietThroughout(k, tokens, START);
    SlicesAreScan(HitAt, t, 0, 0);
    assert t[0..] == t;
    assert PushText(t[0..0], Scan(HitAt, t)) == Scan(HitAt, t);
    SlicesCheck(k, t, 0, tokens, LexFrom(HitAt, t, 0).1, START);
    ParseIsExact(t);
  }

  // ---- What a quiet pass has established ----

  /** What the check takes as defined. */
  predicate Accepted(k: Knowledge, name: string) {
    if IsItemVar(name) then
      && !ItemProblem(name, k.item)
      && (ITEM_FIELD <= name && k.item.Fields? ==>
            Missing(k.item.looped.runs, name[|ITEM_FIELD|..]).None?
            && Missing(AllItems(k.item.looped), name[|ITEM_FIELD|..]).None?)
    else
      k.defined(name) || k.hosts(name) == AllHosts
  }

  ghost predicate Clean(k: Knowledge, st: Checking) {
    Quiet(st) && st.fields == {} && st.lists == {} && forall name :: name in st.names ==> Accepted(k, name)
  }

  /** Reading `name` where `scopes` are open: of every item of its loop, or a name taken as
      defined — unless nothing is rendered there. */
  predicate SafeVar(k: Knowledge, name: string, scopes: seq<OpenLoop>) {
    match InnermostScope(name, scopes)
    case Some((field, scope)) =>
      AnyEmpty(scopes) || (scope.items.Some? && Missing(scope.items.value, field).None?)
    case None => Accepted(k, name) || (AnyEmpty(scopes) && ITEM_FIELD <= name)
  }

  predicate Safe(k: Knowledge, nodes: seq<Node>, scopes: seq<OpenLoop>)
    decreases nodes
  {
    nodes == [] || (SafeNode(k, nodes[0], scopes) && Safe(k, nodes[1..], scopes))
  }

  predicate SafeNode(k: Knowledge, node: Node, scopes: seq<OpenLoop>)
    decreases node
  {
    match node
    case NText(_) => true
    case NVar(name) => SafeVar(k, name, scopes)
    case NFor(binding, collection, _, body) =>
      k.list(collection).Some? && Safe(k, body, scopes + [OpenLoop(binding, collection, k.list(collection))])
  }

  ghost predicate ListsThere(scopes: seq<OpenLoop>) {
    forall i :: 0 <= i < |scopes| ==> scopes[i].items.Some?
  }

  lemma {:induction false} InnermostIsOpen(name: string, scopes: seq<OpenLoop>)
    requires InnermostScope(name, scopes).Some?
    ensures exists i :: 0 <= i < |scopes| && scopes[i] == InnermostScope(name, scopes).value.1
  {
    var last := scopes[|scopes| - 1];
    if BoundField(name, last.binding).None? {
      InnermostIsOpen(name, scopes[..|scopes| - 1]);
    }
  }

  lemma QuietVarIsSafe(k: Knowledge, st: Checking, name: string)
    requires k.reach != Never && Clean(k, st) && ListsThere(st.scopes) && Quiet(CheckVar(k, st, name))
    ensures SafeVar(k, name, st.scopes) && Clean(k, CheckVar(k, st, name))
    ensures CheckVar(k, st, name).scopes == st.scopes
  {
    if InnermostScope(name, st.scopes).Some? {
      InnermostIsOpen(name, st.scopes);
    }
  }

  lemma {:induction false} PiecesKeepFindings(k: Knowledge, ps: seq<Piece>, st: Checking)
    ensures Size(st.findings) <= Size(CheckPieces(k, ps, st).findings)
  {
    if ps != [] {
      PiecesKeepFindings(k, ps[1..], CheckPiece(k, st, ps[0]));
    }
  }

  lemma QuietBefore(k: Knowledge, ps: seq<Piece>, st: Checking)
    requires Quiet(CheckPieces(k, ps, st))
    ensures Quiet(st)
  {
    PiecesKeepFindings(k, ps, st);
  }

  /** A quiet pass over a closed tree leaves the stack as it was and the tree safe. */
  lemma {:induction false} QuietTreeIsSafe(k: Knowledge, nodes: seq<Node>, st: Checking)
    requires k.reach != Never && Closed(nodes) && Clean(k, st) && ListsThere(st.scopes)
    requires Quiet(CheckPieces(k, Flatten(nodes), st))
    ensures Safe(k, nodes, st.scopes)
    ensures Clean(k, CheckPieces(k, Flatten(nodes), st))
    ensures CheckPieces(k, Flatten(nodes), st).scopes == st.scopes
    decreases nodes
  {
    if nodes != [] {
      var first := CheckPieces(k, FlattenNode(nodes[0]), st);
      CheckPiecesConcat(k, FlattenNode(nodes[0]), Flatten(nodes[1..]), st);
      QuietBefore(k, Flatten(nodes[1..]), first);
      QuietNodeIsSafe(k, nodes[0], st);
      QuietTreeIsSafe(k, nodes[1..], first);
    }
  }

  lemma {:induction false} QuietNodeIsSafe(k: Knowledge, node: Node, st: Checking)
    requires k.reach != Never && ClosedNode(node) && Clean(k, st) && ListsThere(st.scopes)
    requires Quiet(CheckPieces(k, FlattenNode(node), st))
    ensures SafeNode(k, node, st.scopes)
    ensures Clean(k, CheckPieces(k, FlattenNode(node), st))
    ensures CheckPieces(k, FlattenNode(node), st).scopes == st.scopes
    decreases node
  {
    match node
    case NText(_) =>
    case NVar(name) =>
      CheckOne(k, PVar(name), st);
      QuietVarIsSafe(k, st, name);
    case NFor(binding, collection, separator, body) =>
      var entered := CheckFor(k, st, binding, collection);
      var inside := CheckPieces(k, Flatten(body), entered);
      LoopChecks(k, node, st);
      QuietBefore(k, [PClose], inside);
      QuietBefore(k, Flatten(body), entered);
      QuietTreeIsSafe(k, body, entered);
      assert (st.scopes + [OpenLoop(binding, collection, k.list(collection))])[..|st.scopes|] == st.scopes;
  }

  lemma CheckOne(k: Knowledge, p: Piece, st: Checking)
    ensures CheckPieces(k, [p], st) == CheckPiece(k, st, p)
  {
    assert [p][1..] == [];
  }

  lemma LoopChecks(k: Knowledge, node: Node, st: Checking)
    requires node.NFor?
    ensures var entered := CheckFor(k, st, node.binding, node.collection);
            var inside := CheckPieces(k, Flatten(node.body), entered);
            CheckPieces(k, FlattenNode(node), st) == CheckPieces(k, [PClose], inside) == CheckEndFor(inside)
  {
    var open := [POpen(node.binding, node.collection, node.separator)];
    var entered := CheckFor(k, st, node.binding, node.collection);
    CheckPiecesConcat(k, open + Flatten(node.body), [PClose], st);
    CheckPiecesConcat(k, open, Flatten(node.body), st);
    CheckOne(k, open[0], st);
    CheckOne(k, PClose, CheckPieces(k, Flatten(node.body), entered));
  }

  // ---- Safe trees render ----

  /** The names a tree reads outside its loops' items. */
  ghost predicate NamesExist(k: Knowledge, names: set<string>, vars: Vars, data: TemplateData) {
    forall name :: name in names && Accepted(k, name) ==> name in data.extraVars || name in vars
  }

  function NamesIn(nodes: seq<Node>): set<string> {
    if nodes == [] then {} else NamesInNode(nodes[0]) + NamesIn(nodes[1..])
  }

  function NamesInNode(node: Node): set<string> {
    match node
    case NText(_) => {}
    case NVar(name) => {name}
    case NFor(_, _, _, body) => NamesIn(body)
  }

  function ListsIn(nodes: seq<Node>): set<string> {
    if nodes == [] then {} else ListsInNode(nodes[0]) + ListsIn(nodes[1..])
  }

  function ListsInNode(node: Node): set<string> {
    match node
    case NFor(_, collection, _, body) => {collection} + ListsIn(body)
    case _ => {}
  }

  /** Every list the template loops over is known, and is what the render will loop over. */
  ghost predicate ListsMatch(k: Knowledge, lists: set<string>, data: TemplateData) {
    forall c :: c in lists && k.list(c).Some? ==>
      && k.list(c).value.Items?
      && c in data.collections && data.collections[c] == k.list(c).value.items
  }

  /** The render is at one item of each open loop. */
  ghost predicate AtItems(scopes: seq<OpenLoop>, bindings: seq<Bound>) {
    && |scopes| == |bindings|
    && forall i :: 0 <= i < |scopes| ==>
         && scopes[i].binding == bindings[i].binding && scopes[i].collection == bindings[i].collection
         && scopes[i].items.Some? && scopes[i].items.value.Items?
         && bindings[i].item in scopes[i].items.value.items
  }

  lemma {:induction false} InnermostAgrees(name: string, scopes: seq<OpenLoop>, bindings: seq<Bound>)
    requires AtItems(scopes, bindings)
    ensures match InnermostScope(name, scopes)
            case None => Innermost(name, bindings).None?
            case Some((field, scope)) =>
              && Innermost(name, bindings).Some?
              && Innermost(name, bindings).value.0 == field
              && scope.items.Some? && scope.items.value.Items?
              && Innermost(name, bindings).value.1.item in scope.items.value.items
  {
    if scopes != [] {
      InnermostAgrees(name, scopes[..|scopes| - 1], bindings[..|bindings| - 1]);
    }
  }

  lemma {:induction false} SafeTreeRenders(
    k: Knowledge, nodes: seq<Node>, scopes: seq<OpenLoop>, vars: Vars, data: TemplateData, bindings: seq<Bound>)
    requires Safe(k, nodes, scopes) && AtItems(scopes, bindings)
    requires NamesExist(k, NamesIn(nodes), vars, data) && ListsMatch(k, ListsIn(nodes), data)
    ensures Meaning(nodes, vars, data, bindings).Ok?
    decreases nodes, 0
  {
    if nodes != [] {
      SafeNodeRenders(k, nodes[0], scopes, vars, data, bindings);
      SafeTreeRenders(k, nodes[1..], scopes, vars, data, bindings);
    }
  }

  lemma {:induction false} SafeNodeRenders(
    k: Knowledge, node: Node, scopes: seq<OpenLoop>, vars: Vars, data: TemplateData, bindings: seq<Bound>)
    requires SafeNode(k, node, scopes) && AtItems(scopes, bindings)
    requires NamesExist(k, NamesInNode(node), vars, data) && ListsMatch(k, ListsInNode(node), data)
    ensures NodeMeaning(node, vars, data, bindings).Ok?
    decreases node, 0
  {
    match node
    case NText(_) =>
    case NVar(name) => InnermostAgrees(name, scopes, bindings);
    case NFor(binding, collection, _, body) =>
      BodiesRender(k, body, binding, collection, data.collections[collection], scopes, vars, data, bindings);
  }

  lemma {:induction false} BodiesRender(
    k: Knowledge, body: seq<Node>, binding: string, collection: string, items: seq<Vars>,
    scopes: seq<OpenLoop>, vars: Vars, data: TemplateData, bindings: seq<Bound>)
    requires k.list(collection).Some? && k.list(collection).value.Items?
    requires forall item :: item in items ==> item in k.list(collection).value.items
    requires Safe(k, body, scopes + [OpenLoop(binding, collection, k.list(collection))]) && AtItems(scopes, bindings)
    requires NamesExist(k, NamesIn(body), vars, data) && ListsMatch(k, ListsIn(body), data)
    ensures Bodies(body, binding, collection, items, vars, data, bindings).Ok?
    decreases body, 1, |items|
  {
    if items != [] {
      var inner := bindings + [Bound(binding, collection, items[0])];
      SafeTreeRenders(k, body, scopes + [OpenLoop(binding, collection, k.list(collection))], vars, data, inner);
      BodiesRender(k, body, binding, collection, items[1..], scopes, vars, data, bindings);
    }
  }

  // ---- The top level, where a stray `${endfor}` is read as a variable ----

  /** Every `${endfor}` of the tree closes a loop. */
  predicate NoStray(nodes: seq<Node>) {
    NVar(ENDFOR) !in nodes
  }

  ghost predicate EndForDefined(vars: Vars, data: TemplateData) {
    ENDFOR in data.extraVars || ENDFOR in vars
  }

  lemma {:induction false} QuietTopRenders(
    k: Knowledge, nodes: seq<Node>, st: Checking, vars: Vars, data: TemplateData)
    requires k.reach != Never && Buildable(nodes) && Clean(k, st) && st.scopes == []
    requires Quiet(CheckPieces(k, Flatten(nodes), st))
    requires NamesExist(k, NamesIn(nodes), vars, data) && ListsMatch(k, ListsIn(nodes), data)
    ensures Meaning(nodes, vars, data, []).Ok? <==> NoStray(nodes) || EndForDefined(vars, data)
  {
    if nodes != [] {
      var first := CheckPieces(k, FlattenNode(nodes[0]), st);
      CheckPiecesConcat(k, FlattenNode(nodes[0]), Flatten(nodes[1..]), st);
      QuietBefore(k, Flatten(nodes[1..]), first);
      if nodes[0] == NVar(ENDFOR) {
        CheckOne(k, PClose, st);
      } else {
        QuietNodeIsSafe(k, nodes[0], st);
        SafeNodeRenders(k, nodes[0], [], vars, data, []);
      }
      QuietTopRenders(k, nodes[1..], first, vars, data);
      assert nodes == [nodes[0]] + nodes[1..];
    }
  }

  /** The checker is sound. When it finds nothing in a template some run may render, the template
      has a tree, and it renders — for every variables and data in which the names
      the checker took as defined exist and the lists are the known ones — exactly when every
      `${endfor}` closes a loop or a variable of that name is defined. */
  lemma CheckerSound(k: Knowledge, t: string, vars: Vars, data: TemplateData)
    requires k.reach != Never && Checked(k, t) == NO_FINDINGS
    ensures Parse(t).Ok?
    ensures var nodes := Parse(t).value;
            NamesExist(k, NamesIn(nodes), vars, data) && ListsMatch(k, ListsIn(nodes), data) ==>
              (Rendered(t, vars, data).Ok? <==> NoStray(nodes) || EndForDefined(vars, data))
  {
    var nodes := Parse(t).value;
    if NamesExist(k, NamesIn(nodes), vars, data) && ListsMatch(k, ListsIn(nodes), data) {
      QuietOnTree(k, t);
      ParseIsExact(t);
      QuietTopRenders(k, nodes, START, vars, data);
    }
  }

  // ---- `${endfor}`s, counted over the tokens ----

  /** Whether every `${endfor}` has a loop to close, counting from `depth` open ones. */
  predicate EveryEndForCloses(ps: seq<Piece>, depth: nat) {
    if ps == [] then true
    else
      match ps[0]
      case POpen(_, _, _) => EveryEndForCloses(ps[1..], depth + 1)
      case PClose => depth > 0 && EveryEndForCloses(ps[1..], depth - 1)
      case _ => EveryEndForCloses(ps[1..], depth)
  }

  lemma {:induction false} ClosedTreeCloses(nodes: seq<Node>, rest: seq<Piece>, depth: nat)
    requires Closed(nodes)
    ensures EveryEndForCloses(Flatten(nodes) + rest, depth) == EveryEndForCloses(rest, depth)
    decreases nodes
  {
    if nodes == [] {
      assert Flatten(nodes) + rest == rest;
    } else {
      var later := Flatten(nodes[1..]) + rest;
      assert Flatten(nodes) + rest == FlattenNode(nodes[0]) + later;
      ClosedNodeCloses(nodes[0], later, depth);
      ClosedTreeCloses(nodes[1..], rest, depth);
    }
  }

  lemma {:induction false} ClosedNodeCloses(node: Node, rest: seq<Piece>, depth: nat)
    requires ClosedNode(node)
    ensures EveryEndForCloses(FlattenNode(node) + rest, depth) == EveryEndForCloses(rest, depth)
    decreases node
  {
    var all := FlattenNode(node) + rest;
    match node
    case NText(_) => assert all[1..] == rest;
    case NVar(_) => assert all[1..] == rest;
    case NFor(_, _, _, body) =>
      var inside := [PClose] + rest;
      assert all[1..] == Flatten(body) + inside;
      ClosedTreeCloses(body, inside, depth + 1);
      assert inside[1..] == rest;
  }

  lemma {:induction false} NoStrayMeansCloses(nodes: seq<Node>)
    requires Buildable(nodes)
    ensures NoStray(nodes) <==> EveryEndForCloses(Flatten(nodes), 0)
  {
    if nodes != [] {
      assert nodes == [nodes[0]] + nodes[1..];
      if nodes[0] != NVar(ENDFOR) {
        ClosedNodeCloses(nodes[0], Flatten(nodes[1..]), 0);
        NoStrayMeansCloses(nodes[1..]);
      }
    }
  }

  /** "No stray" is what counting the template's own tokens says. */
  lemma StrayByCounting(t: string)
    requires Parse(t).Ok?
    ensures GoodHits(HitAt) && (NoStray(Parse(t).value) <==> EveryEndForCloses(Scan(HitAt, t), 0))
  {
    ParseIsExact(t);
    NoStrayMeansCloses(Parse(t).value);
  }

  /** The template `${endfor}`. */
  const LONE_ENDFOR := OPEN + ENDFOR + "}"

  /** The gap is real: a lone `${endfor}` passes the check and fails the render. */
  lemma StrayEndForPasses(k: Knowledge)
    ensures Checked(k, LONE_ENDFOR) == NO_FINDINGS
    ensures Rendered(LONE_ENDFOR, map[], EMPTY_DATA) == Err(UndefinedVar(ENDFOR))
  {
    LoneEndFor();
    QuietEndFor(k, TokensOf(LONE_ENDFOR));
    UndefinedEndFor();
  }

  lemma UndefinedEndFor()
    ensures Meaning([NVar(ENDFOR)], map[], EMPTY_DATA, []) == Err(UndefinedVar(ENDFOR))
  {
    var none: seq<Bound> := [];
    assert ReadVar(ENDFOR, map[], EMPTY_DATA, none) == Err(UndefinedVar(ENDFOR));
  }

  lemma QuietEndFor(k: Knowledge, tokens: seq<Spanned>)
    requires |tokens| == 1 && tokens[0].token == EndFor
    ensures CheckTokens(k, tokens, START) == START
  {
    assert CheckToken(k, START, EndFor) == START;
    assert tokens[1..] == [];
  }

  lemma LoneEndFor()
    ensures Parse(LONE_ENDFOR) == Ok([NVar(ENDFOR)])
    ensures |TokensOf(LONE_ENDFOR)| == 1 && TokensOf(LONE_ENDFOR)[0].token == EndFor
  {
    HitAtIsGood();
    LoneEndForHit();
    LoneToken(HitAt, LONE_ENDFOR, EndFor);
    LonePClose();
  }

  lemma LoneEndForHit()
    ensures LONE_ENDFOR != "" && HitAt(LONE_ENDFOR) == Found(|LONE_ENDFOR|, EndFor)
  {
    HitReference(ENDFOR, "");
    assert LONE_ENDFOR + "" == LONE_ENDFOR;
  }

  lemma LonePClose()
    ensures Build([PClose], [], []) == Ok([NVar(ENDFOR)])
  {
    var none: seq<Node> := [];
    assert none + [NVar(ENDFOR)] == [NVar(ENDFOR)];
    assert [PClose][1..] == [];
  }

  /** In a loop over a list of fields, the item's own fields are the accepted `@item` names. */
  lemma ItemFieldsExist(k: Knowledge, item: Vars, name: string)
    requires k.item.Fields? && k.item.looped.runs.Items? && item in AllItems(k.item.looped).items
    requires IsItemVar(name) && Accepted(k, name)
    ensures ITEM_FIELD <= name && name[|ITEM_FIELD|..] in item
  {
  }
}
