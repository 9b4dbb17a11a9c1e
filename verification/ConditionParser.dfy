/**
 The text form of a `when=` condition: its tokens, and the parser over them.

 A condition is groups of terms: `||` between the groups, `&&` between the terms of one, and a
 term is an optional `!` before `defined` or `undefined` and a variable, a comparison, or a value. A
 variable is written `${name}`, a literal in quotes or as a bare word. The tokenizer reads one
 character after the other; the parser, an object with a position, takes a token at a time.

 `Print` writes a condition so that it reads back as the same condition: every literal is quoted,
 which also keeps a quoted `defined` from becoming the keyword. What the tokenizer accepts is
 clean (no quote within a literal, no brace within a name), and all that is clean can be printed.
 */
module ConditionParser {
  import opened Wrappers
  import opened Text
  import opened Condition

  datatype Tok =
    | TVar(name: string)
    | TQuoted(text: string)
    | TWord(word: string)
    | TEq | TNe | TAnd | TOr | TNot

  datatype ParseError =
    | ExpectedBrace | UnclosedReference | EmptyReference | UnclosedQuote | SingleOperator(c: char)
    | EmptyCondition | UnexpectedToken(tok: Tok) | ExpectedVariable | ExpectedValue
    | InventoryName

  const DEFINED := "defined"
  const UNDEFINED := "undefined"
  const INVENTORY := "@inventory."

  // ---- Tokens ----

  predicate EndsWord(c: char) {
    IsWhitespace(c) || c == '=' || c == '!' || c == '&' || c == '|' || c == '\'' || c == '$'
  }

  function WordEnd(s: string): (k: nat)
    ensures k <= |s|
    ensures forall i :: 0 <= i < k ==> !EndsWord(s[i])
    ensures k < |s| ==> EndsWord(s[k])
  {
    if s == "" || EndsWord(s[0]) then 0 else 1 + WordEnd(s[1..])
  }

  /** The token `s` starts with, if it starts with one, and how far to go on. */
  function NextTok(s: string): (r: Result<(Option<Tok>, nat), ParseError>)
    requires s != ""
    ensures r.Ok? ==> 0 < r.value.1 <= |s|
  {
    var c := s[0];
    if IsWhitespace(c) then Ok((None, 1))
    else if c == '$' then
      if |s| < 2 || s[1] != '{' then Err(ExpectedBrace)
      else
        var end := IndexOf(s[2..], '}');
        if end == |s| - 2 then Err(UnclosedReference)
        else if end == 0 then Err(EmptyReference)
        else Ok((Some(TVar(s[2..][..end])), end + 3))
    else if c == '\'' then
      var end := IndexOf(s[1..], '\'');
      if end == |s| - 1 then Err(UnclosedQuote)
      else Ok((Some(TQuoted(s[1..][..end])), end + 2))
    else if c == '=' || c == '!' || c == '&' || c == '|' then
      NextOperator(s)
    else
      Ok((Some(TWord(s[..WordEnd(s)])), WordEnd(s)))
  }

  function NextOperator(s: string): (r: Result<(Option<Tok>, nat), ParseError>)
    requires s != ""
    ensures r.Ok? ==> 0 < r.value.1 <= |s|
  {
    if |s| >= 2 && s[0] == '=' && s[1] == '=' then Ok((Some(TEq), 2))
    else if |s| >= 2 && s[0] == '!' && s[1] == '=' then Ok((Some(TNe), 2))
    else if |s| >= 2 && s[0] == '&' && s[1] == '&' then Ok((Some(TAnd), 2))
    else if |s| >= 2 && s[0] == '|' && s[1] == '|' then Ok((Some(TOr), 2))
    else if s[0] == '!' then Ok((Some(TNot), 1))
    else Err(SingleOperator(s[0]))
  }

  function Appended(tok: Option<Tok>, later: Result<seq<Tok>, ParseError>): Result<seq<Tok>, ParseError> {
    match later
    case Err(error) => Err(error)
    case Ok(toks) => Ok((match tok case None => [] case Some(t) => [t]) + toks)
  }

  function Tokens(s: string): Result<seq<Tok>, ParseError>
    decreases |s|
  {
    if s == "" then Ok([])
    else
      match NextTok(s)
      case Err(error) => Err(error)
      case Ok((tok, len)) => Appended(tok, Tokens(s[len..]))
  }

  /** `before`, then the tokens of the rest. */
  function After(before: seq<Tok>, later: Result<seq<Tok>, ParseError>): Result<seq<Tok>, ParseError> {
    match later
    case Err(error) => Err(error)
    case Ok(toks) => Ok(before + toks)
  }

  /** `all` is `before`, then the tokens from `at` on. */
  ghost predicate TokensSoFar(all: Result<seq<Tok>, ParseError>, before: seq<Tok>, source: string, at: nat) {
    at <= |source| && all == After(before, Tokens(source[at..]))
  }

  lemma NoTokensYet(source: string)
    ensures TokensSoFar(Tokens(source), [], source, 0)
  {
    assert source[0..] == source;
    AfterNothing(Tokens(source));
  }

  /** Where one token leads: the tokens then, and where to go on from. */
  function Moved(before: seq<Tok>, at: nat, next: Result<(Option<Tok>, nat), ParseError>): Result<(seq<Tok>, nat), ParseError> {
    match next
    case Err(error) => Err(error)
    case Ok((tok, len)) => Ok((if tok.Some? then before + [tok.value] else before, at + len))
  }

  lemma TokenNext(all: Result<seq<Tok>, ParseError>, before: seq<Tok>, source: string, at: nat)
    requires TokensSoFar(all, before, source, at) && at < |source|
    ensures match NextTok(source[at..])
            case Err(error) => all == Err(error)
            case Ok((tok, len)) =>
              len > 0 && TokensSoFar(all, if tok.Some? then before + [tok.value] else before, source, at + len)
  {
    match NextTok(source[at..])
    case Err(_) =>
    case Ok((tok, len)) =>
      assert source[at..][len..] == source[at + len..];
      TokenMoves(before, tok, Tokens(source[at + len..]));
  }

  lemma MovedOn(all: Result<seq<Tok>, ParseError>, before: seq<Tok>, source: string, at: nat,
                next: Result<(Option<Tok>, nat), ParseError>)
    requires match next
             case Err(error) => all == Err(error)
             case Ok((tok, len)) =>
               len > 0 && TokensSoFar(all, if tok.Some? then before + [tok.value] else before, source, at + len)
    ensures match Moved(before, at, next)
            case Err(error) => all == Err(error)
            case Ok((toks, to)) => at < to && TokensSoFar(all, toks, source, to)
  {
  }

  lemma AllTokens(all: Result<seq<Tok>, ParseError>, before: seq<Tok>, source: string)
    requires TokensSoFar(all, before, source, |source|)
    ensures all == Ok(before)
  {
    assert source[|source|..] == "" && before + [] == before;
  }

  /** The token at `at`, if there is one. */
  method TakeTok(ghost all: Result<seq<Tok>, ParseError>, before: seq<Tok>, source: string, at: nat)
    returns (r: Result<(seq<Tok>, nat), ParseError>)
    requires TokensSoFar(all, before, source, at) && at < |source|
    ensures match r
            case Err(error) => all == Err(error)
            case Ok((toks, to)) => at < to && TokensSoFar(all, toks, source, to)
  {
    r := Moved(before, at, NextTok(source[at..]));
    TokenNext(all, before, source, at);
    MovedOn(all, before, source, at, NextTok(source[at..]));
  }

  method Tokenize(source: string) returns (r: Result<seq<Tok>, ParseError>)
    ensures r == Tokens(source)
  {
    var toks: seq<Tok> := [];
    var at := 0;
    ghost var all := Tokens(source);
    NoTokensYet(source);
    while at < |source|
      invariant TokensSoFar(all, toks, source, at)
      decreases |source| - at
    {
      var next := TakeTok(all, toks, source, at);
      if next.Err? {
        return Err(next.error);
      }
      toks, at := next.value.0, next.value.1;
    }
    AllTokens(all, toks, source);
    r := Ok(toks);
  }

  lemma AfterNothing(later: Result<seq<Tok>, ParseError>)
    ensures After([], later) == later
  {
    if later.Ok? {
      assert [] + later.value == later.value;
    }
  }

  lemma TokenMoves(before: seq<Tok>, tok: Option<Tok>, later: Result<seq<Tok>, ParseError>)
    ensures After(before, Appended(tok, later)) ==
            After(if tok.Some? then before + [tok.value] else before, later)
  {
    if later.Ok? {
      match tok
      case None => assert [] + later.value == later.value;
      case Some(t) => assert before + ([t] + later.value) == before + [t] + later.value;
    }
  }

  // ---- The grammar ----

  type Rest<T> = Result<(T, seq<Tok>), ParseError>

  function ParseOperand(ts: seq<Tok>): (r: Rest<Operand>)
    ensures r.Ok? ==> |r.value.1| < |ts|
  {
    if ts == [] then Err(ExpectedValue)
    else
      match ts[0]
      case TVar(name) => Ok((Var(name), ts[1..]))
      case TQuoted(text) => Ok((Literal(text), ts[1..]))
      case TWord(word) => Ok((Literal(word), ts[1..]))
      case _ => Err(ExpectedValue)
  }

  predicate Starts(ts: seq<Tok>, tok: Tok) {
    ts != [] && ts[0] == tok
  }

  predicate StartsKeyword(ts: seq<Tok>) {
    Starts(ts, TWord(DEFINED)) || Starts(ts, TWord(UNDEFINED))
  }

  function ParseTerm(ts: seq<Tok>): (r: Rest<Term>)
    ensures r.Ok? ==> |r.value.1| < |ts|
  {
    var negated := Starts(ts, TNot);
    ParseAtom(if negated then ts[1..] else ts, negated)
  }

  function ParseAtom(ts: seq<Tok>, negated: bool): (r: Rest<Term>)
    ensures r.Ok? ==> |r.value.1| < |ts|
  {
    if StartsKeyword(ts) then
      if |ts| < 2 || !ts[1].TVar? then Err(ExpectedVariable)
      else
        var atom := if ts[0].word == DEFINED then Defined(ts[1].name) else Undefined(ts[1].name);
        Ok((Term(negated, atom), ts[2..]))
    else
      match ParseOperand(ts)
      case Err(error) => Err(error)
      case Ok((left, rest)) =>
        if !Starts(rest, TEq) && !Starts(rest, TNe) then Ok((Term(negated, Truthy(left)), rest))
        else
          var op := if Starts(rest, TEq) then Eq else Ne;
          match ParseOperand(rest[1..])
          case Err(error) => Err(error)
          case Ok((right, rest)) => Ok((Term(negated, Compare(left, op, right)), rest))
  }

  /** `term ( "&&" term )*` */
  function ParseAll(ts: seq<Tok>): (r: Rest<seq<Term>>)
    ensures r.Ok? ==> |r.value.1| < |ts|
    decreases |ts|
  {
    match ParseTerm(ts)
    case Err(error) => Err(error)
    case Ok((term, rest)) =>
      if !Starts(rest, TAnd) then Ok(([term], rest))
      else
        match ParseAll(rest[1..])
        case Err(error) => Err(error)
        case Ok((terms, rest)) => Ok(([term] + terms, rest))
  }

  /** `and ( "||" and )*` */
  function ParseAny(ts: seq<Tok>): (r: Rest<Groups>)
    ensures r.Ok? ==> |r.value.1| < |ts|
    decreases |ts|
  {
    match ParseAll(ts)
    case Err(error) => Err(error)
    case Ok((all, rest)) =>
      if !Starts(rest, TOr) then Ok(([all], rest))
      else
        match ParseAny(rest[1..])
        case Err(error) => Err(error)
        case Ok((groups, rest)) => Ok(([all] + groups, rest))
  }

  function ParseTokens(ts: seq<Tok>): Result<Groups, ParseError> {
    if ts == [] then Err(EmptyCondition)
    else
      match ParseAny(ts)
      case Err(error) => Err(error)
      case Ok((groups, rest)) => if rest != [] then Err(UnexpectedToken(rest[0])) else Ok(groups)
  }

  ghost predicate NamesInventory(groups: Groups) {
    exists name :: RefersTo(groups, name) && INVENTORY <= name
  }

  ghost function ParseCondition(source: string): Result<Groups, ParseError> {
    match Tokens(source)
    case Err(error) => Err(error)
    case Ok(ts) =>
      match ParseTokens(ts)
      case Err(error) => Err(error)
      case Ok(groups) => if NamesInventory(groups) then Err(InventoryName) else Ok(groups)
  }

  // ---- The parser as it runs ----

  class Parser {
    const tokens: seq<Tok>
    var pos: nat

    constructor (ts: seq<Tok>)
      ensures tokens == ts && pos == 0
    {
      tokens, pos := ts, 0;
    }

    predicate Valid()
      reads this
    {
      pos <= |tokens|
    }

    /** The tokens still to read. */
    function Left(): seq<Tok>
      requires Valid()
      reads this
    {
      tokens[pos..]
    }

    method Eat(tok: Tok) returns (ate: bool)
      requires Valid()
      modifies this
      ensures Valid() && ate == Starts(old(Left()), tok)
      ensures Left() == if ate then old(Left())[1..] else old(Left())
    {
      ate := pos < |tokens| && tokens[pos] == tok;
      if ate {
        pos := pos + 1;
      }
    }

    method Operand() returns (r: Result<Operand, ParseError>)
      requires Valid()
      modifies this
      ensures Valid()
      ensures match ParseOperand(old(Left()))
              case Err(error) => r == Err(error)
              case Ok((operand, rest)) => r == Ok(operand) && Left() == rest
    {
      if pos == |tokens| {
        return Err(ExpectedValue);
      }
      match tokens[pos] {
        case TVar(name) => r := Ok(Var(name));
        case TQuoted(text) => r := Ok(Literal(text));
        case TWord(word) => r := Ok(Literal(word));
        case _ => return Err(ExpectedValue);
      }
      pos := pos + 1;
    }

    method TermAt() returns (r: Result<Term, ParseError>)
      requires Valid()
      modifies this
      ensures Valid()
      ensures match ParseTerm(old(Left()))
              case Err(error) => r == Err(error)
              case Ok((term, rest)) => r == Ok(term) && Left() == rest
    {
      var negated := Eat(TNot);
      if pos < |tokens| && (tokens[pos] == TWord(DEFINED) || tokens[pos] == TWord(UNDEFINED)) {
        var keyword := tokens[pos].word;
        pos := pos + 1;
        if pos == |tokens| || !tokens[pos].TVar? {
          return Err(ExpectedVariable);
        }
        var name := tokens[pos].name;
        pos := pos + 1;
        return Ok(Term(negated, if keyword == DEFINED then Defined(name) else Undefined(name)));
      }
      var left := Operand();
      if left.Err? {
        return Err(left.error);
      }
      var isEq := Eat(TEq);
      var isNe := false;
      if !isEq {
        isNe := Eat(TNe);
      }
      if !isEq && !isNe {
        return Ok(Term(negated, Truthy(left.value)));
      }
      var right := Operand();
      if right.Err? {
        return Err(right.error);
      }
      r := Ok(Term(negated, Compare(left.value, if isEq then Eq else Ne, right.value)));
    }

    method AllOf() returns (r: Result<seq<Term>, ParseError>)
      requires Valid()
      modifies this
      ensures Valid()
      ensures match ParseAll(old(Left()))
              case Err(error) => r == Err(error)
              case Ok((terms, rest)) => r == Ok(terms) && Left() == rest
    {
      ghost var whole := ParseAll(Left());
      var first := TermAt();
      if first.Err? {
        return Err(first.error);
      }
      var all := [first.value];
      while pos < |tokens| && tokens[pos] == TAnd
        invariant Valid() && all != []
        invariant whole == AllAfter(all, Left())
        decreases |tokens| - pos
      {
        ghost var before, left := all, Left();
        pos := pos + 1;
        assert left[1..] == Left();
        var term := TermAt();
        if term.Err? {
          return Err(term.error);
        }
        all := all + [term.value];
        AllStep(before, term.value, Left());
      }
      r := Ok(all);
    }

    method Parse() returns (r: Result<Groups, ParseError>)
      requires pos == 0
      modifies this
      ensures r == ParseTokens(tokens)
    {
      assert Left() == tokens;
      if tokens == [] {
        return Err(EmptyCondition);
      }
      ghost var whole := ParseAny(Left());
      var first := AllOf();
      if first.Err? {
        return Err(first.error);
      }
      var any := [first.value];
      while pos < |tokens| && tokens[pos] == TOr
        invariant Valid() && any != []
        invariant whole == AnyAfter(any, Left())
        decreases |tokens| - pos
      {
        ghost var before, left := any, Left();
        pos := pos + 1;
        assert left[1..] == Left();
        var all := AllOf();
        if all.Err? {
          return Err(all.error);
        }
        any := any + [all.value];
        AnyStep(before, all.value, Left());
      }
      if pos < |tokens| {
        return Err(UnexpectedToken(tokens[pos]));
      }
      r := Ok(any);
    }
  }

  /** What the group becomes, with `all` parsed and `rest` to read. */
  function AllAfter(all: seq<Term>, rest: seq<Tok>): Rest<seq<Term>> {
    if !Starts(rest, TAnd) then Ok((all, rest))
    else
      match ParseAll(rest[1..])
      case Err(error) => Err(error)
      case Ok((terms, rest)) => Ok((all + terms, rest))
  }

  lemma AllStep(before: seq<Term>, term: Term, rest: seq<Tok>)
    ensures AllAfter(before + [term], rest) ==
            if !Starts(rest, TAnd) then Ok((before + [term], rest))
            else match ParseAll(rest[1..])
                 case Err(error) => Err(error)
                 case Ok((terms, later)) => Ok((before + ([term] + terms), later))
  {
    if Starts(rest, TAnd) && ParseAll(rest[1..]).Ok? {
      var terms := ParseAll(rest[1..]).value.0;
      assert before + [term] + terms == before + ([term] + terms);
    }
  }

  function AnyAfter(any: Groups, rest: seq<Tok>): Rest<Groups> {
    if !Starts(rest, TOr) then Ok((any, rest))
    else
      match ParseAny(rest[1..])
      case Err(error) => Err(error)
      case Ok((groups, rest)) => Ok((any + groups, rest))
  }

  lemma AnyStep(before: Groups, all: seq<Term>, rest: seq<Tok>)
    ensures AnyAfter(before + [all], rest) ==
            if !Starts(rest, TOr) then Ok((before + [all], rest))
            else match ParseAny(rest[1..])
                 case Err(error) => Err(error)
                 case Ok((groups, later)) => Ok((before + ([all] + groups), later))
  {
    if Starts(rest, TOr) && ParseAny(rest[1..]).Ok? {
      var groups := ParseAny(rest[1..]).value.0;
      assert before + [all] + groups == before + ([all] + groups);
    }
  }

  // ---- Printing ----

  function TokText(tok: Tok): string {
    match tok
    case TVar(name) => "${" + name + "}"
    case TQuoted(text) => "'" + text + "'"
    case TWord(word) => word
    case TEq => "=="
    case TNe => "!="
    case TAnd => "&&"
    case TOr => "||"
    case TNot => "!"
  }

  /** Tokens as text, a space after each. */
  function PrintToks(ts: seq<Tok>): string {
    if ts == [] then "" else TokText(ts[0]) + " " + PrintToks(ts[1..])
  }

  function OperandTok(operand: Operand): Tok {
    match operand case Var(name) => TVar(name) case Literal(text) => TQuoted(text)
  }

  function AtomToks(atom: Atom): seq<Tok> {
    match atom
    case Defined(name) => [TWord(DEFINED), TVar(name)]
    case Undefined(name) => [TWord(UNDEFINED), TVar(name)]
    case Truthy(operand) => [OperandTok(operand)]
    case Compare(left, op, right) => [OperandTok(left), if op == Eq then TEq else TNe, OperandTok(right)]
  }

  function TermToks(term: Term): seq<Tok> {
    (if term.negated then [TNot] else []) + AtomToks(term.atom)
  }

  function GroupToks(terms: seq<Term>): seq<Tok> {
    if terms == [] then []
    else if |terms| == 1 then TermToks(terms[0])
    else TermToks(terms[0]) + [TAnd] + GroupToks(terms[1..])
  }

  function GroupsToks(groups: Groups): seq<Tok> {
    if groups == [] then []
    else if |groups| == 1 then GroupToks(groups[0])
    else GroupToks(groups[0]) + [TOr] + GroupsToks(groups[1..])
  }

  /** A condition as text: a literal always quoted, so none is read as a keyword. */
  function Print(groups: Groups): string {
    PrintToks(GroupsToks(groups))
  }

  // ---- Which conditions can be written ----

  predicate CleanName(name: string) {
    name != "" && '}' !in name
  }

  predicate CleanOperand(operand: Operand) {
    match operand case Var(name) => CleanName(name) case Literal(text) => '\'' !in text
  }

  predicate CleanTerm(term: Term) {
    match term.atom
    case Defined(name) => CleanName(name)
    case Undefined(name) => CleanName(name)
    case Truthy(operand) => CleanOperand(operand)
    case Compare(left, _, right) => CleanOperand(left) && CleanOperand(right)
  }

  predicate CleanGroup(terms: seq<Term>) {
    terms != [] && forall term :: term in terms ==> CleanTerm(term)
  }

  predicate CleanGroups(groups: Groups) {
    groups != [] && forall terms :: terms in groups ==> CleanGroup(terms)
  }

  predicate CleanTok(tok: Tok) {
    match tok
    case TVar(name) => CleanName(name)
    case TQuoted(text) => '\'' !in text
    case TWord(word) => word != "" && forall i :: 0 <= i < |word| ==> !EndsWord(word[i])
    case _ => true
  }

  predicate CleanToks(ts: seq<Tok>) {
    forall tok :: tok in ts ==> CleanTok(tok)
  }

  // ---- Text and tokens ----

  lemma {:induction false} WordEndOf(word: string, rest: string)
    requires forall i :: 0 <= i < |word| ==> !EndsWord(word[i])
    requires rest != "" && EndsWord(rest[0])
    ensures WordEnd(word + rest) == |word|
  {
    var s := word + rest;
    if word == "" {
      assert s == rest;
    } else {
      assert s[1..] == word[1..] + rest;
      WordEndOf(word[1..], rest);
    }
  }

  lemma VarReadsBack(name: string, rest: string)
    requires CleanName(name)
    ensures NextTok("${" + name + "}" + rest) == Ok((Some(TVar(name)), |name| + 3))
  {
    var s := "${" + name + "}" + rest;
    var after := name + ("}" + rest);
    assert s[0] == '$' && s[1] == '{' && s[2..] == after;
    IndexOfUnique(after, '}', |name|);
    assert after[..|name|] == name;
  }

  lemma QuotedReadsBack(text: string, rest: string)
    requires '\'' !in text
    ensures NextTok("'" + text + "'" + rest) == Ok((Some(TQuoted(text)), |text| + 2))
  {
    var s := "'" + text + "'" + rest;
    var after := text + ("'" + rest);
    assert s[0] == '\'' && s[1..] == after;
    IndexOfUnique(after, '\'', |text|);
    assert after[..|text|] == text;
  }

  lemma WordReadsBack(word: string, rest: string)
    requires CleanTok(TWord(word)) && rest != "" && IsWhitespace(rest[0])
    ensures NextTok(word + rest) == Ok((Some(TWord(word)), |word|))
  {
    var s := word + rest;
    WordEndOf(word, rest);
    assert s[0] == word[0] && !EndsWord(word[0]);
    assert s[..|word|] == word;
  }

  lemma OperatorReadsBack(tok: Tok, rest: string)
    requires tok.TEq? || tok.TNe? || tok.TAnd? || tok.TOr? || tok.TNot?
    requires rest != "" && IsWhitespace(rest[0])
    ensures NextTok(TokText(tok) + rest) == Ok((Some(tok), |TokText(tok)|))
  {
    var s := TokText(tok) + rest;
    assert s[|TokText(tok)|] == rest[0];
  }

  lemma TokReadsBack(tok: Tok, rest: string)
    requires CleanTok(tok) && rest != "" && IsWhitespace(rest[0])
    ensures NextTok(TokText(tok) + rest) == Ok((Some(tok), |TokText(tok)|))
  {
    match tok
    case TVar(name) => VarReadsBack(name, rest);
    case TQuoted(text) => QuotedReadsBack(text, rest);
    case TWord(word) => WordReadsBack(word, rest);
    case _ => OperatorReadsBack(tok, rest);
  }

  lemma PrintedTok(tok: Tok, later: string)
    requires CleanTok(tok)
    ensures Tokens(TokText(tok) + " " + later) == Appended(Some(tok), Tokens(later))
  {
    var rest := " " + later;
    var s := TokText(tok) + rest;
    assert s == TokText(tok) + " " + later;
    TokReadsBack(tok, rest);
    assert s[|TokText(tok)|..] == rest;
    SpaceSkipped(later);
  }

  lemma {:induction false} PrintThenTokens(ts: seq<Tok>)
    requires CleanToks(ts)
    ensures Tokens(PrintToks(ts)) == Ok(ts)
  {
    if ts != [] {
      assert ts[0] in ts && forall tok :: tok in ts[1..] ==> tok in ts;
      PrintThenTokens(ts[1..]);
      PrintedTok(ts[0], PrintToks(ts[1..]));
      assert [ts[0]] + ts[1..] == ts;
    }
  }

  lemma SpaceSkipped(s: string)
    ensures Tokens(" " + s) == Tokens(s)
  {
    assert (" " + s)[1..] == s;
    AfterNothing(Tokens(s));
  }

  lemma NextIsClean(s: string)
    requires s != "" && NextTok(s).Ok? && NextTok(s).value.0.Some?
    ensures CleanTok(NextTok(s).value.0.value)
  {
  }

  lemma {:induction false} TokensAreClean(s: string)
    requires Tokens(s).Ok?
    ensures CleanToks(Tokens(s).value)
    decreases |s|
  {
    if s != "" {
      var (tok, len) := NextTok(s).value;
      TokensAreClean(s[len..]);
      if tok.Some? {
        NextIsClean(s);
      }
    }
  }

  // ---- Tokens and conditions ----

  lemma OperandReadsBack(operand: Operand, rest: seq<Tok>)
    ensures ParseOperand([OperandTok(operand)] + rest) == Ok((operand, rest))
  {
    assert ([OperandTok(operand)] + rest)[1..] == rest;
  }

  predicate NoComparison(rest: seq<Tok>) {
    !Starts(rest, TEq) && !Starts(rest, TNe)
  }

  lemma AtomReadsBack(atom: Atom, negated: bool, rest: seq<Tok>)
    requires NoComparison(rest)
    ensures ParseAtom(AtomToks(atom) + rest, negated) == Ok((Term(negated, atom), rest))
    ensures !Starts(AtomToks(atom) + rest, TNot)
  {
    var ts := AtomToks(atom) + rest;
    match atom
    case Defined(_) => assert ts[2..] == rest;
    case Undefined(_) => assert ts[2..] == rest;
    case Truthy(operand) => OperandReadsBack(operand, rest);
    case Compare(left, op, right) =>
      var tail := [if op == Eq then TEq else TNe] + ([OperandTok(right)] + rest);
      assert ts == [OperandTok(left)] + tail;
      OperandReadsBack(left, tail);
      assert tail[1..] == [OperandTok(right)] + rest;
      OperandReadsBack(right, rest);
  }

  lemma TermReadsBack(term: Term, rest: seq<Tok>)
    requires NoComparison(rest)
    ensures ParseTerm(TermToks(term) + rest) == Ok((term, rest))
  {
    var ts := TermToks(term) + rest;
    AtomReadsBack(term.atom, term.negated, rest);
    if term.negated {
      assert ts[1..] == AtomToks(term.atom) + rest;
    } else {
      assert ts == AtomToks(term.atom) + rest;
    }
  }

  lemma AllReadsOn(head: seq<Tok>, term: Term, later: seq<Tok>, terms: seq<Term>, rest: seq<Tok>)
    requires ParseTerm(head + ([TAnd] + later)) == Ok((term, [TAnd] + later)) && ParseAll(later) == Ok((terms, rest))
    ensures ParseAll(head + ([TAnd] + later)) == Ok(([term] + terms, rest))
  {
    assert ([TAnd] + later)[1..] == later;
  }

  lemma {:induction false} GroupReadsBack(terms: seq<Term>, rest: seq<Tok>)
    requires terms != [] && NoComparison(rest) && !Starts(rest, TAnd)
    ensures ParseAll(GroupToks(terms) + rest) == Ok((terms, rest))
  {
    if |terms| == 1 {
      TermReadsBack(terms[0], rest);
      assert terms == [terms[0]];
    } else {
      var later := GroupToks(terms[1..]) + rest;
      TermReadsBack(terms[0], [TAnd] + later);
      GroupReadsBack(terms[1..], rest);
      AllReadsOn(TermToks(terms[0]), terms[0], later, terms[1..], rest);
      GroupToksCons(terms, rest);
      assert [terms[0]] + terms[1..] == terms;
    }
  }

  lemma GroupToksCons(terms: seq<Term>, rest: seq<Tok>)
    requires |terms| > 1
    ensures GroupToks(terms) + rest == TermToks(terms[0]) + ([TAnd] + (GroupToks(terms[1..]) + rest))
  {
    Reassociate(TermToks(terms[0]), TAnd, GroupToks(terms[1..]), rest);
  }

  lemma Reassociate(a: seq<Tok>, x: Tok, b: seq<Tok>, c: seq<Tok>)
    ensures a + [x] + b + c == a + ([x] + (b + c))
  {
  }

  lemma AnyReadsOn(head: seq<Tok>, all: seq<Term>, later: seq<Tok>, groups: Groups, rest: seq<Tok>)
    requires ParseAll(head + ([TOr] + later)) == Ok((all, [TOr] + later)) && ParseAny(later) == Ok((groups, rest))
    ensures ParseAny(head + ([TOr] + later)) == Ok(([all] + groups, rest))
  {
    assert ([TOr] + later)[1..] == later;
  }

  lemma {:induction false} GroupsReadBack(groups: Groups)
    requires groups != [] && forall terms :: terms in groups ==> terms != []
    ensures ParseAny(GroupsToks(groups)) == Ok((groups, []))
  {
    assert groups[0] in groups;
    if |groups| == 1 {
      GroupReadsBack(groups[0], []);
      assert GroupToks(groups[0]) + [] == GroupToks(groups[0]);
      assert groups == [groups[0]];
    } else {
      assert forall terms :: terms in groups[1..] ==> terms in groups;
      GroupsReadBack(groups[1..]);
      GroupReadsOn(groups[0], groups[1..]);
      assert [groups[0]] + groups[1..] == groups;
    }
  }

  /** A group in front of groups that read back. */
  lemma GroupReadsOn(first: seq<Term>, groups: Groups)
    requires first != [] && groups != [] && ParseAny(GroupsToks(groups)) == Ok((groups, []))
    ensures ParseAny(GroupsToks([first] + groups)) == Ok(([first] + groups, []))
  {
    var later := GroupsToks(groups);
    GroupReadsBack(first, [TOr] + later);
    AnyReadsOn(GroupToks(first), first, later, groups, []);
    assert ([first] + groups)[1..] == groups;
    assert GroupToks(first) + [TOr] + later == GroupToks(first) + ([TOr] + later);
  }

  lemma KeywordsAreClean()
    ensures CleanTok(TWord(DEFINED)) && CleanTok(TWord(UNDEFINED))
  {
  }

  lemma AtomToksClean(atom: Atom)
    requires CleanTerm(Term(false, atom))
    ensures forall i :: 0 <= i < |AtomToks(atom)| ==> CleanTok(AtomToks(atom)[i])
  {
    KeywordsAreClean();
  }

  lemma TermToksClean(term: Term)
    requires CleanTerm(term)
    ensures CleanToks(TermToks(term))
  {
    AtomToksClean(term.atom);
    forall tok | tok in TermToks(term) ensures CleanTok(tok) {
      if tok != TNot {
        assert tok in AtomToks(term.atom);
      }
    }
  }

  lemma {:induction false} GroupToksClean(terms: seq<Term>)
    requires CleanGroup(terms)
    ensures CleanToks(GroupToks(terms)) && GroupToks(terms) != []
  {
    assert terms[0] in terms && forall term :: term in terms[1..] ==> term in terms;
    TermToksClean(terms[0]);
    if |terms| > 1 {
      GroupToksClean(terms[1..]);
    }
  }

  lemma {:induction false} GroupsToksClean(groups: Groups)
    requires CleanGroups(groups)
    ensures CleanToks(GroupsToks(groups)) && GroupsToks(groups) != []
  {
    assert groups[0] in groups && forall terms :: terms in groups[1..] ==> terms in groups;
    GroupToksClean(groups[0]);
    if |groups| > 1 {
      GroupsToksClean(groups[1..]);
    }
  }

  lemma OperandIsClean(ts: seq<Tok>)
    requires CleanToks(ts) && ParseOperand(ts).Ok?
    ensures CleanOperand(ParseOperand(ts).value.0) && CleanToks(ParseOperand(ts).value.1)
  {
    assert CleanTok(ts[0]);
  }

  lemma AtomIsClean(ts: seq<Tok>, negated: bool)
    requires CleanToks(ts) && ParseAtom(ts, negated).Ok?
    ensures CleanTerm(ParseAtom(ts, negated).value.0) && CleanToks(ParseAtom(ts, negated).value.1)
  {
    if StartsKeyword(ts) {
      assert CleanTok(ts[1]);
    } else {
      OperandIsClean(ts);
      var rest := ParseOperand(ts).value.1;
      if !NoComparison(rest) {
        OperandIsClean(rest[1..]);
      }
    }
  }

  lemma TermIsClean(ts: seq<Tok>)
    requires CleanToks(ts) && ParseTerm(ts).Ok?
    ensures CleanTerm(ParseTerm(ts).value.0) && CleanToks(ParseTerm(ts).value.1)
  {
    var negated := Starts(ts, TNot);
    AtomIsClean(if negated then ts[1..] else ts, negated);
  }

  lemma {:induction false} GroupIsClean(ts: seq<Tok>)
    requires CleanToks(ts) && ParseAll(ts).Ok?
    ensures CleanGroup(ParseAll(ts).value.0) && CleanToks(ParseAll(ts).value.1)
    decreases |ts|
  {
    TermIsClean(ts);
    var rest := ParseTerm(ts).value.1;
    if Starts(rest, TAnd) {
      GroupIsClean(rest[1..]);
    }
  }

  lemma {:induction false} GroupsAreClean(ts: seq<Tok>)
    requires CleanToks(ts) && ParseAny(ts).Ok?
    ensures CleanGroups(ParseAny(ts).value.0)
    decreases |ts|
  {
    GroupIsClean(ts);
    var rest := ParseAll(ts).value.1;
    if Starts(rest, TOr) {
      GroupsAreClean(rest[1..]);
    }
  }

  // ---- The round trip ----

  /** A condition that can be written reads back as itself. */
  lemma PrintThenParse(groups: Groups)
    requires CleanGroups(groups) && !NamesInventory(groups)
    ensures ParseCondition(Print(groups)) == Ok(groups)
  {
    GroupsToksClean(groups);
    PrintThenTokens(GroupsToks(groups));
    GroupsReadBack(groups);
  }

  /** Printing an accepted condition and parsing it again gives the same condition. */
  lemma ReprintKeepsCondition(source: string)
    requires ParseCondition(source).Ok?
    ensures ParseCondition(Print(ParseCondition(source).value)) == ParseCondition(source)
  {
    TokensAreClean(source);
    GroupsAreClean(Tokens(source).value);
    PrintThenParse(ParseCondition(source).value);
  }

  datatype Connective = And | Or

  /** Terms joined by connectives, as they are written. */
  function Joined(first: Term, later: seq<(Connective, Term)>): seq<Tok>
    decreases |later|
  {
    if later == [] then TermToks(first)
    else TermToks(first) + [if later[0].0 == And then TAnd else TOr] + Joined(later[0].1, later[1..])
  }

  /** The same terms cut at each `||`. */
  function CutAtOrs(first: Term, later: seq<(Connective, Term)>): (groups: Groups)
    ensures groups != [] && forall i :: 0 <= i < |groups| ==> groups[i] != []
    decreases |later|
  {
    if later == [] then [[first]]
    else
      var rest := CutAtOrs(later[0].1, later[1..]);
      if later[0].0 == And then [[first] + rest[0]] + rest[1..] else [[first]] + rest
  }

  lemma {:induction false} JoinedIsCut(first: Term, later: seq<(Connective, Term)>)
    ensures GroupsToks(CutAtOrs(first, later)) == Joined(first, later)
    decreases |later|
  {
    if later == [] {
      assert [[first]][1..] == [];
    } else {
      var rest := CutAtOrs(later[0].1, later[1..]);
      JoinedIsCut(later[0].1, later[1..]);
      if later[0].0 == And {
        JoinToks(first, rest);
      } else {
        assert ([[first]] + rest)[1..] == rest;
      }
    }
  }

  lemma TermInFront(first: Term, terms: seq<Term>)
    requires terms != []
    ensures GroupToks([first] + terms) == TermToks(first) + [TAnd] + GroupToks(terms)
  {
    assert ([first] + terms)[1..] == terms;
  }

  lemma GroupInFront(group: seq<Term>, later: Groups)
    ensures GroupsToks([group] + later) == GroupToks(group) + (if later == [] then [] else [TOr] + GroupsToks(later))
  {
    if later == [] {
      assert [group] + later == [group];
    } else {
      assert ([group] + later)[1..] == later;
    }
  }

  lemma AndInFront(term: seq<Tok>, group: seq<Tok>, later: seq<Tok>)
    ensures term + [TAnd] + group + later == term + [TAnd] + (group + later)
  {
  }

  /** A term in front of a first group. */
  lemma JoinToks(first: Term, rest: Groups)
    requires rest != [] && rest[0] != []
    ensures GroupsToks([[first] + rest[0]] + rest[1..]) == TermToks(first) + [TAnd] + GroupsToks(rest)
  {
    assert rest == [rest[0]] + rest[1..];
    GroupInFront(rest[0], rest[1..]);
    GroupInFront([first] + rest[0], rest[1..]);
    TermInFront(first, rest[0]);
    AndInFront(TermToks(first), GroupToks(rest[0]), if rest[1..] == [] then [] else [TOr] + GroupsToks(rest[1..]));
  }

  /** `&&` binds tighter than `||`: however many terms are joined, and however, each `||` starts
      a new group and no `&&` does. */
  lemma AndBindsTighter(first: Term, later: seq<(Connective, Term)>)
    ensures ParseTokens(Joined(first, later)) == Ok(CutAtOrs(first, later))
  {
    JoinedIsCut(first, later);
    GroupsReadBack(CutAtOrs(first, later));
  }

  /** A quoted word is a literal, never the keyword it spells. */
  lemma QuotedIsNeverKeyword(text: string, rest: seq<Tok>, negated: bool)
    ensures var ts := (if negated then [TNot] else []) + [TQuoted(text)] + rest;
            ParseTerm(ts).Ok? ==>
              ParseTerm(ts).value.0.atom == Truthy(Literal(text))
              || (ParseTerm(ts).value.0.atom.Compare? && ParseTerm(ts).value.0.atom.left == Literal(text))
  {
    var ts := (if negated then [TNot] else []) + [TQuoted(text)] + rest;
    if negated {
      assert ts[1..] == [TQuoted(text)] + rest;
    }
  }
}
