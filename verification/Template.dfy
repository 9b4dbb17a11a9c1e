/**
 The template language: its lexer, the `${for}` headers, and the parser that reads a template
 into its loops with an explicit stack.

 `Scan` says character by character what the lexer finds; `Build` says what the parser's stack
 does with it. The methods work on positions and slices, as the program does, and are proved to
 compute the same. What counts as a token at a position is a parameter of the scan, `HitAt` in
 every use; the properties of the scan itself need only `GoodHits`.
 */
module Template {
  import opened Wrappers
  import opened Text

  datatype HeaderError = BadSyntax | UnclosedSeparator

  /** A `${…}` in a template. */
  datatype Token =
    | Var(name: string)
    | Escaped(name: string)
    | For(binding: string, collection: string, separator: Option<string>)
    | EndFor
    | Invalid(why: HeaderError)

  /** A token with its offset and length in the template. */
  datatype Spanned = Spanned(at: nat, len: nat, token: Token)

  datatype TemplateError =
    | UnclosedFor
    | UnclosedVar
    | InvalidHeader(why: HeaderError)
    | ReservedBinding(binding: string)
    | MissingEndFor(collection: string)
    | UndefinedField(field: string, collection: string)
    | UndefinedVar(name: string)
    | UndefinedCollection(collection: string)

  /** A template read into its loops. */
  datatype Node =
    | NText(text: string)
    | NVar(name: string)
    | NFor(binding: string, collection: string, separator: Option<string>, body: seq<Node>)

  const OPEN := "${"
  const ESCAPE := "$${"
  const FOR := "for "
  const ENDFOR := "endfor"
  const SEPARATOR := "separator=\""

  // ---- Tokens ----

  /** A `${for binding in collection [separator="…"]}` header, without its `${` and `}`. */
  function ForHeader(header: string): Token {
    LoopToken(Words(header), After(header, SEPARATOR))
  }

  /** From the words of the header, and what follows `separator="` in it. */
  function LoopToken(parts: seq<string>, separated: Option<string>): Token {
    if |parts| < 4 || parts[2] != "in" then
      Invalid(BadSyntax)
    else
      match separated
      case None => For(parts[1], parts[3], None)
      case Some(value) =>
        var end := IndexOf(value, '\"');
        if end == |value| then Invalid(UnclosedSeparator)
        else For(parts[1], parts[3], Some(value[..end]))
  }

  function TokenOf(inner: string): Token {
    if FOR <= inner then ForHeader(inner)
    else if inner == ENDFOR then EndFor
    else Var(inner)
  }

  function EscapedName(after: string): string {
    var end := IndexOf(after, '}');
    if end < |after| then after[..end] else ""
  }

  function Unclosed(after: string): TemplateError {
    if FOR <= after then UnclosedFor else UnclosedVar
  }

  /** What the lexer finds at the start of `s`. */
  datatype Hit = NoToken | Found(len: nat, token: Token) | NeverClosed(error: TemplateError)

  function HitAt(s: string): (hit: Hit) {
    if ESCAPE <= s then
      Found(3, Escaped(EscapedName(s[3..])))
    else if OPEN <= s then
      var after := s[2..];
      var end := IndexOf(after, '}');
      if end == |after| then NeverClosed(Unclosed(after))
      else Found(end + 3, TokenOf(after[..end]))
    else
      NoToken
  }

  /** The text `$${` or `${…}` a token stands for. */
  predicate IsSourceOf(token: Token, source: string) {
    match token
    case Escaped(_) => source == ESCAPE
    case _ =>
      && |source| >= 3 && OPEN <= source && source[|source| - 1] == '}'
      && '}' !in source[2..|source| - 1]
      && token == TokenOf(source[2..|source| - 1])
  }

  ghost predicate GoodHit(s: string, hit: Hit) {
    match hit
    case NoToken => !(OPEN <= s)
    case NeverClosed(error) => OPEN <= s && (error == UnclosedFor || error == UnclosedVar)
    case Found(len, token) =>
      && (OPEN <= s || ESCAPE <= s)
      && 0 < len <= |s| && token != Var(ENDFOR)
  }

  ghost predicate GoodHits(hit: string -> Hit) {
    forall s :: GoodHit(s, hit(s))
  }

  lemma HitAtGood(s: string)
    ensures GoodHit(s, HitAt(s))
  {
  }

  lemma HitAtIsGood()
    ensures GoodHits(HitAt)
  {
    forall s ensures GoodHit(s, HitAt(s)) {
      HitAtGood(s);
    }
  }

  type Lexed = (seq<Spanned>, Option<TemplateError>)

  /** The tokens of `t` from offset `from` on, and the error of a `${` never closed, which ends
      the scan. */
  ghost function LexFrom(hit: string -> Hit, t: string, from: nat): (r: Lexed)
    requires GoodHits(hit) && from <= |t|
    decreases |t| - from
  {
    if from == |t| then ([], None)
    else
      assert GoodHit(t[from..], hit(t[from..]));
      match hit(t[from..])
      case NoToken => LexFrom(hit, t, from + 1)
      case Found(len, token) =>
        var (found, error) := LexFrom(hit, t, from + len);
        ([Spanned(from, len, token)] + found, error)
      case NeverClosed(error) => ([], Some(error))
  }

  lemma LexStep(hit: string -> Hit, t: string, from: nat, len: nat, token: Token)
    requires GoodHits(hit) && from < |t| && hit(t[from..]) == Found(len, token)
    ensures 0 < len <= |t| - from
    ensures LexFrom(hit, t, from) ==
            ([Spanned(from, len, token)] + LexFrom(hit, t, from + len).0, LexFrom(hit, t, from + len).1)
  {
    assert GoodHit(t[from..], hit(t[from..]));
  }

  /** Up to the next `$` there is no token. */
  lemma {:induction false} LexSkipsTo(hit: string -> Hit, t: string, from: nat, stop: nat)
    requires GoodHits(hit) && from <= stop <= |t| && forall i :: from <= i < stop ==> t[i] != '$'
    ensures LexFrom(hit, t, from) == LexFrom(hit, t, stop)
    decreases stop - from
  {
    if from < stop {
      assert GoodHit(t[from..], hit(t[from..])) && t[from..][0] == t[from];
      assert hit(t[from..]).NoToken?;
      LexSkipsTo(hit, t, from + 1, stop);
    }
  }

  lemma Reassociate<T>(a: seq<T>, x: T, b: seq<T>)
    ensures a + ([x] + b) == (a + [x]) + b
  {
  }

  method Lex(t: string) returns (found: seq<Spanned>, unclosed: Option<TemplateError>)
    ensures GoodHits(HitAt) && (found, unclosed) == LexFrom(HitAt, t, 0)
  {
    HitAtIsGood();
    found, unclosed := LexWith(HitAt, t);
  }

  /** `all` is `found`, then what is lexed from `at` on. */
  ghost predicate LexedSoFar(hit: string -> Hit, t: string, all: Lexed, found: seq<Spanned>, at: nat)
    requires GoodHits(hit)
  {
    at <= |t| && all == (found + LexFrom(hit, t, at).0, LexFrom(hit, t, at).1)
  }

  /** Where the next `$` is; nothing before it starts a token. */
  method NextDollar(ghost hit: string -> Hit, t: string, ghost all: Lexed, ghost found: seq<Spanned>, from: nat) returns (at: nat)
    requires GoodHits(hit) && LexedSoFar(hit, t, all, found, from)
    ensures from <= at && LexedSoFar(hit, t, all, found, at)
  {
    ghost var tail := t[from..];
    at := from + IndexOf(t[from..], '$');
    forall i | from <= i < at ensures t[i] != '$' {
      assert t[i] == tail[i - from];
    }
    LexSkipsTo(hit, t, from, at);
  }

  /** What stands at a `$`: how far it reaches and the token, if it is one. */
  lemma LexedNext(hit: string -> Hit, t: string, all: Lexed, found: seq<Spanned>, at: nat)
    requires GoodHits(hit) && LexedSoFar(hit, t, all, found, at) && at < |t|
    ensures match hit(t[at..])
            case NoToken => LexedSoFar(hit, t, all, found, at + 1)
            case NeverClosed(error) => all == (found, Some(error))
            case Found(len, token) => len > 0 && LexedSoFar(hit, t, all, found + [Spanned(at, len, token)], at + len)
  {
    assert GoodHit(t[at..], hit(t[at..]));
    match hit(t[at..])
    case NoToken =>
    case NeverClosed(_) => assert found + [] == found;
    case Found(len, token) =>
      LexStep(hit, t, at, len, token);
      Reassociate(found, Spanned(at, len, token), LexFrom(hit, t, at + len).0);
  }

  lemma LexedAll(hit: string -> Hit, t: string, all: Lexed, found: seq<Spanned>)
    requires GoodHits(hit) && LexedSoFar(hit, t, all, found, |t|)
    ensures all == (found, None)
  {
    assert found + [] == found;
  }

  lemma NothingLexed(hit: string -> Hit, t: string)
    requires GoodHits(hit)
    ensures LexedSoFar(hit, t, LexFrom(hit, t, 0), [], 0)
  {
    assert [] + LexFrom(hit, t, 0).0 == LexFrom(hit, t, 0).0;
  }

  method LexWith(hit: string -> Hit, t: string) returns (found: seq<Spanned>, unclosed: Option<TemplateError>)
    requires GoodHits(hit)
    ensures (found, unclosed) == LexFrom(hit, t, 0)
  {
    ghost var all := LexFrom(hit, t, 0);
    found := [];
    NothingLexed(hit, t);
    var at := NextDollar(hit, t, all, found, 0);
    while at < |t|
      invariant LexedSoFar(hit, t, all, found, at)
      decreases |t| - at
    {
      var from := at + 1;
      LexedNext(hit, t, all, found, at);
      match hit(t[at..]) {
        case NoToken =>
        case NeverClosed(error) =>
          return found, Some(error);
        case Found(len, token) =>
          from := at + len;
          found := found + [Spanned(at, len, token)];
      }
      at := NextDollar(hit, t, all, found, from);
    }
    LexedAll(hit, t, all, found);
    unclosed := None;
  }

  /** The tokens follow one another without overlap, inside the template. */
  ghost predicate Tiling(t: string, from: nat, found: seq<Spanned>)
    decreases |found|
  {
    if found == [] then from <= |t|
    else
      && from <= found[0].at
      && found[0].at + found[0].len <= |t|
      && Tiling(t, found[0].at + found[0].len, found[1..])
  }

  ghost predicate FoundThere(hit: string -> Hit, t: string, spanned: Spanned) {
    spanned.at + spanned.len <= |t| && hit(t[spanned.at..]) == Found(spanned.len, spanned.token)
  }

  /** Each token is what is found where it says it stands. */
  ghost predicate AllFoundThere(hit: string -> Hit, t: string, found: seq<Spanned>) {
    found == [] || (FoundThere(hit, t, found[0]) && AllFoundThere(hit, t, found[1..]))
  }

  lemma {:induction false} LexIsTiling(hit: string -> Hit, t: string, from: nat)
    requires GoodHits(hit) && from <= |t|
    ensures Tiling(t, from, LexFrom(hit, t, from).0)
    decreases |t| - from
  {
    if from < |t| {
      assert GoodHit(t[from..], hit(t[from..]));
      match hit(t[from..])
      case NoToken =>
        LexIsTiling(hit, t, from + 1);
        TilingEarlier(t, from, LexFrom(hit, t, from + 1).0);
      case NeverClosed(_) =>
      case Found(len, token) =>
        LexStep(hit, t, from, len, token);
        LexIsTiling(hit, t, from + len);
        TilingCons(t, from, Spanned(from, len, token), LexFrom(hit, t, from + len).0);
    }
  }

  lemma TilingEarlier(t: string, from: nat, found: seq<Spanned>)
    requires Tiling(t, from + 1, found)
    ensures Tiling(t, from, found)
  {
  }

  lemma TilingCons(t: string, from: nat, next: Spanned, later: seq<Spanned>)
    requires from <= next.at && next.at + next.len <= |t| && Tiling(t, next.at + next.len, later)
    ensures Tiling(t, from, [next] + later)
  {
    assert ([next] + later)[1..] == later;
  }

  lemma {:induction false} LexIsFound(hit: string -> Hit, t: string, from: nat)
    requires GoodHits(hit) && from <= |t|
    ensures AllFoundThere(hit, t, LexFrom(hit, t, from).0)
    decreases |t| - from
  {
    if from < |t| {
      assert GoodHit(t[from..], hit(t[from..]));
      match hit(t[from..])
      case NoToken => LexIsFound(hit, t, from + 1);
      case NeverClosed(_) =>
      case Found(len, token) =>
        LexStep(hit, t, from, len, token);
        LexIsFound(hit, t, from + len);
        FoundCons(hit, t, Spanned(from, len, token), LexFrom(hit, t, from + len).0);
    }
  }

  lemma FoundCons(hit: string -> Hit, t: string, next: Spanned, later: seq<Spanned>)
    requires FoundThere(hit, t, next) && AllFoundThere(hit, t, later)
    ensures AllFoundThere(hit, t, [next] + later)
  {
    assert ([next] + later)[1..] == later;
  }

  /** The lexer's tokens follow one another, each found where it says. */
  lemma LexTiles(hit: string -> Hit, t: string, from: nat)
    requires GoodHits(hit) && from <= |t|
    ensures Tiling(t, from, LexFrom(hit, t, from).0)
    ensures AllFoundThere(hit, t, LexFrom(hit, t, from).0)
  {
    LexIsTiling(hit, t, from);
    LexIsFound(hit, t, from);
  }

  /** The slices between the tokens and the tokens' own text, put back together. */
  ghost function Rebuilt(t: string, from: nat, found: seq<Spanned>): string
    requires Tiling(t, from, found)
    decreases |found|
  {
    if found == [] then t[from..]
    else
      var next := found[0];
      t[from..next.at] + t[next.at..next.at + next.len] + Rebuilt(t, next.at + next.len, found[1..])
  }

  /** Nothing is lost by cutting a template at its tokens. */
  lemma {:induction false} TilingIsLossless(t: string, from: nat, found: seq<Spanned>)
    requires Tiling(t, from, found)
    ensures from <= |t| && Rebuilt(t, from, found) == t[from..]
    decreases |found|
  {
    if found != [] {
      var next := found[0];
      TilingIsLossless(t, next.at + next.len, found[1..]);
    }
  }

  /** Every token is spelled by the stretch of text it is found on. */
  ghost predicate Spells(hit: string -> Hit, spelled: (Token, string) -> bool) {
    forall s :: hit(s).Found? ==> hit(s).len <= |s| && spelled(hit(s).token, s[..hit(s).len])
  }

  lemma HitSource(s: string)
    requires HitAt(s).Found?
    ensures HitAt(s).len <= |s| && IsSourceOf(HitAt(s).token, s[..HitAt(s).len])
  {
    if !(ESCAPE <= s) {
      var end := IndexOf(s[2..], '}');
      ReferenceSource(s, end);
      TokenIsNoEscape(s[2..][..end]);
    }
  }

  /** The stretch from a `${` to the first `}`. */
  lemma ReferenceSource(s: string, end: nat)
    requires OPEN <= s && end == IndexOf(s[2..], '}') < |s[2..]|
    ensures var source := s[..end + 3];
            && OPEN <= source && source[|source| - 1] == '}' && source[2..|source| - 1] == s[2..][..end]
            && '}' !in s[2..][..end]
  {
    var after := s[2..];
    assert after[end] == s[end + 2];
    assert forall i :: 0 <= i < end ==> after[..end][i] == after[i];
  }

  lemma TokenIsNoEscape(inner: string)
    ensures !TokenOf(inner).Escaped?
  {
  }

  lemma HitAtSpells()
    ensures Spells(HitAt, IsSourceOf)
  {
    forall s | HitAt(s).Found? ensures HitAt(s).len <= |s| && IsSourceOf(HitAt(s).token, s[..HitAt(s).len]) {
      HitSource(s);
    }
  }

  ghost predicate SpelledThere(spelled: (Token, string) -> bool, t: string, spanned: Spanned) {
    spanned.at + spanned.len <= |t| && spelled(spanned.token, t[spanned.at..spanned.at + spanned.len])
  }

  lemma FoundIsSpelled(hit: string -> Hit, spelled: (Token, string) -> bool, t: string, spanned: Spanned)
    requires Spells(hit, spelled) && FoundThere(hit, t, spanned)
    ensures SpelledThere(spelled, t, spanned)
  {
    assert t[spanned.at..][..spanned.len] == t[spanned.at..spanned.at + spanned.len];
  }

  lemma {:induction false} FoundAreSpelled(
    hit: string -> Hit, spelled: (Token, string) -> bool, t: string, found: seq<Spanned>, k: nat)
    requires Spells(hit, spelled) && AllFoundThere(hit, t, found) && k < |found|
    ensures SpelledThere(spelled, t, found[k])
  {
    if k == 0 {
      FoundIsSpelled(hit, spelled, t, found[0]);
    } else {
      FoundAreSpelled(hit, spelled, t, found[1..], k - 1);
    }
  }

  lemma LexedAreSpelled(hit: string -> Hit, spelled: (Token, string) -> bool, t: string, k: nat)
    requires GoodHits(hit) && Spells(hit, spelled) && k < |LexFrom(hit, t, 0).0|
    ensures SpelledThere(spelled, t, LexFrom(hit, t, 0).0[k])
  {
    LexTiles(hit, t, 0);
    FoundAreSpelled(hit, spelled, t, LexFrom(hit, t, 0).0, k);
  }

  /** Every token of a template is spelled, as its kind demands, by the very stretch it is said
      to stand at. */
  lemma TokensAreSpelled(t: string, k: nat)
    requires GoodHits(HitAt) && k < |LexFrom(HitAt, t, 0).0|
    ensures SpelledThere(IsSourceOf, t, LexFrom(HitAt, t, 0).0[k])
  {
    HitAtSpells();
    LexedAreSpelled(HitAt, IsSourceOf, t, k);
  }

  // ---- The template as a list of pieces ----

  /** A maximal stretch of text, or one token, as the parser takes them. An escape is the text
      `${`; nothing before an unclosed `${` is ever written, so only the error remains. */
  datatype Piece =
    | PText(text: string)
    | PVar(name: string)
    | POpen(binding: string, collection: string, separator: Option<string>)
    | PClose
    | PBad(error: TemplateError)

  function PieceOf(token: Token): Piece {
    match token
    case Escaped(_) => PText(OPEN)
    case Var(name) => PVar(name)
    case Invalid(why) => PBad(InvalidHeader(why))
    case For(binding, collection, separator) => POpen(binding, collection, separator)
    case EndFor => PClose
  }

  predicate IsPlain(p: Piece) {
    p.PText? && p.text != OPEN
  }

  predicate OnlyUnclosed(ps: seq<Piece>) {
    ps == [PBad(UnclosedFor)] || ps == [PBad(UnclosedVar)]
  }

  /** Text in front of pieces: joined to text already there. */
  function PushText(text: string, ps: seq<Piece>): seq<Piece> {
    if text == "" || OnlyUnclosed(ps) then ps
    else if ps != [] && IsPlain(ps[0]) then [PText(text + ps[0].text)] + ps[1..]
    else [PText(text)] + ps
  }

  /** The template, read one character at a time. */
  ghost function Scan(hit: string -> Hit, s: string): (ps: seq<Piece>)
    requires GoodHits(hit)
    ensures PVar(ENDFOR) !in ps
    decreases |s|
  {
    if s == "" then []
    else
      assert GoodHit(s, hit(s));
      match hit(s)
      case NoToken => PushText([s[0]], Scan(hit, s[1..]))
      case Found(len, token) => [PieceOf(token)] + Scan(hit, s[len..])
      case NeverClosed(error) => [PBad(error)]
  }

  lemma ScanStep(hit: string -> Hit, s: string, len: nat, token: Token)
    requires GoodHits(hit) && s != "" && hit(s) == Found(len, token)
    ensures 0 < len <= |s| && Scan(hit, s) == [PieceOf(token)] + Scan(hit, s[len..])
  {
    assert GoodHit(s, hit(s));
  }

  /** What the parser cuts the template into, from the lexer's offsets: the text since the last
      token, then the token. */
  ghost function Slices(t: string, textFrom: nat, found: seq<Spanned>, unclosed: Option<TemplateError>): seq<Piece>
    requires Tiling(t, textFrom, found)
    decreases |found|
  {
    if found == [] then
      match unclosed
      case Some(error) => [PBad(error)]
      case None => PushText(t[textFrom..], [])
    else
      var next := found[0];
      PushText(t[textFrom..next.at], [PieceOf(next.token)] + Slices(t, next.at + next.len, found[1..], unclosed))
  }

  lemma SlicesCons(t: string, from: nat, next: Spanned, later: seq<Spanned>, unclosed: Option<TemplateError>)
    requires from <= next.at && next.at + next.len <= |t| && Tiling(t, next.at + next.len, later)
    ensures Tiling(t, from, [next] + later)
    ensures Slices(t, from, [next] + later, unclosed) ==
            PushText(t[from..next.at], [PieceOf(next.token)] + Slices(t, next.at + next.len, later, unclosed))
  {
    assert ([next] + later)[1..] == later;
  }

  /** A template that is one token. */
  lemma LoneToken(hit: string -> Hit, t: string, token: Token)
    requires GoodHits(hit) && t != "" && hit(t) == Found(|t|, token)
    ensures LexFrom(hit, t, 0).0 == [Spanned(0, |t|, token)] && Scan(hit, t) == [PieceOf(token)]
  {
    assert t[0..] == t && t[|t|..] == "";
    LexStep(hit, t, 0, |t|, token);
    ScanStep(hit, t, |t|, token);
  }

  lemma {:induction false} FirstTextIsPrefix(hit: string -> Hit, s: string)
    requires GoodHits(hit) && Scan(hit, s) != [] && IsPlain(Scan(hit, s)[0])
    ensures Scan(hit, s)[0].text <= s && Scan(hit, s)[0].text != ""
    decreases |s|
  {
    if hit(s).NoToken? {
      var ps := Scan(hit, s[1..]);
      if ps != [] && IsPlain(ps[0]) {
        FirstTextIsPrefix(hit, s[1..]);
      }
    }
  }

  /** A character joined to the text after it never makes a `${`. */
  lemma NoOpenAcross(hit: string -> Hit, s: string)
    requires GoodHits(hit) && s != "" && hit(s).NoToken?
    ensures var ps := Scan(hit, s[1..]);
            ps != [] && IsPlain(ps[0]) ==> [s[0]] + ps[0].text != OPEN && [s[0]] + ps[0].text <= s
  {
    var ps := Scan(hit, s[1..]);
    assert GoodHit(s, hit(s));
    if ps != [] && IsPlain(ps[0]) {
      FirstTextIsPrefix(hit, s[1..]);
      assert s == [s[0]] + s[1..];
    }
  }

  lemma PushPush(a: string, c: char, ps: seq<Piece>)
    requires ps != [] && IsPlain(ps[0]) ==> [c] + ps[0].text != OPEN
    ensures PushText(a + [c], ps) == PushText(a, PushText([c], ps))
  {
    if OnlyUnclosed(ps) {
    } else if ps != [] && IsPlain(ps[0]) {
      assert a + [c] + ps[0].text == a + ([c] + ps[0].text);
      assert ([PText([c] + ps[0].text)] + ps[1..])[1..] == ps[1..];
      assert a == "" ==> a + ([c] + ps[0].text) == [c] + ps[0].text;
    } else {
      assert ([PText([c])] + ps)[1..] == ps;
      assert a == "" ==> a + [c] == [c];
    }
  }

  /** `lexed`, the tokens from `from` on, cut the text from `textFrom` on into what is `scanned`
      from `from` on, with the text before it in front. */
  ghost predicate CutAs(t: string, textFrom: nat, from: nat, lexed: Lexed, scanned: seq<Piece>)
    requires textFrom <= from <= |t|
  {
    && Tiling(t, textFrom, lexed.0)
    && Slices(t, textFrom, lexed.0, lexed.1) == PushText(t[textFrom..from], scanned)
  }

  lemma CutAtText(t: string, textFrom: nat, from: nat, lexed: Lexed, later: seq<Piece>)
    requires textFrom <= from < |t| && CutAs(t, textFrom, from + 1, lexed, later)
    requires later != [] && IsPlain(later[0]) ==> [t[from]] + later[0].text != OPEN
    ensures CutAs(t, textFrom, from, lexed, PushText([t[from]], later))
  {
    assert t[textFrom..from + 1] == t[textFrom..from] + [t[from]];
    PushPush(t[textFrom..from], t[from], later);
  }

  lemma CutAtToken(t: string, textFrom: nat, next: Spanned, lexed: Lexed, later: seq<Piece>)
    requires textFrom <= next.at && next.at + next.len <= |t|
    requires CutAs(t, next.at + next.len, next.at + next.len, lexed, later)
    ensures CutAs(t, textFrom, next.at, ([next] + lexed.0, lexed.1), [PieceOf(next.token)] + later)
  {
    var to := next.at + next.len;
    assert PushText(t[to..to], later) == later;
    SlicesCons(t, textFrom, next, lexed.0, lexed.1);
  }

  lemma CutAtEnd(t: string, textFrom: nat)
    requires textFrom <= |t|
    ensures CutAs(t, textFrom, |t|, ([], None), [])
  {
    assert t[textFrom..] == t[textFrom..|t|];
  }

  lemma CutAtUnclosed(t: string, textFrom: nat, from: nat, error: TemplateError)
    requires textFrom <= from <= |t| && (error == UnclosedFor || error == UnclosedVar)
    ensures CutAs(t, textFrom, from, ([], Some(error)), [PBad(error)])
  {
  }

  /** `lex` and `scan` go on from `from` as what is `found` there says. */
  ghost predicate GoOn(t: string, from: nat, found: Hit, lex: nat -> Lexed, scan: nat -> seq<Piece>)
    requires from < |t|
  {
    match found
    case NoToken =>
      var later := scan(from + 1);
      && lex(from) == lex(from + 1) && scan(from) == PushText([t[from]], later)
      && (later != [] && IsPlain(later[0]) ==> [t[from]] + later[0].text != OPEN)
    case NeverClosed(error) =>
      (error == UnclosedFor || error == UnclosedVar) && lex(from) == ([], Some(error)) && scan(from) == [PBad(error)]
    case Found(len, token) =>
      && 0 < len <= |t| - from
      && lex(from) == ([Spanned(from, len, token)] + lex(from + len).0, lex(from + len).1)
      && scan(from) == [PieceOf(token)] + scan(from + len)
  }

  /** Two readings of one template that go on alike cut it alike. */
  lemma {:induction false} AlikeCutAlike(
    t: string, found: nat -> Hit, lex: nat -> Lexed, scan: nat -> seq<Piece>, textFrom: nat, from: nat)
    requires textFrom <= from <= |t| && lex(|t|) == ([], None) && scan(|t|) == []
    requires forall k: nat :: k < |t| ==> GoOn(t, k, found(k), lex, scan)
    ensures CutAs(t, textFrom, from, lex(from), scan(from))
    decreases |t| - from
  {
    if from == |t| {
      CutAtEnd(t, textFrom);
    } else {
      assert GoOn(t, from, found(from), lex, scan);
      match found(from)
      case NoToken =>
        AlikeCutAlike(t, found, lex, scan, textFrom, from + 1);
        CutAtText(t, textFrom, from, lex(from + 1), scan(from + 1));
      case NeverClosed(error) =>
        CutAtUnclosed(t, textFrom, from, error);
      case Found(len, token) =>
        AlikeCutAlike(t, found, lex, scan, from + len, from + len);
        CutAtToken(t, textFrom, Spanned(from, len, token), lex(from + len), scan(from + len));
    }
  }

  ghost function LexOf(hit: string -> Hit, t: string): nat -> Lexed
    requires GoodHits(hit)
  {
    (k: nat) => if k <= |t| then LexFrom(hit, t, k) else ([], None)
  }

  ghost function ScanOf(hit: string -> Hit, t: string): nat -> seq<Piece>
    requires GoodHits(hit)
  {
    (k: nat) => if k <= |t| then Scan(hit, t[k..]) else []
  }

  /** The lexer and the scan go on alike. */
  lemma LexAndScan(hit: string -> Hit, t: string, from: nat)
    requires GoodHits(hit) && from < |t|
    ensures GoOn(t, from, hit(t[from..]), LexOf(hit, t), ScanOf(hit, t))
  {
    var s := t[from..];
    assert GoodHit(s, hit(s));
    match hit(s)
    case NoToken =>
      assert s[1..] == t[from + 1..] && s[0] == t[from];
      NoOpenAcross(hit, s);
    case NeverClosed(_) =>
    case Found(len, token) =>
      LexStep(hit, t, from, len, token);
      ScanStep(hit, s, len, token);
      assert s[len..] == t[from + len..];
  }

  /** The parser's slices are the template read character by character. */
  lemma SlicesAreScan(hit: string -> Hit, t: string, textFrom: nat, from: nat)
    requires GoodHits(hit) && textFrom <= from <= |t|
    ensures CutAs(t, textFrom, from, LexFrom(hit, t, from), Scan(hit, t[from..]))
  {
    forall k: nat | k < |t| ensures GoOn(t, k, hit(t[k..]), LexOf(hit, t), ScanOf(hit, t)) {
      LexAndScan(hit, t, k);
    }
    AlikeCutAlike(t, (k: nat) => if k < |t| then hit(t[k..]) else NoToken, LexOf(hit, t), ScanOf(hit, t), textFrom, from);
  }
}
