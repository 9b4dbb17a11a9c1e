/**
 Printing a template's tree back as text, an escape as `$${`, and reading it again.

 A template is printed piece by piece. The pieces the lexer makes of any template it reads to the
 end are `Canonical`: text stops only at a token, and a `$` right before a token is there only
 when the token is an escape. Printed, canonical pieces are read back one by one, text as the
 same text and a reference or an `${endfor}` as itself.

 A `for` header is the exception. Its separator is what follows the first `separator="` anywhere
 in it, its own names included, so a loop reads back as itself exactly when it `Rereads`. From
 there the result for whole trees is an equivalence: printing and parsing keeps a tree if and
 only if every loop in it rereads.
 */
module TemplatePrint {
  import opened Wrappers
  import opened Text
  import opened Template
  import opened TemplateParser

  function Header(binding: string, collection: string, separator: Option<string>): string {
    Spaced("for", Spaced(binding, Spaced("in", HeaderEnd(collection, separator))))
  }

  function HeaderEnd(collection: string, separator: Option<string>): string {
    match separator
    case None => collection
    case Some(text) => Spaced(collection, SEPARATOR + (text + "\""))
  }

  function PrintPiece(p: Piece): string {
    match p
    case PText(text) => if text == OPEN then ESCAPE else text
    case PVar(name) => OPEN + name + "}"
    case POpen(binding, collection, separator) => OPEN + Header(binding, collection, separator) + "}"
    case PClose => OPEN + ENDFOR + "}"
    case PBad(_) => OPEN
  }

  function Print(ps: seq<Piece>): string {
    if ps == [] then "" else PrintPiece(ps[0]) + Print(ps[1..])
  }

  /** The template a tree stands for. */
  function PrintTree(nodes: seq<Node>): string {
    Print(Flatten(nodes))
  }

  // ---- Which pieces can be read back ----

  predicate IsName(s: string) {
    s != "" && NoWhitespace(s) && '}' !in s
  }

  function LoopNames(binding: string, collection: string): string {
    Spaced(binding, Spaced("in", collection))
  }

  /** What comes before the quote of a printed separator. */
  const BEFORE_QUOTE := " separator="

  /** Whether a loop, printed, reads back. A name may itself hold the text `separator="`: what
      follows it there up to a quote, or else up to the printed one, is then read as the
      separator, so it must be the separator. */
  predicate Rereads(p: Piece) {
    p.POpen? ==>
      match After(LoopNames(p.binding, p.collection), SEPARATOR)
      case None => true
      case Some(value) =>
        p.separator == Some(if '\"' in value then value[..IndexOf(value, '\"')] else value + BEFORE_QUOTE)
  }

  predicate CleanPiece(p: Piece) {
    match p
    case PText(text) => text == OPEN || (text != "" && Find(text, OPEN).None?)
    case PVar(name) => '}' !in name && !(FOR <= name) && name != ENDFOR
    case POpen(binding, collection, separator) =>
      && IsName(binding) && IsName(collection)
      && (separator.Some? ==> '\"' !in separator.value && '}' !in separator.value)
    case PClose => true
    case PBad(_) => false
  }

  predicate EndsInDollar(p: Piece) {
    IsPlain(p) && p.text != "" && p.text[|p.text| - 1] == '$'
  }

  /** Whether `q` can follow `p`: text stops only at a token, and a `$` before a `${` would
      escape it. */
  predicate Joins(p: Piece, q: Piece) {
    && !(IsPlain(p) && IsPlain(q))
    && (EndsInDollar(p) ==> q == PText(OPEN))
  }

  predicate Canonical(ps: seq<Piece>) {
    ps == [] ||
    (CleanPiece(ps[0]) && (|ps| > 1 ==> Joins(ps[0], ps[1])) && Canonical(ps[1..]))
  }

  predicate AllReread(ps: seq<Piece>) {
    forall p :: p in ps ==> Rereads(p)
  }

  /** What a printed piece is read as: itself, but for a loop's header. */
  function ReadAs(p: Piece): Piece {
    match p
    case POpen(binding, collection, separator) => PieceOf(ForHeader(Header(binding, collection, separator)))
    case _ => p
  }

  function AllReadAs(ps: seq<Piece>): seq<Piece> {
    if ps == [] then [] else [ReadAs(ps[0])] + AllReadAs(ps[1..])
  }

  // ---- What the lexer makes of a printed piece ----

  lemma HitReference(inner: string, rest: string)
    requires '}' !in inner
    ensures HitAt(OPEN + inner + "}" + rest) == Found(|inner| + 3, TokenOf(inner))
  {
    var s := OPEN + inner + "}" + rest;
    assert s[1] == '{';
    var after := inner + ("}" + rest);
    assert s[2..] == after;
    IndexOfUnique(after, '}', |inner|);
    assert after[..|inner|] == inner;
  }

  lemma WordsOfHeader(binding: string, collection: string, separator: Option<string>)
    requires IsName(binding) && IsName(collection)
    ensures var words := Words(Header(binding, collection, separator));
            |words| >= 4 && words[1] == binding && words[2] == "in" && words[3] == collection
    ensures FOR <= Header(binding, collection, separator)
  {
    var end := HeaderEnd(collection, separator);
    WordsSpaced("for", Spaced(binding, Spaced("in", end)));
    WordsSpaced(binding, Spaced("in", end));
    WordsSpaced("in", end);
    match separator {
      case None =>
        WordsOf(collection, "");
        assert collection + "" == collection;
      case Some(text) => WordsSpaced(collection, SEPARATOR + (text + "\""));
    }
  }

  function SeparatorEnd(separator: Option<string>): string {
    match separator case None => "" case Some(text) => [' '] + (SEPARATOR + (text + "\""))
  }

  lemma HeaderIsNamesThenEnd(binding: string, collection: string, separator: Option<string>)
    ensures Header(binding, collection, separator) ==
            Spaced("for", LoopNames(binding, collection) + SeparatorEnd(separator))
  {
    var names, end := LoopNames(binding, collection), SeparatorEnd(separator);
    assert HeaderEnd(collection, separator) == collection + end;
    assert Spaced(binding, Spaced("in", collection + end)) == names + end;
  }

  /** What follows the first `separator="` of a header: in the names, or else at its end. */
  lemma SeparatorOfHeader(binding: string, collection: string, separator: Option<string>)
    ensures After(Header(binding, collection, separator), SEPARATOR) ==
            match After(LoopNames(binding, collection), SEPARATOR)
            case Some(value) => Some(value + SeparatorEnd(separator))
            case None => match separator case None => None case Some(text) => Some(text + "\"")
  {
    var names, end := LoopNames(binding, collection), SeparatorEnd(separator);
    HeaderIsNamesThenEnd(binding, collection, separator);
    AfterPastWord("for", ' ', names + end, SEPARATOR);
    if After(names, SEPARATOR).Some? {
      AfterInFront(names, end, SEPARATOR);
    } else if separator.Some? {
      var text := separator.value;
      assert names + end == names + [' '] + (SEPARATOR + (text + "\""));
      AfterPastWord(names, ' ', SEPARATOR + (text + "\""), SEPARATOR);
    } else {
      assert names + end == names;
    }
  }

  lemma QuotedText(text: string)
    requires '\"' !in text
    ensures IndexOf(text + "\"", '\"') == |text| && (text + "\"")[..|text|] == text
  {
    IndexOfUnique(text + "\"", '\"', |text|);
  }

  lemma QuoteInNames(value: string, end: string)
    requires '\"' in value
    ensures IndexOf(value + end, '\"') == IndexOf(value, '\"') < |value|
    ensures (value + end)[..IndexOf(value, '\"')] == value[..IndexOf(value, '\"')]
  {
    var k := IndexOf(value, '\"');
    IndexOfUnique(value + end, '\"', k);
  }

  lemma QuoteAtEnd(value: string, text: string)
    requires '\"' !in value
    ensures var all := value + SeparatorEnd(Some(text));
            && IndexOf(all, '\"') == |value + BEFORE_QUOTE| < |all|
            && all[..|value + BEFORE_QUOTE|] == value + BEFORE_QUOTE
  {
    var all, k := value + SeparatorEnd(Some(text)), |value + BEFORE_QUOTE|;
    assert SEPARATOR == "separator=" + ['\"'] && BEFORE_QUOTE == [' '] + "separator=";
    assert all == value + BEFORE_QUOTE + (['\"'] + (text + "\""));
    IndexOfUnique(all, '\"', k);
  }

  /** A header reads back as the loop it was printed from exactly when it `Rereads`. */
  lemma HeaderReadsBack(p: Piece)
    requires p.POpen? && CleanPiece(p)
    ensures ForHeader(Header(p.binding, p.collection, p.separator)) == For(p.binding, p.collection, p.separator)
            <==> Rereads(p)
  {
    var words := Words(Header(p.binding, p.collection, p.separator));
    WordsOfHeader(p.binding, p.collection, p.separator);
    SeparatorOfHeader(p.binding, p.collection, p.separator);
    match After(LoopNames(p.binding, p.collection), SEPARATOR)
    case None => LoopTokenOf(words, p);
    case Some(value) => SeparatorInNames(words, p, value);
  }

  lemma SeparatorInNames(words: seq<string>, p: Piece, value: string)
    requires p.POpen? && |words| >= 4 && words[1] == p.binding && words[2] == "in" && words[3] == p.collection
    ensures LoopToken(words, Some(value + SeparatorEnd(p.separator))) == For(p.binding, p.collection, p.separator) <==>
            p.separator == Some(if '\"' in value then value[..IndexOf(value, '\"')] else value + BEFORE_QUOTE)
  {
    if '\"' in value {
      QuoteInNames(value, SeparatorEnd(p.separator));
    } else if p.separator.Some? {
      QuoteAtEnd(value, p.separator.value);
    } else {
      assert value + "" == value;
    }
  }

  lemma HeaderHasNoBrace(p: Piece)
    requires p.POpen? && CleanPiece(p)
    ensures '}' !in Header(p.binding, p.collection, p.separator)
  {
    var end := HeaderEnd(p.collection, p.separator);
    assert '}' !in end;
    assert '}' !in Spaced("in", end);
    assert '}' !in Spaced(p.binding, Spaced("in", end));
  }

  lemma LoopTokenOf(words: seq<string>, p: Piece)
    requires p.POpen? && CleanPiece(p)
    requires |words| >= 4 && words[1] == p.binding && words[2] == "in" && words[3] == p.collection
    ensures LoopToken(words, match p.separator case None => None case Some(text) => Some(text + "\"")) ==
            For(p.binding, p.collection, p.separator)
  {
    if p.separator.Some? {
      QuotedText(p.separator.value);
    }
  }

  lemma ReadsAsItself(p: Piece)
    requires CleanPiece(p)
    ensures ReadAs(p) == p <==> Rereads(p)
    ensures IsPlain(ReadAs(p)) <==> IsPlain(p)
    ensures !OnlyUnclosed([ReadAs(p)])
  {
    if p.POpen? {
      HeaderReadsBack(p);
    }
  }

  lemma TokenReadsBack(p: Piece, rest: string)
    requires CleanPiece(p) && !IsPlain(p)
    ensures HitAt(PrintPiece(p) + rest).Found?
    ensures HitAt(PrintPiece(p) + rest).len == |PrintPiece(p)|
    ensures PieceOf(HitAt(PrintPiece(p) + rest).token) == ReadAs(p)
  {
    match p
    case PText(_) => assert ESCAPE <= PrintPiece(p) + rest;
    case PVar(name) => HitReference(name, rest);
    case POpen(_, _, _) => LoopReadsAs(p, rest);
    case PClose => HitReference(ENDFOR, rest);
  }

  lemma LoopReadsAs(p: Piece, rest: string)
    requires CleanPiece(p) && p.POpen?
    ensures var header := Header(p.binding, p.collection, p.separator);
            HitAt(OPEN + header + "}" + rest) == Found(|header| + 3, ForHeader(header))
  {
    HeaderHasNoBrace(p);
    WordsOfHeader(p.binding, p.collection, p.separator);
    HitReference(Header(p.binding, p.collection, p.separator), rest);
  }

  // ---- Plain text ----

  lemma {:induction false} FindNoneAt(s: string, pat: string, k: nat)
    requires Find(s, pat).None? && k <= |s|
    ensures Find(s[k..], pat).None?
  {
    if k > 0 {
      assert s[k..] == s[1..][k - 1..];
      FindNoneAt(s[1..], pat, k - 1);
    }
  }

  lemma OpenChars(s: string)
    ensures OPEN <= s <==> |s| >= 2 && s[0] == '$' && s[1] == '{'
    ensures ESCAPE <= s <==> |s| >= 3 && s[0] == '$' && s[1] == '$' && s[2] == '{'
  {
    assert |s| >= 2 ==> s[..2] == [s[0], s[1]];
    assert |s| >= 3 ==> s[..3] == [s[0], s[1], s[2]];
  }

  /** Neither `${` nor `$${` stands at the start. */
  predicate NoStart(s: string) {
    !(OPEN <= s) && !(ESCAPE <= s)
  }

  /** Text without `${`, followed by a token, starts none itself. */
  lemma NoStartInText(text: string, rest: string)
    requires text != "" && Find(text, OPEN).None?
    requires text[|text| - 1] == '$' ==> rest == "" || ESCAPE <= rest
    ensures NoStart(text + rest)
  {
    OpenChars(text + rest);
    OpenChars(text);
    OpenChars(rest);
    FindNoneAt(text, OPEN, 1);
    OpenChars(text[1..]);
  }

  /** No token starts in `text`, with `rest` after it. */
  ghost predicate NoStarts(text: string, rest: string) {
    forall k :: 0 <= k < |text| ==> NoStart(text[k..] + rest)
  }

  lemma NoStartsInText(text: string, rest: string)
    requires text != "" && Find(text, OPEN).None?
    requires text[|text| - 1] == '$' ==> rest == "" || ESCAPE <= rest
    ensures NoStarts(text, rest)
  {
    forall k | 0 <= k < |text| ensures NoStart(text[k..] + rest) {
      FindNoneAt(text, OPEN, k);
      NoStartInText(text[k..], rest);
    }
  }

  /** Text in which no token starts is read as one piece. */
  lemma {:induction false} ScanOver(hit: string -> Hit, text: string, rest: string)
    requires GoodHits(hit) && text != "" && NoStarts(text, rest) && Find(text, OPEN).None?
    requires var ps := Scan(hit, rest); ps == [] || (!IsPlain(ps[0]) && !OnlyUnclosed(ps))
    ensures Scan(hit, text + rest) == [PText(text)] + Scan(hit, rest)
  {
    var s, tail := text + rest, text[1..];
    var ps := Scan(hit, rest);
    assert text[0..] == text && s[1..] == tail + rest && [s[0]] + tail == text;
    assert NoStart(text[0..] + rest);
    assert GoodHit(s, hit(s));
    assert Scan(hit, s) == PushText([s[0]], Scan(hit, tail + rest));
    if tail == "" {
      assert tail + rest == rest && [s[0]] == text;
    } else {
      NoStartsLater(text, rest);
      FindNoneAt(text, OPEN, 1);
      ScanOver(hit, tail, rest);
      PushOnText(s[0], tail, ps);
    }
  }

  lemma NoStartsLater(text: string, rest: string)
    requires text != "" && NoStarts(text, rest)
    ensures NoStarts(text[1..], rest)
  {
    forall k | 0 <= k < |text[1..]| ensures NoStart(text[1..][k..] + rest) {
      assert text[1..][k..] == text[k + 1..];
    }
  }

  lemma PushOnText(c: char, text: string, ps: seq<Piece>)
    requires text != "" && Find(text, OPEN).None?
    ensures PushText([c], [PText(text)] + ps) == [PText([c] + text)] + ps
  {
    assert ([PText(text)] + ps)[1..] == ps;
    assert OPEN <= OPEN;
  }

  lemma ScanText(text: string, rest: string)
    requires GoodHits(HitAt) && text != "" && Find(text, OPEN).None?
    requires text[|text| - 1] == '$' ==> rest == "" || ESCAPE <= rest
    requires var ps := Scan(HitAt, rest); ps == [] || (!IsPlain(ps[0]) && !OnlyUnclosed(ps))
    ensures Scan(HitAt, text + rest) == [PText(text)] + Scan(HitAt, rest)
  {
    NoStartsInText(text, rest);
    ScanOver(HitAt, text, rest);
  }

  /** Canonical pieces, printed, are scanned back one by one. */
  lemma {:induction false} PrintThenScan(ps: seq<Piece>)
    requires GoodHits(HitAt) && Canonical(ps)
    ensures Scan(HitAt, Print(ps)) == AllReadAs(ps)
  {
    if ps != [] {
      var rest := Print(ps[1..]);
      PrintThenScan(ps[1..]);
      var p := ps[0];
      if IsPlain(p) {
        if |ps| > 1 {
          FirstReadAs(ps[1..]);
          if EndsInDollar(p) {
            assert ESCAPE <= rest;
          }
        }
        ScanText(p.text, rest);
      } else {
        TokenReadsBack(p, rest);
        var hit := HitAt(Print(ps));
        ScanStep(HitAt, Print(ps), hit.len, hit.token);
        assert Print(ps)[hit.len..] == rest;
      }
    }
  }

  lemma FirstReadAs(ps: seq<Piece>)
    requires ps != [] && CleanPiece(ps[0]) && !IsPlain(ps[0])
    ensures AllReadAs(ps) != [] && !IsPlain(AllReadAs(ps)[0]) && !OnlyUnclosed(AllReadAs(ps))
  {
    ReadsAsItself(ps[0]);
    assert AllReadAs(ps)[0] == ReadAs(ps[0]);
  }

  lemma {:induction false} AllReadAsThemselves(ps: seq<Piece>)
    requires Canonical(ps)
    ensures AllReadAs(ps) == ps <==> AllReread(ps)
  {
    if ps != [] {
      AllReadAsThemselves(ps[1..]);
      AllReadAsFirst(ps, AllReadAs(ps[1..]), ReadAs(ps[0]));
      ReadsAsItself(ps[0]);
      AllRereadFirst(ps);
    }
  }

  lemma AllReadAsFirst(ps: seq<Piece>, later: seq<Piece>, first: Piece)
    requires ps != []
    ensures [first] + later == ps <==> first == ps[0] && later == ps[1..]
  {
    assert ([first] + later)[1..] == later;
    assert ps == [ps[0]] + ps[1..];
  }

  lemma AllRereadFirst(ps: seq<Piece>)
    requires ps != []
    ensures AllReread(ps) <==> Rereads(ps[0]) && AllReread(ps[1..])
  {
    assert ps == [ps[0]] + ps[1..];
  }

  // ---- What the lexer produces is canonical ----

  lemma {:induction false} WordsAreParts(s: string, c: char)
    requires c !in s
    ensures forall w :: w in Words(s) ==> c !in w
  {
    if s == "" {
    } else if IsWhitespace(s[0]) {
      WordsAreParts(s[1..], c);
    } else {
      var k := WordLength(s);
      WordsAreParts(s[k..], c);
      assert c !in s[..k];
    }
  }

  lemma TokenIsClean(inner: string)
    requires '}' !in inner
    ensures var p := PieceOf(TokenOf(inner)); p.PBad? || (CleanPiece(p) && !p.PText?)
  {
    if FOR <= inner {
      WordsAreParts(inner, '}');
      HeaderIsClean(inner);
    }
  }

  lemma HeaderIsClean(header: string)
    requires '}' !in header && forall w :: w in Words(header) ==> '}' !in w
    ensures var p := PieceOf(ForHeader(header)); p.PBad? || (p.POpen? && CleanPiece(p))
  {
    var token := ForHeader(header);
    if token.For? {
      var parts := Words(header);
      assert parts[1] in parts && parts[3] in parts;
      if token.separator.Some? {
        var value := After(header, SEPARATOR).value;
        assert forall c :: c in value ==> c in header;
        assert forall c :: c in token.separator.value ==> c in value;
      }
    }
  }

  /** A token the lexer finds is clean, or a header that cannot be read. */
  lemma HitIsClean(s: string)
    requires HitAt(s).Found?
    ensures var p := PieceOf(HitAt(s).token);
            p.PBad? || (CleanPiece(p) && !IsPlain(p) && (p == PText(OPEN) <==> ESCAPE <= s))
  {
    if !(ESCAPE <= s) {
      var end := IndexOf(s[2..], '}');
      TokenIsClean(s[2..][..end]);
    }
  }

  predicate NoBad(ps: seq<Piece>) {
    forall p :: p in ps ==> !p.PBad?
  }

  lemma {:induction false} ScanIsCanonical(s: string)
    requires GoodHits(HitAt) && NoBad(Scan(HitAt, s))
    ensures Canonical(Scan(HitAt, s))
    decreases |s|
  {
    if s != "" {
      assert GoodHit(s, HitAt(s));
      var ps := Scan(HitAt, s);
      assert ps == [] || ps[0] in ps;
      match HitAt(s)
      case NeverClosed(_) =>
      case Found(len, token) =>
        ScanStep(HitAt, s, len, token);
        assert ps[1..] == Scan(HitAt, s[len..]) && ps[0] in ps;
        assert forall p :: p in ps[1..] ==> p in ps;
        ScanIsCanonical(s[len..]);
        HitIsClean(s);
      case NoToken =>
        CharIsCanonical(s);
    }
  }

  lemma NoBadLater(c: char, later: seq<Piece>)
    requires NoBad(PushText([c], later))
    ensures NoBad(later) && !OnlyUnclosed(later)
  {
    var ps := PushText([c], later);
    assert ps == [] || ps[0] in ps;
    forall p | p in later ensures !p.PBad? {
      if OnlyUnclosed(later) || !IsPlain(later[0]) || p != later[0] {
        assert p in ps;
      }
    }
  }

  /** A character in front of canonical pieces: joined to the text they start with, or text
      before a token. */
  lemma PushIsCanonical(c: char, later: seq<Piece>)
    requires Canonical(later) && !OnlyUnclosed(later)
    requires later != [] && IsPlain(later[0]) ==> !(OPEN <= [c] + later[0].text) && [c] + later[0].text != OPEN
    requires later != [] && !IsPlain(later[0]) && c == '$' ==> later[0] == PText(OPEN)
    ensures Canonical(PushText([c], later))
  {
    if later != [] && IsPlain(later[0]) {
      JoinIsCanonical(c, later);
    } else {
      assert ([PText([c])] + later)[1..] == later;
      assert Find([c][1..], OPEN).None?;
    }
  }

  lemma JoinIsCanonical(c: char, later: seq<Piece>)
    requires Canonical(later) && later != [] && IsPlain(later[0])
    requires !(OPEN <= [c] + later[0].text) && [c] + later[0].text != OPEN
    ensures Canonical([PText([c] + later[0].text)] + later[1..])
  {
    var text := [c] + later[0].text;
    assert ([PText(text)] + later[1..])[1..] == later[1..];
    assert text[1..] == later[0].text;
  }

  lemma CharIsCanonical(s: string)
    requires GoodHits(HitAt) && s != "" && HitAt(s).NoToken? && NoBad(Scan(HitAt, s))
    ensures Canonical(Scan(HitAt, s))
    decreases |s|, 0
  {
    var later := Scan(HitAt, s[1..]);
    assert Scan(HitAt, s) == PushText([s[0]], later);
    NoBadLater(s[0], later);
    ScanIsCanonical(s[1..]);
    NoOpenAcross(HitAt, s);
    assert GoodHit(s, HitAt(s));
    if later != [] && !IsPlain(later[0]) && s[0] == '$' {
      TokenAfterDollar(s);
    }
    PushIsCanonical(s[0], later);
  }

  /** The token after a lone `$` is an escape: any other would have made `$${` with it. */
  lemma TokenAfterDollar(s: string)
    requires GoodHits(HitAt) && |s| > 0 && s[0] == '$' && HitAt(s).NoToken?
    requires var later := Scan(HitAt, s[1..]); later != [] && !IsPlain(later[0]) && NoBad(later)
    ensures Scan(HitAt, s[1..])[0] == PText(OPEN)
  {
    var rest := s[1..];
    var later := Scan(HitAt, rest);
    assert GoodHit(rest, HitAt(rest));
    assert later[0] in later;
    if HitAt(rest).NoToken? {
      var after := Scan(HitAt, rest[1..]);
      assert later == PushText([rest[0]], after);
      assert !OnlyUnclosed(later);
      NoOpenAcross(HitAt, rest);
      assert false;
    } else {
      assert !(OPEN <= rest) by {
        assert s[..3] == [s[0]] + rest[..2];
      }
      HitIsClean(rest);
    }
  }

  // ---- The round trip ----

  /** A tree printed and parsed again is the same tree exactly when its loops' headers reread. */
  lemma PrintThenParse(nodes: seq<Node>)
    requires Buildable(nodes) && Canonical(Flatten(nodes))
    ensures Parse(PrintTree(nodes)) == Ok(nodes) <==> AllReread(Flatten(nodes))
  {
    HitAtIsGood();
    PrintThenScan(Flatten(nodes));
    AllReadAsThemselves(Flatten(nodes));
    if AllReread(Flatten(nodes)) {
      BuildableTreeRebuilt(nodes, []);
      assert [] + nodes == nodes;
    } else if Parse(PrintTree(nodes)) == Ok(nodes) {
      ParseIsExact(PrintTree(nodes));
    }
  }

  lemma {:induction false} BuiltHasNoBad(ps: seq<Piece>, open: seq<Open>, nodes: seq<Node>)
    requires Build(ps, open, nodes).Ok?
    ensures NoBad(ps)
  {
    if ps != [] {
      var rest := ps[1..];
      assert forall p :: p in ps ==> p == ps[0] || p in rest;
      match ps[0]
      case PText(text) => BuiltHasNoBad(rest, open, nodes + [NText(text)]);
      case PVar(name) => BuiltHasNoBad(rest, open, nodes + [NVar(name)]);
      case POpen(binding, collection, separator) =>
        BuiltHasNoBad(rest, open + [Open(binding, collection, separator, nodes)], []);
      case PClose =>
        if open == [] {
          BuiltHasNoBad(rest, open, nodes + [NVar(ENDFOR)]);
        } else {
          var top := open[|open| - 1];
          BuiltHasNoBad(rest, open[..|open| - 1],
                        top.outer + [NFor(top.binding, top.collection, top.separator, nodes)]);
        }
    }
  }

  /** Any template the parser accepts keeps its tree through printing and parsing exactly when
      its loops' headers reread. */
  lemma ReprintKeepsTree(t: string)
    requires Parse(t).Ok?
    ensures Parse(PrintTree(Parse(t).value)) == Parse(t) <==> AllReread(Flatten(Parse(t).value))
  {
    HitAtIsGood();
    ParseIsExact(t);
    BuiltHasNoBad(Scan(HitAt, t), [], []);
    ScanIsCanonical(t);
    PrintThenParse(Parse(t).value);
  }

  /** Loops whose names do not hold `separator="` always reread. */
  lemma PlainNamesReread(p: Piece)
    requires p.POpen? ==> Find(p.binding, SEPARATOR).None? && Find(p.collection, SEPARATOR).None?
    ensures Rereads(p)
  {
    if p.POpen? {
      FindPastWord(p.binding, ' ', Spaced("in", p.collection), SEPARATOR);
      FindPastWord("in", ' ', p.collection, SEPARATOR);
    }
  }

  /** A binding may itself hold `separator="`: this header takes its separator from inside the
      binding, and the loop it is, printed, does not reread. */
  lemma SeparatorInsideBinding()
    ensures ForHeader(Spaced("for", Spaced(SEPARATOR, Spaced("in", Spaced("xs", "\""))))) ==
            For(SEPARATOR, "xs", Some(" in xs "))
    ensures !Rereads(POpen(SEPARATOR, "xs", Some(" in xs ")))
  {
    FirstReading();
    var value := [' '] + Spaced("in", "xs");
    assert LoopNames(SEPARATOR, "xs") == SEPARATOR + value;
    assert |value + BEFORE_QUOTE| != |" in xs "|;
  }

  lemma SeparatorIsName()
    ensures IsName(SEPARATOR)
  {
  }

  /** The header `for separator=" in xs "`. */
  lemma FirstReading()
    ensures ForHeader(Spaced("for", Spaced(SEPARATOR, Spaced("in", Spaced("xs", "\""))))) ==
            For(SEPARATOR, "xs", Some(" in xs "))
  {
    FirstValue();
    ReadThrough("\"");
  }

  lemma FirstValue()
    ensures var value := [' '] + Spaced("in", Spaced("xs", "\""));
            IndexOf(value, '\"') == 7 && |value| > 7 && value[..7] == " in xs "
  {
    var value := [' '] + Spaced("in", Spaced("xs", "\""));
    IndexOfUnique(value, '\"', 7);
  }

  /** With `separator="` as the binding, the separator starts right after it. */
  lemma ReadThrough(tail: string)
    ensures var value := [' '] + Spaced("in", Spaced("xs", tail));
            var end := IndexOf(value, '\"');
            ForHeader(Spaced("for", Spaced(SEPARATOR, Spaced("in", Spaced("xs", tail))))) ==
            if end == |value| then Invalid(UnclosedSeparator) else For(SEPARATOR, "xs", Some(value[..end]))
  {
    var end := Spaced("xs", tail);
    WordsSpaced("xs", tail);
    SeparatorIsName();
    WordsOfLoop(SEPARATOR, end);
    SeparatorFromBinding(SEPARATOR, Spaced("in", end), [' '] + Spaced("in", end));
  }

  lemma WordsOfLoop(binding: string, end: string)
    requires IsName(binding) && Words(end) != []
    ensures var words := Words(Spaced("for", Spaced(binding, Spaced("in", end))));
            |words| >= 4 && words[1] == binding && words[2] == "in" && words[3] == Words(end)[0]
  {
    WordsSpaced("for", Spaced(binding, Spaced("in", end)));
    WordsSpaced(binding, Spaced("in", end));
    WordsSpaced("in", end);
  }

  lemma SeparatorFromBinding(binding: string, end: string, value: string)
    requires binding == SEPARATOR && value == [' '] + end
    ensures After(Spaced("for", Spaced(binding, end)), SEPARATOR) == Some(value)
  {
    AfterPastWord("for", ' ', Spaced(binding, end), SEPARATOR);
    assert Spaced(binding, end) == binding + value;
  }
}
