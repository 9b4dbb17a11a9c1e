/**
 `exclude` globs: `*` and `?` within a name, `**` over names. The tables the program fills are
 proved to decide the plain recursive definition.
 */
module Globs {
  /** One element of a pattern: any run of things, or one thing that passes a test. */
  datatype Pat<!T> = Many | One(test: T -> bool)

  /** What a pattern matches. */
  function Matches<T>(ps: seq<Pat<T>>, xs: seq<T>): bool
    decreases |ps| + |xs|
  {
    if ps == [] then xs == []
    else
      match ps[0]
      case Many => Matches(ps[1..], xs) || (xs != [] && Matches(ps, xs[1..]))
      case One(test) => xs != [] && test(xs[0]) && Matches(ps[1..], xs[1..])
  }

  /** A pattern's last element decides the end of what it matches: a run of any length, or
      exactly one thing. */
  lemma {:induction false} MatchesLast<T>(ps: seq<Pat<T>>, last: Pat<T>, xs: seq<T>)
    ensures Matches(ps + [last], xs) <==>
            match last
            case Many => exists k :: 0 <= k <= |xs| && Matches(ps, xs[..k])
            case One(test) => xs != [] && test(xs[|xs| - 1]) && Matches(ps, xs[..|xs| - 1])
    decreases |ps| + |xs|
  {
    var all := ps + [last];
    if ps == [] {
      assert all == [last];
      LastAlone(last, xs);
    } else {
      assert all[0] == ps[0] && all[1..] == ps[1..] + [last];
      MatchesLast(ps[1..], last, xs);
      if xs != [] {
        MatchesLast(ps[1..], last, xs[1..]);
        MatchesLast(ps, last, xs[1..]);
      }
      if last.Many? {
        ManyAtEnd(ps, xs);
      } else {
        OneAtEnd(ps, xs);
      }
    }
  }

  lemma {:induction false} LastAlone<T>(last: Pat<T>, xs: seq<T>)
    ensures Matches([last], xs) <==>
            match last
            case Many => true
            case One(test) => |xs| == 1 && test(xs[0])
    ensures exists k :: 0 <= k <= |xs| && Matches<T>([], xs[..k])
    ensures xs != [] ==> (Matches([], xs[..|xs| - 1]) <==> |xs| == 1)
  {
    assert [last][1..] == [];
    assert xs[..0] == [];
    if last.Many? && xs != [] {
      LastAlone(last, xs[1..]);
    }
  }

  /** Some prefix of `xs` matches `ps`, by `ps`'s first element. */
  lemma ManyAtEnd<T>(ps: seq<Pat<T>>, xs: seq<T>)
    requires ps != []
    ensures (exists k :: 0 <= k <= |xs| && Matches(ps, xs[..k])) <==>
            match ps[0]
            case Many =>
              (exists k :: 0 <= k <= |xs| && Matches(ps[1..], xs[..k]))
              || (xs != [] && exists k :: 0 <= k <= |xs[1..]| && Matches(ps, xs[1..][..k]))
            case One(test) =>
              xs != [] && test(xs[0]) && exists k :: 0 <= k <= |xs[1..]| && Matches(ps[1..], xs[1..][..k])
  {
    forall k | 0 < k <= |xs| ensures xs[..k][1..] == xs[1..][..k - 1] && xs[..k][0] == xs[0] {
    }
    if k :| 0 <= k <= |xs| && Matches(ps, xs[..k]) {
      if k > 0 {
        assert xs[..k][1..] == xs[1..][..k - 1];
      }
    }
    if xs != [] {
      forall k | 0 <= k <= |xs[1..]| ensures xs[..k + 1][1..] == xs[1..][..k] && xs[..k + 1][0] == xs[0] {
      }
      if k :| 0 <= k <= |xs[1..]| && Matches(ps, xs[1..][..k]) {
        assert xs[..k + 1][1..] == xs[1..][..k];
        assert ps[0].Many? ==> Matches(ps, xs[..k + 1]);
      }
      if k :| 0 <= k <= |xs[1..]| && Matches(ps[1..], xs[1..][..k]) {
        assert xs[..k + 1][1..] == xs[1..][..k];
        assert ps[0].One? && ps[0].test(xs[0]) ==> Matches(ps, xs[..k + 1]);
      }
    }
    if ps[0].Many? {
      if k :| 0 <= k <= |xs| && Matches(ps[1..], xs[..k]) {
        assert Matches(ps, xs[..k]);
      }
    }
  }

  /** The same for a prefix one shorter than `xs`. */
  lemma OneAtEnd<T>(ps: seq<Pat<T>>, xs: seq<T>)
    requires ps != []
    ensures xs != [] ==>
              var front := xs[..|xs| - 1];
              Matches(ps, front) <==>
              match ps[0]
              case Many => Matches(ps[1..], front) || (|xs| > 1 && Matches(ps, xs[1..][..|xs| - 2]))
              case One(test) => |xs| > 1 && test(xs[0]) && Matches(ps[1..], xs[1..][..|xs| - 2])
  {
    if |xs| > 1 {
      assert xs[..|xs| - 1][1..] == xs[1..][..|xs| - 2];
    }
  }

  // ---- Globs over one name ----

  function NamePat(c: char): Pat<char> {
    if c == '*' then Many
    else if c == '?' then One(_ => true)
    else One((x: char) => x == c)
  }

  function NamePats(glob: string): seq<Pat<char>> {
    seq(|glob|, i requires 0 <= i < |glob| => NamePat(glob[i]))
  }

  function NameMatches(glob: string, name: string): bool {
    Matches(NamePats(glob), name)
  }

  /** `*` is any run of characters, `?` any one, anything else itself. */
  lemma NameMatchesIsRecursive(glob: string, name: string)
    ensures NameMatches(glob, name) <==>
            if glob == "" then name == ""
            else if glob[0] == '*' then
              NameMatches(glob[1..], name) || (name != "" && NameMatches(glob, name[1..]))
            else
              name != "" && (glob[0] == '?' || glob[0] == name[0]) && NameMatches(glob[1..], name[1..])
  {
    if glob != "" {
      assert NamePats(glob)[1..] == NamePats(glob[1..]);
    }
  }

  /** A row of the table: which prefixes of `xs` the pattern matches. */
  ghost predicate RowOf<T>(row: seq<bool>, ps: seq<Pat<T>>, xs: seq<T>) {
    |row| == |xs| + 1 && forall j :: 0 <= j <= |xs| ==> row[j] == Matches(ps, xs[..j])
  }

  lemma NextRow<T>(row: seq<bool>, next: seq<bool>, ps: seq<Pat<T>>, last: Pat<T>, xs: seq<T>)
    requires RowOf(row, ps, xs) && |next| == |row|
    requires last.Many? ==> forall j :: 0 <= j <= |xs| ==> next[j] == exists k :: 0 <= k <= j && row[k]
    requires last.One? ==>
               !next[0] && forall j :: 1 <= j <= |xs| ==> next[j] == (row[j - 1] && last.test(xs[j - 1]))
    ensures RowOf(next, ps + [last], xs)
  {
    forall j | 0 <= j <= |xs| ensures next[j] == Matches(ps + [last], xs[..j]) {
      var front := xs[..j];
      MatchesLast(ps, last, front);
      if last.Many? {
        forall k | 0 <= k <= j ensures front[..k] == xs[..k] {
        }
      } else if j > 0 {
        assert front[..j - 1] == xs[..j - 1];
      }
    }
  }

  method NameMatchesTable(glob: string, name: string) returns (matched: bool)
    ensures matched == NameMatches(glob, name)
  {
    var row := seq(|name| + 1, j => j == 0);
    assert NamePats(glob)[..0] == [];
    for i := 0 to |glob|
      invariant RowOf(row, NamePats(glob)[..i], name)
    {
      var next := seq(|name| + 1, _ => false);
      match glob[i] {
        case '*' => next := RunningAny(row);
        case '?' => next := [false] + row[..|name|];
        case c => next := [false] + seq(|name|, j requires 0 <= j < |name| => row[j] && name[j] == c);
      }
      NextRow(row, next, NamePats(glob)[..i], NamePat(glob[i]), name);
      assert NamePats(glob)[..i + 1] == NamePats(glob)[..i] + [NamePat(glob[i])];
      row := next;
    }
    assert NamePats(glob)[..|glob|] == NamePats(glob) && name[..|name|] == name;
    matched := row[|name|];
  }

  /** Whether any entry up to each one is set. */
  method RunningAny(row: seq<bool>) returns (next: seq<bool>)
    ensures |next| == |row|
    ensures forall j :: 0 <= j < |row| ==> next[j] == exists k :: 0 <= k <= j && row[k]
  {
    next := [];
    var any := false;
    for j := 0 to |row|
      invariant |next| == j && any == exists k :: 0 <= k < j && row[k]
      invariant forall m :: 0 <= m < j ==> next[m] == exists k :: 0 <= k <= m && row[k]
    {
      any := any || row[j];
      next := next + [any];
    }
  }

  // ---- Patterns over the names of a path ----

  const ANY_NAMES := "**"

  function SegmentPat(segment: string): Pat<string> {
    if segment == ANY_NAMES then Many else One((name: string) => NameMatches(segment, name))
  }

  function SegmentPats(segments: seq<string>): seq<Pat<string>> {
    seq(|segments|, i requires 0 <= i < |segments| => SegmentPat(segments[i]))
  }

  /** Pattern names against path names, `**` standing for any number of them. */
  function SegmentsMatch(segments: seq<string>, names: seq<string>): bool {
    Matches(SegmentPats(segments), names)
  }

  /** `**` is any run of names, none included; any other name is a glob for one name. */
  lemma SegmentsMatchIsRecursive(segments: seq<string>, names: seq<string>)
    ensures SegmentsMatch(segments, names) <==>
            if segments == [] then names == []
            else if segments[0] == ANY_NAMES then
              SegmentsMatch(segments[1..], names) || (names != [] && SegmentsMatch(segments, names[1..]))
            else
              names != [] && NameMatches(segments[0], names[0]) && SegmentsMatch(segments[1..], names[1..])
  {
    if segments != [] {
      assert SegmentPats(segments)[1..] == SegmentPats(segments[1..]);
    }
  }

  method SegmentsMatchTable(segments: seq<string>, names: seq<string>) returns (matched: bool)
    ensures matched == SegmentsMatch(segments, names)
  {
    var row := seq(|names| + 1, j => j == 0);
    assert SegmentPats(segments)[..0] == [];
    for i := 0 to |segments|
      invariant RowOf(row, SegmentPats(segments)[..i], names)
    {
      var segment := segments[i];
      var next := [];
      if segment == ANY_NAMES {
        next := RunningAny(row);
      } else {
        next := [false];
        for j := 0 to |names|
          invariant |next| == j + 1 && !next[0]
          invariant forall m :: 1 <= m <= j ==> next[m] == (row[m - 1] && NameMatches(segment, names[m - 1]))
        {
          var matches := NameMatchesTable(segment, names[j]);
          next := next + [row[j] && matches];
        }
      }
      NextRow(row, next, SegmentPats(segments)[..i], SegmentPat(segment), names);
      assert SegmentPats(segments)[..i + 1] == SegmentPats(segments)[..i] + [SegmentPat(segment)];
      row := next;
    }
    assert SegmentPats(segments)[..|segments|] == SegmentPats(segments) && names[..|names|] == names;
    matched := row[|names|];
  }
}
