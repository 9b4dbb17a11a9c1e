/** Relative paths as the program writes them: names with `/` between, the root the empty text. */
module Paths {
  import opened Wrappers

  const SLASH := '/'

  /** `split('/')`. */
  function Split(path: string): (names: seq<string>)
    ensures names != []
  {
    if path == "" then [""]
    else
      var rest := Split(path[1..]);
      if path[0] == SLASH then [""] + rest else [[path[0]] + rest[0]] + rest[1..]
  }

  /** A path of `names` under `at`; the names of the root's entries are paths of their own. */
  function Under(at: string, name: string): string {
    if at == "" then name else at + [SLASH] + name
  }

  lemma {:induction false} SplitJoined(a: string, b: string)
    ensures Split(a + [SLASH] + b) == Split(a) + Split(b)
  {
    var whole := a + [SLASH] + b;
    if a == "" {
      assert whole[1..] == b;
    } else {
      assert whole[1..] == a[1..] + [SLASH] + b;
      SplitJoined(a[1..], b);
    }
  }

  predicate IsName(name: string) {
    name != "" && SLASH !in name
  }

  lemma {:induction false} SplitName(name: string)
    requires SLASH !in name
    ensures Split(name) == [name]
  {
    if name != "" {
      SplitName(name[1..]);
      assert name == [name[0]] + name[1..];
    }
  }

  /** `rsplit_once('/')`, its left half. */
  function Parent(path: string): Option<string> {
    if path == "" then None
    else if path[|path| - 1] == SLASH then Some(path[..|path| - 1])
    else Parent(path[..|path| - 1])
  }

  lemma {:induction false} ParentIsLastSlash(path: string)
    ensures match Parent(path)
            case None => SLASH !in path
            case Some(at) =>
              && |at| < |path| && path[..|at|] == at && path[|at|] == SLASH
              && forall i :: |at| < i < |path| ==> path[i] != SLASH
  {
    if path != "" && path[|path| - 1] != SLASH {
      var front := path[..|path| - 1];
      ParentIsLastSlash(front);
      assert path == front + [path[|path| - 1]];
    }
  }

  /** Whether `path` lies under the directory `dir`, at any depth. */
  predicate Below(dir: string, path: string) {
    |dir| < |path| && path[..|dir|] == dir && path[|dir|] == SLASH
  }

  /** What a path lies below is its parent, and what that lies below. */
  lemma BelowByParent(dir: string, path: string)
    ensures Below(dir, path) <==>
            Parent(path).Some? && (dir == Parent(path).value || Below(dir, Parent(path).value))
  {
    ParentIsLastSlash(path);
    match Parent(path)
    case None =>
    case Some(at) =>
      if Below(dir, path) && |dir| < |at| {
        assert at[..|dir|] == path[..|dir|] && at[|dir|] == path[|dir|];
      }
      if Below(dir, at) {
        assert path[..|dir|] == at[..|dir|] && at[|dir|] == path[|dir|];
      }
  }

  /** The directory a path stands in: its parent, or the root. */
  function Above(path: string): string {
    match Parent(path)
    case None => ""
    case Some(at) => at
  }

  lemma AboveShorter(path: string)
    requires path != ""
    ensures |Above(path)| < |path|
  {
    ParentIsLastSlash(path);
  }

  /** `matches('/').count()`. */
  function Depth(path: string): nat {
    if path == "" then 0 else (if path[0] == SLASH then 1 else 0) + Depth(path[1..])
  }

  lemma {:induction false} DepthJoined(a: string, b: string)
    ensures Depth(a + b) == Depth(a) + Depth(b)
  {
    if a == "" {
      assert a + b == b;
    } else {
      assert (a + b)[1..] == a[1..] + b;
      DepthJoined(a[1..], b);
    }
  }

  /** What lies below a directory is deeper than it. */
  lemma DeeperBelow(dir: string, path: string)
    requires Below(dir, path)
    ensures Depth(path) > Depth(dir)
  {
    assert path == dir + path[|dir|..];
    DepthJoined(dir, path[|dir|..]);
  }
}
