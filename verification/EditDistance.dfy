/**
 "Did you mean": the edit distance between two names, computed over one row in place, is the
 least number of single-character edits that turn one into the other.

 Levenshtein's recursion is the middle of the proof. The row holds its values for one prefix of
 the first text and all prefixes of the second; and what the recursion computes is a metric, no
 greater than the length of any list of edits and equal to the length of some list.
 */
module EditDistance {
  import opened Wrappers

  function Front(s: string): string
    requires s != ""
  {
    s[..|s| - 1]
  }

  function Last(s: string): char
    requires s != ""
  {
    s[|s| - 1]
  }

  function Differ(a: string, b: string): nat
    requires a != "" && b != ""
  {
    if Last(a) == Last(b) then 0 else 1
  }

  /** Levenshtein's recursion, on the last characters. */
  function Distance(a: string, b: string): nat
    decreases |a| + |b|
  {
    if a == "" then |b|
    else if b == "" then |a|
    else
      Min(Min(Distance(Front(a), Front(b)) + Differ(a, b), Distance(Front(a), b) + 1), Distance(a, Front(b)) + 1)
  }

  /** The distance between the first `i` characters of `a` and the first `j` of `b`. */
  ghost function Cell(a: string, b: string, i: nat, j: nat): nat
    requires i <= |a| && j <= |b|
  {
    Distance(a[..i], b[..j])
  }

  lemma CellStep(a: string, b: string, i: nat, j: nat)
    requires i < |a| && j < |b|
    ensures Cell(a, b, i + 1, j + 1) ==
            Min(Min(Cell(a, b, i, j) + (if a[i] != b[j] then 1 else 0), Cell(a, b, i, j + 1) + 1), Cell(a, b, i + 1, j) + 1)
  {
    assert Front(a[..i + 1]) == a[..i] && Front(b[..j + 1]) == b[..j];
  }

  lemma CellEdges(a: string, b: string, i: nat, j: nat)
    requires i <= |a| && j <= |b|
    ensures Cell(a, b, i, 0) == i && Cell(a, b, 0, j) == j
  {
  }

  /** The row, in place: left of `j` it is already the next one. */
  method EditDistance(a: string, b: string) returns (distance: nat)
    ensures distance == Distance(a, b)
  {
    var row := new nat[|b| + 1](j => j);
    forall j | 0 <= j <= |b| ensures row[j] == Cell(a, b, 0, j) {
      CellEdges(a, b, 0, j);
    }
    for i := 0 to |a|
      invariant forall j :: 0 <= j <= |b| ==> row[j] == Cell(a, b, i, j)
    {
      var diagonal := row[0];
      row[0] := i + 1;
      CellEdges(a, b, i + 1, 0);
      for j := 0 to |b|
        invariant forall k :: 0 <= k <= j ==> row[k] == Cell(a, b, i + 1, k)
        invariant forall k :: j < k <= |b| ==> row[k] == Cell(a, b, i, k)
        invariant diagonal == Cell(a, b, i, j)
      {
        var above := row[j + 1];
        CellStep(a, b, i, j);
        row[j + 1] := Min(Min(diagonal + (if a[i] != b[j] then 1 else 0), above + 1), row[j] + 1);
        diagonal := above;
      }
    }
    assert a[..|a|] == a && b[..|b|] == b;
    distance := row[|b|];
  }

  // ---- What the distance measures ----

  lemma {:induction false} ZeroIsEqual(a: string, b: string)
    ensures Distance(a, b) == 0 <==> a == b
    decreases |a| + |b|
  {
    if a != "" && b != "" {
      ZeroIsEqual(Front(a), Front(b));
      assert a == Front(a) + [Last(a)] && b == Front(b) + [Last(b)];
    }
  }

  lemma {:induction false} Symmetric(a: string, b: string)
    ensures Distance(a, b) == Distance(b, a)
    decreases |a| + |b|
  {
    if a != "" && b != "" {
      Symmetric(Front(a), Front(b));
      Symmetric(Front(a), b);
      Symmetric(a, Front(b));
    }
  }

  lemma {:induction false} LengthBounds(a: string, b: string)
    ensures |a| <= |b| + Distance(a, b) && |b| <= |a| + Distance(a, b)
    ensures Distance(a, b) <= |a| + |b|
    decreases |a| + |b|
  {
    if a != "" && b != "" {
      LengthBounds(Front(a), Front(b));
      LengthBounds(Front(a), b);
      LengthBounds(a, Front(b));
    }
  }

  lemma {:induction false} Triangle(a: string, b: string, c: string)
    ensures Distance(a, c) <= Distance(a, b) + Distance(b, c)
    decreases |a| + |b| + |c|
  {
    if a == "" || b == "" || c == "" {
      LengthBounds(a, b);
      LengthBounds(b, c);
      LengthBounds(a, c);
    } else {
      Triangle(Front(a), b, c);
      Triangle(a, b, Front(c));
      Triangle(a, Front(b), c);
      Triangle(a, Front(b), Front(c));
      Triangle(Front(a), Front(b), c);
      Triangle(Front(a), Front(b), Front(c));
    }
  }

  /** One character inserted, deleted or replaced. */
  datatype Edit = Insert(at: nat, c: char) | Delete(at: nat) | Replace(at: nat, c: char)

  function Apply(edit: Edit, s: string): Option<string> {
    match edit
    case Insert(i, c) => if i <= |s| then Some(s[..i] + [c] + s[i..]) else None
    case Delete(i) => if i < |s| then Some(s[..i] + s[i + 1..]) else None
    case Replace(i, c) => if i < |s| then Some(s[..i] + [c] + s[i + 1..]) else None
  }

  function ApplyAll(edits: seq<Edit>, s: string): Option<string>
    decreases |edits|
  {
    if edits == [] then Some(s)
    else
      match Apply(edits[0], s)
      case None => None
      case Some(next) => ApplyAll(edits[1..], next)
  }

  /** A common ending costs nothing. */
  lemma {:induction false} SameEnding(a: string, b: string, ending: string)
    ensures Distance(a + ending, b + ending) <= Distance(a, b)
    decreases |ending|
  {
    if ending == "" {
      assert a + ending == a && b + ending == b;
    } else {
      assert Front(a + ending) == a + Front(ending) && Front(b + ending) == b + Front(ending);
      SameEnding(a, b, Front(ending));
    }
  }

  lemma OneMore(s: string, c: char)
    ensures Distance(s, s + [c]) <= 1 && Distance(s + [c], s) <= 1
  {
    assert Front(s + [c]) == s;
    ZeroIsEqual(s, s);
  }

  lemma OneOther(s: string, c: char, d: char)
    ensures Distance(s + [c], s + [d]) <= 1
  {
    assert Front(s + [c]) == s && Front(s + [d]) == s;
    ZeroIsEqual(s, s);
  }

  lemma OneEditIsOne(edit: Edit, a: string)
    ensures Apply(edit, a).Some? ==> Distance(a, Apply(edit, a).value) <= 1
  {
    var i := edit.at;
    if i <= |a| {
      assert a == a[..i] + a[i..];
    }
    match edit
    case Insert(_, c) =>
      if i <= |a| {
        OneMore(a[..i], c);
        SameEnding(a[..i], a[..i] + [c], a[i..]);
      }
    case Delete(_) =>
      if i < |a| {
        assert a == a[..i] + [a[i]] + a[i + 1..];
        OneMore(a[..i], a[i]);
        SameEnding(a[..i] + [a[i]], a[..i], a[i + 1..]);
      }
    case Replace(_, c) =>
      if i < |a| {
        assert a == a[..i] + [a[i]] + a[i + 1..];
        OneOther(a[..i], a[i], c);
        SameEnding(a[..i] + [a[i]], a[..i] + [c], a[i + 1..]);
      }
  }

  /** No list of edits from `a` to `b` is shorter than the distance. */
  lemma {:induction false} NoFewerEdits(edits: seq<Edit>, a: string, b: string)
    requires ApplyAll(edits, a) == Some(b)
    ensures Distance(a, b) <= |edits|
    decreases |edits|
  {
    if edits == [] {
      ZeroIsEqual(a, b);
    } else {
      var next := Apply(edits[0], a).value;
      OneEditIsOne(edits[0], a);
      NoFewerEdits(edits[1..], next, b);
      Triangle(a, next, b);
    }
  }

  lemma {:induction false} OneEditAfter(edits: seq<Edit>, a: string, b: string, edit: Edit)
    requires ApplyAll(edits, a) == Some(b)
    ensures ApplyAll(edits + [edit], a) == Apply(edit, b)
    decreases |edits|
  {
    if edits != [] {
      assert (edits + [edit])[1..] == edits[1..] + [edit];
      OneEditAfter(edits[1..], Apply(edits[0], a).value, b, edit);
    } else {
      assert edits + [edit] == [edit] && [edit][1..] == [];
    }
  }

  lemma ApplyWithLast(edit: Edit, s: string, last: char)
    requires Apply(edit, s).Some?
    ensures Apply(edit, s + [last]) == Some(Apply(edit, s).value + [last])
  {
    var i, longer := edit.at, s + [last];
    assert longer[..i] == s[..i];
    match edit
    case Insert(_, c) =>
      assert longer[i..] == s[i..] + [last];
      assert s[..i] + [c] + (s[i..] + [last]) == s[..i] + [c] + s[i..] + [last];
    case Delete(_) =>
      assert longer[i + 1..] == s[i + 1..] + [last];
      assert s[..i] + (s[i + 1..] + [last]) == s[..i] + s[i + 1..] + [last];
    case Replace(_, c) =>
      assert longer[i + 1..] == s[i + 1..] + [last];
      assert s[..i] + [c] + (s[i + 1..] + [last]) == s[..i] + [c] + s[i + 1..] + [last];
  }

  /** The three edits at the end. */
  lemma EditsOfLast(s: string, c: char, d: char)
    ensures Apply(Insert(|s|, c), s) == Some(s + [c])
    ensures Apply(Delete(|s|), s + [c]) == Some(s)
    ensures Apply(Replace(|s|, d), s + [c]) == Some(s + [d])
  {
    assert s[..|s|] == s && s[|s|..] == "";
    assert (s + [c])[..|s|] == s && (s + [c])[|s| + 1..] == "";
    assert s + [c] + "" == s + [c] && s + [d] + "" == s + [d] && s + "" == s;
  }

  /** Edits of the front are edits of the whole. */
  lemma {:induction false} ApplyAllWithLast(edits: seq<Edit>, a: string, b: string, last: char)
    requires ApplyAll(edits, a) == Some(b)
    ensures ApplyAll(edits, a + [last]) == Some(b + [last])
    decreases |edits|
  {
    if edits != [] {
      ApplyWithLast(edits[0], a, last);
      ApplyAllWithLast(edits[1..], Apply(edits[0], a).value, b, last);
    }
  }

  lemma DeleteThen(a: string, b: string, rest: seq<Edit>)
    requires a != "" && ApplyAll(rest, Front(a)) == Some(b)
    ensures ApplyAll([Delete(|a| - 1)] + rest, a) == Some(b)
  {
    assert ([Delete(|a| - 1)] + rest)[1..] == rest && a == Front(a) + [Last(a)];
    EditsOfLast(Front(a), Last(a), Last(a));
  }

  lemma ThenInsert(a: string, b: string, rest: seq<Edit>)
    requires b != "" && ApplyAll(rest, a) == Some(Front(b))
    ensures ApplyAll(rest + [Insert(|b| - 1, Last(b))], a) == Some(b)
  {
    OneEditAfter(rest, a, Front(b), Insert(|b| - 1, Last(b)));
    assert b == Front(b) + [Last(b)];
    EditsOfLast(Front(b), Last(b), Last(b));
  }

  /** And some list is exactly that long. */
  lemma {:induction false} EnoughEdits(a: string, b: string) returns (edits: seq<Edit>)
    ensures ApplyAll(edits, a) == Some(b) && |edits| == Distance(a, b)
    decreases |a| + |b|
  {
    if a == "" && b == "" {
      edits := [];
    } else if a != "" && (b == "" || Distance(a, b) == Distance(Front(a), b) + 1) {
      var rest := EnoughEdits(Front(a), b);
      edits := [Delete(|a| - 1)] + rest;
      DeleteThen(a, b, rest);
    } else if a == "" || Distance(a, b) == Distance(a, Front(b)) + 1 {
      var rest := EnoughEdits(a, Front(b));
      edits := rest + [Insert(|b| - 1, Last(b))];
      ThenInsert(a, b, rest);
    } else {
      edits := EditsOnFronts(a, b);
    }
  }

  lemma EditsOnFronts(a: string, b: string) returns (edits: seq<Edit>)
    requires a != "" && b != ""
    ensures ApplyAll(edits, a) == Some(b) && |edits| == Distance(Front(a), Front(b)) + Differ(a, b)
    decreases |a| + |b|, 0
  {
    var fronts := EnoughEdits(Front(a), Front(b));
    assert a == Front(a) + [Last(a)] && b == Front(b) + [Last(b)];
    ApplyAllWithLast(fronts, Front(a), Front(b), Last(a));
    if Last(a) == Last(b) {
      edits := fronts;
    } else {
      var almost, edit := Front(b) + [Last(a)], Replace(|b| - 1, Last(b));
      edits := fronts + [edit];
      OneEditAfter(fronts, a, almost, edit);
      EditsOfLast(Front(b), Last(a), Last(b));
    }
  }

  // ---- The closest of the known names ----

  function Utf8Length(s: string): nat {
    if s == "" then 0 else
      var c := s[0] as int;
      (if c < 0x80 then 1 else if c < 0x800 then 2 else if c < 0x1_0000 then 3 else 4) + Utf8Length(s[1..])
  }

  /** Close enough to be a slip: two edits at most, and fewer than the name has bytes. */
  predicate IsClose(name: string, known: string) {
    Distance(name, known) <= 2 && Distance(name, known) < Utf8Length(known)
  }

  /** The first of the close names at the least distance; none only when none is close. */
  method Closest(name: string, known: seq<string>) returns (best: Option<string>)
    ensures best.None? <==> forall k :: k in known ==> !IsClose(name, k)
    ensures best.Some? ==> exists i ::
                             && 0 <= i < |known| && known[i] == best.value && IsClose(name, known[i])
                             && (forall j :: 0 <= j < |known| && IsClose(name, known[j]) ==>
                                   Distance(name, known[i]) <= Distance(name, known[j]))
                             && (forall j :: 0 <= j < i && IsClose(name, known[j]) ==>
                                   Distance(name, known[i]) < Distance(name, known[j]))
  {
    best := None;
    var bestDistance, at := 0, 0;
    for i := 0 to |known|
      invariant best.None? <==> forall j :: 0 <= j < i ==> !IsClose(name, known[j])
      invariant best.Some? ==>
                  && at < i && known[at] == best.value && IsClose(name, known[at])
                  && bestDistance == Distance(name, known[at])
      invariant best.Some? ==> forall j :: 0 <= j < i && IsClose(name, known[j]) ==>
                                 bestDistance <= Distance(name, known[j])
      invariant best.Some? ==> forall j :: 0 <= j < at && IsClose(name, known[j]) ==>
                                 bestDistance < Distance(name, known[j])
    {
      var distance := EditDistance(name, known[i]);
      if distance <= 2 && distance < Utf8Length(known[i]) {
        if best.None? || distance < bestDistance {
          best, bestDistance, at := Some(known[i]), distance, i;
        }
      }
    }
  }
}
