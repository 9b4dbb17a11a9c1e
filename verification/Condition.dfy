/**
 `when=` conditions: evaluation in three values, with short-circuiting and errors.

 In a preview some variables are unknown. `PreviewIsSound` says what a preview's answer means
 for every run it could be a preview of.
 */
module Condition {
  import opened Wrappers

  datatype Op = Eq | Ne

  datatype Operand = Var(name: string) | Literal(text: string)

  datatype Atom =
    | Defined(name: string)
    | Undefined(name: string)
    | Truthy(operand: Operand)
    | Compare(left: Operand, op: Op, right: Operand)

  datatype Term = Term(negated: bool, atom: Atom)

  /** Any of the groups, each of which is all of its terms. */
  type Groups = seq<seq<Term>>

  datatype Outcome = True | False | Undetermined(name: string)

  datatype EvalError = StructuredVariable(name: string) | UndefinedVariable(name: string)

  type Evaluated = Result<Outcome, EvalError>

  type Rows = seq<map<string, string>>

  /** Everything a condition can see on one host. A name in `unknown` is defined but not known
      when it is in `vars`, and may or may not be defined otherwise. */
  datatype Scope = Scope(vars: map<string, string>, collections: map<string, Rows>, unknown: set<string>)

  predicate IsDefined(scope: Scope, name: string) {
    name in scope.vars || name in scope.collections
  }

  predicate PresenceUnknown(scope: Scope, name: string) {
    name in scope.unknown && name !in scope.vars
  }

  // ---- Evaluation ----

  datatype Value = Known(text: string) | NotKnown(name: string)

  function ValueOf(operand: Operand, scope: Scope): Result<Value, EvalError> {
    match operand
    case Literal(text) => Ok(Known(text))
    case Var(name) =>
      if name in scope.unknown then Ok(NotKnown(name))
      else if name in scope.vars then Ok(Known(scope.vars[name]))
      else if name in scope.collections then Err(StructuredVariable(name))
      else Err(UndefinedVariable(name))
  }

  predicate IsTruthy(text: string) {
    text != "" && text != "false" && text != "0"
  }

  function Decided(holds: bool, negated: bool): Evaluated {
    Ok(if holds != negated then True else False)
  }

  function EvalTerm(term: Term, scope: Scope): Evaluated {
    match term.atom
    case Defined(name) =>
      if PresenceUnknown(scope, name) then Ok(Undetermined(name))
      else Decided(IsDefined(scope, name), term.negated)
    case Undefined(name) =>
      if PresenceUnknown(scope, name) then Ok(Undetermined(name))
      else Decided(!IsDefined(scope, name), term.negated)
    case Truthy(operand) =>
      (match ValueOf(operand, scope)
       case Err(error) => Err(error)
       case Ok(NotKnown(name)) => Ok(Undetermined(name))
       case Ok(Known(text)) => Decided(IsTruthy(text), term.negated))
    case Compare(left, op, right) =>
      match ValueOf(left, scope)
      case Err(error) => Err(error)
      case Ok(l) =>
        match ValueOf(right, scope)
        case Err(error) => Err(error)
        case Ok(r) =>
          if l.NotKnown? then Ok(Undetermined(l.name))
          else if r.NotKnown? then Ok(Undetermined(r.name))
          else Decided((l.text == r.text) == (op == Eq), term.negated)
  }

  function FirstOf(seen: Option<string>, name: string): Option<string> {
    if seen.Some? then seen else Some(name)
  }

  /** An answer reached with `seen` undetermined on the way, or `otherwise`. */
  function Settled(seen: Option<string>, otherwise: Evaluated): Evaluated {
    match seen case Some(name) => Ok(Undetermined(name)) case None => otherwise
  }

  /** The rest of a group, with `seen` the first undetermined name so far. */
  function AllFrom(terms: seq<Term>, scope: Scope, seen: Option<string>): Evaluated {
    if terms == [] then Settled(seen, Ok(True))
    else
      match EvalTerm(terms[0], scope)
      case Ok(False) => Ok(False)
      case Ok(True) => AllFrom(terms[1..], scope, seen)
      case Ok(Undetermined(name)) => AllFrom(terms[1..], scope, FirstOf(seen, name))
      case Err(error) => Settled(seen, Err(error))
  }

  function AnyFrom(groups: Groups, scope: Scope, seen: Option<string>): Evaluated {
    if groups == [] then Settled(seen, Ok(False))
    else
      match AllFrom(groups[0], scope, None)
      case Ok(True) => Ok(True)
      case Ok(False) => AnyFrom(groups[1..], scope, seen)
      case Ok(Undetermined(name)) => AnyFrom(groups[1..], scope, FirstOf(seen, name))
      case Err(error) => Settled(seen, Err(error))
  }

  function Eval(groups: Groups, scope: Scope): Evaluated {
    AnyFrom(groups, scope, None)
  }

  method EvalAllTerms(terms: seq<Term>, scope: Scope) returns (r: Evaluated)
    ensures r == AllFrom(terms, scope, None)
  {
    var undetermined: Option<string> := None;
    var i := 0;
    assert terms[0..] == terms;
    while i < |terms|
      invariant i <= |terms|
      invariant AllFrom(terms, scope, None) == AllFrom(terms[i..], scope, undetermined)
    {
      assert terms[i..][1..] == terms[i + 1..];
      match EvalTerm(terms[i], scope) {
        case Ok(False) => return Ok(False);
        case Ok(True) =>
        case Ok(Undetermined(name)) => undetermined := FirstOf(undetermined, name);
        case Err(error) => return Settled(undetermined, Err(error));
      }
      i := i + 1;
    }
    r := Settled(undetermined, Ok(True));
  }

  method EvalCondition(groups: Groups, scope: Scope) returns (r: Evaluated)
    ensures r == Eval(groups, scope)
  {
    var undetermined: Option<string> := None;
    var i := 0;
    assert groups[0..] == groups;
    while i < |groups|
      invariant i <= |groups|
      invariant Eval(groups, scope) == AnyFrom(groups[i..], scope, undetermined)
    {
      assert groups[i..][1..] == groups[i + 1..];
      var all := EvalAllTerms(groups[i], scope);
      match all {
        case Ok(True) => return Ok(True);
        case Ok(False) =>
        case Ok(Undetermined(name)) => undetermined := FirstOf(undetermined, name);
        case Err(error) => return Settled(undetermined, Err(error));
      }
      i := i + 1;
    }
    r := Settled(undetermined, Ok(False));
  }

  // ---- The names a condition refers to ----

  function OperandNames(operand: Operand): set<string> {
    match operand case Var(name) => {name} case Literal(_) => {}
  }

  /** The names whose value a term reads. */
  function TermReads(term: Term): set<string> {
    match term.atom
    case Truthy(operand) => OperandNames(operand)
    case Compare(left, _, right) => OperandNames(left) + OperandNames(right)
    case _ => {}
  }

  function TermNames(term: Term): set<string> {
    match term.atom
    case Defined(name) => {name}
    case Undefined(name) => {name}
    case _ => TermReads(term)
  }

  predicate RefersTo(groups: Groups, name: string) {
    exists group, term :: group in groups && term in group && name in TermNames(term)
  }

  // ---- A preview and the runs it could be a preview of ----

  /** What `preview` says of `name` holds in `run`. */
  ghost predicate Agrees(preview: Scope, run: Scope, name: string) {
    if name in preview.unknown then
      name in preview.vars ==> IsDefined(run, name)
    else
      && (name in preview.vars <==> name in run.vars)
      && (name in preview.vars ==> preview.vars[name] == run.vars[name])
      && (name in preview.collections <==> name in run.collections)
  }

  ghost predicate Consistent(groups: Groups, preview: Scope, run: Scope) {
    run.unknown == {} && forall name :: RefersTo(groups, name) ==> Agrees(preview, run, name)
  }

  /** A term's answer in a preview is its answer in the run; one it cannot decide names an
      unknown variable. */
  lemma TermIsSound(term: Term, preview: Scope, run: Scope)
    requires run.unknown == {} && forall name :: name in TermNames(term) ==> Agrees(preview, run, name)
    ensures match EvalTerm(term, preview)
            case Ok(Undetermined(name)) => name in preview.unknown && name in TermNames(term)
            case Ok(answer) => EvalTerm(term, run) == Ok(answer)
            case Err(_) => EvalTerm(term, run).Err?
    ensures EvalTerm(term, run) == Ok(True) || EvalTerm(term, run) == Ok(False) || EvalTerm(term, run).Err?
  {
    match term.atom
    case Defined(name) => assert Agrees(preview, run, name);
    case Undefined(name) => assert Agrees(preview, run, name);
    case Truthy(operand) => OperandIsSound(operand, preview, run);
    case Compare(left, _, right) =>
      OperandIsSound(left, preview, run);
      OperandIsSound(right, preview, run);
  }

  lemma OperandIsSound(operand: Operand, preview: Scope, run: Scope)
    requires run.unknown == {} && forall name :: name in OperandNames(operand) ==> Agrees(preview, run, name)
    ensures match ValueOf(operand, preview)
            case Ok(NotKnown(name)) => name in preview.unknown && name in OperandNames(operand)
            case Ok(value) => ValueOf(operand, run) == Ok(value)
            case Err(_) => ValueOf(operand, run).Err?
    ensures ValueOf(operand, run).Err? || ValueOf(operand, run).value.Known?
  {
    if operand.Var? {
      assert Agrees(preview, run, operand.name);
    }
  }

  ghost predicate TermsAgree(terms: seq<Term>, preview: Scope, run: Scope) {
    run.unknown == {} && forall term, name :: term in terms && name in TermNames(term) ==> Agrees(preview, run, name)
  }

  lemma {:induction false} GroupIsSound(terms: seq<Term>, preview: Scope, run: Scope, seen: Option<string>)
    requires TermsAgree(terms, preview, run)
    ensures var p, r := AllFrom(terms, preview, seen), AllFrom(terms, run, None);
            match p
            case Ok(True) => seen.None? && r == Ok(True)
            case Ok(False) => r == Ok(False) || r.Err?
            case Ok(Undetermined(name)) =>
              seen == Some(name)
              || (name in preview.unknown && exists term :: term in terms && name in TermNames(term))
            case Err(_) => seen.None? && r.Err?
    ensures AllFrom(terms, run, None) == Ok(True) || AllFrom(terms, run, None) == Ok(False)
            || AllFrom(terms, run, None).Err?
  {
    if terms != [] {
      assert terms[0] in terms && forall term :: term in terms[1..] ==> term in terms;
      TermIsSound(terms[0], preview, run);
      GroupIsSound(terms[1..], preview, run, seen);
      match EvalTerm(terms[0], preview)
      case Ok(Undetermined(name)) => GroupIsSound(terms[1..], preview, run, FirstOf(seen, name));
      case _ =>
    }
  }

  lemma {:induction false} GroupsAreSound(groups: Groups, preview: Scope, run: Scope, seen: Option<string>)
    requires Consistent(groups, preview, run)
    ensures var p, r := AnyFrom(groups, preview, seen), AnyFrom(groups, run, None);
            match p
            case Ok(True) => r == Ok(True) || r.Err?
            case Ok(False) => seen.None? && (r == Ok(False) || r.Err?)
            case Ok(Undetermined(name)) =>
              seen == Some(name) || (name in preview.unknown && RefersTo(groups, name))
            case Err(_) => seen.None? && r.Err?
    ensures AnyFrom(groups, run, None) == Ok(True) || AnyFrom(groups, run, None) == Ok(False)
            || AnyFrom(groups, run, None).Err?
  {
    if groups != [] {
      var group, later := groups[0], groups[1..];
      assert group in groups && forall g :: g in later ==> g in groups;
      GroupIsSound(group, preview, run, None);
      GroupsAreSound(later, preview, run, seen);
      match AllFrom(group, preview, None)
      case Ok(Undetermined(name)) =>
        GroupsAreSound(later, preview, run, FirstOf(seen, name));
      case _ =>
    }
  }

  /** What a preview's answer means for every run consistent with it: true and false stay so,
      or the run fails reading a variable that is not there; an error is an error; and what is
      undetermined depends on an unknown variable. `DecidedStaysExactly` says when it fails. */
  lemma PreviewIsSound(groups: Groups, preview: Scope, run: Scope)
    requires Consistent(groups, preview, run)
    ensures match Eval(groups, preview)
            case Ok(Undetermined(name)) => name in preview.unknown && RefersTo(groups, name)
            case Ok(answer) => Eval(groups, run) == Ok(answer) || Eval(groups, run).Err?
            case Err(_) => Eval(groups, run).Err?
  {
    GroupsAreSound(groups, preview, run, None);
  }

  // ---- When a run's condition fails ----

  /** A term that reads the value of a variable the run does not have. */
  predicate ReadsMissing(term: Term, run: Scope) {
    exists name :: name in TermReads(term) && name !in run.vars
  }

  /** Some term reads a missing variable and every one before it is true. */
  ghost predicate StopsIn(terms: seq<Term>, run: Scope) {
    exists i :: 0 <= i < |terms| && ReadsMissing(terms[i], run)
                && forall j :: 0 <= j < i ==> EvalTerm(terms[j], run) == Ok(True)
  }

  /** Some group stops at a missing variable and every one before it is false. */
  ghost predicate Stops(groups: Groups, run: Scope) {
    exists i :: 0 <= i < |groups| && StopsIn(groups[i], run)
                && forall j :: 0 <= j < i ==> AllFrom(groups[j], run, None) == Ok(False)
  }

  /** Every value the condition reads is there. */
  ghost predicate AllReadable(groups: Groups, run: Scope) {
    forall group, term, name :: group in groups && term in group && name in TermReads(term) ==> name in run.vars
  }

  lemma TermFailsReading(term: Term, run: Scope)
    requires run.unknown == {}
    ensures EvalTerm(term, run).Err? <==> ReadsMissing(term, run)
    ensures EvalTerm(term, run).Ok? ==> EvalTerm(term, run) == Ok(True) || EvalTerm(term, run) == Ok(False)
  {
    match term.atom
    case Truthy(Var(name)) => assert name in TermReads(term);
    case Compare(left, _, right) =>
      assert left.Var? ==> left.name in TermReads(term);
      assert right.Var? ==> right.name in TermReads(term);
    case _ =>
  }

  lemma StopsInOne(terms: seq<Term>, run: Scope)
    requires terms != []
    ensures StopsIn(terms, run) <==>
              ReadsMissing(terms[0], run) || (EvalTerm(terms[0], run) == Ok(True) && StopsIn(terms[1..], run))
  {
    var later := terms[1..];
    if EvalTerm(terms[0], run) == Ok(True) && StopsIn(later, run) {
      var i :| 0 <= i < |later| && ReadsMissing(later[i], run)
               && forall j :: 0 <= j < i ==> EvalTerm(later[j], run) == Ok(True);
      assert terms[i + 1] == later[i];
      assert forall j :: 0 <= j < i + 1 ==> EvalTerm(terms[j], run) == Ok(True) by {
        assert forall j :: 0 < j < i + 1 ==> terms[j] == later[j - 1];
      }
    }
    if StopsIn(terms, run) && !ReadsMissing(terms[0], run) {
      var i :| 0 <= i < |terms| && ReadsMissing(terms[i], run)
               && forall j :: 0 <= j < i ==> EvalTerm(terms[j], run) == Ok(True);
      assert later[i - 1] == terms[i];
      assert forall j :: 0 <= j < i - 1 ==> later[j] == terms[j + 1];
    }
  }

  lemma {:induction false} GroupFailsReading(terms: seq<Term>, run: Scope)
    requires run.unknown == {}
    ensures AllFrom(terms, run, None).Err? <==> StopsIn(terms, run)
  {
    if terms != [] {
      TermFailsReading(terms[0], run);
      StopsInOne(terms, run);
      GroupFailsReading(terms[1..], run);
    }
  }

  lemma StopsOne(groups: Groups, run: Scope)
    requires groups != []
    ensures Stops(groups, run) <==>
              StopsIn(groups[0], run) || (AllFrom(groups[0], run, None) == Ok(False) && Stops(groups[1..], run))
  {
    var later := groups[1..];
    if AllFrom(groups[0], run, None) == Ok(False) && Stops(later, run) {
      var i :| 0 <= i < |later| && StopsIn(later[i], run)
               && forall j :: 0 <= j < i ==> AllFrom(later[j], run, None) == Ok(False);
      assert groups[i + 1] == later[i];
      assert forall j :: 0 <= j < i + 1 ==> AllFrom(groups[j], run, None) == Ok(False) by {
        assert forall j :: 0 < j < i + 1 ==> groups[j] == later[j - 1];
      }
    }
    if Stops(groups, run) && !StopsIn(groups[0], run) {
      var i :| 0 <= i < |groups| && StopsIn(groups[i], run)
               && forall j :: 0 <= j < i ==> AllFrom(groups[j], run, None) == Ok(False);
      assert later[i - 1] == groups[i];
      assert forall j :: 0 <= j < i - 1 ==> later[j] == groups[j + 1];
    }
  }

  /** A run's condition is an error exactly when evaluation comes to a missing variable. */
  lemma {:induction false} FailsExactlyWhenStopped(groups: Groups, run: Scope)
    requires run.unknown == {}
    ensures Eval(groups, run).Err? <==> Stops(groups, run)
  {
    if groups != [] {
      GroupFailsReading(groups[0], run);
      StopsOne(groups, run);
      AllIsPlain(groups[0], run);
      FailsExactlyWhenStopped(groups[1..], run);
    }
  }

  /** A condition the preview decides has that answer in the run exactly when the run does not
      come to a missing variable first. */
  lemma DecidedStaysExactly(groups: Groups, preview: Scope, run: Scope)
    requires Consistent(groups, preview, run)
    requires Eval(groups, preview).Ok? && !Eval(groups, preview).value.Undetermined?
    ensures Eval(groups, run) == Eval(groups, preview) <==> !Stops(groups, run)
    ensures AllReadable(groups, run) ==> Eval(groups, run) == Eval(groups, preview)
  {
    PreviewIsSound(groups, preview, run);
    FailsExactlyWhenStopped(groups, run);
    if AllReadable(groups, run) {
      forall g, i | 0 <= g < |groups| && 0 <= i < |groups[g]| ensures !ReadsMissing(groups[g][i], run) {
        assert groups[g] in groups && groups[g][i] in groups[g];
      }
    }
  }

  /** `defined ${name}`, or its double negation. */
  predicate TestsFor(term: Term, name: string) {
    term == Term(false, Defined(name)) || term == Term(true, Undefined(name))
  }

  /** Every value a group reads is tested for before it in the group, and is no list. */
  ghost predicate Guarded(groups: Groups, lists: set<string>) {
    forall g, i, name {:trigger name in TermReads(groups[g][i])} ::
      0 <= g < |groups| && 0 <= i < |groups[g]| && name in TermReads(groups[g][i]) ==>
        name !in lists && exists j :: 0 <= j < i && TestsFor(groups[g][j], name)
  }

  /** `defined ${x} && ${x} == y` never fails: a condition that tests what it reads keeps the
      preview's answer in every run with the same lists. */
  lemma GuardedReadsNeverStop(groups: Groups, preview: Scope, run: Scope)
    requires Guarded(groups, preview.collections.Keys)
    requires run.unknown == {} && run.collections.Keys == preview.collections.Keys
    ensures !Stops(groups, run) && Eval(groups, run).Ok?
    ensures Consistent(groups, preview, run) ==>
              Eval(groups, preview).Ok? && (Eval(groups, preview).value.Undetermined? || Eval(groups, run) == Eval(groups, preview))
  {
    forall g | 0 <= g < |groups| ensures !StopsIn(groups[g], run) {
      forall i | 0 <= i < |groups[g]| && ReadsMissing(groups[g][i], run)
        ensures exists j :: 0 <= j < i && EvalTerm(groups[g][j], run) != Ok(True)
      {
        var name :| name in TermReads(groups[g][i]) && name !in run.vars;
        var j :| 0 <= j < i && TestsFor(groups[g][j], name);
        assert !IsDefined(run, name);
      }
    }
    FailsExactlyWhenStopped(groups, run);
    if Consistent(groups, preview, run) {
      PreviewIsSound(groups, preview, run);
    }
  }

  /** A condition the preview decides true that fails the run: the term before the one that
      decides reads a variable that is missing there. */
  lemma DecidedTrueMayStillFail()
    ensures var groups := [[Term(false, Truthy(Var("u")))], [Term(false, Truthy(Literal("x")))]];
            && Consistent(groups, Scope(map[], map[], {"u"}), Scope(map[], map[], {}))
            && Eval(groups, Scope(map[], map[], {"u"})) == Ok(True)
            && Eval(groups, Scope(map[], map[], {})) == Err(UndefinedVariable("u"))
  {
    var first, second := [Term(false, Truthy(Var("u")))], [Term(false, Truthy(Literal("x")))];
    var groups := [first, second];
    assert groups[1..] == [second];
    assert first[1..] == [] && second[1..] == [];
    assert "x" != "false" && "x" != "0";
    forall name | RefersTo(groups, name) ensures name == "u" {
    }
  }

  /** And one it decides false. */
  lemma DecidedFalseMayStillFail()
    ensures var groups := [[Term(false, Truthy(Var("u"))), Term(false, Truthy(Literal("")))]];
            && Consistent(groups, Scope(map[], map[], {"u"}), Scope(map[], map[], {}))
            && Eval(groups, Scope(map[], map[], {"u"})) == Ok(False)
            && Eval(groups, Scope(map[], map[], {})) == Err(UndefinedVariable("u"))
  {
    var first, second := Term(false, Truthy(Var("u"))), Term(false, Truthy(Literal("")));
    var groups := [[first, second]];
    assert groups[1..] == [] && [first, second][1..] == [second];
    forall name | RefersTo(groups, name) ensures name == "u" {
    }
  }

  // ---- The conditions of a run itself ----

  /** Plain two-valued evaluation, left to right, stopping as soon as the answer is known. */
  function PlainAll(terms: seq<Term>, scope: Scope): Result<bool, EvalError> {
    if terms == [] then Ok(true)
    else
      match EvalTerm(terms[0], scope)
      case Err(error) => Err(error)
      case Ok(answer) => if answer == True then PlainAll(terms[1..], scope) else Ok(false)
  }

  function PlainAny(groups: Groups, scope: Scope): Result<bool, EvalError> {
    if groups == [] then Ok(false)
    else
      match PlainAll(groups[0], scope)
      case Err(error) => Err(error)
      case Ok(answer) => if answer then Ok(true) else PlainAny(groups[1..], scope)
  }

  function AsOutcome(r: Result<bool, EvalError>): Evaluated {
    match r
    case Err(error) => Err(error)
    case Ok(answer) => Ok(if answer then True else False)
  }

  lemma {:induction false} AllIsPlain(terms: seq<Term>, scope: Scope)
    requires scope.unknown == {}
    ensures AllFrom(terms, scope, None) == AsOutcome(PlainAll(terms, scope))
  {
    if terms != [] {
      AllIsPlain(terms[1..], scope);
    }
  }

  /** Where everything is known, evaluation is plain short-circuit logic. */
  lemma {:induction false} EvalIsPlain(groups: Groups, scope: Scope)
    requires scope.unknown == {}
    ensures Eval(groups, scope) == AsOutcome(PlainAny(groups, scope))
  {
    if groups != [] {
      AllIsPlain(groups[0], scope);
      EvalIsPlain(groups[1..], scope);
    }
  }
}
