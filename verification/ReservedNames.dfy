/** The names a run binds itself, which no plan can set: a loop's item and a failure's text. */
module ReservedNames {
  const ITEM := "@item"
  const ITEM_FIELD := "@item."
  const ERROR_MSG := "@error.msg"
  const ERROR_TASK := "@error.task"
  const ERRORS := {ERROR_MSG, ERROR_TASK}

  predicate IsItemVar(name: string) {
    name == ITEM || ITEM_FIELD <= name
  }

  predicate IsErrorVar(name: string) {
    name == ERROR_MSG || name == ERROR_TASK
  }

  lemma ReservedStartWithAt(name: string)
    requires IsItemVar(name) || IsErrorVar(name)
    ensures "@" <= name
  {
  }

  lemma ErrorsAreNoItems()
    ensures forall name :: name in ERRORS ==> !IsItemVar(name)
  {
    assert ERROR_MSG[1] == 'e' && ERROR_TASK[1] == 'e' && ITEM[1] == 'i' && ITEM_FIELD[1] == 'i';
  }
}
