/** The `all` / `active` / `completed` projection that the to-do `TaskList`
    component recomputes whenever the store's todos or the filter prop change.
    The `Todo` record type lives in a file that is not part of this model; the
    projection reads only its `completed` flag, so todos are any type with a
    `completed` accessor. */
module TodoList {
  import opened Seqs

  /** The `filter` prop, `'all' | 'active' | 'completed'`. */
  datatype ListFilter = All | Active | Completed

  /** The todos the list renders for `filter`. */
  function Visible<T>(todos: seq<T>, completed: T -> bool, filter: ListFilter): (r: seq<T>)
    ensures filter == All ==> r == todos
    ensures filter == Active ==> forall i :: 0 <= i < |r| ==> !completed(r[i])
    ensures filter == Completed ==> forall i :: 0 <= i < |r| ==> completed(r[i])
    ensures filter == Active ==> forall i :: 0 <= i < |todos| && !completed(todos[i]) ==> todos[i] in r
    ensures filter == Completed ==> forall i :: 0 <= i < |todos| && completed(todos[i]) ==> todos[i] in r
    ensures forall i :: 0 <= i < |r| ==> r[i] in todos
  {
    match filter
    case Active => Filter(todos, (t: T) => !completed(t))
    case Completed => Filter(todos, completed)
    case All => todos
  }

  /** The active and completed projections keep the source order, share no
      todo, and hold between them every todo, each copy exactly once. */
  lemma ActiveCompletedSplit<T>(todos: seq<T>, completed: T -> bool)
    ensures Subseq(Visible(todos, completed, Active), todos)
    ensures Subseq(Visible(todos, completed, Completed), todos)
    ensures multiset(Visible(todos, completed, Active)) + multiset(Visible(todos, completed, Completed))
            == multiset(todos)
    ensures forall i :: 0 <= i < |Visible(todos, completed, Active)| ==>
              Visible(todos, completed, Active)[i] !in Visible(todos, completed, Completed)
  {
    var notDone := (t: T) => !completed(t);
    FilterIsSubseq(todos, notDone);
    FilterIsSubseq(todos, completed);
    FilterPartition(todos, notDone, completed);
  }

  /** Each projection keeps every copy of a todo it selects and none of one
      it rejects. */
  lemma VisibleCounts<T>(todos: seq<T>, completed: T -> bool, t: T)
    ensures multiset(Visible(todos, completed, Active))[t] == if !completed(t) then multiset(todos)[t] else 0
    ensures multiset(Visible(todos, completed, Completed))[t] == if completed(t) then multiset(todos)[t] else 0
  {
    FilterMultiset(todos, (x: T) => !completed(x), t);
    FilterMultiset(todos, completed, t);
  }
}
