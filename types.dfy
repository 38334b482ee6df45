/**
 * The record kept for every task, the draft the entry form edits, and the two
 * selector types: a task's status and the filter the list view applies.
 *
 * In the application both selectors are string literal types (`'pending' |
 * 'completed'` and `'all' | 'pending' | 'completed'`) and the view compares a
 * task's status with the filter as strings. Here each selector is a datatype,
 * and `StatusName` / `FilterName` give the string each value stands for, so
 * that the string comparisons of the application can be written out as they
 * are and related to the datatypes by lemmas.
 */
module Types {

  datatype Option<T> = None | Some(value: T)

  /** A task's status: always exactly one of the two values. */
  datatype Status = Pending | Completed

  /** The view selector: every task, or only the tasks with one status. */
  datatype Filter = All | Pending | Completed

  /** The string literal a status is stored and compared as. */
  function StatusName(s: Status): string
  {
    match s
    case Pending => "pending"
    case Completed => "completed"
  }

  /** The string literal a filter value is compared as. */
  function FilterName(f: Filter): string
  {
    match f
    case All => "all"
    case Pending => "pending"
    case Completed => "completed"
  }

  /** The filter value whose literal is that of status `s`. */
  function FilterFor(s: Status): (f: Filter)
    ensures f != Filter.All
    ensures FilterName(f) == StatusName(s)
  {
    match s
    case Pending => Filter.Pending
    case Completed => Filter.Completed
  }

  /**
   * The test the list view applies to one task: the filter is `'all'`, or
   * its literal equals the task's status literal. The string comparison
   * agrees with the datatypes: a task passes exactly when the filter is `All`
   * or is the filter named like the task's status.
   */
  function Passes(f: Filter, s: Status): (b: bool)
    ensures b <==> f == Filter.All || f == FilterFor(s)
  {
    FilterNamesDistinct(f, FilterFor(s));
    FilterNamesDistinct(f, Filter.All);
    FilterName(f) == "all" || FilterName(f) == StatusName(s)
  }

  /** The status a toggle moves to: `'pending'` becomes `'completed'`, anything else `'pending'`. */
  function Flip(s: Status): (r: Status)
    ensures r != s
    ensures StatusName(r) == if StatusName(s) == "pending" then "completed" else "pending"
  {
    if s == Status.Pending then Status.Completed else Status.Pending
  }

  /** A task record: exactly these six fields. */
  datatype Todo = Todo(
    id: string,
    title: string,
    description: string,
    deadline: string,
    status: Status,
    createdAt: string)

  /** The entry form's draft: only the three fields a user types in. */
  datatype Draft = Draft(title: string, description: string, deadline: string)

  /** The draft the form starts with and is reset to. */
  const EmptyDraft := Draft("", "", "")

  /** The draft the edit button fills the form with: the task's three editable fields. */
  function DraftOf(t: Todo): Draft
  {
    Draft(t.title, t.description, t.deadline)
  }

  /**
   * The task built by an add: a fresh id, the draft's three fields, status
   * pending and the creation time.
   */
  function NewTodo(id: string, d: Draft, createdAt: string): (t: Todo)
    ensures t.id == id && t.status == Status.Pending && t.createdAt == createdAt
    ensures DraftOf(t) == d
  {
    Todo(id, d.title, d.description, d.deadline, Status.Pending, createdAt)
  }

  /**
   * Spreading a draft over a task (`{ ...todo, ...draft }`): the draft's
   * fields replace the task's, and since a draft has no id, status or
   * creation time those three are the task's own.
   */
  function Merge(t: Todo, d: Draft): (r: Todo)
    ensures r.id == t.id && r.status == t.status && r.createdAt == t.createdAt
    ensures DraftOf(r) == d
  {
    t.(title := d.title, description := d.description, deadline := d.deadline)
  }

  /** Every status literal is one of the two, and the two differ. */
  lemma StatusNames(s: Status)
    ensures StatusName(s) == "pending" || StatusName(s) == "completed"
    ensures StatusName(Status.Pending) != StatusName(Status.Completed)
  {
  }

  /** The three filter literals are `'all'`, `'pending'`, `'completed'`, pairwise different. */
  lemma FilterNamesDistinct(f: Filter, g: Filter)
    ensures FilterName(f) in ["all", "pending", "completed"]
    ensures FilterName(f) == FilterName(g) <==> f == g
  {
  }

  /** Every filter other than `All` lets through exactly one of the two statuses. */
  lemma ExactlyOneStatusPasses(f: Filter)
    requires f != Filter.All
    ensures Passes(f, Status.Pending) != Passes(f, Status.Completed)
  {
  }

  /** Editing a task with its own draft changes nothing. */
  lemma MergeOwnDraft(t: Todo)
    ensures Merge(t, DraftOf(t)) == t
  {
  }

  /** Merging twice with one draft is merging once; the later draft wins. */
  lemma MergeTwice(t: Todo, d: Draft, e: Draft)
    ensures Merge(Merge(t, d), e) == Merge(t, e)
    ensures Merge(Merge(t, d), d) == Merge(t, d)
  {
  }

  /** Toggling twice restores the status. */
  lemma FlipTwice(s: Status)
    ensures Flip(Flip(s)) == s
  {
  }
}
