/**
 * The list transformations inside the handlers of the task list: the `map`
 * behind toggle and update, the `filter` behind delete and the filtered
 * view, and the invariant that task ids are unique.
 */
module TodoList {
  import opened Types
  import opened Seqs

  /** Some task of `s` has id `id`. */
  predicate HasId(s: seq<Todo>, id: string)
  {
    exists i :: 0 <= i < |s| && s[i].id == id
  }

  /** No two positions of `s` hold tasks with the same id. */
  predicate UniqueIds(s: seq<Todo>)
  {
    forall i, j :: 0 <= i < |s| && 0 <= j < |s| && s[i].id == s[j].id ==> i == j
  }

  /** Prepending a task whose id is fresh keeps the ids unique. */
  lemma PrependKeepsUnique(t: Todo, s: seq<Todo>)
    requires UniqueIds(s) && !HasId(s, t.id)
    ensures UniqueIds([t] + s)
  {
    var r := [t] + s;
    forall i, j | 0 <= i < |r| && 0 <= j < |r| && r[i].id == r[j].id
      ensures i == j
    {
      if i > 0 && j > 0 {
        assert r[i] == s[i - 1] && r[j] == s[j - 1];
      }
    }
  }

  // ---------------------------------------------------------------------
  // Toggle: every task whose id matches gets the other status; the rest stay.

  /**
   * One step of the toggle map: the id and every field but the status are
   * kept, and the task changes exactly when its id matches.
   */
  function ToggleOne(t: Todo, id: string): (r: Todo)
    ensures r.id == t.id && r.(status := t.status) == t
    ensures r == t <==> t.id != id
  {
    if t.id == id then t.(status := Flip(t.status)) else t
  }

  /**
   * The list after toggling `id`: the same length and ids at every position;
   * a task's status is flipped exactly when its id is `id`, and nothing else
   * about any task changes.
   */
  function ToggleStatusIn(s: seq<Todo>, id: string): (r: seq<Todo>)
    ensures |r| == |s|
    ensures forall i :: 0 <= i < |s| ==> r[i].id == s[i].id
    ensures forall i :: 0 <= i < |s| ==>
      r[i].status == if s[i].id == id then Flip(s[i].status) else s[i].status
    ensures forall i :: 0 <= i < |s| ==> r[i].(status := s[i].status) == s[i]
  {
    if s == [] then [] else [ToggleOne(s[0], id)] + ToggleStatusIn(s[1..], id)
  }

  /** Toggling the same id twice gives back the list. */
  lemma {:induction false} ToggleTwice(s: seq<Todo>, id: string)
    ensures ToggleStatusIn(ToggleStatusIn(s, id), id) == s
  {
    if s != [] {
      ToggleTwice(s[1..], id);
      var once := ToggleStatusIn(s, id);
      assert once[1..] == ToggleStatusIn(s[1..], id);
      assert ToggleOne(ToggleOne(s[0], id), id) == s[0];
    }
  }

  /** Toggling an id no task has changes nothing. */
  lemma ToggleAbsent(s: seq<Todo>, id: string)
    requires !HasId(s, id)
    ensures ToggleStatusIn(s, id) == s
  {
    var r := ToggleStatusIn(s, id);
    forall i | 0 <= i < |s|
      ensures r[i] == s[i]
    {
      assert r[i].(status := s[i].status) == s[i];
    }
  }

  /** Toggling keeps the ids unique. */
  lemma ToggleKeepsUnique(s: seq<Todo>, id: string)
    requires UniqueIds(s)
    ensures UniqueIds(ToggleStatusIn(s, id))
  {
  }

  // ---------------------------------------------------------------------
  // Delete: only the tasks whose id differs from the given one are kept.

  /** The filter test of delete. */
  function OtherThan(id: string): Todo -> bool
  {
    (t: Todo) => t.id != id
  }

  /** The list after deleting `id`: never longer, and no task in it has id `id`. */
  function DeleteIn(s: seq<Todo>, id: string): (r: seq<Todo>)
    ensures |r| <= |s|
    ensures forall i :: 0 <= i < |r| ==> r[i].id != id
  {
    Keep(s, OtherThan(id))
  }

  /**
   * Delete keeps exactly the tasks whose id differs from `id`: each such task
   * as often as before, no other task, all in their original order.
   */
  lemma DeleteKeepsOthersInOrder(s: seq<Todo>, id: string)
    ensures IsSubsequence(DeleteIn(s, id), s)
    ensures forall t :: t in DeleteIn(s, id) ==> t in s && t.id != id
    ensures forall t :: t in s ==>
      multiset(DeleteIn(s, id))[t] == if t.id != id then multiset(s)[t] else 0
  {
    KeepIsSubsequence(s, OtherThan(id));
    KeepMembers(s, OtherThan(id));
    KeepCounts(s, OtherThan(id));
  }

  /** Deleting an id no task has changes nothing. */
  lemma DeleteAbsent(s: seq<Todo>, id: string)
    requires !HasId(s, id)
    ensures DeleteIn(s, id) == s
  {
    assert forall i :: 0 <= i < |s| ==> OtherThan(id)(s[i]);
    KeepEverything(s, OtherThan(id));
  }

  /** Deleting the same id twice is deleting it once. */
  lemma DeleteIdempotent(s: seq<Todo>, id: string)
    ensures DeleteIn(DeleteIn(s, id), id) == DeleteIn(s, id)
  {
    KeepIdempotent(s, OtherThan(id));
  }

  /**
   * With unique ids, deleting the id of the task at position `k` removes that
   * task and nothing else: the list is one shorter and the rest keep their order.
   */
  lemma DeleteAt(s: seq<Todo>, k: nat)
    requires UniqueIds(s) && k < |s|
    ensures DeleteIn(s, s[k].id) == s[..k] + s[k + 1..]
    ensures |DeleteIn(s, s[k].id)| == |s| - 1
  {
    var id := s[k].id;
    var before, after := s[..k], s[k + 1..];
    IdOnlyAt(s, k);
    assert s == before + ([s[k]] + after);
    KeepConcat(before, [s[k]] + after, OtherThan(id));
    DeleteAbsent(before, id);
    DeleteUndoesAdd(s[k], after);
  }

  /** With unique ids, the id of the task at `k` occurs neither before nor after `k`. */
  lemma IdOnlyAt(s: seq<Todo>, k: nat)
    requires UniqueIds(s) && k < |s|
    ensures !HasId(s[..k], s[k].id) && !HasId(s[k + 1..], s[k].id)
  {
    var before, after := s[..k], s[k + 1..];
    forall i | 0 <= i < |before|
      ensures before[i].id != s[k].id
    {
      assert before[i] == s[i];
    }
    forall i | 0 <= i < |after|
      ensures after[i].id != s[k].id
    {
      assert after[i] == s[k + 1 + i];
    }
  }

  /** Deleting keeps the ids unique. */
  lemma {:induction false} DeleteKeepsUnique(s: seq<Todo>, id: string)
    requires UniqueIds(s)
    ensures UniqueIds(DeleteIn(s, id))
  {
    if s != [] {
      var rest := s[1..];
      assert UniqueIds(rest) by {
        forall i, j | 0 <= i < |rest| && 0 <= j < |rest| && rest[i].id == rest[j].id
          ensures i == j
        {
          assert rest[i] == s[i + 1] && rest[j] == s[j + 1];
        }
      }
      DeleteKeepsUnique(rest, id);
      KeepMembers(rest, OtherThan(id));
      if OtherThan(id)(s[0]) {
        assert DeleteIn(s, id) == [s[0]] + DeleteIn(rest, id);
        assert !HasId(DeleteIn(rest, id), s[0].id) by {
          forall i | 0 <= i < |DeleteIn(rest, id)|
            ensures DeleteIn(rest, id)[i].id != s[0].id
          {
            var t := DeleteIn(rest, id)[i];
            assert t in rest;
            var j :| 0 <= j < |rest| && rest[j] == t;
            assert s[j + 1] == t;
          }
        }
        PrependKeepsUnique(s[0], DeleteIn(rest, id));
      } else {
        assert DeleteIn(s, id) == DeleteIn(rest, id);
      }
    }
  }

  /** Deleting the id of a freshly added task gives back the list it was added to. */
  lemma DeleteUndoesAdd(t: Todo, s: seq<Todo>)
    requires !HasId(s, t.id)
    ensures DeleteIn([t] + s, t.id) == s
  {
    KeepConcat([t], s, OtherThan(t.id));
    assert DeleteIn([t], t.id) == [] by {
      assert [t][1..] == [];
    }
    DeleteAbsent(s, t.id);
  }

  // ---------------------------------------------------------------------
  // Update: the draft is spread over every task whose id is the edited one.

  /**
   * One step of the update map: id, status and creation time are kept; a
   * matching task takes the draft's three fields, any other is unchanged.
   */
  function UpdateOne(t: Todo, id: string, d: Draft): (r: Todo)
    ensures r.id == t.id && r.status == t.status && r.createdAt == t.createdAt
    ensures t.id == id ==> DraftOf(r) == d
    ensures t.id != id ==> r == t
  {
    if t.id == id then Merge(t, d) else t
  }

  /** The list after merging draft `d` into the task(s) with id `id`. */
  function UpdateIn(s: seq<Todo>, id: string, d: Draft): (r: seq<Todo>)
    ensures |r| == |s|
  {
    if s == [] then [] else [UpdateOne(s[0], id, d)] + UpdateIn(s[1..], id, d)
  }

  /**
   * What an update does at each position: it keeps the id, status and
   * creation time; the tasks with id `id` carry the draft's title,
   * description and deadline; all other tasks are unchanged.
   */
  lemma {:induction false} UpdateInFields(s: seq<Todo>, id: string, d: Draft)
    ensures forall i :: 0 <= i < |s| ==>
      var r := UpdateIn(s, id, d);
      r[i].id == s[i].id && r[i].status == s[i].status && r[i].createdAt == s[i].createdAt
    ensures forall i :: 0 <= i < |s| && s[i].id == id ==> DraftOf(UpdateIn(s, id, d)[i]) == d
    ensures forall i :: 0 <= i < |s| && s[i].id != id ==> UpdateIn(s, id, d)[i] == s[i]
  {
    if s != [] {
      UpdateInFields(s[1..], id, d);
      var r := UpdateIn(s, id, d);
      assert forall i :: 1 <= i < |s| ==> r[i] == UpdateIn(s[1..], id, d)[i - 1] && s[i] == s[1..][i - 1];
    }
  }

  /**
   * With unique ids, updating the task at position `k` replaces that one
   * element by the merge and leaves every other position alone.
   */
  lemma UpdateAt(s: seq<Todo>, k: nat, d: Draft)
    requires UniqueIds(s) && k < |s|
    ensures UpdateIn(s, s[k].id, d) == s[k := Merge(s[k], d)]
  {
    UpdateInFields(s, s[k].id, d);
    var r := UpdateIn(s, s[k].id, d);
    assert r[k] == Merge(s[k], d) by {
      assert DraftOf(r[k]) == d;
    }
  }

  /**
   * Submitting an edit whose draft is still the copy the edit button made
   * leaves the list as it was.
   */
  lemma UpdateWithOwnDraft(s: seq<Todo>, k: nat)
    requires UniqueIds(s) && k < |s|
    ensures UpdateIn(s, s[k].id, DraftOf(s[k])) == s
  {
    UpdateAt(s, k, DraftOf(s[k]));
    MergeOwnDraft(s[k]);
  }

  /** Updating an id no task has changes nothing. */
  lemma UpdateAbsent(s: seq<Todo>, id: string, d: Draft)
    requires !HasId(s, id)
    ensures UpdateIn(s, id, d) == s
  {
    UpdateInFields(s, id, d);
  }

  /** Updating twice with one draft is updating once. */
  lemma {:induction false} UpdateIdempotent(s: seq<Todo>, id: string, d: Draft)
    ensures UpdateIn(UpdateIn(s, id, d), id, d) == UpdateIn(s, id, d)
  {
    if s != [] {
      UpdateIdempotent(s[1..], id, d);
      assert UpdateIn(s, id, d)[1..] == UpdateIn(s[1..], id, d);
      MergeTwice(s[0], d, d);
    }
  }

  /** Updating keeps the ids unique. */
  lemma UpdateKeepsUnique(s: seq<Todo>, id: string, d: Draft)
    requires UniqueIds(s)
    ensures UniqueIds(UpdateIn(s, id, d))
  {
    UpdateInFields(s, id, d);
  }

  // ---------------------------------------------------------------------
  // The filtered view: under `all` every task, otherwise the tasks whose
  // status literal equals the filter's.

  /** The filter test of the view: every task under `All`, else the tasks with the filter's status. */
  function Shows(f: Filter): (p: Todo -> bool)
    ensures forall t: Todo :: p(t) <==> f == Filter.All || f == FilterFor(t.status)
  {
    (t: Todo) => Passes(f, t.status)
  }

  /** The tasks the list view shows under filter `f`: never more than the list, each passing the test. */
  function View(s: seq<Todo>, f: Filter): (r: seq<Todo>)
    ensures |r| <= |s|
    ensures forall i :: 0 <= i < |r| ==> Passes(f, r[i].status)
  {
    Keep(s, Shows(f))
  }

  /** Under `All` the view is the whole list, in order. */
  lemma ViewAll(s: seq<Todo>)
    ensures View(s, Filter.All) == s
  {
    KeepEverything(s, Shows(Filter.All));
  }

  /**
   * Under a status filter the view is the order-preserving subsequence of
   * the tasks with that status, each as often as in the list, and never
   * longer than the list.
   */
  lemma ViewByStatus(s: seq<Todo>, st: Status)
    ensures IsSubsequence(View(s, FilterFor(st)), s)
    ensures |View(s, FilterFor(st))| <= |s|
    ensures forall t :: t in View(s, FilterFor(st)) ==> t in s && t.status == st
    ensures forall t :: t in s ==>
      multiset(View(s, FilterFor(st)))[t] == if t.status == st then multiset(s)[t] else 0
  {
    KeepIsSubsequence(s, Shows(FilterFor(st)));
    KeepMembers(s, Shows(FilterFor(st)));
    KeepCounts(s, Shows(FilterFor(st)));
    forall t: Todo
      ensures Shows(FilterFor(st))(t) <==> t.status == st
    {
      FilterNamesDistinct(FilterFor(st), FilterFor(t.status));
    }
  }

  /** Filtering the shown tasks again shows the same tasks. */
  lemma ViewIdempotent(s: seq<Todo>, f: Filter)
    ensures View(View(s, f), f) == View(s, f)
  {
    KeepIdempotent(s, Shows(f));
  }

  /** The pending view and the completed view together account for every task once. */
  lemma ViewPartition(s: seq<Todo>)
    ensures |View(s, Filter.Pending)| + |View(s, Filter.Completed)| == |s|
  {
    assert forall t: Todo :: Shows(Filter.Pending)(t) != Shows(Filter.Completed)(t);
    KeepSplits(s, Shows(Filter.Pending), Shows(Filter.Completed));
  }
}
