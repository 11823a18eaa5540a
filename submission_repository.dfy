/** The submission table: insertion, and the per-form listing ordered by
    submission instant. */
module SubmissionRepositories {
  import opened Query

  /** A JSON value of a submission's answers. */
  datatype JsonValue =
    | JNull
    | JBool(b: bool)
    | JNumber(n: real)
    | JString(s: string)
    | JArray(items: seq<JsonValue>)
    | JObject(entries: map<string, JsonValue>)

  /** A row of the `submissions` table; `submittedAt` is the insertion instant
      as an integer count of the clock's smallest unit (microseconds). */
  datatype Submission = Submission(id: nat, submittedAt: int, data: map<string, JsonValue>, formId: int)

  predicate SortedBySubmission(s: seq<Submission>) {
    forall i, j :: 0 <= i < j < |s| ==> s[i].submittedAt <= s[j].submittedAt
  }

  /** The stored submissions of one form, in table order. */
  function ForForm(subs: seq<Submission>, formId: int): seq<Submission>
  {
    Filter(subs, (s: Submission) => s.formId == formId)
  }

  /** Places `x` after every element submitted no later than it. */
  function Insert(x: Submission, s: seq<Submission>): seq<Submission>
  {
    if s == [] then [x]
    else if x.submittedAt < s[0].submittedAt then [x] + s
    else [s[0]] + Insert(x, s[1..])
  }

  /** `order_by(Submission.submitted_at)`: insertion sort on the instant. */
  function SortBySubmission(s: seq<Submission>): seq<Submission>
  {
    if s == [] then [] else Insert(s[|s| - 1], SortBySubmission(s[..|s| - 1]))
  }

  /** Every element submitted no earlier than `t`. */
  predicate NotBefore(t: int, s: seq<Submission>) {
    forall i :: 0 <= i < |s| ==> t <= s[i].submittedAt
  }

  lemma {:induction false} InsertMultiset(x: Submission, s: seq<Submission>)
    ensures multiset(Insert(x, s)) == multiset(s) + multiset{x}
  {
    if s != [] && x.submittedAt >= s[0].submittedAt {
      InsertMultiset(x, s[1..]);
      assert s == [s[0]] + s[1..];
    }
  }

  lemma {:induction false} InsertNotBefore(t: int, x: Submission, s: seq<Submission>)
    requires NotBefore(t, s) && t <= x.submittedAt
    ensures NotBefore(t, Insert(x, s))
  {
    if s != [] && x.submittedAt >= s[0].submittedAt {
      InsertNotBefore(t, x, s[1..]);
    }
  }

  lemma {:induction false} InsertSorted(x: Submission, s: seq<Submission>)
    requires SortedBySubmission(s)
    ensures SortedBySubmission(Insert(x, s))
  {
    if s != [] && x.submittedAt >= s[0].submittedAt {
      InsertSorted(x, s[1..]);
      InsertNotBefore(s[0].submittedAt, x, s[1..]);
      var r := Insert(x, s[1..]);
      assert Insert(x, s) == [s[0]] + r;
      forall i, j | 0 <= i < j < |[s[0]] + r|
        ensures ([s[0]] + r)[i].submittedAt <= ([s[0]] + r)[j].submittedAt
      {
        if i > 0 {
          assert ([s[0]] + r)[i] == r[i - 1] && ([s[0]] + r)[j] == r[j - 1];
        } else {
          assert ([s[0]] + r)[j] == r[j - 1];
        }
      }
    }
  }

  /** The ordering is a sorted permutation of its input. */
  lemma {:induction false} SortSpec(s: seq<Submission>)
    ensures SortedBySubmission(SortBySubmission(s))
    ensures multiset(SortBySubmission(s)) == multiset(s)
  {
    if s != [] {
      SortSpec(s[..|s| - 1]);
      InsertSorted(s[|s| - 1], SortBySubmission(s[..|s| - 1]));
      InsertMultiset(s[|s| - 1], SortBySubmission(s[..|s| - 1]));
      assert s == s[..|s| - 1] + [s[|s| - 1]];
    }
  }

  /** `get_by_form_id`: the form's submissions ordered by instant. */
  function GetByFormId(subs: seq<Submission>, formId: int): seq<Submission>
  {
    SortBySubmission(ForForm(subs, formId))
  }

  /** The listing holds only that form's submissions, holds every one of them
      as often as stored, and is ordered by instant. */
  lemma GetByFormIdSpec(subs: seq<Submission>, formId: int)
    ensures forall s :: s in GetByFormId(subs, formId) ==> s.formId == formId
    ensures forall s: Submission :: s.formId == formId ==> multiset(GetByFormId(subs, formId))[s] == multiset(subs)[s]
    ensures SortedBySubmission(GetByFormId(subs, formId))
  {
    var f := ForForm(subs, formId);
    SortSpec(f);
    FilterMultiset(subs, (s: Submission) => s.formId == formId);
    forall s | s in GetByFormId(subs, formId)
      ensures s.formId == formId
    {
      assert s in multiset(GetByFormId(subs, formId));
      assert s in f;
    }
  }

  class SubmissionRepository {
    var submissions: seq<Submission>
    var nextId: nat

    ghost predicate Valid()
      reads this
    {
      (forall i, j :: 0 <= i < j < |submissions| ==> submissions[i].id != submissions[j].id)
      && forall i :: 0 <= i < |submissions| ==> submissions[i].id < nextId
    }

    constructor()
      ensures Valid() && submissions == []
    {
      submissions := [];
      nextId := 1;
    }

    /** `create`: one row with exactly the given form id and answers,
        stamped with the insertion instant; the form is not looked up. The
        form's listing grows by one and every other form's stays the same. */
    method Create(formId: int, data: map<string, JsonValue>, now: int) returns (s: Submission)
      requires Valid()
      modifies this
      ensures Valid()
      ensures s == Submission(old(nextId), now, data, formId)
      ensures submissions == old(submissions) + [s] && nextId == old(nextId) + 1
      ensures |ForForm(submissions, formId)| == |ForForm(old(submissions), formId)| + 1
      ensures forall other :: other != formId ==> ForForm(submissions, other) == ForForm(old(submissions), other)
    {
      s := Submission(nextId, now, data, formId);
      FilterAppend(submissions, s, (x: Submission) => x.formId == formId);
      forall other | other != formId
        ensures ForForm(submissions + [s], other) == ForForm(submissions, other)
      {
        FilterAppend(submissions, s, (x: Submission) => x.formId == other);
      }
      submissions := submissions + [s];
      nextId := nextId + 1;
    }

    /** `get_by_form_id` on the current table. */
    function ListForForm(formId: int): (r: seq<Submission>)
      reads this
      ensures forall s :: s in r ==> s.formId == formId
      ensures forall s: Submission :: s.formId == formId ==> multiset(r)[s] == multiset(submissions)[s]
      ensures SortedBySubmission(r)
    {
      GetByFormIdSpec(submissions, formId);
      GetByFormId(submissions, formId)
    }
  }
}
