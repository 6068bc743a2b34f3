/**
 * Sort-by-due.  The script calls Python's list.sort with a key, which is a
 * stable sort: it is modelled here as a stable insertion sort over the key
 * order, and proved to be a sorted, order-keeping permutation of its input.
 * Versions 1.3 and 1.4 sort on (due is blank, stripped due); version 1.2
 * sorts on the raw due text.
 */
module Sorting {
  import opened Text
  import opened Dates
  import opened Tasks

  /** A sort key as Python compares the tuple (blank, text): False < True,
      then the text. */
  datatype SortKey = SortKey(blank: bool, text: string)

  /** Python's < on those tuples. */
  predicate KeyLess(a: SortKey, b: SortKey)
  {
    (!a.blank && b.blank) || (a.blank == b.blank && StrLess(a.text, b.text))
  }

  lemma KeyLessIrreflexive(a: SortKey)
    ensures !KeyLess(a, a)
  {
    StrLessIrreflexive(a.text);
  }

  lemma KeyLessTransitive(a: SortKey, b: SortKey, c: SortKey)
    requires KeyLess(a, b) && KeyLess(b, c)
    ensures KeyLess(a, c)
  {
    if a.blank == b.blank == c.blank {
      StrLessTransitive(a.text, b.text, c.text);
    }
  }

  lemma KeyLessTotal(a: SortKey, b: SortKey)
    requires a != b
    ensures KeyLess(a, b) || KeyLess(b, a)
  {
    if a.blank == b.blank {
      StrLessTotal(a.text, b.text);
    }
  }

  /** "Not less" is transitive too, which is what lets an insertion stop at
      the first element that is not smaller. */
  lemma KeyNotLessTransitive(a: SortKey, b: SortKey, c: SortKey)
    requires !KeyLess(b, a) && !KeyLess(c, b)
    ensures !KeyLess(c, a)
  {
    if KeyLess(c, a) && b != a {
      KeyLessTotal(a, b);
      KeyLessTransitive(c, a, b);
    }
  }

  /** _sort_key_due: (d == "", d) for d the stripped due. */
  function DueKey(t: Task): (k: SortKey)
    ensures k.text == Strip(t.due)
    ensures k.blank <==> AllSpace(t.due)
  {
    StripSpec(t.due);
    var d := Strip(t.due);
    SortKey(d == "", d)
  }

  /** Version 1.2's key, the raw due text; wrapping it as a non-blank key
      keeps Python's string order. */
  function RawDueKey(t: Task): (k: SortKey)
    ensures !k.blank && k.text == t.due
  {
    SortKey(false, t.due)
  }

  /** s ordered by key: no later element has a smaller key. */
  ghost predicate SortedBy(s: seq<Task>, key: Task -> SortKey)
  {
    forall i, j :: 0 <= i < j < |s| ==> !KeyLess(key(s[j]), key(s[i]))
  }

  /** The elements of s whose key is k, in their order in s. */
  function WithKey(s: seq<Task>, key: Task -> SortKey, k: SortKey): seq<Task>
  {
    if s == [] then []
    else (if key(s[0]) == k then [s[0]] else []) + WithKey(s[1..], key, k)
  }

  /** Puts x in front of the first element whose key is not smaller than
      x's, so that x stays ahead of the elements with an equal key. */
  function Insert(x: Task, s: seq<Task>, key: Task -> SortKey): (r: seq<Task>)
    ensures |r| == |s| + 1
  {
    if s == [] then [x]
    else if KeyLess(key(s[0]), key(x)) then [s[0]] + Insert(x, s[1..], key)
    else [x] + s
  }

  /** list.sort(key=key) */
  function SortBy(s: seq<Task>, key: Task -> SortKey): (r: seq<Task>)
    ensures |r| == |s|
  {
    if s == [] then [] else Insert(s[0], SortBy(s[1..], key), key)
  }

  lemma {:induction false} InsertPermutation(x: Task, s: seq<Task>, key: Task -> SortKey)
    ensures multiset(Insert(x, s, key)) == multiset(s) + multiset{x}
  {
    if s != [] && KeyLess(key(s[0]), key(x)) {
      InsertPermutation(x, s[1..], key);
      assert s == [s[0]] + s[1..];
    }
  }

  lemma {:induction false} InsertSorted(x: Task, s: seq<Task>, key: Task -> SortKey)
    requires SortedBy(s, key)
    ensures SortedBy(Insert(x, s, key), key)
  {
    if s == [] {
    } else if KeyLess(key(s[0]), key(x)) {
      var rest := Insert(x, s[1..], key);
      InsertSorted(x, s[1..], key);
      InsertPermutation(x, s[1..], key);
      forall j | 0 <= j < |rest|
        ensures !KeyLess(key(rest[j]), key(s[0]))
      {
        assert rest[j] in multiset(rest);
        if rest[j] == x {
          if KeyLess(key(x), key(s[0])) {
            KeyLessTransitive(key(x), key(s[0]), key(x));
            KeyLessIrreflexive(key(x));
          }
        } else {
          assert rest[j] in multiset(s[1..]);
          var m :| 0 <= m < |s[1..]| && s[1..][m] == rest[j];
          assert s[m + 1] == rest[j];
        }
      }
      var r := [s[0]] + rest;
      forall i, j | 0 <= i < j < |r|
        ensures !KeyLess(key(r[j]), key(r[i]))
      {
        if i > 0 {
          assert r[i] == rest[i - 1] && r[j] == rest[j - 1];
        } else {
          assert r[j] == rest[j - 1];
        }
      }
    } else {
      var r := [x] + s;
      forall i, j | 0 <= i < j < |r|
        ensures !KeyLess(key(r[j]), key(r[i]))
      {
        if i == 0 {
          if j > 1 {
            KeyNotLessTransitive(key(x), key(s[0]), key(s[j - 1]));
          }
        }
      }
    }
  }

  lemma {:induction false} InsertWithKey(x: Task, s: seq<Task>, key: Task -> SortKey, k: SortKey)
    ensures WithKey(Insert(x, s, key), key, k) == (if key(x) == k then [x] else []) + WithKey(s, key, k)
  {
    if s == [] {
      assert WithKey([x], key, k) == (if key(x) == k then [x] else []) + WithKey([], key, k);
    } else if KeyLess(key(s[0]), key(x)) {
      var rest := Insert(x, s[1..], key);
      InsertWithKey(x, s[1..], key, k);
      assert ([s[0]] + rest)[1..] == rest;
      KeyLessIrreflexive(key(x));
      assert !(key(s[0]) == k && key(x) == k);
    } else {
      assert ([x] + s)[1..] == s;
    }
  }

  /** The sort only reorders: the result is a permutation of the input. */
  lemma {:induction false} SortByPermutation(s: seq<Task>, key: Task -> SortKey)
    ensures multiset(SortBy(s, key)) == multiset(s)
    ensures |SortBy(s, key)| == |s|
  {
    if s != [] {
      SortByPermutation(s[1..], key);
      InsertPermutation(s[0], SortBy(s[1..], key), key);
      assert s == [s[0]] + s[1..];
    }
  }

  /** The result is in key order. */
  lemma {:induction false} SortBySorted(s: seq<Task>, key: Task -> SortKey)
    ensures SortedBy(SortBy(s, key), key)
  {
    if s != [] {
      SortBySorted(s[1..], key);
      InsertSorted(s[0], SortBy(s[1..], key), key);
    }
  }

  /** The sort is stable: the tasks sharing any one key come out in the order
      they went in. */
  lemma {:induction false} SortByStable(s: seq<Task>, key: Task -> SortKey, k: SortKey)
    ensures WithKey(SortBy(s, key), key, k) == WithKey(s, key, k)
  {
    if s != [] {
      SortByStable(s[1..], key, k);
      InsertWithKey(s[0], SortBy(s[1..], key), key, k);
    }
  }

  /** Every task whose due is blank (empty or white space only) comes after
      every task with a due. */
  ghost predicate BlanksLast(r: seq<Task>)
  {
    forall i, j :: 0 <= i < j < |r| && AllSpace(r[i].due) ==> AllSpace(r[j].due)
  }

  /** The stripped dues of the tasks that have one never decrease. */
  ghost predicate DuesAscending(r: seq<Task>)
  {
    forall i, j :: 0 <= i < j < |r| && !AllSpace(r[j].due) ==> !StrLess(Strip(r[j].due), Strip(r[i].due))
  }

  /** Sorting by due (1.3, 1.4) puts blank dues last and orders the others. */
  lemma SortByDueOrder(s: seq<Task>)
    ensures BlanksLast(SortBy(s, DueKey))
    ensures DuesAscending(SortBy(s, DueKey))
  {
    SortBySorted(s, DueKey);
  }

  /** For ISO dates, a due that does not sort before another is not an
      earlier day. */
  lemma IsoDueNotEarlier(a: string, b: string)
    requires IsIsoDate(a) && IsIsoDate(b)
    requires !StrLess(Strip(b), Strip(a))
    ensures !EarlierDate(b, a)
  {
    IsoDateStripped(a);
    IsoDateStripped(b);
    IsoOrderIsCalendarOrder(b, a);
  }

  /** No task is due on an earlier day than a task before it. */
  ghost predicate Chronological(r: seq<Task>)
    requires forall t :: t in r ==> IsIsoDate(t.due)
  {
    forall i, j :: 0 <= i < j < |r| ==> !EarlierDate(r[j].due, r[i].due)
  }

  /** When every due is an ISO date, sorting by due is chronological. */
  lemma SortByDueChronological(s: seq<Task>)
    requires forall t :: t in s ==> IsIsoDate(t.due)
    ensures forall t :: t in SortBy(s, DueKey) ==> IsIsoDate(t.due)
    ensures Chronological(SortBy(s, DueKey))
  {
    var r := SortBy(s, DueKey);
    SortByPermutation(s, DueKey);
    assert forall t :: t in r ==> t in s by {
      forall t | t in r ensures t in s {
        assert t in multiset(r);
      }
    }
    SortByDueOrder(s);
    forall i, j | 0 <= i < j < |r|
      ensures !EarlierDate(r[j].due, r[i].due)
    {
      assert r[i] in s && r[j] in s;
      var a, b := r[i].due, r[j].due;
      IsoDateStripped(b);
      assert !AllSpace(b);
      assert !StrLess(Strip(b), Strip(a));
      IsoDueNotEarlier(a, b);
    }
  }

  /** Version 1.2 sorts on the raw due, so tasks with an empty due come
      first, ahead of every task with a due. */
  lemma SortByRawDueEmptyFirst(s: seq<Task>)
    ensures forall i, j :: 0 <= i < j < |SortBy(s, RawDueKey)| && SortBy(s, RawDueKey)[j].due == "" ==>
      SortBy(s, RawDueKey)[i].due == ""
  {
    SortBySorted(s, RawDueKey);
  }
}
