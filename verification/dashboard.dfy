/**
 The administrator's dashboard: the four counters over the unfiltered
 student list and the short list of the first five records.
 */
module Dashboard {
  import opened Common
  import opened StudentTypes

  /** How many records of `students` satisfy `keep`. */
  function Count(students: seq<Student>, keep: Student -> bool): (n: nat)
    ensures n <= |students|
    decreases |students|
  {
    if |students| == 0 then 0
    else (if keep(students[0]) then 1 else 0) + Count(students[1..], keep)
  }

  /** Counting over two lists laid end to end adds up. */
  lemma {:induction false} CountAppend(a: seq<Student>, b: seq<Student>, keep: Student -> bool)
    ensures Count(a + b, keep) == Count(a, keep) + Count(b, keep)
    decreases |a|
  {
    if |a| > 0 {
      assert (a + b)[1..] == a[1..] + b;
      CountAppend(a[1..], b, keep);
    } else {
      assert a + b == b;
    }
  }

  /** A record that passes one test and fails the other is counted by
      exactly one of them. */
  lemma {:induction false} CountSplits(students: seq<Student>, keep: Student -> bool, other: Student -> bool)
    requires forall s :: s in students ==> (keep(s) <==> !other(s))
    ensures Count(students, keep) + Count(students, other) == |students|
    decreases |students|
  {
    if |students| > 0 {
      CountSplits(students[1..], keep, other);
    }
  }

  predicate IsPaid(s: Student) {
    FeeStatusText(s.feeStatus) == "paid"
  }

  predicate IsPending(s: Student) {
    FeeStatusText(s.feeStatus) == "pending"
  }

  predicate IsActive(s: Student) {
    StatusText(s.status) == "active"
  }

  datatype Stats = Stats(total: nat, paid: nat, pending: nat, active: nat)

  /** The four counters. */
  function DashboardStats(students: seq<Student>): (st: Stats)
    ensures st.total == |students|
    ensures st.paid == Count(students, IsPaid) && st.pending == Count(students, IsPending)
    ensures st.active == Count(students, IsActive)
    ensures st.paid + st.pending == st.total
    ensures st.active <= st.total
  {
    CountSplits(students, IsPaid, IsPending);
    Stats(|students|, Count(students, IsPaid), Count(students, IsPending), Count(students, IsActive))
  }

  /** Adding a record to the list moves the total by one and exactly one of
      the fee counters by one. */
  lemma AddingARecord(students: seq<Student>, s: Student)
    ensures DashboardStats(students + [s]).total == DashboardStats(students).total + 1
    ensures DashboardStats(students + [s]).paid == DashboardStats(students).paid + (if s.feeStatus == Paid then 1 else 0)
    ensures DashboardStats(students + [s]).pending == DashboardStats(students).pending + (if s.feeStatus == Pending then 1 else 0)
  {
    CountAppend(students, [s], IsPaid);
    CountAppend(students, [s], IsPending);
  }

  const RecentLimit := 5

  /** The short list: the first five records in list order (the order of
      the list query, not the order of creation). */
  function Recent(students: seq<Student>): (r: seq<Student>)
    ensures |r| == Min(RecentLimit, |students|)
    ensures forall i :: 0 <= i < |r| ==> r[i] == students[i]
  {
    students[..Min(RecentLimit, |students|)]
  }

  /** The short list is a prefix, and it is the whole list when the list
      has five records or fewer. */
  lemma RecentIsPrefix(students: seq<Student>)
    ensures Recent(students) <= students
    ensures |students| <= RecentLimit ==> Recent(students) == students
  {
  }
}
