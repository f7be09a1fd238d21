/** The fixed list of subject identifiers the pipeline is replicated over. */
module Subjects {

  /** The subjects, in the order the pipeline iterates over them. Numbers 07,
      17, 23, 25 and 27 are absent from the list. */
  const Subs: seq<string> := [
    "sub-01", "sub-02", "sub-03", "sub-04", "sub-05", "sub-06", "sub-08",
    "sub-09", "sub-10", "sub-11", "sub-12", "sub-13", "sub-14", "sub-15",
    "sub-16", "sub-18", "sub-19", "sub-20", "sub-21", "sub-22", "sub-24",
    "sub-26", "sub-28", "sub-29", "sub-30", "sub-31", "sub-32", "sub-33"
  ]

  /** Python's ordering of strings: code point by code point, a proper prefix
      first. */
  predicate LexLess(a: string, b: string)
  {
    if a == [] then b != []
    else b != [] && (a[0] < b[0] || (a[0] == b[0] && LexLess(a[1..], b[1..])))
  }

  predicate IsDigit(c: char)
  {
    '0' <= c <= '9'
  }

  /** A subject identifier of the study's form: `sub-` and two decimal digits. */
  predicate WellFormed(s: string)
  {
    |s| == 6 && s[..4] == "sub-" && IsDigit(s[4]) && IsDigit(s[5])
  }

  /** The two-digit subject number of a well-formed identifier. */
  function Number(s: string): (n: nat)
    requires WellFormed(s)
    ensures n < 100
  {
    (s[4] as int - '0' as int) * 10 + (s[5] as int - '0' as int)
  }

  /** A common prefix does not change the order of two strings. */
  lemma {:induction false} LexLessCommonPrefix(a: string, b: string, n: nat)
    requires n <= |a| && n <= |b| && a[..n] == b[..n]
    requires LexLess(a[n..], b[n..])
    ensures LexLess(a, b)
  {
    if n > 0 {
      assert a[0] == a[..n][0] == b[..n][0] == b[0];
      assert a[1..][..n - 1] == a[1..n] == b[1..n] == b[1..][..n - 1];
      assert a[1..][n - 1..] == a[n..] && b[1..][n - 1..] == b[n..];
      LexLessCommonPrefix(a[1..], b[1..], n - 1);
    } else {
      assert a[0..] == a && b[0..] == b;
    }
  }

  /** For well-formed identifiers, string order is the order of their numbers. */
  lemma NumberOrderIsStringOrder(a: string, b: string)
    requires WellFormed(a) && WellFormed(b)
    requires Number(a) < Number(b)
    ensures LexLess(a, b)
  {
    var ta, tb := a[4] as int - '0' as int, b[4] as int - '0' as int;
    if a[4] == b[4] {
      assert a[5] < b[5];
      assert LexLess(a[5..], b[5..]);
      assert a[4..][1..] == a[5..] && b[4..][1..] == b[5..];
    } else {
      assert ta < tb;
    }
    assert LexLess(a[4..], b[4..]);
    LexLessCommonPrefix(a, b, 4);
  }

  /** The identifier list has 28 entries, all well formed, numbered in
      strictly ascending order. */
  lemma SubsNumbered()
    ensures |Subs| == 28
    ensures forall i :: 0 <= i < |Subs| ==> WellFormed(Subs[i])
    ensures forall i :: 0 <= i < |Subs| - 1 ==> Number(Subs[i]) < Number(Subs[i + 1])
  {
  }

  /** Numbers that rise from each identifier to the next rise across every
      pair. */
  lemma {:induction false} NumbersRiseAcrossPairs(ids: seq<string>, i: nat, j: nat)
    requires forall k :: 0 <= k < |ids| ==> WellFormed(ids[k])
    requires forall k :: 0 <= k < |ids| - 1 ==> Number(ids[k]) < Number(ids[k + 1])
    requires i < j < |ids|
    ensures Number(ids[i]) < Number(ids[j])
    decreases j - i
  {
    if i + 1 < j {
      NumbersRiseAcrossPairs(ids, i + 1, j);
    }
  }

  /** The identifiers are in strictly ascending string order, so pairwise
      distinct, and none contains a path separator. */
  lemma SubsAscendingDistinct()
    ensures |Subs| == 28
    ensures forall i, j :: 0 <= i < j < |Subs| ==> LexLess(Subs[i], Subs[j])
    ensures forall i, j :: 0 <= i < |Subs| && 0 <= j < |Subs| && i != j ==> Subs[i] != Subs[j]
    ensures forall i :: 0 <= i < |Subs| ==> '/' !in Subs[i]
  {
    SubsNumbered();
    forall i, j | 0 <= i < j < |Subs|
      ensures LexLess(Subs[i], Subs[j]) && Subs[i] != Subs[j]
    {
      NumbersRiseAcrossPairs(Subs, i, j);
      NumberOrderIsStringOrder(Subs[i], Subs[j]);
    }
    forall i | 0 <= i < |Subs|
      ensures '/' !in Subs[i]
    {
      var s := Subs[i];
      assert s[..4] == "sub-";
      forall c | 0 <= c < |s| ensures s[c] != '/' {
        if c < 4 { assert s[c] == s[..4][c]; }
      }
    }
  }
}
