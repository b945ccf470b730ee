/** Sequence facts shared by the pack pipeline: a run of steps that stops at the
    first failing one, and deduplication that keeps the first occurrence. */
module Seqs {

  /** Every element of `s` passes `ok`. */
  predicate AllOk<T>(s: seq<T>, ok: T -> bool)
  {
    forall i :: 0 <= i < |s| ==> ok(s[i])
  }

  /** No element occurs twice. */
  predicate NoDup<T(==)>(s: seq<T>)
  {
    forall i, j :: 0 <= i < j < |s| ==> s[i] != s[j]
  }

  /** The steps a loop performs when it walks `s` in order and returns at the
      first step that fails: everything up to and including that step. */
  function TakeThroughFail<T>(s: seq<T>, ok: T -> bool): (r: seq<T>)
    ensures r <= s
    ensures AllOk(s, ok) ==> r == s
    ensures !AllOk(s, ok) ==> 0 < |r| && !ok(r[|r| - 1]) && AllOk(r[..|r| - 1], ok)
    decreases |s|
  {
    if s == [] then []
    else if !ok(s[0]) then [s[0]]
    else
      var rest := TakeThroughFail(s[1..], ok);
      assert forall i :: 1 <= i < |s| ==> s[i] == s[1..][i - 1];
      [s[0]] + rest
  }

  /** Every step but the last succeeded. */
  predicate OkBeforeLast<T>(s: seq<T>, ok: T -> bool)
  {
    forall i :: 0 <= i < |s| - 1 ==> ok(s[i])
  }

  /** In a run that stops at the first failure every step but the last
      succeeded. */
  lemma TakeThroughFailOkBeforeLast<T>(s: seq<T>, ok: T -> bool)
    ensures OkBeforeLast(TakeThroughFail(s, ok), ok)
    ensures AllOk(s, ok) ==> OkBeforeLast(s, ok)
  {
    // Dafny finds this proof alone; these steps keep its resource use low.
    var r := TakeThroughFail(s, ok);
    if !AllOk(s, ok) {
      assert forall i :: 0 <= i < |r| - 1 ==> r[..|r| - 1][i] == r[i];
    }
  }

  /** A run whose steps before `x` all succeed and which fails at `x` performs
      exactly those steps and `x`, whatever follows. */
  lemma TakeThroughFailAt<T>(p: seq<T>, x: T, rest: seq<T>, ok: T -> bool)
    requires AllOk(p, ok) && !ok(x)
    ensures TakeThroughFail(p + [x] + rest, ok) == p + [x]
  {
    var s := p + [x] + rest;
    assert s[|p|] == x;
    assert !AllOk(s, ok);
    var r := TakeThroughFail(s, ok);
    var k := |r| - 1;
    assert forall i :: 0 <= i < |p| ==> s[i] == p[i];
    assert forall i :: 0 <= i < k ==> r[..k][i] == s[i];
    assert k == |p|;
  }

  /** The same, for a run over a list that extends a failing prefix `p + [x]`. */
  lemma TakeThroughFailPrefix<T>(d: seq<T>, p: seq<T>, x: T, ok: T -> bool)
    requires p + [x] <= d && AllOk(p, ok) && !ok(x)
    ensures TakeThroughFail(d, ok) == p + [x]
    ensures !AllOk(d, ok)
  {
    var q := p + [x];
    assert d[..|q|] == q;
    assert d == q + d[|q|..];
    TakeThroughFailAt(p, x, d[|q|..], ok);
    assert d[|p|] == x;
  }

  /** A prefix keeps the elements it has and their distinctness. */
  lemma PrefixKeeps<T>(a: seq<T>, b: seq<T>)
    requires a <= b
    ensures NoDup(b) ==> NoDup(a)
    ensures forall x :: x in a ==> x in b
  {
    // Dafny finds this proof alone; these steps keep its resource use low.
    assert forall i :: 0 <= i < |a| ==> a[i] == b[i];
  }

  /** Deduplication that keeps each element at its first occurrence
      (the `uniqset` filter of the add loop). */
  function Dedup<T(==, !new)>(s: seq<T>): (r: seq<T>)
    ensures NoDup(r)
    ensures forall x :: x in r <==> x in s
    decreases |s|
  {
    if s == [] then []
    else
      var init := s[..|s| - 1];
      var d := Dedup(init);
      assert s == init + [s[|s| - 1]];
      if s[|s| - 1] in d then d else d + [s[|s| - 1]]
  }

  /** Index of the first occurrence of `x` in `s`. */
  function FirstIndex<T(==)>(s: seq<T>, x: T): (k: nat)
    requires x in s
    ensures k < |s| && s[k] == x && x !in s[..k]
    decreases |s|
  {
    if s[0] == x then 0 else 1 + FirstIndex(s[1..], x)
  }

  /** The first occurrence of `x` does not move when something is appended. */
  lemma FirstIndexAppend<T>(s: seq<T>, y: T, x: T)
    requires x in s
    ensures FirstIndex(s + [y], x) == FirstIndex(s, x)
  {
    var k := FirstIndex(s, x);
    var k' := FirstIndex(s + [y], x);
    assert (s + [y])[k] == x;
    assert forall i :: 0 <= i < |s| ==> (s + [y])[i] == s[i];
    assert forall i :: 0 <= i < k' ==> (s + [y])[..k'][i] == (s + [y])[i];
    assert forall i :: 0 <= i < k ==> s[..k][i] == s[i];
  }

  /** Dedup lists its elements in the order of their first occurrences. */
  lemma {:induction false} DedupFirstOccurrenceOrder<T(!new)>(s: seq<T>)
    ensures forall i, j :: 0 <= i < j < |Dedup(s)| ==>
      FirstIndex(s, Dedup(s)[i]) < FirstIndex(s, Dedup(s)[j])
  {
    if s != [] {
      var init := s[..|s| - 1];
      var y := s[|s| - 1];
      assert s == init + [y];
      DedupFirstOccurrenceOrder(init);
      var d := Dedup(init);
      forall x | x in d ensures FirstIndex(s, x) == FirstIndex(init, x) {
        FirstIndexAppend(init, y, x);
      }
      if y !in d {
        assert y !in init;
        assert FirstIndex(s, y) == |init|;
      }
    }
  }

  /** Deduplicating a prefix gives a prefix of the deduplicated whole. */
  lemma {:induction false} DedupPrefix<T(!new)>(s: seq<T>, k: nat)
    requires k <= |s|
    ensures Dedup(s[..k]) <= Dedup(s)
    decreases |s|
  {
    if k < |s| {
      var init := s[..|s| - 1];
      assert init[..k] == s[..k];
      DedupPrefix(init, k);
    } else {
      assert s[..k] == s;
    }
  }

  /** Deduplicating one more element appends it exactly when it is new. */
  lemma DedupStep<T(!new)>(s: seq<T>, k: nat)
    requires k < |s|
    ensures Dedup(s[..k + 1]) == if s[k] in s[..k] then Dedup(s[..k]) else Dedup(s[..k]) + [s[k]]
  {
    assert s[..k + 1][..k] == s[..k];
  }

  /** One step of the seen-set filter: `seen` holds the elements of `s[..k]`. */
  lemma DedupSeenStep<T(!new)>(s: seq<T>, k: nat, seen: set<T>)
    requires k < |s|
    requires forall x :: x in seen <==> x in s[..k]
    ensures forall x :: x in seen + {s[k]} <==> x in s[..k + 1]
    ensures Dedup(s[..k + 1]) == if s[k] in seen then Dedup(s[..k]) else Dedup(s[..k]) + [s[k]]
  {
    assert s[..k + 1] == s[..k] + [s[k]];
    DedupStep(s, k);
  }

  /** A run over the deduplicated list whose steps so far all succeeded and
      which fails at the new element `s[k]`. */
  lemma DedupFailsAt<T(!new)>(s: seq<T>, k: nat, ok: T -> bool)
    requires k < |s| && s[k] !in s[..k]
    requires AllOk(Dedup(s[..k]), ok) && !ok(s[k])
    ensures TakeThroughFail(Dedup(s), ok) == Dedup(s[..k]) + [s[k]]
    ensures !AllOk(Dedup(s), ok)
  {
    DedupStep(s, k);
    DedupPrefix(s, k + 1);
    TakeThroughFailPrefix(Dedup(s), Dedup(s[..k]), s[k], ok);
  }
}
