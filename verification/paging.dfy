/**
 * Vocabulary of the page-replacement simulator: pages, slots, the three
 * policies, the input bounds, the Python list operations the engine relies
 * on (`list.index`, `list.remove`, `max`) and the OPT policy's next-use
 * distance and victim choice.
 */
module Paging {

  /** Largest frame count and reference-string length the input check accepts. */
  const MaxFramesAllowed: int := 9
  const MaxRefLength: int := 30
  /** References are drawn from 0..MaxPage. */
  const MaxPage: int := 9

  /** A page is an opaque, equality-comparable token. */
  type Page = int

  datatype Option<T> = None | Some(value: T)

  datatype Algorithm = Fifo | Lru | Opt

  /**
   * Distance from the scan start to a page's next use. `Never` stands for
   * "not used again" and is larger than every finite distance.
   */
  datatype Distance = At(steps: nat) | Never

  /** Strict order on distances: `Never` is above every `At`. */
  predicate Below(a: Distance, b: Distance)
  {
    match a
    case At(x) => b.Never? || x < b.steps
    case Never => false
  }

  predicate AtMost(a: Distance, b: Distance)
  {
    a == b || Below(a, b)
  }

  /** The range check applied to the two user inputs before a run starts. */
  predicate ValidInputs(frameCount: int, length: int)
  {
    1 <= frameCount <= MaxFramesAllowed && 1 <= length <= MaxRefLength
  }

  /** A possible outcome of drawing `length` references with `randint(0, 9)`. */
  predicate IsDraw(refs: seq<Page>, length: int)
  {
    |refs| == length && forall i :: 0 <= i < |refs| ==> 0 <= refs[i] <= MaxPage
  }

  predicate Distinct<T(==)>(q: seq<T>)
  {
    forall i, j :: 0 <= i < j < |q| ==> q[i] != q[j]
  }

  /**
   * `s.index(x)`: the position of the first occurrence of `x`, or `None`
   * where Python raises `ValueError`.
   */
  function IndexOf<T(==)>(s: seq<T>, x: T): (r: Option<nat>)
    ensures r.None? <==> x !in s
    ensures r.Some? ==> r.value < |s| && s[r.value] == x
    ensures r.Some? ==> forall j :: 0 <= j < r.value ==> s[j] != x
  {
    if |s| == 0 then None
    else if s[0] == x then Some(0)
    else
      match IndexOf(s[1..], x)
      case None => None
      case Some(k) => Some(k + 1)
  }

  /** `s.remove(x)`: `s` without the first occurrence of `x`. */
  function RemoveFirst<T(==)>(s: seq<T>, x: T): (r: seq<T>)
    requires x in s
    ensures |r| == |s| - 1
  {
    if s[0] == x then s[1..]
    else [s[0]] + RemoveFirst(s[1..], x)
  }

  /**
   * What `remove` leaves: the list spliced around the first occurrence of
   * `x`, the position `index` reports.
   */
  lemma {:induction false} RemoveFirstIsSplice<T>(s: seq<T>, x: T, i: nat)
    requires i < |s| && s[i] == x && x !in s[..i]
    ensures IndexOf(s, x) == Some(i)
    ensures RemoveFirst(s, x) == s[..i] + s[i + 1..]
  {
    if i > 0 {
      assert s[0] == s[..i][0];
      var t := s[1..];
      assert t[..i - 1] == s[1..i];
      RemoveFirstIsSplice(t, x, i - 1);
      var r := RemoveFirst(t, x);
      assert RemoveFirst(s, x) == [s[0]] + r;
      assert [s[0]] + r == s[..i] + s[i + 1..] by {
        assert forall j :: 0 <= j < i - 1 ==> r[j] == s[j + 1];
        assert forall j :: i - 1 <= j < |r| ==> r[j] == s[j + 2];
      }
    }
  }

  /** The tail of a duplicate-free list is duplicate-free and lacks the head. */
  lemma DistinctTail<T>(s: seq<T>)
    requires |s| > 0 && Distinct(s)
    ensures Distinct(s[1..]) && s[0] !in s[1..]
  {
    assert forall i :: 0 <= i < |s| - 1 ==> s[1..][i] == s[i + 1];
  }

  /** Prefixing a duplicate-free list with a new element keeps it duplicate-free. */
  lemma DistinctCons<T>(a: T, r: seq<T>)
    requires a !in r && Distinct(r)
    ensures Distinct([a] + r)
  {
    var c := [a] + r;
    forall i, j | 0 <= i < j < |c| ensures c[i] != c[j] {
      assert c[j] == r[j - 1];
      if i > 0 {
        assert c[i] == r[i - 1];
      }
    }
  }

  /** On a duplicate-free list, `remove` takes out exactly `x` and keeps the rest distinct. */
  lemma {:induction false} RemoveFirstOfDistinct<T>(s: seq<T>, x: T)
    requires x in s && Distinct(s)
    ensures Distinct(RemoveFirst(s, x))
    ensures x !in RemoveFirst(s, x)
    ensures forall y :: y in RemoveFirst(s, x) <==> y in s && y != x
  {
    DistinctTail(s);
    assert s == [s[0]] + s[1..];
    if s[0] != x {
      var r := RemoveFirst(s[1..], x);
      RemoveFirstOfDistinct(s[1..], x);
      assert RemoveFirst(s, x) == [s[0]] + r;
      DistinctCons(s[0], r);
    }
  }

  /**
   * The next-use distance of one slot's content: how many references after
   * `from` its page first comes up again, scanning `refs[from..]`. An empty
   * slot (Python's `None`) never occurs in a reference string, so it is
   * `Never` as well.
   */
  function NextUse(refs: seq<Page>, from: nat, slot: Option<Page>): (d: Distance)
    requires from <= |refs|
    ensures d.Never? <==> slot.None? || slot.value !in refs[from..]
    ensures d.At? ==> from + d.steps < |refs| && Some(refs[from + d.steps]) == slot
    ensures d.At? ==> forall j :: from <= j < from + d.steps ==> Some(refs[j]) != slot
    decreases |refs| - from
  {
    if slot.None? || from == |refs| then Never
    else if Some(refs[from]) == slot then At(0)
    else
      assert refs[from..] == [refs[from]] + refs[from + 1..];
      match NextUse(refs, from + 1, slot)
      case Never => Never
      case At(k) => At(k + 1)
  }

  /**
   * The distance is what the source computes: `refs[from:].index(page)`,
   * or infinity where `index` raises `ValueError`.
   */
  lemma NextUseIsIndex(refs: seq<Page>, from: nat, p: Page)
    requires from <= |refs|
    ensures NextUse(refs, from, Some(p)) ==
      match IndexOf(refs[from..], p)
      case None => Never
      case Some(k) => At(k)
  {
    var d := NextUse(refs, from, Some(p));
    var r := IndexOf(refs[from..], p);
    assert forall j :: 0 <= j < |refs| - from ==> refs[from..][j] == refs[from + j];
    if d.At? {
      assert refs[from..][d.steps] == p;
      assert forall j :: 0 <= j < d.steps ==> refs[from..][j] != p;
    }
  }

  /** The `future` list OPT builds: one next-use distance per slot. */
  function Future(frames: seq<Option<Page>>, refs: seq<Page>, from: nat): seq<Distance>
    requires from <= |refs|
  {
    seq(|frames|, i requires 0 <= i < |frames| => NextUse(refs, from, frames[i]))
  }

  /** `max(ds)`: an element of `ds` that no element exceeds. */
  function MaxOf(ds: seq<Distance>): (m: Distance)
    requires |ds| > 0
    ensures m in ds
    ensures forall i :: 0 <= i < |ds| ==> AtMost(ds[i], m)
  {
    if |ds| == 1 then ds[0]
    else
      var rest := MaxOf(ds[1..]);
      assert forall i :: 1 <= i < |ds| ==> ds[i] == ds[1..][i - 1];
      if Below(ds[0], rest) then rest else ds[0]
  }

  /**
   * The first of the slots `frames[..n]` whose page is needed farthest ahead:
   * a left-to-right scan that moves on only to a strictly later next use.
   */
  function FarthestAmong(frames: seq<Option<Page>>, refs: seq<Page>, from: nat, n: nat): (v: nat)
    requires 0 < n <= |frames| && from <= |refs|
    ensures v < n
    decreases n
  {
    if n == 1 then 0
    else
      var v := FarthestAmong(frames, refs, from, n - 1);
      if Below(NextUse(refs, from, frames[v]), NextUse(refs, from, frames[n - 1])) then n - 1 else v
  }

  /**
   * The scan's result is needed no sooner than any slot it passed over, and
   * strictly later than every slot before it.
   */
  lemma {:induction false} FarthestAmongIsFarthest(frames: seq<Option<Page>>, refs: seq<Page>, from: nat, n: nat)
    requires 0 < n <= |frames| && from <= |refs|
    ensures forall j {:trigger NextUse(refs, from, frames[j])} :: 0 <= j < n ==>
      AtMost(NextUse(refs, from, frames[j]), NextUse(refs, from, frames[FarthestAmong(frames, refs, from, n)]))
    ensures forall j {:trigger NextUse(refs, from, frames[j])} :: 0 <= j < FarthestAmong(frames, refs, from, n) ==>
      Below(NextUse(refs, from, frames[j]), NextUse(refs, from, frames[FarthestAmong(frames, refs, from, n)]))
    decreases n
  {
    if n > 1 {
      FarthestAmongIsFarthest(frames, refs, from, n - 1);
    }
  }

  /**
   * OPT's victim: the slot whose page is needed farthest ahead (or never),
   * the lowest such slot among equals.
   */
  function OptVictim(frames: seq<Option<Page>>, refs: seq<Page>, from: nat): (v: nat)
    requires |frames| > 0 && from <= |refs|
    ensures v < |frames|
    ensures forall j {:trigger NextUse(refs, from, frames[j])} :: 0 <= j < |frames| ==>
      AtMost(NextUse(refs, from, frames[j]), NextUse(refs, from, frames[v]))
    ensures forall j {:trigger NextUse(refs, from, frames[j])} :: 0 <= j < v ==>
      Below(NextUse(refs, from, frames[j]), NextUse(refs, from, frames[v]))
  {
    FarthestAmongIsFarthest(frames, refs, from, |frames|);
    FarthestAmong(frames, refs, from, |frames|)
  }

  /** Distances that are each at most the other are equal. */
  lemma AtMostAntisymmetric(a: Distance, b: Distance)
    requires AtMost(a, b) && AtMost(b, a)
    ensures a == b
  {
  }

  /**
   * In a list of distances, the first position holding the largest one is
   * `ds.index(max(ds))`.
   */
  lemma FirstLargestIsIndexOfMax(ds: seq<Distance>, v: nat)
    requires v < |ds|
    requires forall j :: 0 <= j < |ds| ==> AtMost(ds[j], ds[v])
    requires forall j :: 0 <= j < v ==> Below(ds[j], ds[v])
    ensures IndexOf(ds, MaxOf(ds)) == Some(v)
  {
    var m := MaxOf(ds);
    var i :| 0 <= i < |ds| && ds[i] == m;
    AtMostAntisymmetric(m, ds[v]);
    assert forall j :: 0 <= j < v ==> ds[j] != m;
  }

  /**
   * The victim is what the source computes, `future.index(max(future))`:
   * the first position of the largest next-use distance.
   */
  lemma OptVictimIsIndexOfMax(frames: seq<Option<Page>>, refs: seq<Page>, from: nat)
    requires |frames| > 0 && from <= |refs|
    ensures IndexOf(Future(frames, refs, from), MaxOf(Future(frames, refs, from))) == Some(OptVictim(frames, refs, from))
  {
    var future := Future(frames, refs, from);
    assert forall j :: 0 <= j < |frames| ==> future[j] == NextUse(refs, from, frames[j]);
    FirstLargestIsIndexOfMax(future, OptVictim(frames, refs, from));
  }

  /**
   * Two different resident pages cannot share a finite next-use distance, so
   * OPT's tie-break only ever chooses among pages that are never used again.
   */
  lemma OptTiesAreNeverUsed(refs: seq<Page>, from: nat, a: Option<Page>, b: Option<Page>)
    requires from <= |refs| && a != b
    requires NextUse(refs, from, a) == NextUse(refs, from, b)
    ensures NextUse(refs, from, a) == Never
  {
  }

  /**
   * If some slot's page is not referenced again, OPT evicts such a page, and
   * the lowest-indexed one: every slot before the victim is used again.
   */
  lemma {:induction false} OptPrefersUnusedPages(frames: seq<Option<Page>>, refs: seq<Page>, from: nat)
    requires |frames| > 0 && from <= |refs|
    requires exists j :: 0 <= j < |frames| && NextUse(refs, from, frames[j]) == Never
    ensures NextUse(refs, from, frames[OptVictim(frames, refs, from)]) == Never
    ensures forall j :: 0 <= j < OptVictim(frames, refs, from) ==>
      NextUse(refs, from, frames[j]).At?
  {
    var v := OptVictim(frames, refs, from);
    var j :| 0 <= j < |frames| && NextUse(refs, from, frames[j]) == Never;
    assert AtMost(NextUse(refs, from, frames[j]), NextUse(refs, from, frames[v]));
  }
}
