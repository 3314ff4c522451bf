/**
 * The interface of the option-parsing engine that the wrapper layer sits on.
 *
 * The engine itself (its sizing pass, token matching and linking) is not part of
 * this model.  What the wrapper layer sees of it is modelled here: the option
 * record it stores in its arena, the record's links to the other occurrences of
 * the same option, and the queries first(), count(), next() and the operation
 * append() on those links, written abstractly over an arena of records.
 *
 * The engine links the occurrences of one option as a circular list with tagged
 * pointers; in this arena model a record whose `prev` is None is the first of its
 * chain and a record whose `next` is None is the last.
 */
module Engine {
  import opened Wrappers

  /** A C string as seen up to its terminator: it holds no NUL character. */
  type CString = s: string | forall k :: 0 <= k < |s| ==> s[k] != '\0'

  /** A link to another record: its position in the arena, or the null pointer. */
  type Link = Option<nat>

  /**
   * One option record of the arena.  `index` is the descriptor's index, or -1 when
   * the record has no descriptor (a slot that was never set); `name` is the option
   * text as typed; `arg` is the attached value or the null pointer.
   */
  datatype Record = Record(index: int, name: string, arg: Option<CString>, prev: Link, next: Link)

  /** A default-constructed record: no descriptor, no value, linked to nothing. */
  const EmptyRecord := Record(-1, "", None, None, None)

  /** What the engine's Stats object computes: the slot count and the buffer capacity. */
  datatype Stats = Stats(optionsMax: nat, bufferMax: nat)

  /** What the wrapper layer reads from the engine's Parser object after the parse. */
  datatype EngineResult = EngineResult(optionsCount: nat, nonOptions: seq<CString>, error: bool)

  /**
   * operator bool of a record: true when it has a descriptor, which a record the
   * engine filled in always has and a default-constructed one never has.
   */
  predicate HasDesc(r: Record): (h: bool)
    ensures r == EmptyRecord ==> !h
    ensures h ==> r.index >= 0
  {
    r.index >= 0
  }

  predicate LinkOk(n: nat, l: Link) {
    l.None? || l.value < n
  }

  /**
   * Every link of every record points into the arena.  The engine only writes such
   * links; the functions below nevertheless treat a link that leaves the arena like
   * the null pointer, so that they are defined on every arena.
   */
  predicate LinksInRange(b: seq<Record>) {
    forall k {:trigger RecordLinksOk(|b|, b[k])} :: 0 <= k < |b| ==> RecordLinksOk(|b|, b[k])
  }

  /** Both links of `r` point into an arena of `n` records. */
  predicate RecordLinksOk(n: nat, r: Record) {
    LinkOk(n, r.prev) && LinkOk(n, r.next)
  }

  /** Two arenas hold the same records up to their links. */
  predicate SameData(b: seq<Record>, b': seq<Record>) {
    |b| == |b'| &&
    forall k :: 0 <= k < |b| ==>
      b'[k].index == b[k].index && b'[k].name == b[k].name && b'[k].arg == b[k].arg
  }

  /** The positions visited by following `next` from `p`, at most `fuel` of them. */
  function Walk(b: seq<Record>, p: nat, fuel: nat): (c: seq<nat>)
    requires p < |b|
    ensures |c| <= fuel
    ensures fuel > 0 ==> |c| >= 1 && c[0] == p
    ensures forall k :: 0 <= k < |c| ==> c[k] < |b|
    decreases fuel
  {
    if fuel == 0 then []
    else match b[p].next
      case None => [p]
      case Some(q) => if q < |b| then [p] + Walk(b, q, fuel - 1) else [p]
  }

  /** The chain of records from `p` onwards, as next() enumerates them. */
  function Chain(b: seq<Record>, p: nat): (c: seq<nat>)
    requires p < |b|
    ensures 1 <= |c| <= |b| && c[0] == p
    ensures forall k :: 0 <= k < |c| ==> c[k] < |b|
  {
    Walk(b, p, |b|)
  }

  function FirstWalk(b: seq<Record>, p: nat, fuel: nat): (f: nat)
    requires p < |b|
    ensures f < |b|
    decreases fuel
  {
    if fuel == 0 then p
    else match b[p].prev
      case None => p
      case Some(q) => if q < |b| then FirstWalk(b, q, fuel - 1) else p
  }

  /** first(): the record reached by following `prev` from `p` to the chain's start. */
  function First(b: seq<Record>, p: nat): (f: nat)
    requires p < |b|
    ensures f < |b|
    ensures b[p].prev.None? ==> f == p
  {
    FirstWalk(b, p, |b|)
  }

  /** The record reached by following `next` from `p` to the end, in at most `fuel` steps. */
  function LastWalk(b: seq<Record>, p: nat, fuel: nat): (l: nat)
    requires p < |b|
    ensures l < |b|
    decreases fuel
  {
    if fuel == 0 then p
    else match b[p].next
      case None => p
      case Some(q) => if q < |b| then LastWalk(b, q, fuel - 1) else p
  }

  /** last(): the final record of the chain that `p` belongs to. */
  function Last(b: seq<Record>, p: nat): (l: nat)
    requires p < |b|
    ensures l < |b|
    ensures b[First(b, p)].next.None? ==> l == First(b, p)
  {
    LastWalk(b, First(b, p), |b|)
  }

  /** The number of records visited by following `next` from `p`, at most `fuel`. */
  function Span(b: seq<Record>, p: nat, fuel: nat): (n: nat)
    requires p < |b|
    ensures n <= fuel && (fuel > 0 ==> n >= 1)
    decreases fuel
  {
    if fuel == 0 then 0
    else match b[p].next
      case None => 1
      case Some(q) => if q < |b| then 1 + Span(b, q, fuel - 1) else 1
  }

  /**
   * count(): one for the record itself when it has a descriptor, plus one for
   * every record after the chain's first.
   */
  function Count(b: seq<Record>, p: nat): (n: int)
    requires p < |b|
    ensures n >= (if HasDesc(b[p]) then 1 else 0)
    ensures b[First(b, p)].next.None? ==> n == (if HasDesc(b[p]) then 1 else 0)
  {
    Span(b, First(b, p), |b|) - 1 + (if HasDesc(b[p]) then 1 else 0)
  }

  /**
   * append(q) on the record at `p`: the last record of p's chain is linked to `q`,
   * `q` becomes the new last record, and the chain's first record stays first.
   */
  function Append(b: seq<Record>, p: nat, q: nat): (b': seq<Record>)
    requires p < |b| && q < |b|
    ensures SameData(b, b')
    ensures b'[First(b, p)].prev.None? && b'[q].next.None?
    ensures q != First(b, p) ==> b'[q].prev == Some(Last(b, p))
    ensures Last(b, p) != q ==> b'[Last(b, p)].next == Some(q)
    ensures forall k :: 0 <= k < |b| && k != q && k != Last(b, p) && k != First(b, p) ==> b'[k] == b[k]
  {
    var last := Last(b, p);
    var f := First(b, p);
    var b1 := b[last := b[last].(next := Some(q))];
    var b2 := b1[q := b1[q].(prev := Some(last), next := None)];
    b2[f := b2[f].(prev := None)]
  }

  /** append() keeps every link inside the arena. */
  lemma AppendKeepsLinks(b: seq<Record>, p: nat, q: nat)
    requires p < |b| && q < |b| && LinksInRange(b)
    ensures LinksInRange(Append(b, p, q))
  {
    var b' := Append(b, p, q);
    var last, f := Last(b, p), First(b, p);
    forall k | 0 <= k < |b'| ensures RecordLinksOk(|b'|, b'[k]) {
      if k != last && k != q && k != f {
        assert b'[k] == b[k] && RecordLinksOk(|b|, b[k]);
      } else {
        assert RecordLinksOk(|b|, b[k]);
      }
    }
  }

  /** The positions in `c` are pairwise different. */
  ghost predicate Distinct(c: seq<nat>) {
    forall k, l :: 0 <= k < l < |c| ==> c[k] != c[l]
  }

  /** `c` lists records each of whose `next` is the following one; the last has none. */
  ghost predicate Linked(b: seq<Record>, c: seq<nat>) {
    |c| >= 1 &&
    (forall k :: 0 <= k < |c| ==> c[k] < |b|) &&
    (forall k {:trigger b[c[k]]} :: 0 <= k < |c| - 1 ==> b[c[k]].next == Some(c[k + 1])) &&
    b[c[|c| - 1]].next.None?
  }

  /**
   * `c` is a well-formed occurrence chain of arena `b`: acyclic, doubly linked,
   * starting at a record with no predecessor and ending at one with no successor.
   */
  ghost predicate IsChain(b: seq<Record>, c: seq<nat>) {
    Linked(b, c) && Distinct(c) &&
    b[c[0]].prev.None? &&
    (forall k {:trigger b[c[k]]} :: 1 <= k < |c| ==> b[c[k]].prev == Some(c[k - 1]))
  }

  /** No position is listed in both `c` and `d`. */
  ghost predicate Disjoint(c: seq<nat>, d: seq<nat>) {
    forall k, l :: 0 <= k < |c| && 0 <= l < |d| ==> c[k] != d[l]
  }

  /** A list of distinct positions below `n` has at most `n` entries. */
  lemma {:induction false} DistinctBound(c: seq<nat>, n: nat)
    requires Distinct(c)
    requires forall k :: 0 <= k < |c| ==> c[k] < n
    ensures |c| <= n
    decreases |c|
  {
    if |c| > 0 {
      var m := c[0];
      // Move the largest admissible value n - 1 into the place of m, which c[1..] avoids.
      var d := seq(|c| - 1, k requires 0 <= k < |c| - 1 => if c[k + 1] == n - 1 then m else c[k + 1]);
      forall k | 0 <= k < |d| ensures d[k] < n - 1 {
        if c[k + 1] == n - 1 {
          assert m != n - 1 by { assert c[0] != c[k + 1]; }
        }
      }
      forall k, l | 0 <= k < l < |d| ensures d[k] != d[l] {
        assert c[k + 1] != c[l + 1];
        assert c[0] != c[k + 1] && c[0] != c[l + 1];
      }
      DistinctBound(d, n - 1);
    }
  }

  /** Following `next` from the head of a linked list visits exactly that list. */
  lemma {:induction false} WalkLinked(b: seq<Record>, c: seq<nat>, fuel: nat)
    requires Linked(b, c) && |c| <= fuel
    ensures Walk(b, c[0], fuel) == c
    ensures Span(b, c[0], fuel) == |c| && LastWalk(b, c[0], fuel) == c[|c| - 1]
    decreases |c|
  {
    if |c| > 1 {
      assert Linked(b, c[1..]) by {
        forall k | 0 <= k < |c[1..]| - 1 ensures b[c[1..][k]].next == Some(c[1..][k + 1]) {
          assert b[c[k + 1]].next == Some(c[k + 2]);
        }
      }
      WalkLinked(b, c[1..], fuel - 1);
      assert b[c[0]].next == Some(c[1]);
      assert c == [c[0]] + c[1..];
    }
  }

  /** The chain from the head of a well-formed chain is that chain. */
  lemma ChainOfIsChain(b: seq<Record>, c: seq<nat>)
    requires IsChain(b, c)
    ensures First(b, c[0]) == c[0] && Chain(b, c[0]) == c && Last(b, c[0]) == c[|c| - 1]
    ensures Count(b, c[0]) == |c| - 1 + (if HasDesc(b[c[0]]) then 1 else 0)
  {
    DistinctBound(c, |b|);
    WalkLinked(b, c, |b|);
  }

  /** append() on the head of a well-formed chain, of a record not in it, yields a well-formed chain one longer. */
  lemma AppendIsChain(b: seq<Record>, c: seq<nat>, q: nat)
    requires IsChain(b, c)
    requires q < |b| && forall k :: 0 <= k < |c| ==> c[k] != q
    ensures IsChain(Append(b, c[0], q), c + [q])
  {
    ChainOfIsChain(b, c);
    var b' := Append(b, c[0], q);
    var last := c[|c| - 1];
    assert Last(b, c[0]) == last;
    var c' := c + [q];
    assert q != c[0];
    assert Linked(b', c') by {
      forall k | 0 <= k < |c'| - 1 ensures b'[c'[k]].next == Some(c'[k + 1]) {
        if k < |c| - 1 {
          assert c[k] != last;
          assert b[c[k]].next == Some(c[k + 1]);
        }
      }
    }
    assert Distinct(c');
    forall k | 1 <= k < |c'| ensures b'[c'[k]].prev == Some(c'[k - 1]) {
      if k < |c| {
        assert c[k] != c[0];
        assert b[c[k]].prev == Some(c[k - 1]);
      }
    }
  }

  /**
   * append() on a well-formed chain adds the new record at its tail: the chain keeps
   * its first record and grows by exactly that record, so count() grows by one.
   */
  lemma AppendAtTail(b: seq<Record>, c: seq<nat>, q: nat)
    requires IsChain(b, c)
    requires q < |b| && forall k :: 0 <= k < |c| ==> c[k] != q
    ensures First(Append(b, c[0], q), c[0]) == c[0]
    ensures Chain(Append(b, c[0], q), c[0]) == c + [q]
    ensures Count(Append(b, c[0], q), c[0]) == Count(b, c[0]) + 1
  {
    ChainOfIsChain(b, c);
    AppendIsChain(b, c, q);
    ChainOfIsChain(Append(b, c[0], q), c + [q]);
  }
}
