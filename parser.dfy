/**
 * The `Parser` wrapper object: construction over the engine's output, the
 * occurrence-count repair `_fix_counts`, the mandatory-option check, the result
 * views, ownership transfer and release, and the two `make_parser` entry points.
 *
 * The wrapper allocates ONE block of `optionsMax + bufferMax` records: the slots
 * (`options`) are its first `optionsMax` records and the occurrence buffer
 * (`buffer`) starts right after them.  Slot `j` is block position `j` even for
 * `j >= optionsMax`, where the slot view reaches into the buffer; the views and
 * the repair index the slots up to `numOpts`, the number of usage rows.
 */
module OptParser {
  import opened Wrappers
  import opened Engine
  import opened Checkers
  import opened Iterators

  /** What the wrapper writes: a line on the error stream, or the usage table on standard output. */
  datatype Output = Stderr(line: string) | Usage

  /** How a call ends: it returns, the process exits with a code, or a failed C4 check stops it. */
  datatype Outcome = Returned | Exited(code: int) | Aborted(reason: string)

  function ToStderr(lines: seq<string>): (out: seq<Output>)
    ensures |out| == |lines| && forall k :: 0 <= k < |lines| ==> out[k] == Stderr(lines[k])
  {
    seq(|lines|, k requires 0 <= k < |lines| => Stderr(lines[k]))
  }

  // ---------------------------------------------------------------------------
  // What `_fix_counts` computes, as functions of the arena.

  /** The number of records of `buf` whose descriptor index is `j`. */
  function IndexCount(buf: seq<Record>, j: int): nat {
    if buf == [] then 0
    else IndexCount(buf[..|buf| - 1], j) + (if buf[|buf| - 1].index == j then 1 else 0)
  }

  /** The tally of the first loop of `_fix_counts`: per index below `n`, its records in `buf`. */
  function Tallies(buf: seq<Record>, n: nat): (t: seq<int>)
    ensures |t| == n && forall j :: 0 <= j < n ==> t[j] == IndexCount(buf, j)
  {
    seq(n, j => IndexCount(buf, j))
  }

  /** The sum of the tallies of the indices below `n`. */
  function TallyTotal(buf: seq<Record>, n: nat): nat {
    if n == 0 then 0 else TallyTotal(buf, n - 1) + IndexCount(buf, n - 1)
  }

  /** The number of records of `buf` whose index lies in [0, n). */
  function InRangeCount(buf: seq<Record>, n: nat): nat {
    if buf == [] then 0
    else InRangeCount(buf[..|buf| - 1], n) + (if 0 <= buf[|buf| - 1].index < n then 1 else 0)
  }

  lemma {:induction false} TallyTotalSplit(buf: seq<Record>, n: nat)
    requires buf != []
    ensures TallyTotal(buf, n) == TallyTotal(buf[..|buf| - 1], n) + (if 0 <= buf[|buf| - 1].index < n then 1 else 0)
  {
    if n > 0 {
      TallyTotalSplit(buf, n - 1);
    }
  }

  /**
   * The tally counts every record whose index is in [0, n) exactly once and ignores the
   * others: the tallies add up to the number of records with an index in range.
   */
  lemma {:induction false} TallyIgnoresOutOfRange(buf: seq<Record>, n: nat)
    ensures TallyTotal(buf, n) == InRangeCount(buf, n)
    decreases |buf|
  {
    if buf == [] {
      TallyTotalEmpty(n);
    } else {
      TallyTotalSplit(buf, n);
      TallyIgnoresOutOfRange(buf[..|buf| - 1], n);
    }
  }

  lemma {:induction false} TallyTotalEmpty(n: nat)
    ensures TallyTotal([], n) == 0
  {
    if n > 0 {
      TallyTotalEmpty(n - 1);
    }
  }

  /**
   * The inner loop of `_fix_counts` for slot `j`, from buffer position `i` on: a
   * buffer record whose index equals its own position `i`, and which is not the
   * slot's first record, is appended to the slot.
   */
  function RepairFrom(b: seq<Record>, j: nat, base: nat, i: nat, n: nat): (r: seq<Record>)
    requires j < |b| && base + n <= |b| && i <= n
    ensures SameData(b, r)
    decreases n - i
  {
    if i == n then b
    else RepairFrom(RepairAt(b, j, base + i, i), j, base, i + 1, n)
  }

  /**
   * One step of the repair of slot `j`: the record at position `q` is appended when
   * its index equals `i` and it is not the slot's first record.
   */
  function RepairAt(b: seq<Record>, j: nat, q: nat, i: nat): (r: seq<Record>)
    requires j < |b| && q < |b|
    ensures SameData(b, r)
  {
    if b[q].index == i && First(b, j) != q then Append(b, j, q) else b
  }

  /** A record that already heads the slot's chain is never appended to it. */
  lemma RepairSkipsFirst(b: seq<Record>, j: nat, q: nat, i: nat)
    requires j < |b| && q < |b| && First(b, j) == q
    ensures RepairAt(b, j, q, i) == b
  {
  }

  /**
   * The outer loop of `_fix_counts`, from slot `j` on: a slot whose count() differs
   * from its tally is repaired; the others are left as they are.
   */
  function FixFrom(b: seq<Record>, counts: seq<int>, m: nat, base: nat, n: nat, j: nat): (r: seq<Record>)
    requires m <= |b| && m <= |counts| && base + n <= |b| && j <= m
    ensures SameData(b, r)
    decreases m - j
  {
    if j == m then b
    else FixFrom(FixSlot(b, counts[j], j, base, n), counts, m, base, n, j + 1)
  }

  /** One round of the outer loop: slot `j` is repaired when its count() differs from `tally`. */
  function FixSlot(b: seq<Record>, tally: int, j: nat, base: nat, n: nat): (r: seq<Record>)
    requires j < |b| && base + n <= |b|
    ensures SameData(b, r)
  {
    if tally == Count(b, j) then b else RepairFrom(b, j, base, 0, n)
  }

  /** One step of the inner loop unfolded. */
  lemma RepairFromStep(b: seq<Record>, j: nat, base: nat, i: nat, n: nat)
    requires j < |b| && base + n <= |b| && i < n
    ensures RepairFrom(b, j, base, i, n) == RepairFrom(RepairAt(b, j, base + i, i), j, base, i + 1, n)
  {
  }

  /** One repair step keeps every link inside the arena. */
  lemma RepairAtKeepsLinks(b: seq<Record>, j: nat, q: nat, i: nat)
    requires j < |b| && q < |b| && LinksInRange(b)
    ensures LinksInRange(RepairAt(b, j, q, i))
  {
    if b[q].index == i && First(b, j) != q {
      AppendKeepsLinks(b, j, q);
    }
  }

  /** The repair of a slot keeps every link inside the arena. */
  lemma {:induction false} RepairKeepsLinks(b: seq<Record>, j: nat, base: nat, i: nat, n: nat)
    requires j < |b| && base + n <= |b| && i <= n && LinksInRange(b)
    ensures LinksInRange(RepairFrom(b, j, base, i, n))
    decreases n - i
  {
    if i < n {
      var b' := RepairAt(b, j, base + i, i);
      RepairAtKeepsLinks(b, j, base + i, i);
      RepairKeepsLinks(b', j, base, i + 1, n);
      RepairFromStep(b, j, base, i, n);
    }
  }

  /** One step of the outer loop unfolded. */
  lemma FixFromStep(b: seq<Record>, counts: seq<int>, m: nat, base: nat, n: nat, j: nat)
    requires m <= |b| && m <= |counts| && base + n <= |b| && j < m
    ensures FixFrom(b, counts, m, base, n, j) == FixFrom(FixSlot(b, counts[j], j, base, n), counts, m, base, n, j + 1)
  {
  }

  /** One round of the outer loop keeps every link inside the arena. */
  lemma FixSlotKeepsLinks(b: seq<Record>, tally: int, j: nat, base: nat, n: nat)
    requires j < |b| && base + n <= |b| && LinksInRange(b)
    ensures LinksInRange(FixSlot(b, tally, j, base, n))
  {
    if tally != Count(b, j) {
      RepairKeepsLinks(b, j, base, 0, n);
    }
  }

  /** `_fix_counts` keeps every link inside the arena. */
  lemma {:induction false} FixKeepsLinks(b: seq<Record>, counts: seq<int>, m: nat, base: nat, n: nat, j: nat)
    requires m <= |b| && m <= |counts| && base + n <= |b| && j <= m && LinksInRange(b)
    ensures LinksInRange(FixFrom(b, counts, m, base, n, j))
    decreases m - j
  {
    if j < m {
      var b' := FixSlot(b, counts[j], j, base, n);
      FixSlotKeepsLinks(b, counts[j], j, base, n);
      FixKeepsLinks(b', counts, m, base, n, j + 1);
      FixFromStep(b, counts, m, base, n, j);
    }
  }

  /** The buffer positions from `i` on whose record's index equals the position's offset. */
  function Candidates(b: seq<Record>, base: nat, i: nat, n: nat): (c: seq<nat>)
    requires base + n <= |b| && i <= n
    ensures forall k :: 0 <= k < |c| ==> base + i <= c[k] < base + n && b[c[k]].index == c[k] - base
    decreases n - i
  {
    if i == n then []
    else (if b[base + i].index == i then [base + i] else []) + Candidates(b, base, i + 1, n)
  }

  lemma {:induction false} CandidatesSameData(b: seq<Record>, b': seq<Record>, base: nat, i: nat, n: nat)
    requires SameData(b, b') && base + n <= |b| && i <= n
    ensures Candidates(b, base, i, n) == Candidates(b', base, i, n)
    decreases n - i
  {
    if i < n {
      CandidatesSameData(b, b', base, i + 1, n);
    }
  }

  /** When no buffer record's index equals its position, the repair of a slot changes nothing. */
  lemma {:induction false} RepairWithoutCandidates(b: seq<Record>, j: nat, base: nat, i: nat, n: nat)
    requires j < |b| && base + n <= |b| && i <= n
    requires Candidates(b, base, i, n) == []
    ensures RepairFrom(b, j, base, i, n) == b
    decreases n - i
  {
    if i < n {
      assert b[base + i].index != i;
      RepairWithoutCandidates(b, j, base, i + 1, n);
    }
  }

  /**
   * On a slot heading a well-formed chain, the repair appends the candidates at the
   * chain's tail, in buffer order, and the chain stays well formed.
   */
  lemma {:induction false} RepairAppendsCandidates(b: seq<Record>, h: nat, c: seq<nat>, base: nat, i: nat, n: nat)
    requires IsChain(b, c) && c[0] == h && base + n <= |b| && i <= n
    requires Disjoint(c, Candidates(b, base, i, n))
    ensures IsChain(RepairFrom(b, h, base, i, n), c + Candidates(b, base, i, n))
    decreases n - i
  {
    if i == n {
      assert c + Candidates(b, base, i, n) == c;
    } else {
      var b' := RepairAt(b, h, base + i, i);
      var c' := Grown(b, c, base, i);
      RepairStepKeepsChain(b, c, base, i, n);
      RepairAppendsCandidates(b', h, c', base, i + 1, n);
      RepairFromStep(b, h, base, i, n);
    }
  }

  /** The chain after one repair step: one longer exactly when position `i` is a candidate. */
  function Grown(b: seq<Record>, c: seq<nat>, base: nat, i: nat): seq<nat>
    requires base + i < |b|
  {
    if b[base + i].index == i then c + [base + i] else c
  }

  /**
   * One repair step on a slot heading a well-formed chain keeps the chain well formed, moves
   * the candidate at `i`, if there is one, from the candidates to the chain's tail, and keeps
   * the chain apart from the remaining candidates.
   */
  lemma RepairStepKeepsChain(b: seq<Record>, c: seq<nat>, base: nat, i: nat, n: nat)
    requires IsChain(b, c) && base + n <= |b| && i < n
    requires Disjoint(c, Candidates(b, base, i, n))
    ensures var b' := RepairAt(b, c[0], base + i, i); var c' := Grown(b, c, base, i);
      IsChain(b', c') && c'[0] == c[0] &&
      Disjoint(c', Candidates(b', base, i + 1, n)) &&
      c + Candidates(b, base, i, n) == c' + Candidates(b', base, i + 1, n)
  {
    var q := base + i;
    if b[q].index == i {
      CandidateSplit(b, c, base, i, n);
      ChainOfIsChain(b, c);
      assert RepairAt(b, c[0], q, i) == Append(b, c[0], q);
      AppendIsChain(b, c, q);
      CandidatesSameData(b, Append(b, c[0], q), base, i + 1, n);
    } else {
      assert Candidates(b, base, i, n) == Candidates(b, base, i + 1, n);
    }
  }

  /** A candidate at the head of the candidate list moves from the candidates to the chain. */
  lemma CandidateSplit(b: seq<Record>, c: seq<nat>, base: nat, i: nat, n: nat)
    requires base + n <= |b| && i < n && b[base + i].index == i
    requires Disjoint(c, Candidates(b, base, i, n))
    ensures forall k :: 0 <= k < |c| ==> c[k] != base + i
    ensures c + Candidates(b, base, i, n) == (c + [base + i]) + Candidates(b, base, i + 1, n)
    ensures Disjoint(c + [base + i], Candidates(b, base, i + 1, n))
  {
    var all := Candidates(b, base, i, n);
    var rest := Candidates(b, base, i + 1, n);
    assert all == [base + i] + rest;
    forall k | 0 <= k < |c| ensures c[k] != base + i {
      assert all[0] == base + i;
    }
    var c' := c + [base + i];
    forall k, l | 0 <= k < |c'| && 0 <= l < |rest| ensures c'[k] != rest[l] {
      assert rest[l] == all[l + 1];
    }
  }

  /** On a slot heading a well-formed chain, the repair raises count() by the number of candidates. */
  lemma RepairCount(b: seq<Record>, c: seq<nat>, base: nat, n: nat)
    requires IsChain(b, c) && base + n <= |b|
    requires Disjoint(c, Candidates(b, base, 0, n))
    ensures Count(RepairFrom(b, c[0], base, 0, n), c[0]) == Count(b, c[0]) + |Candidates(b, base, 0, n)|
  {
    var r := RepairFrom(b, c[0], base, 0, n);
    RepairAppendsCandidates(b, c[0], c, base, 0, n);
    ChainOfIsChain(b, c);
    ChainOfIsChain(r, c + Candidates(b, base, 0, n));
    assert r[c[0]].index == b[c[0]].index;
  }

  /** When every slot's count() already matches its tally, `_fix_counts` changes nothing. */
  lemma {:induction false} FixWhenConsistent(b: seq<Record>, counts: seq<int>, m: nat, base: nat, n: nat, j: nat)
    requires m <= |b| && m <= |counts| && base + n <= |b| && j <= m
    requires forall k :: j <= k < m ==> counts[k] == Count(b, k)
    ensures FixFrom(b, counts, m, base, n, j) == b
    decreases m - j
  {
    if j < m {
      FixWhenConsistent(b, counts, m, base, n, j + 1);
    }
  }

  /**
   * The repair compares a record's index with its buffer position, not with the
   * slot: a slot with one occurrence in the buffer at position 0 and a count() of
   * zero is left with a count() of zero.
   */
  lemma FixCountsLeavesMismatch()
    ensures var b := [EmptyRecord, EmptyRecord, Record(1, "r", Some("x"), None, None)];
      LinksInRange(b) &&
      FixFrom(b, Tallies(b[2..3], 2), 2, 2, 1, 0) == b &&
      Count(b, 1) == 0 && Tallies(b[2..3], 2)[1] == 1
  {
    var b := [EmptyRecord, EmptyRecord, Record(1, "r", Some("x"), None, None)];
    assert IndexCount(b[2..3], 0) == 0 by { assert b[2..3][..0] == []; }
    assert IndexCount(b[2..3], 1) == 1 by { assert b[2..3][..0] == []; }
    assert Count(b, 0) == 0 && Count(b, 1) == 0;
    assert Candidates(b, 2, 0, 1) == [];
    RepairWithoutCandidates(b, 1, 2, 0, 1);
  }

  /**
   * The repair can link a record to itself.  A candidate that is already the last
   * record of slot j's chain, but not its first, is appended to that same chain, and
   * append() then makes it its own `prev`.  first() on such a record follows `prev`
   * without end in the engine; the model's First stops after as many steps as the
   * arena has records and answers the record itself.
   */
  lemma RepairMakesSelfLink()
    ensures var b := [Record(0, "a", None, None, Some(1)), Record(0, "a", None, Some(0), None)];
      var r := RepairAt(b, 0, 1, 0);
      LinksInRange(b) && IsChain(b, [0, 1]) && First(b, 0) == 0 && Last(b, 0) == 1 &&
      r[1].prev == Some(1) && r[1].next.None? && First(r, 1) == 1
  {
    var b := [Record(0, "a", None, None, Some(1)), Record(0, "a", None, Some(0), None)];
    ChainOfIsChain(b, [0, 1]);
    var r := RepairAt(b, 0, 1, 0);
    assert r == Append(b, 0, 1);
    assert r[1].prev == Some(1);
    assert FirstWalk(r, 1, 1) == FirstWalk(r, 1, 0) == 1;
  }

  /** The positions of the listed indices whose slot has count() zero, in list order. */
  function Missing(b: seq<Record>, ms: seq<int>): (r: seq<int>)
    requires forall k :: 0 <= k < |ms| ==> 0 <= ms[k] < |b|
    ensures |r| <= |ms| && forall t :: 0 <= t < |r| ==> 0 <= r[t] < |b|
  {
    if ms == [] then []
    else
      var m := ms[|ms| - 1];
      Missing(b, ms[..|ms| - 1]) + (if Count(b, m) == 0 then [m] else [])
  }

  /** Missing keeps exactly the listed indices whose count() is zero. */
  lemma {:induction false} MissingIsFilter(b: seq<Record>, ms: seq<int>)
    requires forall k :: 0 <= k < |ms| ==> 0 <= ms[k] < |b|
    ensures forall m :: m in Missing(b, ms) <==> m in ms && Count(b, m) == 0
  {
    if ms != [] {
      var front := ms[..|ms| - 1];
      MissingIsFilter(b, front);
      assert ms == front + [ms[|ms| - 1]];
    }
  }

  /** The diagnostics `check_mandatory` writes: one per missing index, in list order. */
  function MissingDiags(b: seq<Record>, ms: seq<int>): (d: seq<string>)
    requires forall k :: 0 <= k < |ms| ==> 0 <= ms[k] < |b|
  {
    var miss := Missing(b, ms);
    seq(|miss|, t requires 0 <= t < |miss| => Diag("Option '", b[miss[t]], "' is mandatory and was not given"))
  }

  /** The record values along a chain of positions. */
  function ArgsAlong(b: seq<Record>, c: seq<nat>): (vs: seq<Option<CString>>)
    requires forall k :: 0 <= k < |c| ==> c[k] < |b|
    ensures |vs| == |c| && forall k :: 0 <= k < |c| ==> vs[k] == b[c[k]].arg
  {
    seq(|c|, k requires 0 <= k < |c| => b[c[k]].arg)
  }

  // ---------------------------------------------------------------------------

  /** append() on slot `p` of the block `a`, of the record at position `q`. */
  method AppendIn(a: array<Record>, p: nat, q: nat)
    requires p < a.Length && q < a.Length
    modifies a
    ensures a[..] == Append(old(a[..]), p, q)
  {
    var last := Last(a[..], p);
    var f := First(a[..], p);
    a[last] := a[last].(next := Some(q));
    a[q] := a[q].(prev := Some(last), next := None);
    a[f] := a[f].(prev := None);
  }

  /** One step of the inner loop of `_fix_counts`: the record at `q` joins slot `j` when its index is `i`. */
  method RepairStep(a: array<Record>, j: nat, q: nat, i: nat, ghost cur: seq<Record>)
    requires j < a.Length && q < a.Length && a[..] == cur
    modifies a
    ensures a[..] == RepairAt(cur, j, q, i)
  {
    var first := First(a[..], j);
    if a[q].index == i && first != q {
      AppendIn(a, j, q);
    }
  }

  /** The inner loop of `_fix_counts` for slot `j`, over the `n` buffer records from `base`. */
  method RepairRun(a: array<Record>, j: nat, base: nat, n: nat, ghost start: seq<Record>)
    requires j < a.Length && base + n <= a.Length && a[..] == start
    modifies a
    ensures a[..] == RepairFrom(start, j, base, 0, n)
  {
    ghost var cur := start;
    for i := 0 to n
      invariant a[..] == cur
      invariant RepairFrom(cur, j, base, i, n) == RepairFrom(start, j, base, 0, n)
    {
      RepairFromStep(cur, j, base, i, n);
      RepairStep(a, j, base + i, i, cur);
      cur := RepairAt(cur, j, base + i, i);
    }
  }

  /** One round of the second loop of `_fix_counts`: slot `j` is repaired when its count() is not `tally`. */
  method RepairSlot(a: array<Record>, j: nat, tally: int, base: nat, n: nat, ghost start: seq<Record>)
    requires j < a.Length && base + n <= a.Length && a[..] == start
    modifies a
    ensures a[..] == FixSlot(start, tally, j, base, n)
  {
    if tally != Count(a[..], j) {
      RepairRun(a, j, base, n, start);
    }
  }

  /** The second loop of `_fix_counts`, over the slots below `counts.Length` with their tallies. */
  method FixSlots(a: array<Record>, counts: array<int>, base: nat, n: nat, ghost start: seq<Record>)
    requires counts.Length <= a.Length && base + n <= a.Length && a[..] == start
    modifies a
    ensures a[..] == FixFrom(start, counts[..], counts.Length, base, n, 0)
  {
    ghost var cs := counts[..];
    ghost var cur := start;
    for j := 0 to counts.Length
      invariant counts[..] == cs && a[..] == cur
      invariant FixFrom(cur, cs, counts.Length, base, n, j) == FixFrom(start, cs, counts.Length, base, n, 0)
    {
      RepairSlot(a, j, counts[j], base, n, cur);
      cur := FixSlot(cur, cs[j], j, base, n);
    }
  }

  class Parser {
    var argc: int
    var argv: seq<CString>
    /** The number of usage rows the parser was made with. */
    var numOpts: nat
    var stats: Stats
    /** The `options` pointer: the one block, slots first, buffer after them; null once moved from. */
    var options: array?<Record>
    /** The `buffer` pointer, as its offset into that block; null once moved from. */
    var buffer: Option<nat>
    /** The engine's parse result. */
    var parser: EngineResult

    ghost predicate Valid()
      reads this, options
    {
      0 <= argc <= |argv| &&
      (options == null <==> buffer.None?) &&
      (options != null ==>
        buffer == Some(stats.optionsMax) &&
        options.Length == stats.optionsMax + stats.bufferMax &&
        numOpts <= options.Length &&
        parser.optionsCount <= stats.bufferMax &&
        LinksInRange(options[..]))
    }

    /** The occurrence records in encounter order: buffer[0..optionsCount). */
    function Occurrences(): (s: seq<Record>)
      reads this, options
      requires Valid() && options != null
      ensures |s| == parser.optionsCount
      ensures forall k :: 0 <= k < |s| ==> s[k] == options[stats.optionsMax + k]
    {
      options[stats.optionsMax..stats.optionsMax + parser.optionsCount]
    }

    /**
     * The constructor: one block of `optionsMax + bufferMax` default records, the
     * buffer placed after the slots, the engine's records written into it, and then
     * `_fix_counts`.  The engine's own work is given by `written`.
     */
    constructor (numUsageEntries: nat, argc: int, argv: seq<CString>, stats: Stats,
                 engine: EngineResult, written: seq<Record>)
      requires 0 <= argc <= |argv|
      requires |written| == stats.optionsMax + stats.bufferMax && LinksInRange(written)
      requires numUsageEntries <= |written|
      requires engine.optionsCount <= stats.bufferMax
      ensures Valid() && fresh(options) && options != null
      ensures this.argc == argc && this.argv == argv && numOpts == numUsageEntries
      ensures this.stats == stats && parser == engine
      ensures options.Length == stats.optionsMax + stats.bufferMax && buffer == Some(stats.optionsMax)
      ensures options[..] == FixFrom(written, Tallies(written[stats.optionsMax..stats.optionsMax + engine.optionsCount], numUsageEntries),
                                     numUsageEntries, stats.optionsMax, engine.optionsCount, 0)
    {
      this.argc := argc;
      this.argv := argv;
      numOpts := numUsageEntries;
      this.stats := stats;
      options := new Record[stats.optionsMax + stats.bufferMax](_ => EmptyRecord);
      buffer := Some(stats.optionsMax);
      parser := engine;
      new;
      forall k | 0 <= k < options.Length {
        options[k] := written[k];
      }
      assert options[..] == written;
      assert Occurrences() == written[stats.optionsMax..stats.optionsMax + engine.optionsCount];
      FixCounts();
    }

    /** The move constructor: takes over the block and leaves `that` owning none. */
    constructor Move(that: Parser)
      requires that.Valid()
      modifies that
      ensures Valid() && that.Valid()
      ensures argc == old(that.argc) && argv == old(that.argv) && numOpts == old(that.numOpts)
      ensures stats == old(that.stats) && parser == old(that.parser)
      ensures options == old(that.options) && buffer == old(that.buffer)
      ensures that.options == null && that.buffer.None?
      ensures that.argc == old(that.argc) && that.argv == old(that.argv) && that.numOpts == old(that.numOpts)
      ensures that.stats == old(that.stats) && that.parser == old(that.parser)
    {
      argc := that.argc;
      argv := that.argv;
      numOpts := that.numOpts;
      stats := that.stats;
      options := that.options;
      buffer := that.buffer;
      parser := that.parser;
      new;
      that.options := null;
      that.buffer := None;
    }

    /**
     * The destructor: releases the block, of `optionsMax + bufferMax` records, when
     * this parser still owns it, and releases nothing otherwise.
     */
    method Destroy() returns (freed: nat)
      requires Valid()
      modifies this
      ensures Valid() && options == null && buffer.None?
      ensures argc == old(argc) && argv == old(argv) && numOpts == old(numOpts)
      ensures stats == old(stats) && parser == old(parser)
      ensures old(options) == null ==> freed == 0
      ensures old(options) != null ==> freed == old(options.Length) == old(stats.optionsMax + stats.bufferMax)
    {
      if options != null {
        freed := stats.optionsMax + stats.bufferMax;
        options := null;
        buffer := None;
      } else {
        freed := 0;
      }
    }

    // ---- _fix_counts

    /** The first loop of `_fix_counts`: a zeroed count per slot, raised once per buffer record. */
    method Tally() returns (counts: array<int>)
      requires Valid() && options != null
      ensures counts.Length == numOpts
      ensures counts[..] == Tallies(Occurrences(), numOpts)
    {
      counts := new int[numOpts](_ => 0);
      ghost var occ := Occurrences();
      var base := stats.optionsMax;
      for i := 0 to parser.optionsCount
        invariant forall j :: 0 <= j < numOpts ==> counts[j] == IndexCount(occ[..i], j)
      {
        assert occ[..i + 1][..i] == occ[..i];
        var idx := options[base + i].index;
        if 0 <= idx < numOpts {
          counts[idx] := counts[idx] + 1;
        }
      }
      assert occ[..parser.optionsCount] == occ;
    }

    /** `_fix_counts`: tally the buffer, then repair every slot whose count() disagrees. */
    method FixCounts()
      requires Valid() && options != null
      modifies options
      ensures Valid()
      ensures options[..] == FixFrom(old(options[..]), Tallies(old(Occurrences()), numOpts),
                                     numOpts, stats.optionsMax, parser.optionsCount, 0)
    {
      var counts := Tally();
      FixKeepsLinks(options[..], counts[..], numOpts, stats.optionsMax, parser.optionsCount, 0);
      FixSlots(options, counts, stats.optionsMax, parser.optionsCount, options[..]);
    }

    // ---- check_mandatory

    /**
     * `check_mandatory`: every listed index is examined, a diagnostic is written for
     * each one whose slot has count() zero, and `ok` is false exactly when there was
     * one (where the source stops the program after the loop).
     */
    method CheckMandatory(mandatory: seq<int>) returns (ok: bool, diags: seq<string>)
      requires Valid() && options != null
      requires forall k :: 0 <= k < |mandatory| ==> 0 <= mandatory[k] < options.Length
      ensures ok <==> forall k :: 0 <= k < |mandatory| ==> Count(options[..], mandatory[k]) != 0
      ensures diags == MissingDiags(options[..], mandatory)
    {
      ghost var b := options[..];
      ok := true;
      diags := [];
      for k := 0 to |mandatory|
        invariant ok <==> forall l :: 0 <= l < k ==> Count(b, mandatory[l]) != 0
        invariant diags == MissingDiags(b, mandatory[..k])
      {
        assert mandatory[..k + 1][..k] == mandatory[..k];
        var index := mandatory[k];
        if Count(options[..], index) == 0 {
          diags := diags + [Diag("Option '", options[index], "' is mandatory and was not given")];
          ok := false;
        }
      }
      assert mandatory[..|mandatory|] == mandatory;
    }

    // ---- access to the result

    /** operator[]: C4_CHECK(size_t(i) < num_opts), then slot `i`. */
    function At(i: int): (r: Result<Record>)
      reads this, options
      requires Valid() && options != null
      ensures r.Success? <==> 0 <= i < numOpts
      ensures r.Success? ==> r.value == options[i]
    {
      if 0 <= i < numOpts then Success(options[i]) else Failure("size_t(i) < num_opts")
    }

    /** operator(): slot `i`'s value, where C4_CHECK also demands that there is one. */
    function Value(i: int): (r: Result<CString>)
      reads this, options
      requires Valid() && options != null
      ensures r.Success? <==> 0 <= i < numOpts && options[i].arg.Some?
      ensures r.Success? ==> options[i].arg == Some(r.value)
    {
      match At(i)
      case Failure(e) => Failure(e)
      case Success(o) =>
        match o.arg
        case None => Failure("options[i].arg")
        case Some(a) => Success(a)
    }

    /** raw_args(): the pointers argv .. argv + argc. */
    function RawArgs(): (r: PtrRange)
      reads this, options
      requires Valid()
      ensures r.begin == 0 && r.Size() == argc
    {
      PtrRange(0, argc)
    }

    /** raw_args()[i] */
    function RawArg(i: int): (a: CString)
      reads this, options
      requires Valid() && 0 <= i < RawArgs().Size()
      ensures a == argv[i]
    {
      argv[RawArgs().Index(i)]
    }

    /** opts(): the slots options .. options + num_opts. */
    function Opts(): (r: PtrRange)
      reads this, options
      requires Valid()
      ensures r.begin == 0 && r.Size() == numOpts
    {
      PtrRange(0, numOpts)
    }

    /** opts()[i]: slot `i`, through the block. */
    function OptsAt(i: int): (o: Record)
      reads this, options
      requires Valid() && options != null && 0 <= i < Opts().Size()
      ensures At(i) == Success(o)
    {
      options[Opts().Index(i)]
    }

    /** opts_args(): the buffer records buffer .. buffer + optionsCount. */
    function OptsArgs(): (r: PtrRange)
      reads this, options
      requires Valid() && buffer.Some?
      ensures r.begin == stats.optionsMax && r.Size() == parser.optionsCount
    {
      PtrRange(buffer.value, buffer.value + parser.optionsCount)
    }

    /** opts_args()[i]: the i-th occurrence in encounter order. */
    function OptsArgAt(i: int): (o: Record)
      reads this, options
      requires Valid() && options != null && 0 <= i < OptsArgs().Size()
      ensures o == Occurrences()[i]
    {
      options[OptsArgs().Index(i)]
    }

    /** posn_args(): iterators at positions 0 and nonOptionsCount() of the engine's non-option list. */
    method PosnArgs() returns (r: PositionalArgRange)
      requires Valid()
      ensures fresh(r.begin) && fresh(r.end) && r.begin != r.end
      ensures r.begin.p == parser && r.end.p == parser
      ensures r.begin.i == 0 && r.end.Distance(r.begin) == |parser.nonOptions|
    {
      var b := new PositionalArgIterator(parser, 0);
      var e := new PositionalArgIterator(parser, |parser.nonOptions|);
      r := PositionalArgRange(b, e);
    }

    /**
     * opts(i): C4_CHECK(i >= 0 && size_t(i) < num_opts), then iterators at slot `i`
     * and at the null pointer.  The begin iterator is made from the record through
     * its pointer conversion, which gives the null pointer for a record without a
     * descriptor, so the range of an option that was never given is empty.
     */
    method OptsOf(i: int) returns (r: Result<OptionArgRange>)
      requires Valid() && options != null
      ensures r.Success? <==> 0 <= i < numOpts
      ensures r.Success? ==> fresh(r.value.begin) && fresh(r.value.end)
      ensures r.Success? ==> r.value.begin.Valid() && r.value.begin.arena == options
      ensures r.Success? ==> r.value.begin.o == (if HasDesc(options[i]) then Some(i) else None)
      ensures r.Success? ==> r.value.end.Valid() && r.value.end.o.None?
    {
      if 0 <= i < numOpts {
        var b := new OptionArgIterator(options, if HasDesc(options[i]) then Some(i) else None);
        var e := new OptionArgIterator(options, None);
        r := Success(OptionArgRange(b, e));
      } else {
        r := Failure("i >= 0 && size_t(i) < num_opts");
      }
    }
  }

  /**
   * The values of all occurrences of option `i`, gathered by a range-for over
   * opts(i): starting at slot `i`, next() until the null pointer; nothing when the
   * slot has no descriptor.
   */
  method SlotValues(p: Parser, i: int) returns (r: Result<seq<Option<CString>>>)
    requires p.Valid() && p.options != null
    requires 0 <= i < p.numOpts && HasDesc(p.options[i]) ==> Linked(p.options[..], Chain(p.options[..], i))
    ensures r.Success? <==> 0 <= i < p.numOpts
    ensures r.Success? ==> r.value == if HasDesc(p.options[i]) then ArgsAlong(p.options[..], Chain(p.options[..], i)) else []
  {
    var range := p.OptsOf(i);
    if range.Failure? {
      return Failure(range.error);
    }
    var it := range.value.begin;
    var end := range.value.end;
    ghost var c := if HasDesc(p.options[i]) then Chain(p.options[..], i) else [];
    ghost var k := 0;
    var vals := [];
    while !it.Equals(end)
      invariant it.Valid() && it.arena == p.options && end.o.None?
      invariant 0 <= k <= |c|
      invariant it.o == if k < |c| then Some(c[k]) else None
      invariant vals == ArgsAlong(p.options[..], c[..k])
      decreases |c| - k
    {
      var o := it.Deref();
      vals := vals + [o.value.arg];
      var _ := it.Inc();
      k := k + 1;
    }
    assert c[..|c|] == c;
    r := Success(vals);
  }

  // ---------------------------------------------------------------------------
  // make_parser

  /**
   * `make_parser(usage, N, argc, argv)`: builds the parser; when the engine reported
   * an error the constructor prints the usage table and stops the program.
   */
  method MakeParser(numUsageEntries: nat, argc: int, argv: seq<CString>, stats: Stats,
                    engine: EngineResult, written: seq<Record>)
    returns (p: Parser, outcome: Outcome, out: seq<Output>)
    requires 0 <= argc <= |argv|
    requires |written| == stats.optionsMax + stats.bufferMax && LinksInRange(written)
    requires numUsageEntries <= |written|
    requires engine.optionsCount <= stats.bufferMax
    ensures fresh(p) && p.Valid() && p.options != null
    ensures p.numOpts == numUsageEntries && p.parser == engine && p.options.Length == |written|
    ensures p.options[..] == FixFrom(written, Tallies(written[stats.optionsMax..stats.optionsMax + engine.optionsCount], numUsageEntries),
                                     numUsageEntries, stats.optionsMax, engine.optionsCount, 0)
    ensures outcome == (if engine.error then Aborted("parser error") else Returned)
    ensures out == (if engine.error then [Usage] else [])
  {
    p := new Parser(numUsageEntries, argc, argv, stats, engine, written);
    if p.parser.error {
      out := [Usage];
      outcome := Aborted("parser error");
    } else {
      out := [];
      outcome := Returned;
    }
  }

  /**
   * `make_parser(usage, N, argc, argv, help_index, mandatory_indices)`: when the help
   * option was given, prints the usage table and exits with code 0 without checking
   * the mandatory options; otherwise checks them and returns the parser.
   */
  method MakeParserWithHelp(numUsageEntries: nat, argc: int, argv: seq<CString>, stats: Stats,
                            engine: EngineResult, written: seq<Record>, helpIndex: int, mandatory: seq<int>)
    returns (p: Parser, outcome: Outcome, out: seq<Output>)
    requires 0 <= argc <= |argv|
    requires |written| == stats.optionsMax + stats.bufferMax && LinksInRange(written)
    requires numUsageEntries <= |written|
    requires engine.optionsCount <= stats.bufferMax
    requires (!engine.error && 0 <= helpIndex < numUsageEntries &&
              !HasDesc(FixFrom(written, Tallies(written[stats.optionsMax..stats.optionsMax + engine.optionsCount], numUsageEntries),
                               numUsageEntries, stats.optionsMax, engine.optionsCount, 0)[helpIndex])) ==>
      forall k :: 0 <= k < |mandatory| ==> 0 <= mandatory[k] < |written|
    ensures fresh(p) && p.Valid() && p.options != null && p.numOpts == numUsageEntries
    ensures p.parser == engine && p.options.Length == |written|
    ensures p.options[..] == FixFrom(written, Tallies(written[stats.optionsMax..stats.optionsMax + engine.optionsCount], numUsageEntries),
                                     numUsageEntries, stats.optionsMax, engine.optionsCount, 0)
    ensures engine.error ==> outcome == Aborted("parser error") && out == [Usage]
    ensures !engine.error && !(0 <= helpIndex < numUsageEntries) ==> outcome.Aborted? && out == []
    ensures !engine.error && 0 <= helpIndex < numUsageEntries && HasDesc(p.options[helpIndex]) ==>
      outcome == Exited(0) && out == [Usage]
    ensures !engine.error && 0 <= helpIndex < numUsageEntries && !HasDesc(p.options[helpIndex]) ==>
      out == ToStderr(MissingDiags(p.options[..], mandatory)) &&
      (outcome == Returned <==> forall k :: 0 <= k < |mandatory| ==> Count(p.options[..], mandatory[k]) != 0) &&
      (outcome != Returned ==> outcome == Aborted("mandatory options were missing"))
  {
    p, outcome, out := MakeParser(numUsageEntries, argc, argv, stats, engine, written);
    if outcome.Aborted? {
      return;
    }
    var help := p.At(helpIndex);
    if help.Failure? {
      outcome := Aborted(help.error);
    } else if HasDesc(help.value) {
      out := out + [Usage];
      outcome := Exited(0);
    } else {
      var ok, diags := p.CheckMandatory(mandatory);
      out := out + ToStderr(diags);
      outcome := if ok then Returned else Aborted("mandatory options were missing");
    }
  }

  /** Moving a parser and destroying both leaves the block released exactly once. */
  method MoveThenDestroy(that: Parser) returns (freedByMoved: nat, freedByNew: nat)
    requires that.Valid() && that.options != null
    modifies that
    ensures freedByMoved == 0
    ensures freedByNew == old(that.options.Length) == old(that.stats.optionsMax + that.stats.bufferMax)
  {
    var q := new Parser.Move(that);
    freedByMoved := that.Destroy();
    freedByNew := q.Destroy();
  }
}
