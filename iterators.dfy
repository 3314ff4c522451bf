/**
 * The iterators and ranges that the Parser's result views hand out: ranges of
 * plain pointers, the positional-argument iterator (an index into the engine's
 * non-option list) and the option-argument iterator (a pointer to an arena
 * record that steps along the record's links).
 */
module Iterators {
  import opened Wrappers
  import opened Engine

  /**
   * An `iterator_range` of plain pointers, each pointer written as its offset
   * into the array it points into.
   */
  datatype PtrRange = PtrRange(begin: int, end: int) {

    /** end - begin: the number of pointers in the range. */
    function Size(): (n: int)
      ensures begin + n == end
    {
      end - begin
    }

    /**
     * The pointer arithmetic of operator[]: the position begin + i.  operator[]
     * itself returns the element there, `*(begin + i)`; the callers that know the
     * array (RawArg, OptsAt, OptsArgAt) do that dereference.  The range's C4_ASSERT
     * (i >= 0 and i < end - begin) is a debug-only assertion, so it is a
     * precondition here.
     */
    function Index(i: int): (k: int)
      requires 0 <= i < Size()
      ensures begin <= k < end && k - begin == i
    {
      begin + i
    }
  }

  /** `positional_arg_iterator`: the engine's result and a position in its non-option list. */
  class PositionalArgIterator {
    var p: EngineResult
    var i: int

    constructor (p: EngineResult, i: int)
      ensures this.p == p && this.i == i
    {
      this.p := p;
      this.i := i;
    }

    /**
     * operator*: C4_CHECK(i < nonOptionsCount()) stops the program when the
     * position is past the end; a negative position is not checked and is outside
     * the non-option list, so it is a precondition.
     */
    function Deref(): (r: Result<CString>)
      reads this
      requires 0 <= i
      ensures r.Success? <==> i < |p.nonOptions|
      ensures r.Success? ==> r.value == p.nonOptions[i]
    {
      if i < |p.nonOptions| then Success(p.nonOptions[i]) else Failure("i < p->nonOptionsCount()")
    }

    /** operator++ */
    method Inc()
      modifies this
      ensures p == old(p) && i == old(i) + 1
    {
      i := i + 1;
    }

    /** operator-- */
    method Dec()
      modifies this
      ensures p == old(p) && i == old(i) - 1
    {
      i := i - 1;
    }

    /** operator+= */
    method AddAssign(d: int)
      modifies this
      ensures p == old(p) && i == old(i) + d
    {
      i := i + d;
    }

    /** operator-= */
    method SubAssign(d: int)
      modifies this
      ensures p == old(p) && i == old(i) - d
    {
      i := i - d;
    }

    /** operator+(it, d): a new iterator d positions further on. */
    method Plus(d: int) returns (it: PositionalArgIterator)
      ensures fresh(it) && it.p == p && it.i == i + d
      ensures it.Distance(this) == d
    {
      it := new PositionalArgIterator(p, i + d);
    }

    /** operator-(it, d): a new iterator d positions back. */
    method Minus(d: int) returns (it: PositionalArgIterator)
      ensures fresh(it) && it.p == p && it.i == i - d
      ensures this.Distance(it) == d
    {
      it := new PositionalArgIterator(p, i - d);
    }

    /** operator-(l, r): how many positions `that` lies before this iterator. */
    function Distance(that: PositionalArgIterator): (d: int)
      reads this, that
      ensures that.i + d == i
    {
      i - that.i
    }

    /**
     * operator==.  Its debug-only C4_ASSERT asks that both iterators point to the
     * same parser object; the model has no parser object here, so the precondition
     * asks instead that both hold the same engine result.
     */
    function Equals(that: PositionalArgIterator): (r: bool)
      reads this, that
      requires p == that.p
      ensures r <==> Distance(that) == 0
    {
      i == that.i
    }
  }

  /** `iterator_range<positional_arg_iterator>` */
  datatype PositionalArgRange = PositionalArgRange(begin: PositionalArgIterator, end: PositionalArgIterator) {

    /**
     * operator[]: C4_ASSERT(i >= 0 && i < end - begin), then *(begin + i), whose own
     * C4_CHECK stops the program when begin + i is past the non-option list.
     * posn_args() always starts at position 0; a negative start is not checked in
     * the source, so it is a precondition here.
     */
    function At(i: int): (r: Result<CString>)
      reads begin, end
      requires 0 <= i < end.Distance(begin)
      requires 0 <= begin.i
      ensures r.Success? <==> begin.i + i < |begin.p.nonOptions|
      ensures r.Success? ==> r.value == begin.p.nonOptions[begin.i + i]
    {
      var k := begin.i + i;
      if k < |begin.p.nonOptions| then Success(begin.p.nonOptions[k]) else Failure("i < p->nonOptionsCount()")
    }
  }

  /** `option_arg_iterator`: a pointer to an arena record, or the null pointer. */
  class OptionArgIterator {
    var arena: array<Record>
    var o: Link

    ghost predicate Valid()
      reads this, arena
    {
      LinksInRange(arena[..]) && LinkOk(arena.Length, o)
    }

    constructor (arena: array<Record>, o: Link)
      requires LinksInRange(arena[..]) && LinkOk(arena.Length, o)
      ensures Valid() && this.arena == arena && this.o == o
    {
      this.arena := arena;
      this.o := o;
    }

    /** operator*: C4_CHECK(o != nullptr), then the record pointed to. */
    function Deref(): (r: Result<Record>)
      reads this, arena
      requires Valid()
      ensures r.Success? <==> o.Some?
      ensures r.Success? ==> r.value == arena[o.value]
    {
      match o
      case None => Failure("o != nullptr")
      case Some(k) => Success(arena[k])
    }

    /** operator++: C4_CHECK(o != nullptr), then o = o->next(); `ok` is false where the check stops the program. */
    method Inc() returns (ok: bool)
      requires Valid()
      modifies this
      ensures Valid() && arena == old(arena)
      ensures ok <==> old(o).Some?
      ensures ok ==> o == arena[old(o).value].next
      ensures !ok ==> o == old(o)
    {
      match o
      case None => ok := false;
      case Some(k) =>
        assert RecordLinksOk(arena.Length, arena[..][k]);
        ok := true; o := arena[k].next;
    }

    /** operator--: C4_CHECK(o != nullptr), then o = o->prev(). */
    method Dec() returns (ok: bool)
      requires Valid()
      modifies this
      ensures Valid() && arena == old(arena)
      ensures ok <==> old(o).Some?
      ensures ok ==> o == arena[old(o).value].prev
      ensures !ok ==> o == old(o)
    {
      match o
      case None => ok := false;
      case Some(k) =>
        assert RecordLinksOk(arena.Length, arena[..][k]);
        ok := true; o := arena[k].prev;
    }

    /** operator==: the same pointer; all null pointers are equal. */
    function Equals(that: OptionArgIterator): (r: bool)
      reads this, that
      ensures r <==> (o.None? && that.o.None?) || (o == that.o && arena == that.arena)
    {
      if o.None? then that.o.None? else o == that.o && arena == that.arena
    }
  }

  /** `iterator_range<option_arg_iterator>` */
  datatype OptionArgRange = OptionArgRange(begin: OptionArgIterator, end: OptionArgIterator)
}
