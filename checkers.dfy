/**
 * The option value checkers of the wrapper layer (`unknown`, `none`, `optional`,
 * `required`, `nonempty`, `integer`) and the composite `multicheck`.
 *
 * A checker maps an option record and a "print messages" flag to one of four
 * verdicts.  The diagnostic it may write to the error stream is returned with the
 * verdict, as the list of lines it writes.
 */
module Checkers {
  import opened Wrappers
  import opened Engine

  /** The engine's ArgStatus. */
  datatype ArgStatus = ArgNone | ArgOk | ArgIgnore | ArgIllegal

  /** A checker's verdict together with the diagnostic lines it wrote. */
  datatype Verdict = Verdict(status: ArgStatus, diags: seq<string>)

  /** The line `_arg_val_err` writes: a prefix, the option's name, a suffix, a newline. */
  function Diag(msg1: string, o: Record, msg2: string): (d: string)
    ensures |d| == |msg1| + |o.name| + |msg2| + 1
    ensures d[..|msg1|] == msg1 && d[|msg1|..|msg1| + |o.name|] == o.name
    ensures d[|msg1| + |o.name|..|d| - 1] == msg2 && d[|d| - 1] == '\n'
  {
    msg1 + o.name + msg2 + "\n"
  }

  /** `unknown`: rejects every option; reports it when asked to. */
  function CheckUnknown(o: Record, msg: bool): (v: Verdict)
    ensures v.status == ArgIllegal
    ensures v.diags == if msg then [Diag("Unknown option '", o, "'")] else []
  {
    Verdict(ArgIllegal, if msg then [Diag("Unknown option '", o, "'")] else [])
  }

  /** `none`: the option takes no value. */
  function CheckNone(o: Record, msg: bool): (v: Verdict)
    ensures v.status == ArgNone && v.diags == []
  {
    Verdict(ArgNone, [])
  }

  /** `optional`: takes the value when there is one, never rejects. */
  function CheckOptional(o: Record, msg: bool): (v: Verdict)
    ensures v.status == ArgOk <==> o.arg.Some?
    ensures v.status == ArgIgnore <==> o.arg.None?
    ensures v.diags == []
  {
    Verdict(if o.arg.Some? then ArgOk else ArgIgnore, [])
  }

  /** `required`: a value must be there; the empty string counts as one. */
  function CheckRequired(o: Record, msg: bool): (v: Verdict)
    ensures v.status == ArgOk <==> o.arg.Some?
    ensures v.status != ArgOk ==> v.status == ArgIllegal
    ensures v.diags == if o.arg.None? && msg then [Diag("Option '", o, "' requires an argument")] else []
  {
    if o.arg.Some? then Verdict(ArgOk, [])
    else Verdict(ArgIllegal, if msg then [Diag("Option '", o, "' requires an argument")] else [])
  }

  /** `nonempty`: a value must be there and must have a first character. */
  function CheckNonEmpty(o: Record, msg: bool): (v: Verdict)
    ensures v.status == ArgOk <==> o.arg.Some? && o.arg.value != ""
    ensures v.status != ArgOk ==> v.status == ArgIllegal
    ensures v.diags == if v.status == ArgIllegal && msg then [Diag("Option '", o, "' requires a non-empty argument")] else []
  {
    if o.arg.Some? && |o.arg.value| > 0 && o.arg.value[0] != '\0' then Verdict(ArgOk, [])
    else Verdict(ArgIllegal, if msg then [Diag("Option '", o, "' requires a non-empty argument")] else [])
  }

  // ---------------------------------------------------------------------------
  // strtol with base 10 (ISO C11 section 7.22.1.4), as far as `integer` uses it:
  // only where the parse stops matters, not the value or the overflow report.

  /** White-space in the "C" locale: space, \t, \n, \v, \f and \r. */
  predicate IsSpace(c: char) {
    c == ' ' || c == '\t' || c == '\n' || c == '\U{000B}' || c == '\U{000C}' || c == '\r'
  }

  predicate IsDigit(c: char) {
    '0' <= c <= '9'
  }

  predicate IsSign(c: char) {
    c == '+' || c == '-'
  }

  /** The first position at or after `k` that does not hold white-space. */
  function SkipSpaces(s: string, k: nat): (e: nat)
    requires k <= |s|
    ensures k <= e <= |s|
    ensures forall m :: k <= m < e ==> IsSpace(s[m])
    ensures e < |s| ==> !IsSpace(s[e])
    decreases |s| - k
  {
    if k < |s| && IsSpace(s[k]) then SkipSpaces(s, k + 1) else k
  }

  /** The first position at or after `k` that does not hold a decimal digit. */
  function SkipDigits(s: string, k: nat): (e: nat)
    requires k <= |s|
    ensures k <= e <= |s|
    ensures forall m :: k <= m < e ==> IsDigit(s[m])
    ensures e < |s| ==> !IsDigit(s[e])
    decreases |s| - k
  {
    if k < |s| && IsDigit(s[k]) then SkipDigits(s, k + 1) else k
  }

  /**
   * Where `strtol(s, &endptr, 10)` leaves `endptr`, as an offset into `s`: after the
   * digits when the subject sequence (white-space, an optional sign, at least one
   * digit) is there, and at the very start of `s` when no conversion is performed.
   */
  function StrtolEnd(s: string): (e: nat)
    ensures e <= |s|
    ensures e != 0 ==> IsDigit(s[e - 1]) && (e < |s| ==> !IsDigit(s[e]))
  {
    var k := SkipSpaces(s, 0);
    var d := if k < |s| && IsSign(s[k]) then k + 1 else k;
    var e := SkipDigits(s, d);
    if e == d then 0 else e
  }

  /**
   * The reference grammar of what `integer` accepts: `s` splits at `k` and `d` into
   * white-space s[..k], an optional sign s[k..d] and one or more digits s[d..].
   */
  ghost predicate SplitsAsInteger(s: string, k: nat, d: nat) {
    k <= d < |s| &&
    (forall m :: 0 <= m < k ==> IsSpace(s[m])) &&
    (d == k || (d == k + 1 && IsSign(s[k]))) &&
    (forall m :: d <= m < |s| ==> IsDigit(s[m]))
  }

  ghost predicate IsBase10Integer(s: string) {
    exists k: nat, d: nat :: SplitsAsInteger(s, k, d)
  }

  /** strtol consumes the whole string exactly when the string is of the integer grammar. */
  lemma StrtolConsumesAllIff(s: string)
    ensures (StrtolEnd(s) != 0 && StrtolEnd(s) == |s|) <==> IsBase10Integer(s)
  {
    var k := SkipSpaces(s, 0);
    var d := if k < |s| && IsSign(s[k]) then k + 1 else k;
    var e := SkipDigits(s, d);
    if StrtolEnd(s) != 0 && StrtolEnd(s) == |s| {
      assert SplitsAsInteger(s, k, d);
    }
    if IsBase10Integer(s) {
      var k': nat, d': nat :| SplitsAsInteger(s, k', d');
      // The grammar's white-space ends where SkipSpaces stops: s[k'] is a sign or a digit.
      assert !IsSpace(s[k']);
      assert k == k';
      assert d == d';
      assert e == |s|;
    }
  }

  /** `integer`: a value must be there and strtol must read it in full, with a digit. */
  function CheckInteger(o: Record, msg: bool): (v: Verdict)
    ensures v.status == ArgOk <==> o.arg.Some? && IsBase10Integer(o.arg.value)
    ensures v.status != ArgOk ==> v.status == ArgIllegal
    ensures v.diags == if v.status == ArgIllegal && msg then [Diag("Option '", o, "' requires an integer argument")] else []
  {
    // endptr stays the null pointer when there is no value, and so equals option.arg.
    var rejected := Verdict(ArgIllegal, if msg then [Diag("Option '", o, "' requires an integer argument")] else []);
    match o.arg
    case None => rejected
    case Some(a) =>
      StrtolConsumesAllIff(a);
      if StrtolEnd(a) != 0 && StrtolEnd(a) == |a| then Verdict(ArgOk, []) else rejected
  }

  /** Values the checker accepts: "123", "-45", and a signed number after white-space. */
  lemma IntegerAccepts(o: Record)
    ensures CheckInteger(o.(arg := Some("123")), false).status == ArgOk
    ensures CheckInteger(o.(arg := Some("-45")), false).status == ArgOk
    ensures CheckInteger(o.(arg := Some(" \t+7")), false).status == ArgOk
  {
    assert StrtolEnd("123") == 3;
    assert StrtolEnd("-45") == 3;
    assert StrtolEnd(" \t+7") == 4;
  }

  /** Values the checker rejects: no value, "", "-" and "12a". */
  lemma IntegerRejects(o: Record)
    ensures CheckInteger(o.(arg := None), false).status == ArgIllegal
    ensures CheckInteger(o.(arg := Some("")), false).status == ArgIllegal
    ensures CheckInteger(o.(arg := Some("-")), false).status == ArgIllegal
    ensures CheckInteger(o.(arg := Some("12a")), false).status == ArgIllegal
  {
    assert StrtolEnd("") == 0;
    assert StrtolEnd("-") == 0;
    assert StrtolEnd("12a") == 2;
  }

  // ---------------------------------------------------------------------------
  // Checkers as values, and the composite checker.

  /**
   * The checker of a descriptor row.  `Multi(first, more)` is
   * `multicheck<first, more...>`: the template needs at least one checker.
   */
  datatype Checker =
    | Unknown | NoValue | Optional | Required | NonEmpty | Integer
    | Multi(first: Checker, more: seq<Checker>)

  /**
   * Runs a checker on an option record.  Without `msg` no checker, composite or
   * not, writes anything; a composite of one checker is that checker, and one of
   * two or more answers OK or ILLEGAL only.
   */
  function Check(c: Checker, o: Record, msg: bool): (r: Verdict)
    ensures !msg ==> r.diags == []
    ensures c.Multi? && c.more == [] ==> r == Check(c.first, o, msg)
    ensures c.Multi? && |c.more| >= 1 ==> r.status == ArgOk || r.status == ArgIllegal
    decreases c
  {
    match c
    case Unknown => CheckUnknown(o, msg)
    case NoValue => CheckNone(o, msg)
    case Optional => CheckOptional(o, msg)
    case Required => CheckRequired(o, msg)
    case NonEmpty => CheckNonEmpty(o, msg)
    case Integer => CheckInteger(o, msg)
    case Multi(first, more) =>
      var vs := [Check(first, o, msg)] + seq(|more|, k requires 0 <= k < |more| => Check(more[k], o, msg));
      SilentDiags(vs);
      Combine(vs)
  }

  /** Verdicts that wrote nothing have no diagnostic lines between them. */
  lemma {:induction false} SilentDiags(vs: seq<Verdict>)
    ensures (forall k :: 0 <= k < |vs| ==> vs[k].diags == []) ==> AllDiags(vs) == []
  {
    if vs != [] {
      SilentDiags(vs[1..]);
      assert forall k :: 1 <= k < |vs| ==> vs[1..][k - 1] == vs[k];
    }
  }

  /** All diagnostic lines of a list of verdicts, in list order. */
  function AllDiags(vs: seq<Verdict>): seq<string> {
    if vs == [] then [] else vs[0].diags + AllDiags(vs[1..])
  }

  /**
   * `multichecker<C, More...>::check` over the verdicts of its checkers, already
   * computed in list order: one checker passes its verdict on unchanged; two or
   * more give ILLEGAL when any of them did, and OK otherwise.  Every checker runs,
   * so every diagnostic is written.
   */
  function Combine(vs: seq<Verdict>): (r: Verdict)
    requires |vs| >= 1
    ensures |vs| == 1 ==> r == vs[0]
    ensures |vs| >= 2 ==> (r.status == ArgIllegal <==> exists k :: 0 <= k < |vs| && vs[k].status == ArgIllegal)
    ensures |vs| >= 2 ==> r.status == ArgOk || r.status == ArgIllegal
    ensures r.diags == AllDiags(vs)
  {
    if |vs| == 1 then
      assert AllDiags(vs) == vs[0].diags + AllDiags([]);
      vs[0]
    else
      var rest := Combine(vs[1..]);
      assert forall k :: 1 <= k < |vs| ==> vs[k] == vs[1..][k - 1];
      var stat := if vs[0].status == ArgIllegal || rest.status == ArgIllegal then ArgIllegal else ArgOk;
      Verdict(stat, vs[0].diags + rest.diags)
  }

  /** The verdicts of the checkers of a composite, in list order. */
  function Members(c: Checker, o: Record, msg: bool): (vs: seq<Verdict>)
    requires c.Multi?
    ensures |vs| == 1 + |c.more|
    ensures vs[0] == Check(c.first, o, msg)
    ensures forall k :: 0 <= k < |c.more| ==> vs[k + 1] == Check(c.more[k], o, msg)
  {
    [Check(c.first, o, msg)] + seq(|c.more|, k requires 0 <= k < |c.more| => Check(c.more[k], o, msg))
  }

  /** A composite of one checker is that checker. */
  lemma MultiOfOne(c: Checker, o: Record, msg: bool)
    ensures Check(Multi(c, []), o, msg) == Check(c, o, msg)
  {
  }

  /**
   * A composite of two or more checkers rejects exactly when one of them rejects,
   * accepts with OK otherwise (even when each gave NONE or IGNORE), and writes the
   * diagnostics of all of them in list order.
   */
  lemma MultiSemantics(c: Checker, o: Record, msg: bool)
    requires c.Multi?
    ensures Check(c, o, msg) == Combine(Members(c, o, msg))
    ensures Check(c, o, msg).diags == AllDiags(Members(c, o, msg))
    ensures |c.more| >= 1 ==>
      (Check(c, o, msg).status == ArgIllegal <==>
        Check(c.first, o, msg).status == ArgIllegal ||
        exists k :: 0 <= k < |c.more| && Check(c.more[k], o, msg).status == ArgIllegal)
    ensures |c.more| >= 1 && Check(c, o, msg).status != ArgIllegal ==> Check(c, o, msg).status == ArgOk
  {
    var vs := Members(c, o, msg);
    assert Check(c, o, msg) == Combine(vs);
    if |c.more| >= 1 {
      if Check(c, o, msg).status == ArgIllegal {
        var k :| 0 <= k < |vs| && vs[k].status == ArgIllegal;
        if k > 0 {
          assert Check(c.more[k - 1], o, msg).status == ArgIllegal;
        }
      }
    }
  }

  /**
   * Facts about the simple checkers, whatever the record: `optional` never rejects,
   * `unknown` always does, `required` takes the empty string and `nonempty` does not.
   */
  lemma CheckerFacts(o: Record, msg: bool)
    ensures Check(Optional, o, msg).status != ArgIllegal
    ensures Check(Unknown, o, msg).status == ArgIllegal
    ensures Check(Required, o.(arg := Some("")), msg).status == ArgOk
    ensures Check(NonEmpty, o.(arg := Some("")), msg).status == ArgIllegal
  {
  }
}
