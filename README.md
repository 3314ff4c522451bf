# c4opt wrapper layer, modelled in Dafny

c4opt wraps a C++ command-line option-parsing engine. This project models the
layer that c4opt adds on top of the engine:

- the value checkers `unknown`, `none`, `optional`, `required`, `nonempty` and `integer`;
- the composite checker `multicheck`;
- the `Parser` object:
  - its single allocation block, holding the option slots followed by the occurrence buffer;
  - the count repair `_fix_counts`;
  - `check_mandatory`;
  - the result views and their iterators;
  - move and destruction;
- the two `make_parser` entry points.

Files:

- `wrappers.dfy`: `Option` and `Result`.
- `engine.dfy`: the engine as the wrapper sees it.
  - An option record is `Record(index, name, arg, prev, next)` in an arena of records. Links are arena positions. A first record has no `prev`; a last record has no `next`.
  - `first()`, `last()`, `count()` and `append()` are functions over the arena: `First`, `Last`, `Count` and `Append`.
  - `IsChain` says a list of positions is a well-formed, acyclic, doubly linked chain. Lemmas connect the walks (`First`, `Last`, `Count`, `Chain`) to such chains, and prove that `append()` adds the new record at the tail.
- `checkers.dfy`: the six checkers and `integer`'s model of base-10 `strtol` (ISO C11 section 7.22.1.4).
  - `StrtolEnd` is the model of where `strtol` stops.
  - An independent grammar, `IsBase10Integer`, describes the accepted strings, and a lemma proves the two agree.
  - `multicheck` is `Combine` over the list of member verdicts.
- `iterators.dfy`: pointer ranges, the positional-argument iterator (an index) and the option-argument iterator (a class with a mutable link field).
- `parser.dfy`:
  - the `Parser` class over one `array<Record>` block: slots from position 0, buffer from `optionsMax`;
  - `_fix_counts` as methods over that array. Each method is proved against a function of the arena: `Tallies`, `RepairAt`, `RepairFrom`, `FixSlot`, `FixFrom`;
  - the properties of the repair, proved as lemmas about those functions;
  - `check_mandatory`, the views, and `make_parser`.

The repair compares each buffer record's index with that record's own buffer
position `i`, not with the slot `j` being repaired. The model keeps this behaviour.
`FixCountsLeavesMismatch` exhibits an arena where, after the repair, a slot's
`count()` still differs from its tally.

The tests name a `numeric` checker (test/test.cpp:72, 128), which the code does
not declare; the model follows `integer` and its message "requires an integer
argument" (src/c4/opt/opt.cpp:59-67).

## Model

| member | source | states |
|---|---|---|
| Checkers.Diag | src/c4/opt/opt.cpp:15-20 | `_arg_val_err` writes one line: the prefix, then the option's name, then the suffix, then a newline |
| Checkers.CheckUnknown | src/c4/opt/opt.cpp:23-28 | always ILLEGAL; writes "Unknown option '<name>'" exactly when `msg` is set |
| Checkers.CheckNone | src/c4/opt/opt.cpp:30-33 | always ARG_NONE, no diagnostic |
| Checkers.CheckOptional | src/c4/opt/opt.cpp:35-39 | OK exactly when a value is present, IGNORE exactly when it is absent, no diagnostic |
| Checkers.CheckRequired | src/c4/opt/opt.cpp:41-48 | OK exactly when a value is present (the empty string counts), else ILLEGAL; the diagnostic is written only when the value is missing and `msg` is set |
| Checkers.CheckNonEmpty | src/c4/opt/opt.cpp:50-57 | OK exactly when a value with a first character is present, else ILLEGAL; the "non-empty" diagnostic is written when it rejects with `msg` set, and nothing is written otherwise |
| Checkers.StrtolEnd | src/c4/opt/opt.cpp:61-64 | where base-10 `strtol` leaves `endptr`, as an offset: within the string, and, when it has moved, just after a digit and before a non-digit |
| Checkers.StrtolConsumesAllIff | src/c4/opt/opt.cpp:61-64 | base-10 strtol stops at the terminator after consuming something exactly when the string is white-space, an optional sign, then one or more digits |
| Checkers.CheckInteger | src/c4/opt/opt.cpp:59-69 | OK exactly when a value is present and it is of the integer grammar, else ILLEGAL with the "integer" diagnostic when `msg` is set |
| Checkers.IntegerAccepts | src/c4/opt/opt.cpp:59-65 | "123", "-45" and " \t+7" are accepted |
| Checkers.IntegerRejects | src/c4/opt/opt.cpp:59-69 | no value, "", "-" and "12a" are rejected |
| Checkers.Check | src/c4/opt/opt.hpp:26-67 | `multicheck<…>` and the six checkers as one function: without `msg` nothing is written, composite or not; a composite of one checker is that checker; a composite of two or more answers only OK or ILLEGAL |
| Checkers.Combine | src/c4/opt/opt.hpp:26-47 | one verdict is passed on unchanged; two or more give ILLEGAL exactly when one of them is ILLEGAL and OK otherwise; the diagnostics of all members are kept, in order |
| Checkers.MultiOfOne | src/c4/opt/opt.hpp:40-47 | a composite of one checker behaves as that checker |
| Checkers.MultiSemantics | src/c4/opt/opt.hpp:29-37 | a composite runs every member with the same `msg`; it is ILLEGAL exactly when the first or any further member is ILLEGAL, otherwise OK; all members' diagnostics are written in list order |
| Checkers.CheckerFacts | src/c4/opt/opt.cpp:23-57 | `optional` never rejects, `unknown` always does, `required` accepts the empty string and `nonempty` rejects it |
| Engine.HasDesc | src/c4/opt/opt.cpp:209 | the bool test of a record (`p[help_index]`): a default-constructed record tests false, and a record that tests true has a descriptor index |
| Engine.First | src/c4/opt/opt.cpp:182 | `first()`: a record inside the arena; a record with no `prev` is its own first |
| Engine.Last | src/c4/opt/opt.cpp:184 | `last()`, used by `append()`: a record inside the arena; when the chain's first record has no `next`, it is also the last |
| Engine.Count | src/c4/opt/opt.cpp:177 | `count()`, as line 177 and `check_mandatory` (line 147) call it: never negative, at least one for a record with a descriptor, and exactly one or zero (by its descriptor) for a chain of one record |
| Engine.Append | src/c4/opt/opt.cpp:184 | `append(q)`: keeps every record's data; the chain's first record has no `prev` afterwards, `q` has no `next`, `q`'s `prev` is the old last record unless `q` is the first one, the old last record's `next` is `q` unless it is `q` itself, and every other record is untouched |
| Engine.ChainOfIsChain | src/c4/opt/opt.cpp:177-182 | on a well-formed chain, `first()` of its head is the head, `last()` is its final record, the walk along `next` visits exactly the chain, and `count()` is its length less one, plus one when the head has a descriptor |
| Engine.AppendIsChain | src/c4/opt/opt.cpp:184 | appending a record that is not in a well-formed chain yields a well-formed chain that is one record longer |
| Engine.AppendAtTail | src/c4/opt/opt.cpp:184 | `append()` keeps the chain's first record, adds the new record at the tail and raises `count()` by one |
| Engine.AppendKeepsLinks | src/c4/opt/opt.cpp:184 | `append()` writes only links that point into the arena |
| OptParser.TallyIgnoresOutOfRange | src/c4/opt/opt.cpp:168-174 | the tallies add up to the number of buffer records whose index lies in [0, num_opts); records with other indices are ignored |
| OptParser.Parser.Tally | src/c4/opt/opt.cpp:162-174 | the counts array has one entry per usage row, and entry `j` is the number of buffer records with index `j` |
| OptParser.RepairAt | src/c4/opt/opt.cpp:181-185 | one step of the inner loop changes only links, never a record's index, name or value |
| OptParser.RepairSkipsFirst | src/c4/opt/opt.cpp:182 | a record that already heads the slot's chain is never appended |
| OptParser.RepairFrom | src/c4/opt/opt.cpp:179-186 | the inner loop changes only links |
| OptParser.FixSlot | src/c4/opt/opt.cpp:177-186 | one round of the outer loop changes only links |
| OptParser.FixFrom | src/c4/opt/opt.cpp:175-187 | the whole repair changes only links |
| OptParser.RepairWithoutCandidates | src/c4/opt/opt.cpp:179-186 | when no buffer record's index equals its own position, the inner loop changes nothing |
| OptParser.RepairStepKeepsChain | src/c4/opt/opt.cpp:181-185 | one inner step on a well-formed chain that shares no record with the remaining candidates appends the record at position `i` exactly when its index is `i`, and the chain stays well formed and apart from the candidates still to come |
| OptParser.RepairAppendsCandidates | src/c4/opt/opt.cpp:179-186 | on a slot heading a well-formed chain, the inner loop appends exactly the records whose index equals their buffer position, in buffer order, and the chain stays well formed |
| OptParser.RepairCount | src/c4/opt/opt.cpp:177-186 | on a slot heading a well-formed chain that shares no record with the candidates, the inner loop raises the slot's `count()` by the number of candidates |
| OptParser.FixWhenConsistent | src/c4/opt/opt.cpp:175-178 | when every slot's `count()` already equals its tally, the repair leaves the arena unchanged |
| OptParser.RepairMakesSelfLink | src/c4/opt/opt.cpp:182-184 | a two-record chain whose last record is a candidate: the repair step appends that record to its own chain, making it its own `prev`, where the model's `first()` stops after the arena's size |
| OptParser.FixCountsLeavesMismatch | src/c4/opt/opt.cpp:182 | a slot with one occurrence at buffer position 0, a tally of one and a `count()` of zero keeps a `count()` of zero |
| OptParser.RepairKeepsLinks | src/c4/opt/opt.cpp:179-186 | the inner loop keeps every link inside the arena |
| OptParser.FixKeepsLinks | src/c4/opt/opt.cpp:175-187 | the repair keeps every link inside the arena |
| OptParser.AppendIn | src/c4/opt/opt.cpp:184 | the in-place `append()` updates the block exactly as `Append` says |
| OptParser.RepairStep | src/c4/opt/opt.cpp:181-185 | one inner step, in place, leaves the block as `RepairAt` says |
| OptParser.RepairRun | src/c4/opt/opt.cpp:179-186 | the inner loop, in place, leaves the block as `RepairFrom` says |
| OptParser.RepairSlot | src/c4/opt/opt.cpp:177-186 | one round of the outer loop, in place, leaves the block as `FixSlot` says: slot `j` is repaired only when its `count()` differs from its tally |
| OptParser.FixSlots | src/c4/opt/opt.cpp:175-187 | the outer loop, in place, leaves the block as `FixFrom` says |
| OptParser.Parser.FixCounts | src/c4/opt/opt.cpp:159-188 | `_fix_counts` leaves the block equal to the repair function applied to the tallies of the buffer records, and keeps the parser valid |
| OptParser.Parser.constructor | src/c4/opt/opt.cpp:117-129 | one block of `optionsMax + bufferMax` records; the buffer starts at `optionsMax`; the engine's records are written into the block and `_fix_counts` runs on them |
| OptParser.Parser.Move | src/c4/opt/opt.cpp:76-88 | the new parser takes every field, including the block; the moved-from parser's `options` and `buffer` are null and its other fields keep their values |
| OptParser.Parser.Destroy | src/c4/opt/opt.cpp:90-98 | frees `optionsMax + bufferMax` records when the parser still owns the block, frees nothing otherwise, leaves both pointers null and every other field as it was |
| OptParser.MoveThenDestroy | src/c4/opt/opt.cpp:76-98 | after a move, destroying both parsers frees the block exactly once |
| OptParser.Parser.CheckMandatory | src/c4/opt/opt.cpp:142-157 | every listed index is examined; one "is mandatory and was not given" line is written per index whose `count()` is zero, in list order; `ok` is false exactly when there is such an index |
| OptParser.MissingIsFilter | src/c4/opt/opt.cpp:145-152 | the reported indices are exactly the listed ones whose `count()` is zero |
| OptParser.Parser.At | src/c4/opt/opt.hpp:110 | `operator[]` succeeds exactly when 0 <= i < num_opts, and then yields slot `i` |
| OptParser.Parser.Value | src/c4/opt/opt.hpp:111 | `operator()` succeeds exactly when `i` is a slot and the slot has a value, and then yields that value |
| OptParser.Parser.RawArgs | src/c4/opt/opt.hpp:161-165 | `raw_args()` starts at `argv[0]` and holds `argc` pointers |
| OptParser.Parser.RawArg | src/c4/opt/opt.hpp:161-165 | element `i` of `raw_args()` is `argv[i]` |
| OptParser.Parser.Opts | src/c4/opt/opt.hpp:175-178 | `opts()` starts at slot 0 and holds `num_opts` slots |
| OptParser.Parser.OptsAt | src/c4/opt/opt.hpp:175-178 | element `i` of `opts()` is slot `i`, as `operator[]` gives it |
| OptParser.Parser.OptsArgs | src/c4/opt/opt.hpp:181-184 | `opts_args()` starts at the buffer, at block position `optionsMax`, and holds `optionsCount` records |
| OptParser.Parser.OptsArgAt | src/c4/opt/opt.hpp:181-184 | element `i` of `opts_args()` is the `i`-th occurrence in encounter order |
| OptParser.Parser.Occurrences | src/c4/opt/opt.hpp:181-184 | the occurrences are the `optionsCount` records from the buffer start |
| OptParser.Parser.PosnArgs | src/c4/opt/opt.hpp:187-190 | `posn_args()` runs from position 0 of the engine's non-option list to position `nonOptionsCount`, so `end - begin` is that count |
| OptParser.Parser.OptsOf | src/c4/opt/opt.hpp:168-172 | `opts(i)` succeeds exactly when 0 <= i < num_opts; it then gives an end iterator at the null pointer and a begin iterator made from slot `i`'s pointer conversion: at slot `i` when the slot has a descriptor, at the null pointer (an empty range) when the option was never given |
| OptParser.SlotValues | src/c4/opt/opt.hpp:168-172 | a range-for over `opts(i)` yields the values of slot `i`'s chain, walked along `next()`, in chain order, when the slot has a descriptor, and nothing when the option was never given |
| OptParser.MakeParser | src/c4/opt/opt.cpp:195-200 | builds the parser; when the engine reported an error, the constructor (lines 130-134) prints the usage table and stops the program with "parser error" |
| OptParser.MakeParserWithHelp | src/c4/opt/opt.cpp:202-219 | builds the same parser as `MakeParser`, with the same block contents; a help slot that is set prints the usage table and exits with 0, without the mandatory check; a help index outside the slots stops the program at `operator[]`'s check; otherwise the mandatory check runs, its diagnostics are written, and the call returns exactly when no listed index is missing. The mandatory indices must lie in the block only on that last path, the one that reaches `check_mandatory` |
| Iterators.PtrRange.Size | src/c4/opt/opt.hpp:150 | `end_ - begin_`: the number of pointers from `begin` to `end` |
| Iterators.PtrRange.Index | src/c4/opt/opt.hpp:150 | only the pointer arithmetic of `operator[]` of a pointer range: for 0 <= i < end - begin, the position `begin + i`; the dereference `*(begin + i)` is done by `RawArg`, `OptsAt` and `OptsArgAt` |
| Iterators.PositionalArgRange.At | src/c4/opt/opt.hpp:150 | `operator[]` of the positional range is non-option `begin + i`, and stops the program past the end of the list |
| Iterators.PositionalArgIterator.constructor | src/c4/opt/opt.hpp:115-118 | the iterator holds the engine result and the position it is given |
| Iterators.PositionalArgIterator.Deref | src/c4/opt/opt.hpp:120 | succeeds exactly when the position is below `nonOptionsCount`, and then yields that non-option |
| Iterators.PositionalArgIterator.Inc | src/c4/opt/opt.hpp:121 | the position goes up by one |
| Iterators.PositionalArgIterator.Dec | src/c4/opt/opt.hpp:122 | the position goes down by one |
| Iterators.PositionalArgIterator.AddAssign | src/c4/opt/opt.hpp:123 | the position goes up by `d` |
| Iterators.PositionalArgIterator.SubAssign | src/c4/opt/opt.hpp:124 | the position goes down by `d` |
| Iterators.PositionalArgIterator.Plus | src/c4/opt/opt.hpp:125 | a new iterator `d` positions further on, over the same list, at distance `d` from this one |
| Iterators.PositionalArgIterator.Minus | src/c4/opt/opt.hpp:126 | a new iterator `d` positions back, over the same list, at distance `d` behind this one |
| Iterators.PositionalArgIterator.Distance | src/c4/opt/opt.hpp:127 | `operator-(l, r)`: the number of positions `r` lies before `l` |
| Iterators.PositionalArgIterator.Equals | src/c4/opt/opt.hpp:128-129 | two iterators over the same list are equal exactly when their distance is zero |
| Iterators.OptionArgIterator.constructor | src/c4/opt/opt.hpp:132-134 | the iterator points at the given record, or at the null pointer |
| Iterators.OptionArgIterator.Deref | src/c4/opt/opt.hpp:137 | succeeds exactly when the pointer is not null, and then yields the record it points to |
| Iterators.OptionArgIterator.Inc | src/c4/opt/opt.hpp:138 | on a record, moves to its `next()`; on the null pointer, the check stops the program |
| Iterators.OptionArgIterator.Dec | src/c4/opt/opt.hpp:139 | on a record, moves to its `prev()`; on the null pointer, the check stops the program |
| Iterators.OptionArgIterator.Equals | src/c4/opt/opt.hpp:140-141 | equal exactly when both pointers are null or both point at the same record |

## Left out

- The parsing engine is not part of this model. That covers `option::Stats`, `option::Parser`, matching, abbreviations and clustering. Its results are inputs:
  - the slot and buffer sizes (`Stats`);
  - `optionsCount`, the non-option list and `error()` (`EngineResult`);
  - the records it writes into the block (`written` of the constructor, required to link only inside the block).
- The engine's `first()`, `last()`, `count()` and `append()` work on a circular list with tagged pointers, whose source is not part of this model. Here the ends of a chain are null links instead.
- The walks behind `First`, `Last` and `Count` stop after as many steps as the arena has records, and treat a link that leaves the arena as null. `_fix_counts` itself can make a record its own `prev`: when `num_opts > options_max`, a slot aliases a buffer record, and a candidate that is already the last record of that slot's chain, but not its first, is appended to it again (src/c4/opt/opt.cpp:182-184). `RepairMakesSelfLink` shows such a step. The engine's `first()` then follows `prev` without end, so the next `count()` (line 177) need not terminate; the model's walks stop there and `FixFrom` returns.
- Output is a returned log, not a write to a stream:
  - diagnostics are `Stderr` lines;
  - `help()`/`printUsage` is the single entry `Usage`; the table's text is not modelled.
- `std::exit`, `C4_ERROR` and a failing `C4_CHECK` are not modelled as process control. They become `Outcome` values or `Failure` results.
- The debug-only `C4_ASSERT`s become preconditions: the range index bounds, and "same parser" in the positional iterator's comparison.
- Memory plumbing is not modelled: the allocator, `alloca`, `memset`, placement new and the explicit destructor calls in `_free`. Freeing is the number of records released.
- The `usage` descriptor table and `argv`'s C types are not modelled. The parser keeps only `numOpts`, the number of usage rows.
- The array-size `make_parser<N>` overloads (src/c4/opt/opt.hpp:206-212, 223-231) only pass `N` on. They are covered by giving `numUsageEntries` directly.
- From `strtol`, only where the parse stops is modelled. Its value, overflow, `errno` and locale-dependent white-space (the "C" locale is assumed) are left out.
- `option_arg_iterator::operator->` (src/c4/opt/opt.hpp:136) is not modelled separately. It returns the pointer `Deref` reads.
- Iterators.PositionalArgIterator.Deref: requires a non-negative position. The source checks only the upper bound, and reading a negative position there is undefined.
- Iterators.PositionalArgRange.At: requires `begin` at a non-negative position. `posn_args()` always starts at 0 (src/c4/opt/opt.hpp:187-190), but a range built from a moved iterator could start below 0, where the source's read is undefined.
- OptParser.SlotValues: requires the `next()` walk from a slot with a descriptor to end at a null link within as many steps as the block has records, that is, no forward cycle. The engine writes such chains, and `append()` only sets the old last record's `next` to the new record and the new record's `next` to null, but the model does not prove that `_fix_counts` keeps every forward walk acyclic. On an arena with a forward cycle the source's range-for never ends; the model excludes such arenas.
- OptParser.Parser.CheckMandatory: requires every listed index to lie inside the block. The source indexes `options` with them unchecked.
- OptParser.Parser.constructor: requires `numUsageEntries` to be at most the block's size, and so do `OptParser.MakeParser` and `OptParser.MakeParserWithHelp`. The source does not ensure this: `num_opts` is the number of usage rows (src/c4/opt/opt.cpp:122), the block holds `options_max + buffer_max` records (line 125), and `_fix_counts` reads `options[j]` for every `j < num_opts` without a bound check (lines 175-177). A usage table with many rows sharing an index, parsed with few arguments, makes the source read past the block; that read is undefined and is not modelled.
- OptParser.RepairStepKeepsChain: requires the slot's chain and the remaining candidates to be disjoint. It does not describe a step whose candidate is already in the chain other than at its head.
- OptParser.RepairCount: requires the slot's chain and the candidates to be disjoint. It does not state the count after a repair that appends a record already in the chain.
- OptParser.RepairAppendsCandidates: requires the slot's chain and the candidate records to be disjoint. It does not describe the repair when a candidate is already somewhere in the chain other than its head.
