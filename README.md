# sqlite-loadable-rs, modelled in Dafny

sqlite-loadable-rs is a framework for writing SQLite extensions (scalar
functions, table functions, virtual tables, collations, VFSes) in Rust.
This project models the parts of the repository that carry decision logic,
and it proves what that logic guarantees.

- **`generate_series` in Go** (`series_go.dfy`), the main subject:
  - `SeriesTable.BestIndex`, the xBestIndex step of SQLite's virtual-table
    interface. It folds the constraint list into the plan bitmask `idxNum`,
    numbers argv slots, refuses unusable plans and picks estimates.
  - `SeriesCursor`, which Filter, Next, Eof, Column and Rowid drive. The
    rows a scan emits are given in closed form (`Trace`, `SeriesValues`).
- **The Rust table-function examples**:
  - `generate_series_rs` (`series_rs.dfy`);
  - `characters` (`characters.dfy`);
  - `vtab_in`, in the example and the test-fixture versions (`vtab_in.dfy`).
  
  Each one's `best_index` is a method with loop invariants. Each cursor is
  a class whose state is tied to the rows it still has to emit.
- **Framework vocabulary** (`table.dfy`): the constraint-operator codes, the
  ORDER BY direction, the xBestIndex return codes and the splitting of
  xCreate's `argv`.
- **Constructor-argument parser** (`argparse.dfy`) and **column affinity**
  (`affinity.dfy`). The affinity rules are those of section 3.1 of SQLite's
  "Datatypes In SQLite" document.
- **Reversed-bytes test collation** (`collation.dfy`).
- **In-memory VFS file** `MemFile` (`mem_vfs.dfy`).
- **io_uring VFS locks** (`lock_kind.dfy`, `lock.dfy`): the five-level SQLite
  lock built out of two BSD `flock`s.
- **io_uring VFS paths** (`connection.dfy`): lexical path normalisation and
  the `-shm` and permission paths derived from a database path.
- **Shared helpers**: `wrappers.dfy` (Option, Result), `text.dfy` (the Rust
  string operations the code relies on), `arith.dfy` (a few division facts).

Integer types of the source (`i64`, `int64`, `u8`, `i32`) are unbounded
`int`s here. The Go Filter's descending start is computed in wrapping
`int64` arithmetic, as Go computes it (`SeriesGo.GoSub`). The `Next`
methods require that their result stays in range. The closed-form scans
(`SeriesGo.Trace`, `SeriesRs.Scan` and the lemmas about them) step in
unbounded arithmetic. At the edge of the 64-bit range they therefore
describe a scan that ends where the source's scan wraps around and never
reaches Eof. "## Left out" names each of these members.

## Model

| member | source | states |
|---|---|---|
| SeriesGo.GoRem | benchmarks/series/series.go:135 | Go's `%`: the remainder carries the sign of the dividend and its magnitude is the Euclidean remainder of the magnitudes |
| SeriesGo.GoRemOfNonNegative | benchmarks/series/series.go:135 | Go's and Dafny's `%` agree on a non-negative dividend |
| SeriesGo.GoRemOfNegative | benchmarks/series/series.go:135 | they differ on a negative one (`-1 % 2` is -1 in Go) |
| SeriesGo.Wrap64 | benchmarks/series/series.go:133-135 | the result is an `int64` value, and an exact value already in range is kept |
| SeriesGo.Wrap64Congruent | benchmarks/series/series.go:133-135 | the wrapped value differs from the exact one by a multiple of 2^64, as two's-complement arithmetic does |
| SeriesGo.GoSub | benchmarks/series/series.go:135 | Go's `int64` subtraction: always in range, and the exact difference whenever that fits |
| SeriesGo.BestIndex | benchmarks/series/series.go:26-86 | refuses with SQLITE_CONSTRAINT exactly when some hidden column has an unusable constraint and no usable one; otherwise the output is the one `PlanMatches` describes: the mask bits, consecutive argv slots in start/stop/step order with omit false, cost 1 or 2 when both bounds are planned and otherwise 0, rows 1000 or 2147483647, the descending bit and ORDER BY consumption |
| SeriesGo.ScanConstraints | benchmarks/series/series.go:35-48 | the first loop returns the plan mask, the unusable mask and the last usable constraint per hidden column |
| SeriesGo.ScanPrefixTracks | benchmarks/series/series.go:35-48 | after any prefix of constraints, the masks record exactly the hidden columns with usable and with unusable constraints, and `idx` the last usable one of each; column 0 is ignored and the operator is never looked at |
| SeriesGo.BindArguments | benchmarks/series/series.go:50-56 | the second loop binds each planned column's chosen constraint to the argv slot after those of the planned columns before it, and leaves every other entry unset |
| SeriesGo.BindStep | benchmarks/series/series.go:50-56 | one turn of the second loop binds column i+1's chosen constraint to the next argv index, or does nothing when that column is unplanned |
| SeriesGo.ChosenOn | benchmarks/series/series.go:39-48 | `idx[c-1]` is the last usable constraint on column c, and it exists exactly when c has a usable constraint |
| SeriesGo.RefusalIff | benchmarks/series/series.go:58-63 | the test `unusableMask &^ idxNum != 0` holds exactly for the unplannable constraint sets |
| SeriesGo.Accepted | benchmarks/series/series.go:65-85 | the costs, estimates, descending bit and OrderByConsumed set for an accepted plan are the ones `PlanMatches` requires |
| SeriesGo.FixedArgsInRange | benchmarks/series/series.go:102-121 | with fixed argv positions, reads stay in range iff start needs one value, stop two and step three |
| SeriesGo.Setup | benchmarks/series/series.go:101-142 | after Filter the step is at least 1, the rowid is 1, and the direction is the old flag or the plan's descending bit; the Go reading computes the descending start `max - (max-min) % step` with both subtractions wrapping in `int64` |
| SeriesGo.Bound | benchmarks/series/series.go:102-121 | the step read from an argument or defaulted is at least 1 |
| SeriesGo.FilterSpec | benchmarks/series/series.go:101-142 | the corrected Filter: with no NULL argument, a planned start or stop is the argument in the argv slot BestIndex gave that column; a planned step is its argument, read as 1 below 1, and the step defaults to 1; min defaults to 0 and max to 0xffffffff; a NULL argument forces min 1, max 0; ascending starts at min, descending at `max - (max-min) % step` computed exactly when min <= max |
| SeriesGo.SlotsInRange | benchmarks/series/series.go:50-56 | the slots BestIndex hands out are 1..argc, so reading each column from its own slot never leaves the arguments |
| SeriesGo.FixedReadsInRange | benchmarks/series/series.go:102-121 | the Go Filter's fixed reads stay in range exactly for plans whose low bits are 0, 1, 3 or 7, and on those they read the slots BestIndex assigned |
| SeriesGo.AsWrittenAgrees | benchmarks/series/series.go:101-142 | on those plans, with `int64` arguments, a non-empty range and a width `max - min` that fits in `int64`, the Go Filter equals the corrected one |
| SeriesGo.SeriesCursor.constructor | benchmarks/series/series.go:88 | a new cursor has every field zero |
| SeriesGo.SeriesCursor.Filter | benchmarks/series/series.go:101-142 | Filter as written: it succeeds exactly when the fixed reads are in range, and then leaves the state `Setup` gives |
| SeriesGo.SeriesCursor.Next | benchmarks/series/series.go:144-152 | one step down when descending and up otherwise, and the rowid goes up by one |
| SeriesGo.SeriesCursor.Eof | benchmarks/series/series.go:170-175 | Eof holds exactly when the scan has no rows left |
| SeriesGo.SeriesCursor.Column | benchmarks/series/series.go:154-168 | columns 1, 2 and 3 report min, max and step; every other index (the `default:` branch) reports the current value, which for the value column is the value of the next row of the scan |
| SeriesGo.SeriesCursor.Rowid | benchmarks/series/series.go:177 | the rowid of the next row of the scan |
| SeriesGo.SeriesValuesBounds | benchmarks/series/series.go:170-175 | the series values lie between min and max, and the next grid point is past max |
| SeriesGo.TraceAscending | benchmarks/series/series.go:138-177 | an ascending scan emits `value + k*step` with rowid `rowid + k` for each of its rows, and as many rows as there are grid points up to max |
| SeriesGo.TraceDescending | benchmarks/series/series.go:131-177 | a descending scan emits `value - k*step` with rowid `rowid + k`, down to min |
| SeriesGo.AscendingScan | benchmarks/series/series.go:138-152 | after Filter an ascending scan emits `min, min+step, ...` up to the last value not above max, with rowids 1, 2, ... |
| SeriesGo.AscendingFromMin | benchmarks/series/series.go:138-152 | an ascending scan that starts at min walks the grid up to max |
| SeriesGo.RemainderGrid | benchmarks/series/series.go:135 | `max - (max-min) % step` is the last grid point from min that is not above max |
| SeriesGo.DescendingScan | benchmarks/series/series.go:131-152 | after the corrected Filter a descending scan emits the ascending values in reverse, with rowids 1, 2, ... |
| SeriesGo.DescendingFromTop | benchmarks/series/series.go:131-152 | a descending scan that starts at that grid point walks the grid back down to min |
| SeriesGo.NullScanIsEmpty | benchmarks/series/series.go:123-129 | after the corrected Filter, a NULL argument leaves no rows in either direction |
| SeriesGo.NullAscendingIsEmptyAsWritten | benchmarks/series/series.go:123-129 | in the Go Filter, a NULL argument empties an ascending scan |
| SeriesGo.NullDescendingRowAsWritten | benchmarks/series/series.go:123-136 | in the Go Filter, `1, NULL, 2` under plan 15 still emits one row with value 1 |
| SeriesGo.DescendingEmptyRangeAsWritten | benchmarks/series/series.go:131-136 | in the Go Filter, `5, 3, 10` descending emits the value 5, but ascending emits nothing |
| SeriesGo.StopOnlyPlanAsWritten | benchmarks/series/series.go:108-110 | under plan 2 the Go Filter reads past its single argument; the corrected one reads max 10 |
| SeriesGo.WideRangeWrapsAsWritten | benchmarks/series/series.go:131-136 | start -1, stop 2^63-1, step 3, descending: in the Go Filter `max - min` wraps, the start wraps to -2^63+1 and the scan is empty; the corrected Filter starts at 2^63-3 and emits rows |
| SeriesGo.NonPositiveStepIsOne | benchmarks/series/series.go:114-118 | a step argument below 1 is read as 1 |
| SeriesGo.AscendingExample | benchmarks/series/series.go:101-175 | start 1, stop 10, step 2 gives 1, 3, 5, 7, 9 |
| SeriesGo.DescendingExample | benchmarks/series/series.go:101-175 | start 1, stop 10, step 3, descending, gives 10, 7, 4, 1 |
| SeriesRs.BestIndex | examples/series.rs:54-88 | the first constraint that is not a usable `=` on start or stop decides: a bad start/stop gives Constraint and any other column aborts (`todo!()`); with all taken, a missing bound gives Error; otherwise start gets argv 1 and stop argv 2, both omitted, with cost and rows 100000 and idxnum 1 |
| SeriesRs.UnusableBoundNeverPlans | examples/series.rs:58-77 | a bad constraint anywhere in the list stops planning at or before it |
| SeriesRs.ScanIsRange | examples/series.rs:134-141 | a scan emits `value, value+1, ..., max`, and nothing when value > max |
| SeriesRs.GenerateSeriesCursor.constructor | examples/series.rs:105-117 | every field is zero |
| SeriesRs.GenerateSeriesCursor.Filter | examples/series.rs:120-132 | it panics with fewer than two arguments; otherwise min and value are argument 0 and max is argument 1, so the rest of the scan is `min..max` |
| SeriesRs.GenerateSeriesCursor.Next | examples/series.rs:134-137 | value goes up by one and the scan loses its first value |
| SeriesRs.GenerateSeriesCursor.Eof | examples/series.rs:139-141 | Eof holds exactly when nothing remains |
| SeriesRs.GenerateSeriesCursor.Column | examples/series.rs:143-160 | value, start and stop write the current value, min and max; step and unknown columns write nothing |
| Characters.BestIndex | examples/characters.rs:50-74 | the first constraint that is not a usable `=` on input decides (Constraint on input, abort on any other column); no constraint gives Error; otherwise every constraint gets argv 1 and omit, with cost and rows 100000 and idxnum 1 |
| Characters.ScanIsSuffix | examples/characters.rs:115-151 | from position idx, the k-th row has rowid idx+k and holds character idx+k |
| Characters.ScanSpellsInput | examples/characters.rs:101-151 | the value column of a whole scan spells the input back |
| Characters.CharactersCursor.constructor | examples/characters.rs:89-98 | nothing is stored and the position is 0 |
| Characters.CharactersCursor.Filter | examples/characters.rs:101-113 | no argument panics and non-UTF-8 fails; otherwise the input and its characters are stored, the position is 0, and the scan is all of the input |
| Characters.CharactersCursor.Next | examples/characters.rs:115-118 | the position goes up by one and the scan loses its first row |
| Characters.CharactersCursor.Eof | examples/characters.rs:120-125 | Eof holds exactly when no rows remain |
| Characters.CharactersCursor.Column | examples/characters.rs:127-147 | the value column is the next row's character (a panic at Eof); the input column is the whole input (a panic before filter); other columns write nothing |
| Characters.CharactersCursor.Rowid | examples/characters.rs:149-151 | the rowid of the next row |
| VTabIn.LettersCount | examples/in.rs:56-94 | idxStr has one letter per usable constraint, which is one per argv slot |
| VTabIn.LetterAtSlot | examples/in.rs:62-83 | the letter at position argvIndex-1 belongs to the constraint bound to that slot |
| VTabIn.SlotsIncrease | examples/in.rs:57-67 | later usable constraints get later slots, so each slot is handed out once |
| VTabIn.BoundClosedForm | examples/in.rs:56-90 | after n constraints the loop has given the k-th usable one slot k, spelled their letters, and enabled only the y constraints that can take their whole IN list |
| VTabIn.BestIndex | examples/in.rs:55-97 | unusable constraints are skipped; the first usable one that is not an `=` on x or y decides (Constraint on x/y, abort elsewhere); otherwise each gets its slot and omit, idxStr spells x/Y/y per slot, and cost, rows and idxnum are fixed |
| VTabIn.QueryPlans | tests/test_vtab_in.rs:203-218 | the four test queries plan idxnum 1 with idxStr "", "x", "Y" and "y" |
| VTabIn.NoInListKeepsValue | tests/test_vtab_in.rs:130-143 | with no Y slot, filter leaves the value as it was |
| VTabIn.LastInListWins | tests/test_vtab_in.rs:130-143 | the last Y slot's concatenated IN list is the value |
| VTabIn.NineRows | examples/in.rs:142-153 | from rowid 1 a scan reports rowids 1 to 9 |
| VTabIn.InCursor.constructor | examples/in.rs:111-114 | rowid 0 |
| VTabIn.InCursor.Filter | examples/in.rs:118-144 | it panics without idxStr or with an unreadable IN list; otherwise rowid is 1 and nine rows remain |
| VTabIn.InCursor.Next | examples/in.rs:146-149 | rowid goes up by one and the scan loses its first row |
| VTabIn.InCursor.Eof | examples/in.rs:151-153 | Eof holds exactly when no rows remain |
| VTabIn.InCursor.Column | examples/in.rs:155-166 | column a is 1000 + rowid, b is 2000 + rowid, and nothing else is written |
| VTabIn.InCursor.Rowid | examples/in.rs:168-170 | the rowid of the next row |
| VTabIn.InValueCursor.constructor | tests/test_vtab_in.rs:112-119 | rowid 0 and no value |
| VTabIn.InValueCursor.Filter | tests/test_vtab_in.rs:123-146 | it panics without idxStr or with an unreadable IN list; otherwise rowid is 1, nine rows remain, and the value is what the Y slots leave |
| VTabIn.InValueCursor.Next | tests/test_vtab_in.rs:148-151 | rowid goes up by one and the scan loses its first row |
| VTabIn.InValueCursor.Eof | tests/test_vtab_in.rs:153-155 | Eof holds exactly when no rows remain |
| VTabIn.InValueCursor.Column | tests/test_vtab_in.rs:157-169 | only column a writes: the concatenation, or "" when there is none |
| VTabIn.InValueCursor.Rowid | tests/test_vtab_in.rs:171-173 | the rowid of the next row |
| VTabIn.ColumnAValues | tests/test_vtab_in.rs:221-231 | `y = 1` reads "" and `y in (1,2,3)` reads "123" |
| Table.Operator | src/table.rs:87-107 | decoding succeeds exactly on 2, 4, 8, 16, 32, 64..74 and 150..255, and FUNCTION carries its byte |
| Table.Op | src/table.rs:220-222 | a constraint's operator is defined exactly for the codes `operator` accepts, and it encodes back to the constraint's byte |
| Table.OperatorDecodes | src/table.rs:87-107 | every decoded operator encodes back to its byte |
| Table.OperatorEncodes | src/table.rs:87-107 | every well-formed operator decodes from its code |
| Table.OperatorInjective | src/table.rs:87-107 | two bytes that decode to the same operator are equal |
| Table.Direction | src/table.rs:245-251 | Descending exactly when the byte is 1 |
| Table.BestIndexCode | src/table.rs:843-857 | Ok gives SQLITE_OK, a constraint error SQLITE_CONSTRAINT and any other error SQLITE_ERROR, and no other code occurs |
| Table.BestIndexCodeInjective | src/table.rs:843-857 | distinct planner results give distinct codes |
| Table.ProcessCreateArgs | src/table.rs:722-754 | a non-UTF-8 argument fails; fewer than three panics; otherwise module, database and table are argv 0..2 and the arguments are the rest, in order |
| Table.CreateArgumentsAreTheTail | src/table.rs:722-754 | there are argc-3 arguments, and the k-th is argv[k+3] |
| Affinity.FromDeclaredType | src/api.rs:429-460 | INTEGER exactly when the trimmed, lowered type contains "int" |
| Affinity.RuleMatchesIff | src/api.rs:429-460 | each rule of the table matches exactly when the code's `contains` tests do |
| Affinity.FirstMatchingRuleDecides | src/api.rs:429-460 | the affinity is the one the first matching rule assigns, and NUMERIC when none matches |
| Affinity.VarcharIsText | src/api.rs:436-443 | "varchar(255)" is TEXT |
| Affinity.FloatingPointIsInteger | src/api.rs:431-434 | "floating point" is INTEGER |
| Affinity.FloatIsReal | src/api.rs:452-456 | "float" is REAL |
| Affinity.DateIsNumeric | src/api.rs:458-459 | "date" is NUMERIC |
| Affinity.TrimLowerCommute | src/api.rs:430 | trimming and lowercasing commute |
| Affinity.CaseInsensitive | src/api.rs:430 | types equal up to case get the same affinity |
| Affinity.PaddingIgnored | src/api.rs:430 | surrounding whitespace does not change the affinity |
| Affinity.IntegerFirst | src/api.rs:431-450 | "int" wins over "char" and "blob" wherever they occur |
| Affinity.BlankIsBlob | src/api.rs:447-449 | a blank type is BLOB |
| Affinity.ExtendedFromType | src/api.rs:533-570 | the extended classifier never answers Datetime, Date or Time |
| Affinity.ExtendedRefinesPlain | src/api.rs:533-570 | on an untrimmed-equal type the extended classifier agrees with the plain one on the first four rules, and refines NUMERIC only to JSON or BOOLEAN |
| Affinity.OneCharacterIsNumeric | src/api.rs:533-570 | every pattern of the extended classifier has at least three characters, so any one-character type is NUMERIC |
| Affinity.BlankTypeDisagrees | src/api.rs:533-549 | because it does not trim, a type of one blank character such as " " is NUMERIC for the extended classifier but BLOB for the plain one |
| ArgParse.DeclarationAffinity | src/vtab_argparse.rs:93-98 | NUMERIC without a declared type, otherwise the declared type's affinity |
| ArgParse.VtabDeclaration | src/vtab_argparse.rs:103-109 | the quoted name and a space, followed by the type or nothing |
| ArgParse.ParseConfigOptionValue | src/vtab_argparse.rs:167-188 | an error (with its message) exactly for a blank value; otherwise the value is Quoted exactly when the trimmed text starts with a quote, and an SQLite parameter exactly when it starts with `:` or `@` instead; a quoted value is the trimmed text without its first and last characters; other values are the trimmed text |
| ArgParse.ArgIsConfigOption | src/vtab_argparse.rs:152-166 | no option exactly when there is no `=`; the key is the untrimmed text before the first `=`; with an `=`, an error exactly when the text between the first and second `=` is blank, and that error is the empty-value message for the key; otherwise the value is what `parse_config_option_value` makes of that text |
| ArgParse.ArgIsColumnDeclaration | src/vtab_argparse.rs:189-202 | never an error; no column exactly for a blank argument; otherwise the name is the text before the first space, the type the next piece, and no constraints |
| ArgParse.ParseArgument | src/vtab_argparse.rs:137-149 | with an `=`, a Config (the key before the first `=`, the value parsed from the text up to the next `=`) or the empty-value error exactly when that text is blank; without one, the column whose name is the text before the first space, or the "neither" error exactly when the argument is blank |
| ArgParse.TrimEmptyIffBlank | src/vtab_argparse.rs:190 | trim gives "" exactly for blank strings |
| ArgParse.EqualsMeansConfig | src/vtab_argparse.rs:137-149 | with an `=` the result is an option or an error; without one it is a column, or the "neither" error when the argument is blank |
| ArgParse.ValueRoundTrip | src/vtab_argparse.rs:167-188 | parsing a rendered well-formed value gives it back |
| ArgParse.ConfigRoundTrip | src/vtab_argparse.rs:137-166 | `key=value` parses back to its key and value |
| ArgParse.ValueEndsAtSecondEquals | src/vtab_argparse.rs:153-161 | text from a second `=` on is dropped |
| ArgParse.BlankValueIsError | src/vtab_argparse.rs:152-186 | `key=` followed only by whitespace is the error "Empty value for key 'key'" |
| ArgParse.UnclosedQuote | src/vtab_argparse.rs:170-176 | the closing quote is not checked: `'abc` gives `ab` |
| ArgParse.QuotedDropsEnds | src/vtab_argparse.rs:170-176 | a quoted value loses its first and last characters |
| ArgParse.ColumnArgument | src/vtab_argparse.rs:137-149 | a non-blank argument without `=` is the column declaration of its first two pieces |
| ArgParse.BareColumnRoundTrip | src/vtab_argparse.rs:189-202 | `name` alone is a column with no type |
| ArgParse.TypedColumnRoundTrip | src/vtab_argparse.rs:189-202 | `name type ...` is a column of that type, and further pieces are dropped |
| ArgParse.ParseNameText | src/vtab_argparse.rs:209-216 | "name text" is the column `name` of type `text` |
| ArgParse.ParseName | src/vtab_argparse.rs:217-222 | "name" is the column `name` with no type |
| ArgParse.ParseQuotedOption | src/vtab_argparse.rs:223-229 | "option='quoted'" has the quoted value "quoted" |
| ArgParse.ParseParameterOption | src/vtab_argparse.rs:230-236 | "option=:param" has the parameter ":param" |
| ArgParse.ParseBarewordOption | src/vtab_argparse.rs:237-243 | "option=bareword" has the bareword "bareword" |
| ArgParse.DeclarationOfParsedColumn | src/vtab_argparse.rs:93-109 | a parsed `name type` declares itself as `'name' type` with that type's affinity |
| ArgParse.UntypedColumnIsNumeric | src/vtab_argparse.rs:93-109 | a column without a type is NUMERIC and declares itself as `'name' ` |
| Collation.Reversed | tests/test_collation.rs:6-7 | the bytes in reverse order |
| Collation.ReversedTwice | tests/test_collation.rs:6-7 | reversing twice gives the bytes back |
| Collation.LexCompare | tests/test_collation.rs:8-12 | the comparison answers only -1, 0 or 1 |
| Collation.LessIff | tests/test_collation.rs:8-12 | -1 exactly when the textbook lexicographic order puts a first |
| Collation.LexEqualIff | tests/test_collation.rs:8-12 | 0 exactly for equal byte strings |
| Collation.LexAntisymmetric | tests/test_collation.rs:8-12 | swapping the arguments negates the result |
| Collation.LexTransitive | tests/test_collation.rs:8-12 | "less" is transitive |
| Collation.Compare | tests/test_collation.rs:5-13 | `compare` answers only -1, 0 or 1 |
| Collation.CompareEqualIff | tests/test_collation.rs:5-13 | `compare` is 0 exactly for equal texts |
| Collation.CompareAntisymmetric | tests/test_collation.rs:5-13 | `compare(a, b) == -compare(b, a)` |
| Collation.CompareTransitive | tests/test_collation.rs:5-13 | `compare` is transitive, so it is a total order |
| Collation.LastByteDecides | tests/test_collation.rs:5-13 | of two texts of equal length, the smaller last byte comes first |
| Collation.TestOrder | tests/test_collation.rs:46-53 | "zzza" < "yyyb" < "xxxc" |
| MemVfs.WriteIdempotent | include/mem_vfs.in.rs:187-202 | the same write twice is the write once |
| MemVfs.DisjointWritesCommute | include/mem_vfs.in.rs:187-202 | writes to disjoint windows commute |
| MemVfs.OverwriteHides | include/mem_vfs.in.rs:187-202 | a covering later write hides an earlier one |
| MemVfs.TruncateAfterWrite | include/mem_vfs.in.rs:204-208 | truncating to the old length after an in-file write changes nothing |
| MemVfs.MemFile.constructor | include/mem_vfs.in.rs:48-65 | a new file is empty |
| MemVfs.MemFile.Write | include/mem_vfs.in.rs:187-202 | a negative size or offset panics; otherwise the length is max(old, offset+size), the window holds buf, other old bytes are kept and a gap is zero |
| MemVfs.MemFile.Truncate | include/mem_vfs.in.rs:204-208 | a negative size panics; otherwise the length is the size, the first bytes are kept and growth is zero |
| MemVfs.MemFile.FileSize | include/mem_vfs.in.rs:214-217 | the current length |
| MemVfs.MemFile.CheckReservedLock | include/mem_vfs.in.rs:227-230 | always 0 |
| MemVfs.MemFile.SectorSize | include/mem_vfs.in.rs:236-238 | always 1024 |
| MemVfs.MemFile.DeviceCharacteristics | include/mem_vfs.in.rs:240-245 | atomic, powersafe-overwrite, safe-append and sequential |
| MemVfs.MemFile.ShmMap | include/mem_vfs.in.rs:247-249 | always SQLITE_IOERR_SHMMAP |
| MemVfs.MemFile.ShmLock | include/mem_vfs.in.rs:251-254 | always SQLITE_IOERR_SHMLOCK |
| MemVfs.Delete | include/mem_vfs.in.rs:67-69 | always SQLITE_IOERR_DELETE |
| LockKinds.Repr | benchmarks/vfs/io_uring/src/lock/kind.rs:6-39 | discriminants 0..4 |
| LockKinds.FromRepr | benchmarks/vfs/io_uring/src/lock/kind.rs:4-39 | a kind exactly for 0..4, and the one with that discriminant |
| LockKinds.FromReprOfRepr | benchmarks/vfs/io_uring/src/lock/kind.rs:4-39 | every kind is recovered from its discriminant |
| LockKinds.PartialCmp | benchmarks/vfs/io_uring/src/lock/kind.rs:41-47 | always Some of -1, 0 or 1 |
| LockKinds.OrderIsTotal | benchmarks/vfs/io_uring/src/lock/kind.rs:41-47 | never None, Equal exactly for equal kinds, and any two kinds are ordered |
| LockKinds.OrderIsAntisymmetric | benchmarks/vfs/io_uring/src/lock/kind.rs:41-47 | swapping the arguments negates the comparison |
| LockKinds.OrderIsTransitive | benchmarks/vfs/io_uring/src/lock/kind.rs:41-47 | `<` is transitive |
| LockKinds.TestLockOrder | benchmarks/vfs/io_uring/tests/test_locks.rs:17-22 | None < Shared < Reserved < Pending < Exclusive |
| LockKinds.Default | benchmarks/vfs/io_uring/src/lock/kind.rs:49-53 | no kind is below the default |
| Locks.SameLevelIsNoOp | benchmarks/vfs/io_uring/src/lock/lock.rs:110-112 | asking for the current level returns true and changes nothing |
| Locks.UnlockedGoesOnlyToShared | benchmarks/vfs/io_uring/src/lock/lock.rs:114-120 | from None, anything above Shared panics |
| Locks.PendingIsNeverRequested | benchmarks/vfs/io_uring/src/lock/lock.rs:174-176 | asking for Pending panics |
| Locks.ReservedOnlyFromShared | benchmarks/vfs/io_uring/src/lock/lock.rs:156-172 | Reserved panics unless the level is Shared, and then succeeds exactly when fd2 can be locked exclusively |
| Locks.ReleaseAlwaysSucceeds | benchmarks/vfs/io_uring/src/lock/lock.rs:123-133 | releasing returns true and leaves None |
| Locks.ExclusiveEndsExclusiveOrPending | benchmarks/vfs/io_uring/src/lock/lock.rs:178-190 | Exclusive never panics from Shared/Reserved/Pending; it fails exactly when fd2 is needed and refused; success ends at Exclusive, or at Pending when fd1 is refused |
| Locks.LevelMovesOnlyToTarget | benchmarks/vfs/io_uring/src/lock/lock.rs:109-192 | a call that does not return true leaves the level alone; the new level is the old one, the target or Pending, and Pending is only reached by asking for Exclusive |
| Locks.ConnectionLock | benchmarks/vfs/io_uring/src/connection.rs:201-209 | true exactly when the lock returned true and reached the target; a panic exactly when the lock panics |
| Locks.PendingReportsBusy | benchmarks/vfs/io_uring/src/connection.rs:207-208 | Exclusive that only reached Pending is reported as false |
| Locks.LockFileHeldFromReserved | benchmarks/vfs/io_uring/src/lock/lock.rs:20-39 | the lock file is held from Reserved up and not below |
| Locks.OneReservedAtATime | benchmarks/vfs/io_uring/src/lock/lock.rs:36-39 | beside a connection at Reserved or above, a second Reserved is refused |
| Locks.ExclusiveExcludesEveryone | benchmarks/vfs/io_uring/src/lock/lock.rs:20-30 | beside any other lock holder, Exclusive is not reached |
| Locks.NewReaders | benchmarks/vfs/io_uring/src/lock/lock.rs:36-39 | new readers get Shared beside None, Shared and Reserved, and not beside Pending and Exclusive |
| Locks.Lock.constructor | benchmarks/vfs/io_uring/src/lock/lock.rs:49-65 | no lock, and the flocks match the table |
| Locks.Lock.Current | benchmarks/vfs/io_uring/src/lock/lock.rs:87-89 | the current level, whose table entry is the flocks held |
| Locks.Lock.IsReserved | benchmarks/vfs/io_uring/src/lock/lock.rs:91-102 | true exactly when the level is above Shared or fd2 cannot be locked exclusively; the level and the flocks held are unchanged |
| Locks.Lock.AcquireShared | benchmarks/vfs/io_uring/src/lock/lock.rs:135-154 | the Shared arm: the result and new level are those of `Outcome`, and a returning call keeps the flocks consistent |
| Locks.Lock.AcquireReserved | benchmarks/vfs/io_uring/src/lock/lock.rs:156-172 | the Reserved arm, the same way |
| Locks.Lock.AcquireExclusive | benchmarks/vfs/io_uring/src/lock/lock.rs:178-190 | the Exclusive arm, the same way |
| Locks.Lock.Lock | benchmarks/vfs/io_uring/src/lock/lock.rs:109-192 | `lock` as written: result and level are those of `Outcome`; the flocks stay consistent except when Reserved is released, which leaves fd2 shared-locked |
| Locks.Lock.CorrectedLock | benchmarks/vfs/io_uring/src/lock/lock.rs:123-133 | `lock` with fd2 also released from Reserved: the same results, and the flocks stay consistent on every return |
| Locks.TestSingleConnection | benchmarks/vfs/io_uring/tests/test_locks.rs:58-131 | alone, None→Shared→Reserved→Exclusive succeeds; beside a Reserved holder, Shared is granted |
| Locks.TestReservedOnce | benchmarks/vfs/io_uring/tests/test_locks.rs:107-120 | the second Reserved is refused while the first is held, and granted after it steps back to Shared |
| Locks.TestPending | benchmarks/vfs/io_uring/tests/test_locks.rs:134-176 | Exclusive beside a reader reaches Pending; beside a Pending holder it fails; Pending then reaches Exclusive alone |
| Locks.LeakedFlockBlocksReserved | benchmarks/vfs/io_uring/src/lock/lock.rs:123-133 | with the lock file left shared-locked by a release from Reserved, another connection's Reserved fails; with it released, it succeeds |
| Connection.Components | benchmarks/vfs/io_uring/src/connection.rs:350 | a path yields its root, then one name per component, and no "." or ".." |
| Connection.Pop | benchmarks/vfs/io_uring/src/connection.rs:366 | drops the last name, and does nothing at the root or in an empty path |
| Connection.NormalizePath | benchmarks/vfs/io_uring/src/connection.rs:347-374 | the loop returns `Normalize` of the components |
| Connection.RunAppend | benchmarks/vfs/io_uring/src/connection.rs:358-372 | running the loop over two stretches is running it over each in turn |
| Connection.CurDirIgnored | benchmarks/vfs/io_uring/src/connection.rs:364 | a "." anywhere is ignored |
| Connection.ParentCancelsName | benchmarks/vfs/io_uring/src/connection.rs:365-370 | a name followed by ".." cancels out |
| Connection.LeadingParentVanishes | benchmarks/vfs/io_uring/src/connection.rs:365-367 | a ".." at the start, or right after the root, disappears |
| Connection.RootKept | benchmarks/vfs/io_uring/src/connection.rs:361-363 | the result is absolute exactly when it started so or a root was pushed |
| Connection.NormalizedAbsoluteIff | benchmarks/vfs/io_uring/src/connection.rs:347-374 | a normalised path is absolute exactly when it had a root |
| Connection.NamesAppended | benchmarks/vfs/io_uring/src/connection.rs:368-370 | names are pushed in order |
| Connection.NormalIsFixed | benchmarks/vfs/io_uring/src/connection.rs:347-374 | normalising a normal path gives it back |
| Connection.NormalizeIdempotent | benchmarks/vfs/io_uring/src/connection.rs:347-374 | normalising is idempotent, and its result has no "." or ".." |
| Connection.SplitAtDot | benchmarks/vfs/io_uring/src/connection.rs:73 | the extension is the text after the last dot, with a non-empty stem before it; no extension leaves the whole name |
| Connection.SplitsAtLastDot | benchmarks/vfs/io_uring/src/connection.rs:73 | `stem.ext` with no dot in ext splits into stem and ext |
| Connection.NoDotNoExtension | benchmarks/vfs/io_uring/src/connection.rs:73 | a name without dots has no extension |
| Connection.SetExtension | benchmarks/vfs/io_uring/src/connection.rs:71 | the stem, then a dot and the extension unless it is empty |
| Connection.ExtensionSet | benchmarks/vfs/io_uring/src/connection.rs:377 | setting a non-empty extension gives `stem.e` |
| Connection.BaseExtension | benchmarks/vfs/io_uring/src/connection.rs:73-76 | the base extension has no '-' or '.', and is a prefix of the extension |
| Connection.BaseOfSibling | benchmarks/vfs/io_uring/src/connection.rs:378-380 | an extension `ext-...` is cut back to `ext` |
| Connection.ShmName | benchmarks/vfs/io_uring/src/connection.rs:71-77 | the wal-index name ends with "-shm" |
| Connection.SiblingsShareShm | benchmarks/vfs/io_uring/src/connection.rs:234-241 | `x.db-wal`, `x.db-journal` and `x.db` all give `x.db-shm` as wal-index name and `x.db` as permission source |
| Connection.SiblingRewrites | benchmarks/vfs/io_uring/src/connection.rs:376-382 | a name whose extension is `ext` or `ext-...` rewrites to `stem.ext-shm` and `stem.ext` |
| Connection.BareNameDefaultsToDb | benchmarks/vfs/io_uring/src/connection.rs:376-382 | a name without dots gets "db": `x` gives `x.db-shm` and `x.db` |
| Connection.ShmNameIdempotent | benchmarks/vfs/io_uring/src/connection.rs:234-241 | the wal-index name of a wal-index name is itself |
| Connection.WithFileName | benchmarks/vfs/io_uring/src/connection.rs:234 | only the last name changes |
| Connection.ShmPath | benchmarks/vfs/io_uring/src/connection.rs:234-241 | the wal-index path is the database path with its last name rewritten |
| Connection.PermissionsPath | benchmarks/vfs/io_uring/src/connection.rs:376-383 | the permission path is the path with its last name rewritten to the main database name |
| Connection.ShmPathStable | benchmarks/vfs/io_uring/src/connection.rs:71-77 | the wal-index file lies in the same directory, and deriving it again gives the same path |
| Text.TrimStart | src/api.rs:430 | drops exactly the leading whitespace |
| Text.TrimEnd | src/api.rs:430 | drops exactly the trailing whitespace |
| Text.TrimIgnoresPadding | src/api.rs:430 | whitespace around a string does not change its trim |
| Text.TrimIdempotent | src/api.rs:430 | trimming twice is trimming once |
| Text.Lower | src/api.rs:430 | lowercases character by character |
| Text.LowerIdempotent | src/api.rs:430 | lowercasing twice is lowercasing once |
| Text.Contains | src/api.rs:432 | true exactly when the substring occurs somewhere |
| Text.Before | src/vtab_argparse.rs:153-157 | the first piece of a split: a prefix with no separator, followed by the separator when shorter |
| Text.After | src/vtab_argparse.rs:158-161 | the text after the first separator, None exactly when there is none |
| Text.SplitJoin | src/vtab_argparse.rs:152-161 | splitting `a + c + b` at the first c gives a and b back |
| Text.SplitNone | src/vtab_argparse.rs:152-161 | a string without the separator is one piece |
| Text.LastIndexOf | benchmarks/vfs/io_uring/src/connection.rs:73 | the position of the last occurrence, None exactly when there is none |

## Left out

- The FFI layer: src/ext.rs, src/entrypoints.rs, the `value_*`/`result_*` functions of src/api.rs, src/exec.rs, src/vfs/*, the `define_*` registrations, scalar and window functions and their examples. These are calls into SQLite's C API. Argument values arrive here as Dafny values, and what a column writes is a result datatype.
- `ColumnAffinity::result_text`: floating-point parsing and FFI.
- Estimated costs are `f64` in the framework. Every planner here sets integer constants, so they are integers.
- Panics (`todo!()`, `expect`, `unwrap`, `panic!`, out-of-range indexing) are outcome values (`Aborted`, `FilterPanicked`, `Panicked`, `ColumnPanicked`, a `None` from `FilterAsWritten`). Partial state left behind by a panic is not modelled. For example, `MemFile::write` panics before it changes anything, which the model states; other state after a panic is left unspecified.
- `InCursor::filter` of examples/in.rs prints the members of each IN list. Printing is left out; reading them, and the panics on unreadable members, are kept.
- `Text.LowerChar` lowercases ASCII letters only. Rust's `to_lowercase` also maps non-ASCII letters, so the affinity lemmas hold for the ASCII case mapping.
- Whitespace (`Text.IsWhitespace`) is a fixed list of the Unicode White_Space characters.
- `MemFile::read` slices `source[offset..(size-1)]`, which panics or reads the wrong bytes for most inputs, so there is no sound behaviour to specify. The file-backed load in `open`, `Drop` (which writes the file to disk) and `sync`/`lock`/`unlock`/`file_control`, which only return `Ok`, are left out too. examples/mem_vfs.rs is a second copy of the VFS and is not part of this model.
- `flock` itself. Whether each `flock` call would be granted is an input (`Grants`, or `GrantsBeside` for one other connection). Unlocks and downgrades are assumed to succeed; the source panics when an unlock fails. Errors opening the lock file (`Lock::new`, `from_file`) are left out.
- `Lock::from_file` and `from_raw_fd` differ from `new` only in how the descriptors are obtained, which is not modelled.
- connection.rs imports its lock from a `lock::wrapper` module that is not part of this model; it is taken to be the `Lock` of lock.rs.
- connection.rs `open`, `wal_index`, `pull`, `push`, `moved`, `reserved` and `current_lock` are file-system access. So is the `-shm` mode check of `open` (lines 78-88). Only the path computations are modelled.
- `Path::components` parsing of strings is not modelled: a path is its component list. Windows `Prefix` components do not occur on the Unix targets of this VFS.
- `GenerateSeriesCursor::rowid` has no contract: the field is only set by `new`, so every row reports rowid 0. The constructor row states this.
- SeriesGo.SeriesCursor.Next: requires the rowid and value to stay inside `int64`. Go wraps around silently, and the model does not follow it there.
- SeriesGo.TraceAscending: the row count and values are those of unbounded arithmetic. When the last grid point plus `step` exceeds 2^63-1, Go's `value += step` wraps to a negative value that is not above max, so the source's scan never reaches Eof (for example 0 to 2^63-1 by 2).
- SeriesGo.TraceDescending: the descent to min is that of unbounded arithmetic. When the grid point nearest min minus `step` is below -2^63, Go's `value -= step` wraps to a large value that is not below min, so the source's scan never reaches Eof (for example -2^63 to -2^63+10 by 3).
- SeriesGo.AscendingScan: states the rows of `SeriesValues(min, max, step)`. This holds for the Go cursor only when the last grid point plus `step` stays at or below 2^63-1, for the reason given under TraceAscending.
- SeriesGo.AscendingFromMin: the same int64 edge as AscendingScan. The walk up to max is unbounded arithmetic.
- SeriesGo.DescendingScan: states the reversed grid. This holds for the Go cursor only when the grid point nearest min minus `step` stays at or above -2^63, for the reason given under TraceDescending.
- SeriesGo.DescendingFromTop: the same int64 edge as DescendingScan. The walk down to min is unbounded arithmetic.
- SeriesRs.ScanIsRange: states `value..=max` in unbounded arithmetic. With max = 2^63-1, Rust's `self.value += 1` panics in a debug build or wraps in a release build after the last row, so the source's scan does not end at Eof.
- SeriesRs.GenerateSeriesCursor.Next: requires `value + 1` to stay inside `i64`. Rust would panic (debug) or wrap (release).
- VTabIn.InCursor.Next: requires `rowid + 1` to stay inside `i64`, for the same reason.
- VTabIn.InValueCursor.Next: requires `rowid + 1` to stay inside `i64`, for the same reason.
- SeriesGo.SeriesCursor.Filter: requires one argument per planned column, which is what the engine passes for the plan BestIndex returned. It also requires every argument to fit in `int64`, as `Value.Int64()` guarantees. The wrap-around of the descending start is modelled.
- Connection.BaseExtension: an extension that is not UTF-8 makes `to_str()` return None, and the code then uses "db". Dafny strings are always text, so that case cannot arise in the model.
- SeriesGo.BestIndex: requires constraint columns of at most 3. The table declares four columns, so the engine never offers another; the Go code would index `idx` out of range.
- MemVfs.MemFile.Write: requires the buffer to hold `s` bytes, which is the engine's contract for xWrite.
- src/table.rs `determine_update_operation` and the xUpdate path compare raw pointers and contain `todo!()` branches. They are not part of this model.
- SeriesGo.BestIndex: an open-ended plan (start or stop missing) keeps `EstimatedCost` at 0, the cheapest value, although the code's comment asks for a very expensive plan; only `EstimatedRows` (2147483647) marks it. The model keeps both values as written.

## Findings

| source | as written | input that shows it | evidently intended | confidence | as-written member | corrected member |
|---|---|---|---|---|---|---|
| benchmarks/series/series.go:102-121 | Filter reads start, stop and step from the fixed argv positions 0, 1 and 2 | `WHERE stop = 10` alone: BestIndex plans 2 and gives stop argv index 1, so Filter gets one value and reads `values[1]` (an index out of range) | read each planned column from the slot BestIndex numbered for it | high, not executed | SeriesGo.StopOnlyPlanAsWritten | SeriesGo.FilterSpec |
| benchmarks/series/series.go:131-136 | the descending start `max - (max-min) % step` is also used when min > max, where Go's `%` is negative | start 5, stop 3, step 10, ORDER BY value DESC starts at 5 and emits one row, while the ascending scan emits none; the same happens with a NULL argument and step 2 | a descending scan of an empty range emits nothing | high, not executed | SeriesGo.DescendingEmptyRangeAsWritten | SeriesGo.DescendingScan |
| benchmarks/series/series.go:133-135 | the descending start subtracts `max - min` in `int64`, which wraps when the range is wider than 2^63-1 | start -1, stop 2^63-1, step 3, ORDER BY value DESC: `max - min` wraps to -2^63, its remainder by 3 is -2, and the start `max + 2` wraps to -2^63+1, below min, so no rows come out | start at the last grid point not above max (2^63-3 here) | high, not executed | SeriesGo.WideRangeWrapsAsWritten | SeriesGo.DescendingScan |
| benchmarks/vfs/io_uring/src/lock/lock.rs:123-133 | releasing to None unlocks the lock file only from Pending or Exclusive, but Reserved also holds it (shared) | connection A: Shared, Reserved, then None; connection B, at Shared, asks for Reserved and gets false although nobody holds a lock | release the lock file whenever the level is above Shared | medium, not executed | Locks.LeakedFlockBlocksReserved | Locks.Lock.CorrectedLock |
