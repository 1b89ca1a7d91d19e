# dballe core, modelled in Dafny

DB-All.e (dballe) stores point weather observations: values keyed by
station, level, time range, date and variable code. It reads and writes
them as BUFR, CREX and AOF messages and as CSV, and it also offers a
Fortran session API. This project models the sequential core of that
system. It covers:

- the value types and their orderings (`Level`, `Trange`, `Coord`, `Date`, `Time`, `Datetime`);
- the in-memory index algebra (`Positions`, `Index`, the lazy N-way `Intersection`);
- the C record store (keywords plus a linked list of variables) and its date-range normaliser;
- the CSV reader and writer;
- the LevTr cache of the v6 database;
- the attribute and bulk data table operations of the SQL and ODBC layers, run over in-memory tables;
- the message cursors;
- the Fortran API session (`DbAPI`), with its permission gates and operation lifecycle;
- the choice of importer and export template in the BUFR/CREX codec, and the SYNOP, TEMP and PILOT templates' header, level and factory rules;
- the message selection of the command line tools.

Each source file is one Dafny module in a file of its own. `wrappers.dfy`
holds `Option` and `Result`.

- Pure code (value types, codec rules, the CSV tokenizer) is written as functions and lemmas.
- Code that updates state (the record store, the caches, the tables, the cursors, the session, the registry, the subsets) is written as classes.
  - Each has `modifies`/`reads` frames.
  - Each method is proved against a specification function.
- C `int` is an unbounded integer. Where the 32-bit width matters it is written out: `Wrap32` in `defs.dfy`, and the `strtoul` wrap-around in `csv.dfy`.

Some of the code and its own comments disagree. The model follows the code:

- `Level::compare` and `Trange::compare` (`dballe/core/defs.h`) are documented to return -1, 0 or 1.
  - They return the raw difference of the first unequal component.
  - The model states only the sign. The 32-bit difference is a separate member.
- `SynopECMWFAuto` is described in `dballe/msg/wr_exporters/synop.cc:328` as the same as `SynopECMWFLandHigh`.
  - The code derives it from `SynopECMWFLand`, with local subcategory 3.
  - `SynopExport.AutoIsLandWithSubtype3` states what the code does.

## Model

| member | source | states |
|---|---|---|
| Defs.Wrap32 | dballe/core/defs.h:90-97 | the result is a 32-bit `int`, congruent to its argument modulo 2^32, and equal to it when it already fits |
| Defs.DefaultLevel | dballe/core/defs.h:65-66 | `Level()` has all four components `MISSING_INT` |
| Defs.Cloud | dballe/core/defs.h:106 | `Level::cloud(t2, l2)` is (256, MISSING_INT, t2, l2) |
| Defs.Waves | dballe/core/defs.h:107 | `Level::waves(t2, l2)` is (264, MISSING_INT, t2, l2) |
| Defs.LevelAna | dballe/core/defs.h:108 | `Level::ana()` is the default level |
| Defs.LevelEq | dballe/core/defs.h:69-73 | `==` holds exactly when all four components are equal |
| Defs.LevelNe | dballe/core/defs.h:75-79 | `!=`, written with its own disjunction, is exactly the negation of `==` |
| Defs.LevelCompare | dballe/core/defs.h:90-97 | `compare` (on unbounded integers) is zero exactly for equal levels |
| Defs.LevelCompareIsLex | dballe/core/defs.h:81-97 | `<` through `compare` is the lexicographic order on (ltype1, l1, ltype2, l2), and `>` is `<` with the operands swapped |
| Defs.LevelLessTotal | dballe/core/defs.h:81-97 | on unbounded integers `<` is a strict total order: trichotomy, asymmetry, transitivity |
| Defs.LevelCompareAsWritten | dballe/core/defs.h:90-97 | the 32-bit `compare` returns an `int`, and is zero exactly for equal levels when all components fit in 32 bits |
| Defs.LevelCompareAsWrittenOverflows | dballe/core/defs.h:52-97 | a missing ltype1 (`INT_MAX`) against ltype1 -1 makes each level compare below the other (Findings) |
| Defs.DefaultTrange | dballe/core/defs.h:122-123 | `Trange()` has all three components `MISSING_INT` |
| Defs.Instant | dballe/core/defs.h:160 | `Trange::instant()` is (254, 0, 0) |
| Defs.TrangeAna | dballe/core/defs.h:161 | `Trange::ana()` is the default time range |
| Defs.TrangeEq | dballe/core/defs.h:126-129 | `==` holds exactly when the three components are equal |
| Defs.TrangeNe | dballe/core/defs.h:131-134 | `!=` is exactly the negation of `==` |
| Defs.TrangeCompare | dballe/core/defs.h:145-151 | `compare` is zero exactly when `==` holds |
| Defs.TrangeCompareIsLex | dballe/core/defs.h:136-151 | `<` is the lexicographic order on (pind, p1, p2), `>` is `<` swapped, and any two time ranges are ordered or equal |
| Defs.TrangeCompareAsWritten | dballe/core/defs.h:145-151 | the 32-bit `compare` returns an `int` |
| Defs.TrangeCompareAsWrittenOverflows | dballe/core/defs.h:148-149 | a missing p1 against p1 -1 makes each time range compare below the other (Findings) |
| Defs.CoordEq | dballe/core/defs.h:185-188 | `==` holds exactly when latitude and longitude are equal |
| Defs.CoordNe | dballe/core/defs.h:190-193 | `!=` is exactly the negation of `==` |
| Defs.CoordCompare | dballe/core/defs.h:201-205 | zero exactly for equal coordinates; negative exactly when the latitude is lower, or equal with a lower longitude |
| Defs.DefaultDate | dballe/core/defs.h:221 | `Date()` has every bit set in every field |
| Defs.DefaultTime | dballe/core/defs.h:262 | `Time()` has every bit set in every field |
| Defs.DateFromInts | dballe/core/defs.h:227-230 | `Date(const int*)` keeps `val[0]` modulo 2^16 and `val[1]`, `val[2]` modulo 2^8 |
| Defs.TimeFromInts | dballe/core/defs.h:266-269 | `Time(const int*)` keeps each of `val[0..3]` modulo 2^8 |
| Defs.DatetimeFromInts | dballe/core/defs.h:304 | the date comes from `val[0..3]` and the time from `val[3..6]` |
| Defs.DateFill | dballe/core/defs.h:232-237 | `fill` writes three non-negative values |
| Defs.TimeFill | dballe/core/defs.h:271-276 | `fill` writes three values in 0..255 |
| Defs.DatetimeFill | dballe/core/defs.h:312-316 | the date fills `vals[0..3]` and the time `vals[3..6]` |
| Defs.DatetimeFillRoundTrip | dballe/core/defs.h:227-237 | `Datetime(vals).fill()` gives back `vals` exactly when the year is below 65536 and the other five fields below 256 |
| Defs.DatetimeFromFill | dballe/core/defs.h:304-316 | every `Datetime` survives `fill` followed by the array constructor |
| Defs.DateCompare | dballe/core/defs.h:239-244 | zero exactly for equal dates; negative exactly when the date is earlier by (year, month, day) |
| Defs.TimeCompare | dballe/core/defs.h:278-283 | zero exactly for equal times; negative exactly when the time is earlier by (hour, minute, second) |
| Defs.DatetimeCompare | dballe/core/defs.h:306-310 | zero exactly for equal datetimes; negative exactly when the date is earlier, or equal with an earlier time |
| Defs.DatetimeCompareOrder | dballe/core/defs.h:306-310 | the datetime order is antisymmetric and transitive |
| MemdbCore.SortedSuffixAbove | dballe/memdb/core.h:57-75 | in a strictly ascending sequence every element of a suffix is at least its head |
| MemdbCore.Positions.Contains | dballe/memdb/core.h:52-55 | `contains(v)` holds exactly when `v` is in the set |
| MemdbCore.Positions.InplaceIntersect | dballe/memdb/core.h:57-75 | the set becomes exactly its intersection with `pos`; nothing is added |
| MemdbCore.Index.Search | dballe/memdb/core.h:83-90 | a fresh set holding the positions stored for the key, or an empty set for an unknown key |
| MemdbCore.Index.Refine | dballe/memdb/core.h:93-106 | `res` becomes `res ∩ index[el]` (empty for an unknown key), and an empty `res` is left untouched |
| MemdbCore.RefineChainIsConjunction | dballe/memdb/core.h:92-106 | a chain of `refine` calls keeps a position exactly when it was in the start set and every key indexes it |
| MemdbCore.RefineSetIsRefine | dballe/memdb/core.h:93-106 | the value `RefineSet` is the set `refine` leaves: the old positions intersected with the key's positions |
| MemdbCore.RefineCallsChain | dballe/memdb/core.h:92-106 | successive `refine` calls, one per key in order, leave the `RefineChain` of the starting positions |
| StlUtils.RestAbove | dballe/core/stlutils.h:96-132 | a value ahead of an ascending cursor is its head or ahead of its next position |
| StlUtils.StepKeepsAhead | dballe/core/stlutils.h:105-108 | stepping a cursor past a value that is not common to all loses no common value |
| StlUtils.BelowFirstNotAhead | dballe/core/stlutils.h:107-108 | a value below the first cursor's head is not common to the values ahead |
| StlUtils.BelowHeadNotAhead | dballe/core/stlutils.h:107-117 | a value below any valid cursor's head is not common to the values ahead |
| StlUtils.SyncedHeadIsLeast | dballe/core/stlutils.h:74-77 | when all cursors agree, their value is the least value still common to all |
| StlUtils.Exhausted | dballe/core/stlutils.h:109-114 | a cursor at its end leaves no common value |
| StlUtils.Step | dballe/core/stlutils.h:105-108 | advancing one cursor past a non-common head changes only that cursor and keeps the common values |
| StlUtils.DropHeadAhead | dballe/core/stlutils.h:79-82 | stepping the first of synchronised cursors drops exactly the current value from the common values |
| StlUtils.AheadInCommon | dballe/core/stlutils.h:96-132 | values ahead of the cursors are values common to the sequences they walk |
| StlUtils.Intersection.Add | dballe/core/stlutils.h:145-148 | `add` appends one sequence |
| StlUtils.Intersection.Begin | dballe/core/stlutils.h:135-138 | the begin iterator satisfies the invariant, has handed out nothing, and is `end()` exactly when the sequences have no common value |
| StlUtils.Intersection.End | dballe/core/stlutils.h:140-143 | the end iterator has no cursors |
| StlUtils.YieldStep | dballe/core/stlutils.h:79-84 | handing out the current value and re-synchronising keeps the iterator invariant |
| StlUtils.ConstIterator.constructor | dballe/core/stlutils.h:67-70 | the begin iterator satisfies the invariant and is at the end exactly when no value is common |
| StlUtils.ConstIterator.AtEnd | dballe/core/stlutils.h:72 | the end iterator has no cursors |
| StlUtils.ConstIterator.Current | dballe/core/stlutils.h:74-77 | `operator*` is a common value not yet handed out, and the least of them |
| StlUtils.ConstIterator.SyncIters | dballe/core/stlutils.h:98-132 | either the cursors are cleared, exactly when no common value is left, or they all hold the same value and keep every common value ahead |
| StlUtils.ConstIterator.Increment | dballe/core/stlutils.h:79-84 | the invariant is kept and the value handed out is the previous `operator*` |
| StlUtils.WalkYieldsIntersection | dballe/core/stlutils.h:96-143 | once the iterator equals `end()` it has handed out exactly the common values, in strictly ascending order |
| Record.FirstIndex | dballe/core/dba_record.c:74-95 | the position of the first item with the code, with no earlier item carrying it; none exactly when no item has the code |
| Record.RemoveFirstRemoves | dballe/core/dba_record.c:127-147 | removal takes out exactly the first item with the code, and leaves the list alone when there is none |
| Record.SetFirstEffect | dballe/core/dba_record.c:524-546 | after a set the first item with the code holds the new value, and removing it leaves what removing from the old list leaves |
| Record.RemoveFirstLength | dballe/core/dba_record.c:127-147 | removal shortens the list by one exactly when the code is present |
| Record.RemoveItemAt | dballe/core/dba_record.c:149-169 | the intended `remove_dba_item`: the given item is unlinked, every other item keeps its order |
| Record.RemoveItemAtAsWrittenKeepsItem | dballe/core/dba_record.c:161-168 | as written, asking to unlink the second of two items unlinks nothing (Findings) |
| Record.RemoveItemAtAsWritten | dballe/core/dba_record.c:161-168 | `dba_record_remove_dba_item` as written unlinks the requested item exactly when it is the head, and an item outside the list unlinks nothing |
| Record.MinWithUndef | dballe/core/dba_record.c:879-886 | -1 means unset: an unset side yields the other; otherwise the smaller of the two |
| Record.MaxWithUndef | dballe/core/dba_record.c:888-895 | -1 means unset: an unset side yields the other; otherwise the larger of the two |
| Record.MaxDays | dballe/core/dba_record.c:897-904 | February has 29 days exactly in Gregorian leap years and 28 otherwise; other months have 30 or 31 by the usual rule |
| Record.FirstGap | dballe/core/dba_record.c:916-935 | the first field (1..5) set in a merged extreme while the coarser field is unset |
| Record.FirstGapFrom | dballe/core/dba_record.c:916-935 | the first gap at or after `i`, with no gap before it; none exactly when no gap remains |
| Record.ParseDateExtremes | dballe/core/dba_record.c:907-960 | a consistency error exactly when some coarser field is unset while a finer one is set; otherwise the arrays hold the merged extremes with the documented defaults; entries past the sixth are untouched |
| Record.MergeExtremes | dballe/core/dba_record.c:916-935 | the merging loop succeeds exactly when there is no gap, leaving the merged minima and maxima in the arrays |
| Record.FillMinimum | dballe/core/dba_record.c:941-948 | below a set year, unset minima become 1, 1, 0, 0, 0 |
| Record.FillMaximum | dballe/core/dba_record.c:950-957 | below a set year, unset maxima become 12, the month length, 23, 59, 59 |
| Record.DateBoundsComplete | dballe/core/dba_record.c:937-957 | on success with a set year every field of a bound is set, and no bound lies beyond the exact value |
| Record.NoYearNoBounds | dballe/core/dba_record.c:937-957 | on success with an unset year every field of that bound stays unset |
| Record.DbaRecord.constructor | dballe/core/dba_record.c:180-189 | a new record has every slot empty and no variables |
| Record.DbaRecord.FindItem | dballe/core/dba_record.c:83-95 | the walk finds the first item with the code |
| Record.DbaRecord.VarPeek | dballe/core/dba_record.c:396-405 | a variable exactly when some item has the code, and then the variable of the first item with that code |
| Record.DbaRecord.GetVar | dballe/core/dba_record.c:373-385 | not found exactly when no item has the code; otherwise the first item's variable |
| Record.DbaRecord.ContainsVar | dballe/core/dba_record.c:431-438 | found exactly when some item has the code |
| Record.DbaRecord.KeyPeek | dballe/core/dba_record.c:387-394 | nothing for a keyword out of range, else the slot |
| Record.DbaRecord.GetKey | dballe/core/dba_record.c:353-371 | not found exactly for a keyword out of range or an empty slot; otherwise the slot's variable |
| Record.DbaRecord.ContainsKey | dballe/core/dba_record.c:419-429 | not found exactly for a keyword out of range; otherwise whether the slot is set |
| Record.DbaRecord.ObtainItem | dballe/core/dba_record.c:97-119 | the existing first item for the code, with the list unchanged, or a new empty item prepended, growing the list by one |
| Record.DbaRecord.RollbackObtain | dballe/core/dba_record.c:120-125 | the head item is unlinked |
| Record.DbaRecord.RemoveItem | dballe/core/dba_record.c:127-147 | the first item with the code is unlinked; nothing else changes |
| Record.DbaRecord.ClearVars | dballe/core/dba_record.c:198-207 | the list becomes empty and the slots are untouched |
| Record.DbaRecord.Clear | dballe/core/dba_record.c:209-220 | every slot is empty and the list is empty |
| Record.DbaRecord.CopyFrom | dballe/core/dba_record.c:222-263 | the slots and the list become those of the source, in the same order; a self-copy changes nothing |
| Record.DbaRecord.AddFrom | dballe/core/dba_record.c:265-299 | each set slot of the source overwrites the slot here, other slots are kept, and the source's variables are appended after the existing ones |
| Record.DbaRecord.KeySet | dballe/core/dba_record.c:500-515 | a keyword out of range is not found and changes nothing; otherwise the old variable is dropped and the converted one stored, the slot staying empty when conversion fails |
| Record.DbaRecord.KeySetValue | dballe/core/dba_record.c:598-609 | a keyword out of range is not found; otherwise the slot holds the value, keeping its variable's code or taking the keyword's, and no other slot changes |
| Record.DbaRecord.KeyUnset | dballe/core/dba_record.c:720-734 | a keyword out of range is not found; otherwise only that slot becomes empty (so a second unset changes nothing) |
| Record.DbaRecord.VarSet | dballe/core/dba_record.c:517-552 | an undefined value removes the first item with the code; a defined one (converted when its code differs) becomes the first such item's value; a failed conversion unlinks that item |
| Record.DbaRecord.VarSetDirect | dballe/core/dba_record.c:554-578 | `var_set` keyed by the variable's own code |
| Record.DbaRecord.VarSetValue | dballe/core/dba_record.c:611-637 | success stores the value in the first item with the code (or a new head item); failure leaves the list as it was |
| Record.DbaRecord.VarUnset | dballe/core/dba_record.c:736-743 | the first item with the code is removed; an absent code changes nothing |
| Record.FirstIsUnique | dballe/core/dba_record.c:74-81 | an index with the code and no earlier match is the first index |
| Record.VarSetValueFailedDropsHead | dballe/core/dba_record.c:633-636 | as written, a failed `var_seti` on the second item unlinks the unrelated head item (Findings) |
| Record.VarSetValueFailedAsWritten | dballe/core/dba_record.c:633-636 | as written, a failed `var_seti` leaves the list as it was only when it created the item; when the code was already there it drops the head, whatever it holds |
| Csv.DecimalDigits | dballe/core/csv.cc:261-281 | the decimal text `FormatDecimal` produces is non-empty, all digits, and a single digit exactly for values below 10 |
| Csv.DigitsValueOfDecimal | dballe/core/csv.cc:261-281 | the decimal text of `n` has numeric value `n`, so no digit is lost or reordered |
| Csv.DigitsTable | dballe/core/csv.cc:245-250 | entry pair `p` of the `DIGITS` table holds the tens and units digits of `p` |
| Csv.ULongDigits | dballe/core/csv.cc:254-256 | an unsigned 64-bit value has at most 20 digits, so the 22-cell buffer (`digits10 + 3`) holds it with sign and NUL |
| Csv.TwoMoreDigits | dballe/core/csv.cc:264-272 | the text of `100*q + r` is that of `q` followed by the two digits of `r`, which is what one loop round writes |
| Csv.FormatInt.Size | dballe/core/csv.cc:296 | `size()` is the length of the text from `str_` up to the NUL |
| Csv.FormatInt.FormatDecimal | dballe/core/csv.cc:261-281 | writing backwards from the buffer end leaves the NUL in the last cell and exactly the decimal digits of the value before it |
| Csv.FormatInt.PutHead | dballe/core/csv.cc:273-280 | the last one or two digits are written just before what the loop wrote, extending the text at its front |
| Csv.FormatInt.PutPair | dballe/core/csv.cc:268-271 | one loop round prepends the two table digits to the text already written |
| Csv.FormatInt.FromInt | dballe/core/csv.cc:284-292 | `FormatInt(int)` holds the magnitude's digits, preceded by '-' exactly for a negative value |
| Csv.FormatInt.FromUnsigned | dballe/core/csv.cc:293-294 | `FormatInt(unsigned)` and `FormatInt(uint64_t)` hold the value's decimal digits |
| Csv.DoubledAppend | dballe/core/csv.cc:229-234 | doubling quotes distributes over concatenation |
| Csv.OutputQuotedString | dballe/core/csv.cc:224-238 | `csv_output_quoted_string` appends the text verbatim when it has no '"' or ',', otherwise the quoted text with every '"' doubled |
| Csv.Quoted | dballe/core/csv.cc:224-238 | the text comes out unchanged exactly when it holds no '"' or ','; otherwise it is wrapped in '"' and at least two characters longer |
| Csv.AlwaysQuoted | dballe/core/csv.cc:404-417 | `add_value(string)` writes nothing exactly for the empty string, and otherwise the text wrapped in '"', at least two characters longer |
| Csv.OutputDoubled | dballe/core/csv.cc:229-234 | the character loop writes the text with every '"' doubled |
| Csv.DequoteAccSuffix | dballe/core/csv.cc:69-84 | the unescape loop from any position appends the dequoted rest to what it already built |
| Csv.DequoteDoubled | dballe/core/csv.cc:69-84 | dequoting doubled text gives back the text and continues with what follows |
| Csv.UnescapeQuoted | dballe/core/csv.cc:64-85 | for every string, `unescape` undoes `csv_output_quoted_string` |
| Csv.CsvReader.Unescape | dballe/core/csv.cc:64-85 | `unescape` returns empty, unquoted or one-character input unchanged, else drops the opening quote, turns each `""` into `"` and drops each unpaired `"` |
| Csv.RunAppend | dballe/core/csv.cc:127-192 | the tokenizer run over two pieces of a line is the run over the second from where the first left off |
| Csv.Step | dballe/core/csv.cc:127-197 | one character of the corrected tokenizer returns to the start state exactly on a newline or on a comma outside an open quoted field, and pushes one field exactly when it returns to the start; a '"' after a closing quote reopens the quoted field |
| Csv.StepAsWritten | dballe/core/csv.cc:127-197 | the tokenizer as written returns to the start state and pushes a field on the same characters, but a '"' after a closing quote keeps the field closed (`EQCOL`) |
| Csv.Tokenize | dballe/core/csv.cc:118-197 | the corrected reading of a line; a line with no '"', ',' or newline is one field, or no field when empty |
| Csv.TokenizeAsWritten | dballe/core/csv.cc:118-197 | the reading as written agrees with `Tokenize` on every line without a '"' |
| Csv.RunPlain | dballe/core/csv.cc:131-160 | text without quote, comma or newline read in an unquoted field extends that field and pushes nothing |
| Csv.RunAsWrittenWithoutQuotes | dballe/core/csv.cc:127-197 | without a '"' the tokenizer as written and the corrected one reach the same state |
| Csv.RunDoubled | dballe/core/csv.cc:161-190 | inside an open quoted field, doubled text is read back as the text itself |
| Csv.ReadField | dballe/core/csv.cc:131-190 | a field as `add_value(string)` writes it, read from the start of a field, leaves the field text closed; an empty field leaves nothing |
| Csv.ReadFieldAndComma | dballe/core/csv.cc:131-190 | a written field followed by ',' pushes exactly that field |
| Csv.ReadLastField | dballe/core/csv.cc:131-190 | the last written field of a row, read from the start of a field, ends the row with exactly that field appended |
| Csv.ReadFirstField | dballe/core/csv.cc:131-190 | the first written field of a row of several, with its ',', is pushed and leaves the reader at the start of the rest of the row |
| Csv.ReadRow | dballe/core/csv.cc:118-197 | a row of written fields, read and finished, appends exactly those fields |
| Csv.WritableTail | dballe/core/csv.cc:404-417 | dropping the first field of a writable row keeps it writable |
| Csv.TokenizeRow | dballe/core/csv.cc:118-197 | tokenizing a row of written fields gives back the fields, given no newline in them and a non-empty last field |
| Csv.TokenizeAsWrittenSplitsField | dballe/core/csv.cc:177-190 | the tokenizer as written splits the written field `a",b` into `a"` and `b"`, where the corrected one reads it back |
| Csv.AsWrittenReadsQuoteComma | dballe/core/csv.cc:118-197 | the as-written tokenizer reads the line `"a"",b"` as the two fields `a"` and `b"` |
| Csv.AsWrittenQuotedHead | dballe/core/csv.cc:131-190 | the first four characters `"a""` leave the field `a"` closed in the EQCOL state |
| Csv.RunAsWrittenAppend | dballe/core/csv.cc:127-192 | the as-written run over two pieces of a line is the run over the second from where the first left off |
| Csv.AsWrittenCommaTail | dballe/core/csv.cc:177-190 | from EQCOL a ',' ends the field and `b"` starts a second one |
| Csv.CsvReader.Next | dballe/core/csv.cc:118-197 | `next()` clears the fields, returns false at end of input, and otherwise leaves the line as the corrected `Tokenize` (built on `Step`, not `TokenizeAsWritten`) reads it |
| Csv.DigitPrefixOfDigits | dballe/core/csv.cc:91 | `strtoul` reads an all-digit text in full |
| Csv.Strtoul | dballe/core/csv.cc:91 | the value `strtoul` returns is within the 64-bit unsigned range |
| Csv.StrtoulIntText | dballe/core/csv.cc:87-98 | the text `add_value(int)` writes, read back through `strtoul` and the conversion to `int`, is the same `int` |
| Csv.StrtoulOfIntText | dballe/core/csv.cc:91 | `strtoul` reads a negative `int` text as its value modulo 2^64 |
| Csv.StrtoulOfDigits | dballe/core/csv.cc:91 | `strtoul` reads digits as their value, and a leading '-' negates modulo 2^64 |
| Csv.WrapCongruent | dballe/core/csv.cc:91 | the conversion of `strtoul`'s result to `int` brings a value 2^64 above a 32-bit int back to it |
| Csv.CsvReader.AsInt | dballe/core/csv.cc:87-92 | `as_int` fails with a consistency error exactly on an empty column and otherwise returns a 32-bit int |
| Csv.CsvReader.AsIntWithMissing | dballe/core/csv.cc:94-98 | `as_int_withmissing` returns `MISSING_INT` on an empty column and a 32-bit int always |
| Csv.AsIntReadsIntText | dballe/core/csv.cc:87-98 | a column holding what `add_value(int)` wrote reads back as that value, with and without the missing-value rule |
| Csv.PadWithZeros | dballe/core/csv.cc:367-370 | the zeros written before Y's digits pad it to three characters |
| Csv.YDigitsShort | dballe/core/csv.cc:367-368 | Y has at most three digits, so the padding count `3 - size()` never wraps |
| Csv.XDigits | dballe/core/csv.cc:363-365 | the two table characters for X are digits worth X |
| Csv.YDigits | dballe/core/csv.cc:367-370 | padded Y is three digits worth Y |
| Csv.VarcodeFields | dballe/core/csv.cc:355-367 | a 16-bit Varcode is exactly its F, X and Y parts packed together |
| Csv.VarcodeTextRoundTrip | dballe/core/csv.cc:350-371 | Varcode text is six characters and an independent parser reads it back as the same Varcode |
| Csv.ZerosValue | dballe/core/csv.cc:368-369 | leading zeros do not change the value of a digit string |
| Csv.ZerosValueZero | dballe/core/csv.cc:368-369 | a run of zeros is worth 0 |
| Csv.AppendPadded | dballe/core/csv.cc:367-370 | Y is appended as its digits preceded by zeros up to three characters |
| Csv.CsvWriter.constructor | dballe/core/csv.cc:303-305 | a new writer starts with an empty row |
| Csv.CsvWriter.AddValueRaw | dballe/core/csv.cc:307-319 | `add_value_raw` appends ',' only when the row is not empty, then the text |
| Csv.CsvWriter.AddValueInt | dballe/core/csv.cc:333-337 | `add_value(int)` appends the separator and the signed decimal text |
| Csv.CsvWriter.AddValueUnsigned | dballe/core/csv.cc:321-331 | `add_value(unsigned)` and `add_value(size_t)` append the separator and the decimal text |
| Csv.CsvWriter.AddValueWithMissing | dballe/core/csv.cc:339-348 | `MISSING_INT` appends only the separator; any other value its decimal text |
| Csv.CsvWriter.AddVarcode | dballe/core/csv.cc:350-371 | `add_value(Varcode)` appends the separator and the six-character Varcode text |
| Csv.CsvWriter.VarcodeHead | dballe/core/csv.cc:355-365 | the letter B/R/C/D for F, then X as two digits from the table |
| Csv.CsvWriter.AddValueString | dballe/core/csv.cc:389-417 | `add_value(string)` appends the separator, then nothing for "" and otherwise the quoted text with doubled '"' |
| Csv.CsvWriter.AppendQuoted | dballe/core/csv.cc:404-417 | the text part of `add_value(string)`: nothing for "", else '"', the doubled text and '"' |
| Csv.CsvWriter.AddVarValue | dballe/core/csv.cc:373-387 | an undefined value appends only the separator; a string value is quoted; any other value is written as it is |
| Csv.WrittenRowDropsLeadingEmpty | dballe/core/csv.cc:404-408 | the writer as written drops the ',' after an empty first field, so the row `"", "x"` reads back as one field |
| Csv.RowSnoc | dballe/core/csv.cc:389-417 | the intended row grows at its end by a ',' and the next quoted field, as each `add_value(string)` call after the first appends them |
| Csv.WrittenRowIsRow | dballe/core/csv.cc:389-417 | a run of `add_value(string)` calls as written builds exactly the intended row whenever the first field is not empty; the empty first field is the only case that differs |
| Csv.WrittenRowReadsBack | dballe/core/csv.cc:389-417 | what the writer as written builds from fields with no newline, a non-empty first field and a non-empty last field tokenizes back to those fields |
| Csv.WrittenEmptyThenX | dballe/core/csv.cc:404-408 | the row written for `"", "x"` is the row of the single field `x` |
| LevTrCache.LevTrRoundTrip | dballe/db/v6/internals.cc:115-123 | `lev()` and `tr()` together lose nothing: the item is recovered from them, and any level and time range from the item they build |
| LevTrCache.ItemOfRowComponents | dballe/db/v6/internals.cc:72-75 | the item built from a row carries that row's seven level and time range components |
| LevTrCache.SetOrUnset | dballe/db/v6/internals.cc:79-82 | one keyword is unset for a missing value and set to the value otherwise; every other keyword is untouched |
| LevTrCache.SetKeysEffect | dballe/db/v6/internals.cc:77-113 | each keyword written holds its component, or is unset when that is missing, and any other keyword is kept |
| LevTrCache.ToRecord | dballe/db/v6/internals.cc:77-113 | `to_record` sets each of the seven level and time range keywords to its component or unsets it when missing, and keeps every other keyword |
| LevTrCache.ToRecordReadsBack | dballe/db/v6/internals.cc:77-113 | whatever the record held before, the item written by `to_record` reads back unchanged |
| LevTrCache.FindRow | dballe/db/v6/internals.cc:147-148 | the row `read` returns is the first one with that id, or none exactly when no row carries it |
| LevTrCache.LevTrTable.constructor | dballe/db/v6/internals.cc:129-130 | the table holds its rows, and no single-row read has been made yet |
| LevTrCache.LevTrTable.Read | dballe/db/v6/internals.cc:147 | one single-row read returns the row for the id and leaves the rows unchanged |
| LevTrCache.PrefetchContents | dballe/db/v6/internals.cc:134-136 | `cache.insert` during `read_all` keeps an id already cached and adds, for every other id, the item of the first row carrying it, and nothing else |
| LevTrCache.PrefetchIsLookup | dballe/db/v6/internals.cc:129-137 | a prefetched cache holds exactly the table's ids, each with the item `read` would return |
| LevTrCache.Insert | dballe/db/v6/internals.cc:134-136 | `cache.insert` adds the row's id, keeps every cached item, and stores the row's item only for an id not cached yet |
| LevTrCache.Prefetch | dballe/db/v6/internals.cc:129-137 | `read_all` keeps every cached item and ends with every row's id in the cache |
| LevTrCache.StaleAfterChange | dballe/db/v6/internals.cc:185-188 | after the table's row for a prefetched id changes, the cached item differs from what `read` gives: the state `invalidate` exists for |
| LevTrCache.MapLevTrCache.constructor | dballe/db/v6/internals.cc:129-137 | the constructor prefetches every row, and the cache is consistent with the table |
| LevTrCache.MapLevTrCache.Get | dballe/db/v6/internals.cc:139-153 | the answer is the table's item for the id; a hit reads nothing and changes nothing; a miss reads once and memoises a row it finds; the cache stays consistent |
| LevTrCache.MapLevTrCache.ToRec | dballe/db/v6/internals.cc:155-161 | `to_rec` returns false for an unknown id and leaves the record; otherwise it writes the row's item into it |
| LevTrCache.MapLevTrCache.ToLevel | dballe/db/v6/internals.cc:163-168 | `to_level` gives the row's level, or the all-missing `Level()` for an unknown id |
| LevTrCache.MapLevTrCache.ToTrange | dballe/db/v6/internals.cc:170-175 | `to_trange` gives the row's time range, or the all-missing `Trange()` for an unknown id |
| LevTrCache.MapLevTrCache.Invalidate | dballe/db/v6/internals.cc:185-188 | `invalidate`, in any state and in particular with a cache gone stale after the table changed, empties the cache, which is then consistent with the table again |
| AttrV6.DefinedMembership | dballe/db/sql/attrv6.cc:38-40 | an entry is in the attribute list exactly when some variable with a value carries its code and value |
| AttrV6.DefinedEmpty | dballe/db/sql/attrv6.cc:41 | the list is empty exactly when no variable has a value |
| AttrV6.DefinedAppend | dballe/db/sql/attrv6.cc:38-40 | collecting a concatenation collects each part in turn, so the list keeps the variables' order |
| AttrV6.DefinedLength | dballe/db/sql/attrv6.cc:38-40 | the list never holds more entries than there are variables |
| AttrV6.Collect | dballe/db/sql/attrv6.cc:37-40 | the loop builds the list of the defined variables' codes and values, in order |
| AttrV6.AttrV6Table.constructor | dballe/db/sql/attrv6.cc:33-58 | the initial empty call log: an `AttrV6` starts with no `impl_add` call made, before any of its `add` methods runs (the file declares no constructor; line 33 is the empty destructor) |
| AttrV6.AttrV6Table.AddList | dballe/db/sql/attrv6.cc:41-42 | no `impl_add` call for an empty list; otherwise exactly one, with the data id and the whole list |
| AttrV6.AttrV6Table.AddRecord | dballe/db/sql/attrv6.cc:35-43 | `add(int, const Record&)` calls `impl_add` once with the record's defined variables, or not at all when there are none |
| AttrV6.AttrV6Table.AddVar | dballe/db/sql/attrv6.cc:45-53 | `add(int, const Var&)` calls `impl_add` once with the defined attributes of the chain, or not at all when there are none |
| AttrV5.CStrLen | dballe/db/odbc/attrv5.cc:123 | `strlen` counts the characters before the first NUL, or the whole text when it has none |
| AttrV5.Truncated | dballe/db/odbc/attrv5.cc:123-126 | the stored value is a NUL-free prefix of the C string, at most 255 characters, and the whole C string when shorter |
| AttrV5.TruncatedProperties | dballe/db/odbc/attrv5.cc:123-126 | a short C string is stored whole, and storing a stored value again changes nothing |
| AttrV5.AttrTable.constructor | dballe/db/odbc/attrv5.cc:39-43 | the table starts with the given rows |
| AttrV5.AttrTable.Replace | dballe/db/odbc/attrv5.cc:44-56 | the MySQL, SQLite and Oracle replace statements insert the row or overwrite its value |
| AttrV5.AttrTable.Update | dballe/db/odbc/attrv5.cc:57-58 | PostgreSQL's UPDATE reports no data exactly when no row has the key, and otherwise overwrites that row's value |
| AttrV5.AttrTable.Insert | dballe/db/odbc/attrv5.cc:41-43 | the INSERT fails on a key already present, leaving the table, and otherwise adds the row |
| AttrV5.Attached | dballe/db/odbc/attrv5.cc:149-150 | the attributes the fetch loop makes have exactly the selected types, each a defined string of at most 255 characters without NUL, and an empty string for a NULL column |
| AttrV5.AttachedStep | dballe/db/odbc/attrv5.cc:149-150 | one more fetched row adds its own attribute, built from the buffer text, to those already attached |
| AttrV5.ODBCAttrV5.FetchRow | dballe/db/odbc/attrv5.cc:149-150 | one `fetch` writes the row's type and its text, cut at 255 characters, into the bound buffers, and `ap_newvar(type, value)` builds the attribute from that buffer |
| AttrV5.ODBCAttrV5.FetchSelected | dballe/db/odbc/attrv5.cc:149-150 | the fetch loop sets on the variable one attribute per selected row, built from the bound buffer (`Attached`), overriding any it had with the same code; the bound `type` and `value` buffers are left unchanged when nothing is selected and otherwise hold the type and the text of a selected row |
| AttrV5.ODBCAttrV5.constructor | dballe/db/odbc/attrv5.cc:36-95 | the statements are bound to the new parameter buffer, which holds no value yet |
| AttrV5.ODBCAttrV5.SetContext | dballe/db/odbc/attrv5.cc:104-108 | `set_context` sets the first two key columns and nothing else |
| AttrV5.ODBCAttrV5.SetValue | dballe/db/odbc/attrv5.cc:116-129 | NULL stores an empty string with the NULL indicator; a string is copied up to its NUL or 255 characters, NUL-terminated, with the copied length as indicator |
| AttrV5.ODBCAttrV5.CopyValue | dballe/db/odbc/attrv5.cc:123-127 | the string branch of `set_value` copies the C string cut at 255 characters, NUL-terminates it and answers its length, so the buffer reads back as `Truncated` |
| AttrV5.ODBCAttrV5.Set | dballe/db/odbc/attrv5.cc:110-114 | `set` makes the attribute's code the `type` column and its value the bound value |
| AttrV5.ODBCAttrV5.Insert | dballe/db/odbc/attrv5.cc:131-139 | on every server the row with the bound key ends up holding the bound value and no other row changes; PostgreSQL's INSERT runs only after an UPDATE found no row |
| AttrV5.ODBCAttrV5.Load | dballe/db/odbc/attrv5.cc:141-153 | `load` sets the context and the variable code, then attaches to the variable one attribute per row stored for them, holding the row's text as the 256-character buffer reads it (`Attached`). The table and the value indicator are unchanged. The `type` and `value` buffers are unchanged when nothing is stored, and otherwise hold the type and the text of a stored row |
| OdbcDriver.InsertSorted | dballe/db/odbc/driver.cc:98 | inserting one value into a sorted batch keeps it sorted and adds exactly that value |
| OdbcDriver.SortVars | dballe/db/odbc/driver.cc:98 | `std::sort` leaves the batch ordered by level/time range id, then variable code, and a permutation of what it was |
| OdbcDriver.Select | dballe/db/odbc/driver.cc:100-108 | the SELECT returns only stored rows of the batch's station, report and datetime |
| OdbcDriver.FindStored | dballe/db/odbc/driver.cc:124-128 | the stored row of a level/time range and variable is found exactly when the selection has one, and it carries that key |
| OdbcDriver.Annotate | dballe/db/odbc/driver.cc:124-128 | classifying keeps one entry per value of the batch |
| OdbcDriver.UpdatedItems | dballe/db/odbc/driver.cc:135-142 | the update pass keeps one entry per value |
| OdbcDriver.SetValueById | dballe/db/odbc/driver.cc:134 | `UPDATE data SET value=? WHERE id=?` keeps the number of rows |
| OdbcDriver.UpdateRows | dballe/db/odbc/driver.cc:132-143 | the update pass keeps the number of rows |
| OdbcDriver.UpdateRowsKeepsOthers | dballe/db/odbc/driver.cc:132-143 | the update pass changes only values, and leaves every row no value of the batch targets |
| OdbcDriver.UpdateRowsStores | dballe/db/odbc/driver.cc:135-142 | a targeted row ends up holding the value of the last value of the batch that targets it |
| OdbcDriver.CountInserts | dballe/db/odbc/driver.cc:157-166 | no more inserts than values |
| OdbcDriver.InsertedItems | dballe/db/odbc/driver.cc:157-166 | the insert pass keeps one entry per value |
| OdbcDriver.NewRows | dballe/db/odbc/driver.cc:157-166 | the insert pass appends one row per value that needs an insert |
| OdbcDriver.InsertStep | dballe/db/odbc/driver.cc:157-166 | each value needing an insert adds one row with the next id and is marked inserted with it; every other value adds nothing |
| OdbcDriver.InsertAdvance | dballe/db/odbc/driver.cc:157-166 | one more value of the insert pass takes the batch, the `data` rows and the counter from their state after the first `i` values to their state after `i + 1` |
| OdbcDriver.Driver.InsertOne | dballe/db/odbc/driver.cc:160-165 | a value needing an insert gets one new row with the current counter as id, takes that id and is marked inserted; any other value leaves rows and counter alone |
| OdbcDriver.NewRowsIds | dballe/db/odbc/driver.cc:163-164 | the rows inserted take consecutive ids from the counter's value on |
| OdbcDriver.V6Database.constructor | dballe/db/odbc/driver.cc:96-168 | an empty database, whose ids all come from the counter |
| OdbcDriver.V6Database.UpdateValue | dballe/db/odbc/driver.cc:134-140 | the UPDATE sets the value of the row with that id |
| OdbcDriver.V6Database.InsertRow | dballe/db/odbc/driver.cc:149-164 | the INSERT appends one row with the batch's context and the next auto-increment id, which `get_last_insert_id` returns |
| OdbcDriver.InsertV6.constructor | dballe/db/odbc/driver.cc:96 | a batch holds its context and values |
| OdbcDriver.UpdatedKeepsInserts | dballe/db/odbc/driver.cc:132-166 | the update pass only flips statuses of values needing an update, so the insert pass adds the same rows afterwards |
| OdbcDriver.UpdatedInsertStatus | dballe/db/odbc/driver.cc:132-145 | the update pass neither adds nor removes a pending insert, so `do_insert` means the same after it |
| OdbcDriver.NoUpdatesNoChange | dballe/db/odbc/driver.cc:132 | without a value needing an update the update pass changes nothing, so the `do_update` test is only a shortcut |
| OdbcDriver.NoInsertsNoChange | dballe/db/odbc/driver.cc:145 | without a value needing an insert the insert pass changes nothing, so the `do_insert` test is only a shortcut |
| OdbcDriver.InsertedItemsAt | dballe/db/odbc/driver.cc:157-166 | the i-th value after the insert pass is marked with the id after those of the earlier inserts |
| OdbcDriver.ProcessedOutcome | dballe/db/odbc/driver.cc:124-166 | after `bulk_insert_v6` a value keeps its key and value, has no insert pending, is left needing an update only without `update_existing`, is inserted exactly when no row was stored for its key, and is untouched exactly when the stored value equals it |
| OdbcDriver.BulkItemsOutcome | dballe/db/odbc/driver.cc:96-168 | every value `bulk_insert_v6` leaves in the batch is the sorted batch's value at that place, processed as above |
| OdbcDriver.ProcessedAt | dballe/db/odbc/driver.cc:124-166 | each value of a classified batch after both passes is that value processed, with the id an insert gives it |
| OdbcDriver.BulkRowsValid | dballe/db/odbc/driver.cc:132-166 | every id left in the table after both passes was handed out by the counter |
| OdbcDriver.Driver.constructor | dballe/db/odbc/driver.cc:96 | a driver holds its server type and database |
| OdbcDriver.Driver.UpdatePass | dballe/db/odbc/driver.cc:134-142 | each value needing an update has its row's value replaced and is marked updated |
| OdbcDriver.Driver.InsertPass | dballe/db/odbc/driver.cc:147-166 | each value needing an insert gets a new row and its id and is marked inserted; the counter advances by the number of inserts |
| OdbcDriver.Driver.RunPasses | dballe/db/odbc/driver.cc:132-167 | the update pass runs when `update_existing` is set and some value needs it, then the insert pass when some value needs it; the result is as if both ran unconditionally |
| OdbcDriver.Driver.FirstPass | dballe/db/odbc/driver.cc:132-143 | the update pass runs only when `update_existing` is set |
| OdbcDriver.Driver.BulkInsertV6 | dballe/db/odbc/driver.cc:96-168 | `bulk_insert_v6` leaves the batch sorted, classified and processed, the table updated and extended accordingly, and every id handed out by the counter |
| OdbcDriver.Driver.RunDeleteQueryV6 | dballe/db/odbc/driver.cc:249-274 | every data row the query selects is deleted with all its attribute rows; every other row is kept, in order |
| OdbcDriver.Driver.CreateTablesV5 | dballe/db/odbc/driver.cc:276-414 | only MySQL and Oracle succeed, recording version V5; any other server raises an unimplemented error and changes no setting |
| OdbcDriver.Driver.CreateTablesV6 | dballe/db/odbc/driver.cc:415-545 | only MySQL and Oracle succeed, recording version V6; any other server raises an unimplemented error and changes no setting |
| OdbcDriver.KeepData | dballe/db/odbc/driver.cc:259-271 | the rows kept are exactly the data rows whose id was not selected |
| OdbcDriver.KeepAttrs | dballe/db/odbc/driver.cc:263-272 | the rows kept are exactly the attribute rows whose datum was not selected |
| OdbcDriver.KeepNothing | dballe/db/odbc/driver.cc:269-273 | a query selecting nothing deletes nothing |
| OdbcDriver.KeepDataTwice | dballe/db/odbc/driver.cc:269-273 | deleting one more data id after a set of them deletes their union |
| OdbcDriver.KeepAttrsTwice | dballe/db/odbc/driver.cc:269-273 | deleting the attributes of one more datum after a set of them deletes those of their union |
| MsgCursor.Step | dballe/msg/cursor.h:85-100 | after `next()` the cursor is past its start, answers true exactly when it stands on an item, and never moves beyond the end |
| MsgCursor.IterateVisitsAll | dballe/msg/cursor.h:85-100 | from the start, call `k` of `next()` answers true exactly for `k` up to the number of items and then stands on item `k - 1`; later calls stay at the end |
| MsgCursor.NextRemaining | dballe/msg/cursor.h:78-100 | on an item, `remaining()` counts it and the ones after it, and each `next()` lowers it by one |
| MsgCursor.NextAsWrittenStopsEarly | dballe/msg/cursor.h:93-98 | as written, over two items the second `next()` answers false although item 1 is there, and over none the first answers true |
| MsgCursor.NextAsWritten | dballe/msg/cursor.h:93-98 | `next()` as written moves like the corrected `Step`, answers the opposite of it whenever it steps from an item, and answers true on its first call even with no items |
| MsgCursor.CursorStation.constructor | dballe/msg/cursor.h:18-24 | the cursor holds the message's station and starts with one item remaining |
| MsgCursor.CursorStation.Remaining | dballe/msg/cursor.h:26-31 | `remaining()` is 1 before the first `next()` and 0 after |
| MsgCursor.CursorStation.Next | dballe/msg/cursor.h:33-42 | `next()` answers true the first time only, and afterwards nothing remains |
| MsgCursor.CursorStation.Discard | dballe/msg/cursor.h:44-47 | `discard()` leaves nothing remaining |
| MsgCursor.CursorStation.GetValues | dballe/msg/cursor.h:56-59 | `get_values` answers the values of the station context, which must exist |
| MsgCursor.CursorStationData.constructor | dballe/msg/cursor.h:70-76 | the cursor holds the station and the station context's values, at its start with all of them remaining |
| MsgCursor.CursorStationData.Next | dballe/msg/cursor.h:85-100 | `next()` moves as `Step` says, answering whether it stands on a value |
| MsgCursor.CursorStationData.Discard | dballe/msg/cursor.h:102-106 | `discard()` moves to the end, leaving nothing remaining |
| MsgCursor.CursorStationData.GetVar | dballe/msg/cursor.h:115-116 | `get_var` on a positioned cursor answers one of the station context's values, with at least that one remaining |
| MsgCursor.ValueRowsMembership | dballe/msg/cursor.h:148-157 | a row built from a context's values comes from one of them, with the context's level and time range, and from a station context only with X outside 4..6 |
| MsgCursor.RowsOfMembership | dballe/msg/cursor.h:146-158 | a row is shown exactly when its value belongs to a data context, or, when merged, to a station context with X outside 4..6 |
| MsgCursor.ContextRowsMembership | dballe/msg/cursor.h:146-158 | a row comes from one context exactly when it has the context's level and time range, holds one of its values and, for a station context, the cursor merges and the variable has X outside 4..6 |
| MsgCursor.AppendContextRows | dballe/msg/cursor.h:146-158 | the rows built so far followed by the rows of one more context, in the order of its values |
| MsgCursor.CursorData.constructor | dballe/msg/cursor.h:139-159 | the rows are those `RowsOf` builds from the contexts, in order, and the cursor starts before them with all remaining |
| MsgCursor.CursorData.Next | dballe/msg/cursor.h:168-183 | `next()` moves as `Step` says over the rows, which it leaves unchanged |
| MsgCursor.CursorData.Discard | dballe/msg/cursor.h:185-189 | `discard()` moves to the end, leaving nothing remaining |
| MsgCursor.CursorData.GetVar | dballe/msg/cursor.h:198-199 | `get_var` answers a value of one of the message's data contexts, or, when merged, a station value with X outside 4..6 |
| MsgCursor.CursorData.GetLevel | dballe/msg/cursor.h:200 | `get_level` answers the level of a context that holds the current value |
| MsgCursor.CursorData.GetTrange | dballe/msg/cursor.h:201 | `get_trange` answers the time range of a context that holds the current value |
| DbApi.Transaction.constructor | dballe/simple/dbapi.cc:237-241 | a new session's transaction has received no call |
| DbApi.Transaction.Perform | dballe/simple/dbapi.cc:295 | each call the session makes is appended to the transaction's log and nothing else changes |
| DbApi.FirstMatch | dballe/simple/dbapi.cc:210-216 | the lookup answers the first inserted value with the code, and none exactly when no value has it |
| DbApi.CriticaTargetCases | dballe/simple/dbapi.cc:198-219 | `critica` after `prendilo` acts on the only inserted value; with several it needs `*var_related` and acts on the first value with that code whose id is not missing, and otherwise fails |
| DbApi.CriticaTarget | dballe/simple/dbapi.cc:198-219 | the value `critica` acts on after `prendilo` is one of the inserted values; with several it has the `*var_related` code and an id that is not missing |
| DbApi.FindRelated | dballe/simple/dbapi.cc:200-219 | the lookup loop answers what `CriticaTarget` specifies, errors included |
| DbApi.CollectVarids | dballe/simple/dbapi.cc:178-192 | `prendilo` remembers, in order, one id per inserted value, with its code and context |
| DbApi.Wanted | dballe/simple/dbapi.cc:387-403 | the attributes passed on are a subset of those delivered |
| DbApi.QcRecordMembership | dballe/simple/dbapi.cc:385-405 | a code ends up in the QC output exactly when a delivered attribute has it and it is listed, or the list is empty |
| DbApi.HasCodeSnoc | dballe/simple/dbapi.cc:389-402 | an attribute with a code is among the earlier ones or is the last one |
| DbApi.CollectQc | dballe/simple/dbapi.cc:385-410 | the callback leaves in the QC output the wanted attributes, later ones replacing earlier ones with the same code, and counts each wanted attribute once |
| DbApi.WantedStep | dballe/simple/dbapi.cc:394-401 | one more delivered attribute is passed on exactly when it is wanted |
| DbApi.QcRecordSnoc | dballe/simple/dbapi.cc:398 | `qcoutput.set` of one more attribute overwrites its code in the output record |
| DbApi.InputNextAsWrittenEmpty | dballe/simple/dbapi.cc:46-67 | as written, after a binary message the importer makes no message of, `next` answers true with no message to return |
| DbApi.InputNextAsWritten | dballe/simple/dbapi.cc:46-67 | `next` as written agrees with the corrected `InputNext` when every binary message decodes to some message, and answers true off a message only after one that decodes to none |
| DbApi.InputNext | dballe/simple/dbapi.cc:46-67 | the intended `next` answers true only on a message, and keeps the file's name, format, options and flags |
| DbApi.InputNextDelivers | dballe/simple/dbapi.cc:46-72 | an input file delivers exactly the messages it has left, in order, and answers false only when none is left |
| DbApi.NextInBatch | dballe/simple/dbapi.cc:48-50 | moving on within the current binary message delivers its next message |
| DbApi.NextBatch | dballe/simple/dbapi.cc:52-63 | moving on to the next binary message, when it has messages, delivers its first one |
| DbApi.ImportFlagsForPerms | dballe/simple/dbapi.cc:461-465 | station data is always imported in full; attributes exactly with attribute write, overwriting exactly with data write |
| DbApi.ImportFlagsFor | dballe/simple/dbapi.cc:461-465 | the import flags always ask for full station data and hold nothing beyond attributes and overwriting |
| DbApi.EachWritten | dballe/simple/dbapi.cc:506-511 | each exported message is written as a binary message of its own, with the template asked for, in order |
| DbApi.DbAPI.constructor | dballe/simple/dbapi.cc:237-241 | a new session holds its transaction and permissions, with no operation, cursor or file and empty records |
| DbApi.DbAPI.Shutdown | dballe/simple/dbapi.cc:248-265 | `shutdown` closes both files and drops the station cursor, and commits only when asked |
| DbApi.DbAPI.Fatto | dballe/simple/dbapi.cc:267-270 | `fatto` shuts down and commits |
| DbApi.DbAPI.RemoveAllData | dballe/simple/dbapi.cc:290-298 | without data write permission `remove_all` fails, changing nothing; otherwise it empties the database and drops the operation |
| DbApi.DbAPI.Scopa | dballe/simple/dbapi.cc:280-288 | `scopa` behaves as `remove_all`, ignoring the repinfo file name |
| DbApi.DbAPI.Quantesono | dballe/simple/dbapi.cc:300-314 | `quantesono` replaces the station cursor with a new station query, drops the operation and answers the number of stations |
| DbApi.DbAPI.Elencamele | dballe/simple/dbapi.cc:316-329 | without a station cursor `elencamele` fails; otherwise it puts the next station in the output record, or clears it and drops the cursor at the end |
| DbApi.DbAPI.Voglioquesto | dballe/simple/dbapi.cc:331-337 | `voglioquesto` replaces the operation with a new data or station-data query and answers its number of rows |
| DbApi.DbAPI.Dammelo | dballe/simple/dbapi.cc:117-133 | `dammelo` fails without an operation; otherwise it resets the QC iterator, puts the next row in the output record and answers its code, or at the end clears the output, frees the cursor and answers null |
| DbApi.DbAPI.Prendilo | dballe/simple/dbapi.cc:350-360 | refused on a data read-only session; otherwise a new empty insertion replaces the operation, the values are inserted, their ids remembered in order for `critica`, the station id kept for `*ana_id`, and the variables of the input record unset (`UnsetVars`), its keywords kept; when building the values (dbapi.cc:181, 187) or the transaction's insert fails, the error propagates and the session keeps the empty insertion, the old station id and the input record as it was |
| DbApi.UnsetVars | dballe/simple/dbapi.cc:359 | `unsetb` keeps exactly the keys that do not name a `Bxxyyy` variable, each with its value |
| DbApi.UnsetVarsIdempotent | dballe/simple/dbapi.cc:359 | a second `unsetb` changes nothing |
| DbApi.UnsetVarsForgetsVar | dballe/simple/dbapi.cc:359 | a variable set on the record is gone after `unsetb`, whatever else the record holds |
| DbApi.UnsetVarsKeepsKeyword | dballe/simple/dbapi.cc:359 | a keyword set on the record survives `unsetb` with its value, so a following `prendilo` reuses it |
| DbApi.DbAPI.SetVarRelated | dballe/simple/dbapi.cc:175 | `*var_related` is kept only by an insertion operation; any other operation is unchanged |
| DbApi.DbAPI.Dimenticami | dballe/simple/dbapi.cc:362-374 | without data write permission `dimenticami` fails, changing nothing; otherwise it removes what the query selects, in the session's context, and drops the operation |
| DbApi.DbAPI.Voglioancora | dballe/simple/dbapi.cc:376-411 | the QC output is always cleared; on the current value of a query the wanted attributes are set and counted, the QC iterator reset and the QC input cleared; with no operation, after `prendilo` or past the last row it fails |
| DbApi.DbAPI.Critica | dballe/simple/dbapi.cc:413-422 | refused on an attribute read-only session or without an operation; on a query it stores the QC input on the current value and invalidates the cached attributes; after `prendilo` it stores them on the value `CriticaTarget` picks; the QC input is cleared on success only |
| DbApi.DbAPI.Scusa | dballe/simple/dbapi.cc:424-438 | only with attribute write permission and on the current value of a query the listed attributes are removed and the QC input cleared; in every other case, after `prendilo` included, it fails and changes nothing |
| DbApi.DbAPI.MessagesOpenInput | dballe/simple/dbapi.cc:440-466 | the mode must hold 'r' and the session must write stations and data; then a new input file with the import flags of the permissions replaces the old |
| DbApi.DbAPI.MessagesOpenOutput | dballe/simple/dbapi.cc:468-484 | the mode must hold 'w' or 'a'; then a new, empty output file replaces the old |
| DbApi.DbAPI.MessagesReadNext | dballe/simple/dbapi.cc:486-494 | without an input file it fails; otherwise it moves to the next message through the corrected `InputNext` and imports it with the file's flags, answering false when none is left |
| DbApi.DbAPI.MessagesWriteNext | dballe/simple/dbapi.cc:496-512 | the messages the query exports are each appended to the output file as a binary message of their own |
| WrCodec.FindContext | dballe/msg/wr_exporters/synop.cc:383 | `find_context` answers a context of the message with that level and time range, and none exactly when there is no such context |
| WrCodec.FindVar | dballe/msg/wr_exporters/synop.cc:85 | a context's `find` answers a variable with that code, and none exactly when there is no such variable |
| WrCodec.ChooseImporter | dballe/msg/wr_codec.cc:61-82 | the importer follows the bulletin type: METAR for types 0 and 1 with local subtype 140, SYNOP for the rest of 0 and 1, PILOT for type 2 with local subtype 91 or 92, TEMP for the rest of 2, then satellite, flight and pollution for 3, 4 and 8, generic for any other |
| WrCodec.FromBulletin | dballe/msg/wr_codec.cc:59-92 | one message per subset, in subset order, is appended after the messages already there, each of the type the chosen importer scans the bulletin for |
| WrCodec.TemplateRegistry.constructor | dballe/msg/wr_codec.cc:160 | a new registry holds no factory |
| WrCodec.TemplateRegistry.RegisterFactory | dballe/msg/wr_codec.cc:192-195 | `register_factory` is a map insert: a new name gets the factory, a name already taken keeps its own |
| WrCodec.TemplateRegistry.RegisterAll | dballe/msg/wr_codec.cc:156-181 | after registering a list of factories every name is registered, a name already taken keeps its factory, and each new name holds one of the list |
| WrCodec.TemplateRegistry.Get | dballe/msg/wr_codec.cc:183-190 | `get(name)` answers the factory registered under the name, or a not-found error exactly when there is none |
| WrCodec.TemplateName | dballe/msg/wr_codec.cc:125-134 | the template name is the option when set; otherwise "temp-ship" for a TEMP SHIP message and the type's name for any other |
| WrCodec.ReferenceTime | dballe/msg/wr_codec.cc:210-250 | the reference time is the first message's date and time, a missing hour, minute or second read as 0; when any part of the date is missing, the whole of it is the current UTC time |
| WrCodec.OutBulletin.constructor | dballe/msg/wr_codec.cc:104 | a new bulletin has its encoding and no subset |
| WrCodec.OutBulletin.SetReference | dballe/msg/wr_codec.cc:214-249 | the six reference time fields take the given time |
| WrCodec.OutBulletin.SetBufrHeader | dballe/msg/wr_codec.cc:252-262 | a BUFR bulletin gets the centre and subcentre, master table 14, local table 0, no compression, update sequence 0 and edition 4 |
| WrCodec.OutBulletin.SetChosen | dballe/msg/wr_exporters/synop.cc:196-199 | the category, subcategories and descriptors take the template's choice |
| WrCodec.OutBulletin.SetMasterTable | dballe/msg/wr_exporters/synop.cc:193 | the master table number takes the template's value |
| WrCodec.OutBulletin.SetCrexHeader | dballe/msg/wr_codec.cc:263-269 | a CREX bulletin gets master table 0, table 3, no check digit and edition 2 |
| WrCodec.OutBulletin.AddToSubset | dballe/msg/wr_codec.cc:203-204 | `obtain_subset(i)` creates subsets up to `i` when needed, and the template's output is added to subset `i` only |
| WrCodec.Template.constructor | dballe/msg/wr_codec.cc:138 | a template holds its name, the options and the messages |
| WrCodec.Template.SetupBulletin | dballe/msg/wr_codec.cc:208-270 | the reference time comes from the first message; a BUFR bulletin gets the options' centre and subcentre, 255 when unset, and the BUFR constants 14, 0, 0, 0, 4; a CREX bulletin the CREX constants 0, 3, no check digit, 2 (together `CommonHeader`); nothing else changes |
| WrCodec.Template.ToBulletin | dballe/msg/wr_codec.cc:197-206 | the header once: the reference time and the centre, table and edition fields of `CommonHeader`, the chosen category and descriptors kept; then message `i` into subset `i`, in order; subsets beyond the messages are kept |
| WrCodec.ExportToBulletin | dballe/msg/wr_codec.cc:120-141 | an empty message set is a consistency error and an unknown template a not-found error, both leaving the whole bulletin unchanged (subsets, reference time, header fields); otherwise the named template fills the bulletin from all the messages, with the reference time and the `CommonHeader` fields of its header |
| SynopExport.LowestSubtype | dballe/msg/wr_exporters/synop.cc:508-519 | the lowest subcategory any of the hours asks for is one of them and no larger than any |
| SynopExport.SubtypeKeepsLowest | dballe/msg/wr_exporters/synop.cc:508-519 | starting from 255, the subset-by-subset update leaves the lowest subcategory the hours ask for: 2 at main synoptic hours, 1 at intermediate ones, 0 otherwise |
| SynopExport.Synop.constructor | dballe/msg/wr_exporters/synop.cc:63-64 | a new template has no sunshine or evaporation context |
| SynopExport.Synop.ScanLevels | dballe/msg/wr_exporters/synop.cc:66-101 | `scan_levels` keeps the first two surface accumulation contexts holding B14031 and the last one holding B13033 |
| SynopExport.ScanAdvance | dballe/msg/wr_exporters/synop.cc:66-101 | one more context of the scan, when it is a surface accumulation context (level type 1, time range indicator 1), fills the first empty of the two sunshine slots if it holds B14031 and becomes the evaporation context if it holds B13033; any other context changes nothing |
| SynopExport.PrecCodeRoundTrip | dballe/msg/wr_exporters/synop.cc:123-133 | the precipitation descriptors B13023, B13022, B13021, B13020 and B13019 correspond one to one with the 24, 12, 6, 3 and 1 hour totals |
| SynopExport.PrecCodeOf | dballe/msg/wr_exporters/synop.cc:123-133 | every precipitation period has a descriptor between B13019 and B13023 |
| SynopExport.PeriodOfPrecCode | dballe/msg/wr_exporters/synop.cc:123-133 | `add_prec` knows a period exactly for the descriptors B13019 to B13023, and that period's descriptor is the one asked for |
| SynopExport.BestPrec | dballe/msg/wr_exporters/synop.cc:157-166 | a message's best precipitation is a descriptor whose total it has, and there is none exactly when it has no total for any period |
| SynopExport.ChosenPrecCodeDecided | dballe/msg/wr_exporters/synop.cc:152-169 | the bulletin's descriptor is always a precipitation descriptor: the best one of the first message with any total, or the 24-hour one when no message has any |
| SynopExport.ChosenPrecCode | dballe/msg/wr_exporters/synop.cc:152-169 | the descriptor `setupBulletin` picks is always one `add_prec` knows a period for |
| SynopExport.AddPrec | dballe/msg/wr_exporters/synop.cc:123-138 | `add_prec` stores the chosen period's total under the chosen descriptor when the message has it, and an undefined value under that descriptor otherwise |
| SynopExport.ChoosePrecCode | dballe/msg/wr_exporters/synop.cc:153-169 | the loop stops at the first message with a total and picks what `ChosenPrecCode` specifies |
| SynopExport.EcmwfHeader | dballe/msg/wr_exporters/synop.cc:171-214 | category 0, subcategory 255, local subcategory 1 (3 for the auto template); descriptors D07005 (D07007 for land high), the precipitation descriptor and B13013, followed for BUFR by the seven descriptors of the ECMWF section |
| SynopExport.AutoIsLandWithSubtype3 | dballe/msg/wr_exporters/synop.cc:329-343 | the auto template's header is the land template's with local subcategory 3 |
| SynopExport.SynopEcmwf.constructor | dballe/msg/wr_exporters/synop.cc:117-118 | an ECMWF template holds its variant, name, options and messages |
| SynopExport.SynopEcmwf.SetupBulletin | dballe/msg/wr_exporters/synop.cc:140-174 | the common header, master table 13 for BUFR, the precipitation descriptor chosen from the whole message set, and the variant's category, subcategories and descriptors |
| SynopExport.SynopEcmwf.PrecEntry | dballe/msg/wr_exporters/synop.cc:123-138 | a subset's precipitation entry always carries the descriptor chosen for the bulletin |
| SynopExport.MaxL2 | dballe/msg/wr_exporters/synop.cc:381-388 | a bound on the cloud groups: no context has a larger second level value |
| SynopExport.MaxCloudGroup | dballe/msg/wr_exporters/synop.cc:377-389 | the count is the last group found: groups 1 to 4 are all looked at, the scan goes on past 4 while groups are present, and stops at the first missing one above 4 |
| SynopExport.SynopWmo.constructor | dballe/msg/wr_exporters/synop.cc:352-353 | the WMO template holds its options and messages and no bulletin yet |
| SynopExport.SynopWmo.SetupBulletin | dballe/msg/wr_exporters/synop.cc:358-374 | the common header of `Template::setupBulletin` (`CommonHeader`), then category 0, subcategory 255, local subcategory 255 and the single descriptor D07080, remembering the bulletin for the subsets to amend |
| SynopExport.SynopWmo.ToSubset | dballe/msg/wr_exporters/synop.cc:504-519 | each subset lowers the bulletin's subcategory as its hour asks, and scans the message's levels |
| SynopExport.SynopWmo.ToBulletin | dballe/msg/wr_codec.cc:197-206 | `Template::to_bulletin` for `SynopWMO`: the header once, then `to_subset` on message i into subset i; afterwards the bulletin holds one subset per message, the common header fields (`CommonHeader`), category 0, local subcategory 255, descriptor D07080, and the lowest subcategory any message's hour asks for |
| SynopExport.SynopWmo.AddSubsets | dballe/msg/wr_codec.cc:201-205 | the loop of `to_bulletin` for `SynopWMO` puts message i, and only it, into subset i, one subset per message, and leaves the subcategory each message's hour in turn lowers it to; the header fields are outside its frame |
| SynopExport.HasGeopotential | dballe/msg/wr_exporters/synop.cc:634-639 | true exactly when some context on a pressure level holds B10008 |
| SynopExport.EcmwfMake | dballe/msg/wr_exporters/synop.cc:623-643 | the auto template exactly for station type 0; otherwise the land high template exactly when a geopotential is on a pressure level; else the land one |
| SynopExport.SynopMake | dballe/msg/wr_exporters/synop.cc:645-658 | the WMO template exactly when the first message names its station, else the ECMWF factory's choice |
| SynopExport.RegisterSynop | dballe/msg/wr_exporters/synop.cc:663-685 | every synop factory is registered, and a name already taken keeps its factory |
| TempExport.CountIfIsCardinality | dballe/msg/wr_exporters/temp.cc:66-75 | counting the contexts a filter picks gives the number of positions it picks |
| TempExport.MatchingSnoc | dballe/msg/wr_exporters/temp.cc:69-73 | one more context adds its position to those picked exactly when the filter keeps it |
| TempExport.CountIfFront | dballe/msg/wr_exporters/temp.cc:83-89 | counting from the front or from the back gives the same number |
| TempExport.CountIfAppend | dballe/msg/wr_exporters/temp.cc:612-624 | counting over two runs of contexts adds up |
| TempExport.KeptMembers | dballe/msg/wr_exporters/temp.cc:307-328 | the backward walk picks every context the filter accepts and nothing else |
| TempExport.KeptCount | dballe/msg/wr_exporters/temp.cc:306-329 | the backward walk picks as many contexts as the filter counts |
| TempExport.CountLevels | dballe/msg/wr_exporters/temp.cc:66-75 | `count_levels` is the number of contexts with a vertical sounding significance |
| TempExport.Groups | dballe/msg/wr_exporters/temp.cc:307-328 | one group per context, in order |
| TempExport.ReplicationCountMatches | dballe/msg/wr_exporters/temp.cc:301-329 | every back-filled replication count announces exactly the groups that follow it, each for a context the filter accepts, as many as the filter counts |
| TempExport.KeptStep | dballe/msg/wr_exporters/temp.cc:307-328 | walking back one more context adds its group after those of the later contexts exactly when the filter keeps it |
| TempExport.FillSlot | dballe/msg/wr_exporters/temp.cc:329 | `seti` on the slot reserved before the groups replaces that slot only |
| TempExport.SubsetBuffer.AppendReplicated | dballe/msg/wr_exporters/temp.cc:301-351 | an undefined count slot, the groups of the picked contexts from the last one back, then the number of groups written into the slot |
| TempExport.SubsetBuffer.AddSoundingLevelsAsWritten | dballe/msg/wr_exporters/temp.cc:77-129 | as written, the count covers every sounding context, while groups are stored only for the sounding contexts on pressure levels |
| TempExport.SubsetBuffer.AddSoundingLevels | dballe/msg/wr_exporters/temp.cc:77-129 | the corrected count covers exactly the levels stored, so it announces the groups that follow |
| TempExport.SoundingCountExceedsGroups | dballe/msg/wr_exporters/temp.cc:79-92 | a sounding context on a height level makes `add_sounding_levels` announce one level and store none |
| TempExport.LocalSubcategoryDecided | dballe/msg/wr_exporters/temp.cc:146-161 | the local subcategory is 91, 101 or 102: the first message that is a pilot, has an ident or has a block fixes it, and without one it stays 101 |
| TempExport.LocalSubcategory | dballe/msg/wr_exporters/temp.cc:146-161 | the scanned local subcategory is 91, 101 or 102 |
| TempExport.ChooseLocalSubcategory | dballe/msg/wr_exporters/temp.cc:147-161 | the loop stops at the first deciding message and picks what `LocalSubcategory` specifies |
| TempExport.WmoSubcategory | dballe/msg/wr_exporters/temp.cc:212-223 | subcategory 5 exactly when some message is a ship sounding, 4 otherwise |
| TempExport.TempHeader | dballe/msg/wr_exporters/temp.cc:131-162 | the ECMWF templates keep category 2, subcategory 255 and the scanned local subcategory; TEMP WMO, TEMP radar and PILOT WMO set their own category and subcategories; PILOT WMO's descriptor follows the level vote |
| TempExport.CoreDescriptors | dballe/msg/wr_exporters/temp.cc:226-764 | every template sends descriptors; TEMP WMO, TEMP ECMWF land and PILOT WMO send a single sequence descriptor (F = 3) |
| TempExport.Replications | dballe/msg/wr_exporters/temp.cc:273-351 | a subset's groups start with a replication count; every template but the two WMO ones stores one replication whose count announces all the groups after it; every group is for one of the message's contexts |
| TempExport.PressureVote | dballe/msg/wr_exporters/temp.cc:609-624 | the level vote picks pressure levels exactly when, pooling the contexts of all messages, those on pressure levels are at least as many as those on height levels |
| TempExport.EcmwfBufrAddsBitmap | dballe/msg/wr_exporters/temp.cc:454-470 | in BUFR the ECMWF templates add the data present bitmap descriptors after what they send in CREX |
| TempExport.TotalIsPooled | dballe/msg/wr_exporters/temp.cc:609-624 | the vote counts the contexts of all the messages as one pool |
| TempExport.CountLevelTypes | dballe/msg/wr_exporters/temp.cc:609-624 | the counting loops count the contexts on pressure levels and on height levels (types 102 and 103) over all messages |
| TempExport.TempTemplate.constructor | dballe/msg/wr_exporters/temp.cc:57-63 | a template holds its variant, name, options and messages |
| TempExport.TempTemplate.SetupBulletin | dballe/msg/wr_exporters/temp.cc:131-162 | the common header, master table 13 for BUFR, then the template's category, subcategories and descriptors |
| TempExport.TempTemplate.ToSubset | dballe/msg/wr_exporters/temp.cc:273-351 | the subset gets the template's replicated groups for the message (`Replications`); the ECMWF templates store them through the corrected `AddSoundingLevels`, whose count matches the groups, not through `AddSoundingLevelsAsWritten` |
| TempExport.TempTemplate.ToBulletin | dballe/msg/wr_exporters/temp.cc:606-630 | PILOT WMO first votes pressure levels unless height levels are more; then the header and one subset per message |
| TempExport.TempEcmwfMake | dballe/msg/wr_exporters/temp.cc:900-906 | the "temp-ecmwf" factory gives the ship template exactly when the first message is a ship sounding, and the land one otherwise, also for no messages |
| TempExport.TempMake | dballe/msg/wr_exporters/temp.cc:870-891 | the "temp" factory gives the radar template for radar equipment, then TEMP WMO for more than 260 contexts or sonde tracking, else the "temp-ecmwf" choice |
| TempExport.PilotMake | dballe/msg/wr_exporters/temp.cc:927-937 | the "pilot" factory gives PILOT WMO exactly when sonde tracking or the equipment type is reported, else PILOT ECMWF |
| TempExport.RegisterTemp | dballe/msg/wr_exporters/temp.cc:868-938 | every TEMP and PILOT factory is registered, and a name already taken keeps its factory |
| TempExport.IsRadar | dballe/msg/wr_exporters/temp.cc:874-877 | a message counts as a radar profile only when it has B02003 at the surface level, instant, and that value is 3 |
| Processor.SkipSpacesPrefix | tools/processor.c:16 | skipping white space never crosses a character that is not white space |
| Processor.DigitsEndPrefix | tools/processor.c:16 | reading digits never crosses a character that is not a digit |
| Processor.ScanIntPrefix | tools/processor.c:16 | a `%d` conversion in a segment reads the same with the rest of the string after its comma |
| Processor.RangeTailPrefix | tools/processor.c:16 | the `-` and the second number read the same in the segment and in the string |
| Processor.ScanItemStopsAtComma | tools/processor.c:16 | `sscanf(expr + pos, "%d-%d")` finds the same thing whatever follows the comma closing the segment |
| Processor.ScanItemStopsAtCommaAll | tools/processor.c:16 | the `"%d-%d"` scan is a scan that stops at the comma |
| Processor.StopsAtCommaOneSegment | tools/processor.c:13-16 | a scan that stops at the comma reads any string exactly as it reads the string's first segment |
| Processor.ScanItem | tools/processor.c:16 | `sscanf("%d-%d")` finds something only in a segment with a digit, and a range only when a digit is followed by '-' |
| Processor.SegLenStopsAtComma | tools/processor.c:13 | the segment holds no comma and ends at a comma or at the end of the string |
| Processor.SplitJoin | tools/processor.c:13 | splitting at commas loses nothing, and no segment holds a comma |
| Processor.MatchSegmentsIff | tools/processor.c:13-32 | an index is accepted exactly when some segment hits it (equal to a single number, within an inclusive range) before any empty or unparsable segment |
| Processor.MatchStep | tools/processor.c:13-30 | the first segment decides (empty rejects, unparsable rejects, a hit accepts) or the scan goes on after the comma closing it |
| Processor.MatchStepAt | tools/processor.c:13-30 | the same step at any position of the string |
| Processor.MatchFromSegments | tools/processor.c:13-32 | the position-by-position walk reaches the verdict of the segment scan |
| Processor.Strcspn | tools/processor.c:13 | the loop counts the characters before the next comma: the segment length |
| Processor.MatchIndexOverrun | tools/processor.c:13 | with `"5"` and index 3 the as-written loop moves past the terminator and reads out of bounds, while the intended answer is "not selected" |
| Processor.AsWrittenAgrees | tools/processor.c:9-33 | every verdict the as-written loop reaches before running out of bounds is the intended one |
| Processor.MatchIndexAsWritten | tools/processor.c:9-33 | `match_index` as written accepts exactly when the walk stopped at the end of the string accepts; it rejects either by a verdict or by running past the terminator |
| Processor.MatchIndex | tools/processor.c:9-33 | `match_index` returns whether a segment hits the index before any empty or unparsable one |
| Processor.WildcardFilter | tools/processor.c:35-53 | a filter with both categories at -1 passes every message; a set category or subcategory must be equal to the message's |
| Processor.MatchBufrex | tools/processor.c:35-53 | `match_bufrex` passes exactly the messages whose set category and subcategory agree |
| Processor.MatchBufr | tools/processor.c:55-64 | the BUFR filter passes exactly what `match_bufrex` passes |
| Processor.MatchCrex | tools/processor.c:66-88 | with the check digit test compiled out, the CREX filter passes exactly what `match_bufrex` passes |
| Processor.MatchAof | tools/processor.c:90-115 | a category decoding error is returned; otherwise the AOF filter passes exactly the messages whose set category and subcategory agree |
| Processor.SelectedIsFilter | tools/processor.c:232-243 | the processed messages carry their own number from 1, pass the index filter, come in increasing order, and every message that passes is processed |
| Processor.SelectedSound | tools/processor.c:232-243 | every processed message carries its own number from 1 and the message read at that position, and passes the index filter |
| Processor.SelectedComplete | tools/processor.c:232-243 | every message whose number passes the index filter is processed |
| Processor.SelectedOrdered | tools/processor.c:232-243 | the processed messages come in strictly increasing order of their numbers |
| Processor.SelectedAppend | tools/processor.c:232-243 | reading one more message hands it on, numbered one past those read, exactly when its number passes the filter |
| Processor.SelectedPrefix | tools/processor.c:224-245 | the messages selected from the first files are a prefix of those selected from all files |
| Processor.UpToFailure | tools/processor.c:238-239 | the messages handed to `process_input` are a prefix of the selected ones, all succeed but possibly the last, and when not all are handed the last one failed |
| Processor.UpToFailureAfter | tools/processor.c:238-239 | after messages that succeed, the first that fails is the last one handed on |
| Processor.UpToFailureAll | tools/processor.c:238-239 | when every selected message succeeds, all of them are handed on |
| Processor.FailureEndsRun | tools/processor.c:230-242 | a failing `process_input` on a selected message ends the run with exactly the messages `UpToFailure` hands on |
| Processor.FailureAfter | tools/processor.c:230-242 | a selected message that fails right after the messages read so far ends the run with those handed on and itself |
| Processor.FailureInPrefix | tools/processor.c:230-242 | a failure among the messages selected from the part of the input read so far ends the run there, whatever follows |
| Processor.ConcatPrefix | tools/processor.c:224-245 | the messages read so far, up to a position in the current file, are a prefix of all the messages |
| Processor.ConcatSplit | tools/processor.c:224-245 | the messages of the first files are a prefix of all the messages |
| Processor.ProcessAll | tools/processor.c:209-251 | `process_all` numbers the messages from 1 across all files and hands the ones the index filter passes to `process_input`, in order; it stops after the first one `process_input` fails on, and succeeds exactly when none fails |
| Processor.ProcessFile | tools/processor.c:230-243 | the messages of one file, numbered on from those of the files before it: with no failure, the processed messages and the count are those of all the files read so far; on a failure, the run ends with the messages `UpToFailure` hands on and a selected message that fails |
| Processor.PassesFilter | tools/processor.c:236 | a message passes exactly when the index filter is empty or `match_index` accepts its number |

## Left out

- I/O is not modelled: files, standard input and output, and error printing. The messages a file delivers are given as sequences.
- The wall clock is a parameter of the `setupBulletin` members.
- The wreport library's BUFR/CREX encoding and decoding is not part of this model.
- SQL statements run on in-memory tables (maps and sequences). The SQL text is not modelled, and neither are the ODBC calls.
- Concurrency is not modelled. Everything modelled is single-threaded.
- MemdbCore: the memdb `Coord` (`dballe/memdb/core.h:33-48`) holds `double` latitude and longitude and is not modelled, because floating point is not. `Defs.CoordCompare` orders the integer coordinates of `dballe/core/defs.h`.
- Defs.CoordCompare: the integer differences are unbounded. The model does not show a 32-bit overflow of `lat - o.lat`, because real latitudes and longitudes in 1/100000 degree are too small to overflow.
- StlUtils.ConstIterator.SyncIters: the source dereferences the first cursor before checking that it is valid. For a first sequence that is already at its end, the model treats this as running out and clears the cursors; it does not model the out-of-bounds read.
- Record.DbaRecord.AddFrom: requires the source record to be another record. Adding a record to itself makes the source's loop walk the list it is extending, and the loop never terminates.
- Record.ParseDateExtremes: requires `MaxDaysDefined`. `max_days` indexes its month table with the month unchecked, so a month outside 1..12 reads out of bounds.
- Record: `dba_record_equals`, `dba_record_difference` and `dba_record_delete` are not modelled.
  - The first two compare keywords and variables through the variable layer, which is not part of this model.
  - The third frees memory.
- Record.DbaRecord.KeySetValue: a failure of the variable layer's own setter or constructor (a value out of the variable's range) is not modelled; the call always succeeds for a keyword in range.
- Csv: `CSVReader::move_to_data` and `as_varcode` are not modelled; the latter calls wreport's `resolve_varcode_safe`, which is not part of this model. Reading the next line (`nextline`) is a parameter of `Next`.
- LevTrCache: `to_msg` (which needs the message's context store) and `dump` (printing) are not modelled.
- DbApi.DbAPI.MessagesReadNext: it reads through the corrected `InputNext`. As written, after a binary message the importer makes no message of, `next` answers true and `msg()` indexes an empty vector (`dballe/simple/dbapi.cc:46-72`); that crash is the DbApi row of "## Findings" and is not reproduced here.
- AttrV5.ODBCAttrV5.FetchSelected: a NULL `value` column is fetched as the empty string. The select statement binds no indicator for the column (`dballe/db/odbc/attrv5.cc:64-65`), and what the driver then does is not modelled. The order in which the database returns the rows is left open.
- AttrV5: `dump` (printing the table) is not modelled, and the SQL statements run on an in-memory table.
- OdbcDriver: the merge join of `AnnotateVarsV6` is stated by key lookup (`Annotate`), not modelled step by step; the SQL text, the datetime formatting and the 255-character fetch buffer are not modelled; `run_built_query_v6`, `create_attrv6` and the table-dropping operations are not modelled.
- MsgCursor: the `enqi`/`enqd`/`enqs`/`enqf` keyword lookups are not modelled, and neither is `find_station_context`, which is a parameter of the constructors.
- DbApi.DbAPI.MessagesWriteNext: the source dereferences the output file without checking that one is open; the model answers a consistency error there instead of modelling the crash.
- DbApi.DbAPI.Dammelo: on the operation `prendilo` leaves, the model answers an `Unimplemented` error. That operation does not override `dammelo` (`dballe/simple/dbapi.cc:169-229`), and the base `Operation` it falls back to is not part of this model, so its answer is an assumption.
- DbApi.UnsetVars: `unsetb` belongs to the common API implementation, which is not part of this model. It is modelled as removing the record entries whose key names a `Bxxyyy` variable and keeping the keywords.
- DbApi.DbAPI.Voglioancora: before the first `dammelo` of a query, the model answers an `Unimplemented` error, and so do `DbApi.DbAPI.Critica` and `DbApi.DbAPI.Scusa`. The source calls `attr_query` or `attr_reference_id` on a query cursor that is not yet on a row (`dballe/simple/dbapi.cc:134-156`, reached from 376-438); what the database cursor does then is not part of this model.
- LevTrCache.LevTrTable.Change stands for the inserts and deletes that other v6 operations make on the table; those operations are not part of this model.
- Processor.ProcessAll: failures of `dba_rawmsg_create`, `dba_file_create` and `dba_file_read_raw` are not modelled; reading a file always succeeds and delivers its messages. A failing `process_input` is modelled: the run stops after that message (`tools/processor.c:238-239`).
- DbApi: the transaction, the query cursors' database side, the importer and exporter, and file creation are not modelled; what they answer is a parameter of the session method that asks for it. `enqi("*ana_id")`, `read_qc_list` and the record setters of the common API are not part of this model.
- SynopExport: the values each template stores in a subset (`CommonSynopExporter` and the `add_*` helpers) are not modelled, nor are the message accessors `get_hour`, `get_tot_prec*_var`, `get_st_name_var` and `get_st_type_var`, whose answers are parameters.
- TempExport: the values stored inside each level group are not modelled. A group is represented by the context it comes from. `Context::find_vsig` and the message accessors are parameters.
- WrCodec: the per-type importers, the contents of each subset and `msg_type_name` are not part of this model. A decoded subset is an opaque sequence of codes.
- Processor.MatchIndex: the `sscanf` conversion of each segment is a parameter, and `ScanItem` is the one used. The `int` overflow of `%d` is not modelled: a number out of `int` range is read with its full value.
- Processor: `process_input` (decoding and the action callback) and `print_parse_error` are not modelled. The tools' actions are not part of this model.

## Findings

| source | as written | input that shows it | evidently intended | confidence | as-written member | corrected member |
|---|---|---|---|---|---|---|
| dballe/core/defs.h:90-97 | `Level::compare` returns the 32-bit difference of the first unequal component, which overflows when `MISSING_INT` (`INT_MAX`) meets a negative value | `Level(MISSING_INT, 0, 0, 0)` against `Level(-1, 0, 0, 0)`: each compares below the other | a sign that orders the components lexicographically | not executed | Defs.LevelCompareAsWrittenOverflows | Defs.LevelCompare |
| dballe/core/defs.h:145-151 | `Trange::compare` overflows in the same way | `Trange(254, MISSING_INT, 0)` against `Trange(254, -1, 0)`: each compares below the other | a sign that orders (pind, p1, p2) lexicographically | not executed | Defs.TrangeCompareAsWrittenOverflows | Defs.TrangeCompare |
| dballe/core/dba_record.c:161-168 | `dba_record_remove_dba_item` tests `rec->vars == i` instead of `cur->next == i`, so only a head item is ever removed | removing item 1 of a two-variable list leaves both variables | the given item is unlinked | not executed | Record.RemoveItemAtAsWrittenKeepsItem | Record.RemoveItemAt |
| dballe/core/dba_record.c:633-636 | on a failed `var_seti`, the rollback unlinks the head of the list whether or not this call created it | a failed set of code 2 in `[1: "10", 2: "20"]` drops variable 1 | the list is left as it was | not executed | Record.VarSetValueFailedDropsHead | Record.DbaRecord.VarSetValue |
| dballe/core/csv.cc:177-190 | after a doubled quote, the tokenizer's `EQCOL` state reads a comma as the end of the field, even inside quotes | the field `a",b` is written as `"a"",b"`, which is read back as two fields `a"` and `b"` | reading back what the writer wrote gives the same fields | not executed | Csv.TokenizeAsWrittenSplitsField | Csv.TokenizeRow |
| dballe/core/csv.cc:404-408 | `add_value` with an empty string leaves an empty row empty, so the next value adds no comma | the fields `""`, `x` are written as `"x"`, which is one field | the row keeps an empty first field | not executed | Csv.WrittenRowDropsLeadingEmpty | Csv.TokenizeRow |
| dballe/msg/cursor.h:93-98 | `next` answers `cur == end` after stepping, which inverts the answer (also at cursor.h:176-181) | over two items the second `next()` answers false; over none the first answers true | true exactly while the cursor stands on an item | not executed | MsgCursor.NextAsWrittenStopsEarly | MsgCursor.IterateVisitsAll |
| dballe/simple/dbapi.cc:46-67 | `InputFile::next` answers true after a binary message the importer makes no message of | a BUFR message decoding to zero messages: `next` answers true with nothing to return | read on until a message is found or the input ends | not executed | DbApi.InputNextAsWrittenEmpty | DbApi.InputNextDelivers |
| dballe/msg/wr_exporters/temp.cc:77-129 | `add_sounding_levels` announces `count_levels()` levels, counted over every sounding context, but stores groups only for pressure levels | one sounding context on a height level (type 102): one level announced, none stored | the replication count equals the groups stored | not executed | TempExport.SoundingCountExceedsGroups | TempExport.SubsetBuffer.AddSoundingLevels |
| tools/processor.c:13 | `match_index` steps `pos` past the comma, and past the terminator after the last segment; the next `strcspn` reads out of bounds | index 3 against the filter `"5"` | stop at the end of the string and reject | not executed | Processor.MatchIndexOverrun | Processor.MatchIndex |
