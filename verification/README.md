# Kuzu storage, WAL, parser and arithmetic rules in Dafny

This project models five sequential parts of the Kuzu graph database (and
of its predecessor, graphflow, for the arithmetic header) and proves what
each promises:

- **Relationship-table storage** (`rel_table_data.dfy`, module
  `RelTableStorage`). A `RelTableData` class holds the property columns, the
  CSR node groups and the row count of the node-group collection. The model
  covers these rules:
  - point lookup of a rel by its rel-id offset, as a linear scan;
  - `update` and `delete_` on null inputs;
  - the undo entry pushed on a delete;
  - the choice of version-record handler by scan source;
  - the start row chosen by `pushInsertInfo`;
  - the column reordering done by `checkpoint`;
  - the property-column set-up.

  The persistent and in-memory version-record handlers are classes over the
  same table data. They model the clamped in-memory rollback and the
  unclamped persistent rollback.
- **Overflow-file control state** (`overflow_file.dfy`, module
  `OverflowStorage`). This covers the header (one reserved page, one cursor
  per hash-index partition) and the handle registry (handle *k* writes
  through cursor slot *k*). It also covers the write-cache roll-back and
  checkpoint, and the page counter that hands out page indexes by
  fetch-and-increment. `END_OF_PAGE`, which is `KUZU_PAGE_SIZE - 4`, is
  where the next-page index sits at the tail of a page. String bytes are
  written before it.
- **Write-ahead log records** (`wal_record.dfy`, module `WalRecords`). This
  covers the file-type and record-type tags with their one-byte codes, every
  record payload with its field-wise equality, and the tagged record.
- **Parsed expressions** (`parsed_expression.dfy`, module
  `ParsedExpressions`). This covers the two child-building constructors and
  the serializer and deserializer over an abstract field stream, with the
  round trip proved for every tree the dispatch can rebuild. It also covers
  the two binder validators, `getStringLiteralValue` and the SERIAL default
  `nextval` expression.
- **Typed arithmetic** (`arithmetic_operations.dfy`, module
  `ArithmeticOperations`). This covers date, timestamp and interval
  arithmetic in integers, including:
  - month carry with day clamping;
  - time-of-day normalisation with a day carry;
  - interval division with remainder carry;
  - timestamp difference.

  It also covers string concatenation into the 12-byte inline layout or the
  overflow buffer, int64 modulo, and the result-type dispatch of value
  arithmetic.

Shared `Option`/`Result`/`Outcome` types live in `wrappers.dfy`.

Modelling conventions:
- C++ integer `/` and `%` truncate toward zero. `TDiv` and `TMod` model them,
  and `TDivMod` proves their defining properties.
- Signed overflow is undefined behaviour in C++. Each modelled arithmetic
  function therefore requires that the values its C++ code computes in
  signed types fit those types. The exceptions are listed under "Left out".
  The 32-bit page counter and the 64-bit unsigned rollback difference do
  wrap in C++, and the model wraps them explicitly.
- Functions the core calls but does not define are passed in as values. A
  `Calendar` value supplies the date and timestamp conversions. A `ChunkFunc`
  value stands for a chunk-level version operation. A scan is passed in as
  the sequence of batches it yields. Each operation requires only what it
  relies on of these inputs, such as a converted month lying in 1..12.
- A parsed expression owns its children through unique pointers, so it is a
  value. The serializer and deserializer are stateful streams, so they are
  classes.

## Model

| member | source | states |
|---|---|---|
| WalRecords.DBFileTypeCode | src/include/storage/wal/wal_record.h:23-27 | NODE_INDEX, DATA and METADATA have the byte codes 0, 1 and 2, and no other code |
| WalRecords.DBFileTypeOfCode | src/include/storage/wal/wal_record.h:23-27 | a byte names a file type iff it is at most 2, and then that type's code is the byte |
| WalRecords.DBFileTypeCodeRoundTrip | src/include/storage/wal/wal_record.h:23-27 | reading back the code of a file type gives that file type |
| WalRecords.WALRecordTypeCode | src/include/storage/wal/wal_record.h:48-65 | every record type has a code in 1..8 or 17..22 |
| WalRecords.WALRecordTypeOfCode | src/include/storage/wal/wal_record.h:48-65 | a byte names a record type iff it is in 1..8 or 17..22, and then that type's code is the byte |
| WalRecords.WALRecordTypeCodeRoundTrip | src/include/storage/wal/wal_record.h:48-65 | reading back the code of a record type gives that record type |
| WalRecords.WALRecordTypeCodeInjective | src/include/storage/wal/wal_record.h:48-65 | distinct record types have distinct codes |
| WalRecords.NodeIndexIDEq | src/include/storage/wal/wal_record.h:20 | two node-index ids are equal iff their table ids are |
| WalRecords.PageUpdateOrInsertRecordEq | src/include/storage/wal/wal_record.h:83-86 | equal iff file id, page in the original file, page in the WAL and insert flag are all equal |
| WalRecords.CommitRecordEq | src/include/storage/wal/wal_record.h:96-98 | equal iff the transaction ids are |
| WalRecords.NodeTableRecordEq | src/include/storage/wal/wal_record.h:107 | equal iff the table ids are |
| WalRecords.RelTableRecordEq | src/include/storage/wal/wal_record.h:116 | equal iff the table ids are |
| WalRecords.RdfGraphRecordEq | src/include/storage/wal/wal_record.h:135-140 | equal iff the table id and all four nested table records are equal |
| WalRecords.DiskOverflowFileNextBytePosRecordEq | src/include/storage/wal/wal_record.h:152-154 | equal iff the file id and the previous next-byte position are |
| WalRecords.CopyNodeRecordEq | src/include/storage/wal/wal_record.h:166-168 | equal iff the table id and start page are |
| WalRecords.CopyRelRecordEq | src/include/storage/wal/wal_record.h:178 | equal iff the table ids are |
| WalRecords.TableStatisticsRecordEq | src/include/storage/wal/wal_record.h:189-191 | equal iff the node-table flags are |
| WalRecords.DropTableRecordEq | src/include/storage/wal/wal_record.h:201 | equal iff the table ids are |
| WalRecords.DropPropertyRecordEq | src/include/storage/wal/wal_record.h:213-215 | equal iff table id and property id are |
| WalRecords.AddPropertyRecordEq | src/include/storage/wal/wal_record.h:227-229 | equal iff table id and property id are |
| WalRecords.TagCodeDeterminesVariant | src/include/storage/wal/wal_record.h:232-247 | two records whose tags have the same code have the same tag and the same payload variant |
| OverflowStorage.StringOverflowFileHeader.constructor | src/include/storage/storage_structure/overflow_file.h:76-77 | a fresh header has one page (the header's own) and NUM_HASH_INDEXES cursors, all at the initial position |
| OverflowStorage.OverflowFileHandle.constructor | src/include/storage/storage_structure/overflow_file.h:27-28 | a handle is bound to its file and cursor slot and starts with an empty page cache |
| OverflowStorage.OverflowFileHandle.CheckpointInMemory | src/include/storage/storage_structure/overflow_file.h:44 | the write cache is emptied and nothing else, the cursor included, changes |
| OverflowStorage.OverflowFileHandle.RollbackInMemory | src/include/storage/storage_structure/overflow_file.h:45-48 | the write cache is emptied and the handle's header slot becomes exactly the given cursor, every other slot unchanged |
| OverflowStorage.OverflowFile.constructor | src/include/storage/storage_structure/overflow_file.h:118-123 | a new file has no handles, a default header, and its page counter at the header page, so the first page handed out is the header's |
| OverflowStorage.OverflowFile.AddHandle | src/include/storage/storage_structure/overflow_file.h:103-108 | with fewer than NUM_HASH_INDEXES handles, appends one fresh handle bound to cursor slot old-count; handle k stays bound to slot k |
| OverflowStorage.OverflowFile.GetNewPageIdx | src/include/storage/storage_structure/overflow_file.h:118-123 | under the header-page-or-header-changed precondition, returns the old counter and advances it by one modulo 2^32 |
| OverflowStorage.AllocateTwoPages | src/include/storage/storage_structure/overflow_file.h:118-123 | two allocations in a row give distinct, strictly increasing, consecutive page indexes |
| OverflowStorage.RollbackIsolated | src/include/storage/storage_structure/overflow_file.h:45-48 | rolling back one handle leaves every other handle's cursor and cache as they were |
| ParsedExpressions.NewUnary | src/parser/expression/parsed_expression.cpp:20-24 | the one-child constructor yields children == [child], with the given type and raw name |
| ParsedExpressions.NewBinary | src/parser/expression/parsed_expression.cpp:26-31 | the two-child constructor yields children == [left, right], in that order |
| ParsedExpressions.Serializer.Serialize | src/parser/expression/parsed_expression.cpp:33-39 | appends exactly type, alias, raw name, child count, each child's encoding in order, then the subclass payload |
| ParsedExpressions.Deserializer.Deserialize | src/parser/expression/parsed_expression.cpp:41-80 | reads the same four common fields, the children and the payload, puts the read alias, raw name and children on the result, and fails exactly where the stream specification does |
| ParsedExpressions.DecodeExpr | src/parser/expression/parsed_expression.cpp:41-80 | a successful read consumes input, and its result's type is the tag read, one of the seven dispatched types |
| ParsedExpressions.DecodeEncode | src/parser/expression/parsed_expression.cpp:41-80 | decoding what serialize wrote for a deserialisable tree gives back the tree, common fields included, and leaves what followed unread |
| ParsedExpressions.DecodeEncodeChildren | src/parser/expression/parsed_expression.cpp:45-49 | a vector of deserialisable children round-trips element by element, in order |
| ParsedExpressions.UnknownTagRejected | src/parser/expression/parsed_expression.cpp:73-75 | a tree whose type is not one of CASE_ELSE, FUNCTION, LITERAL, PARAMETER, PROPERTY, SUBQUERY, VARIABLE fails with the unreachable error |
| ParsedExpressions.SerializeThenDeserialize | src/parser/expression/parsed_expression.cpp:33-80 | serialising then deserialising a deserialisable tree through the two stream objects returns it and reads the whole stream |
| ParsedExpressions.ValidateExpressionType | src/parser/expression/parsed_expression.cpp:90-98 | passes iff the expression's type is the expected one, else a binder error naming both types |
| ParsedExpressions.ValidateDataType | src/parser/expression/parsed_expression.cpp:100-109 | on a literal, passes iff its value's type is the expected one, else a binder error naming both types |
| ParsedExpressions.GetStringLiteralValue | src/parser/expression/parsed_expression.cpp:111-114 | gives the string a string literal holds; such a literal validates as STRING |
| ParsedExpressions.GetSerialDefaultExpr | src/parser/expression/parsed_expression.cpp:83-88 | a non-DISTINCT FUNCTION call of NEXTVAL with one child, a literal whose string is the sequence name |
| ParsedExpressions.SerialDefaultRoundTrip | src/parser/expression/parsed_expression.cpp:83-88 | the SERIAL default expression survives serialisation |
| ArithmeticOperations.TDivMod | src/common/include/operations/arithmetic_operations.h:98-101 | truncating quotient and remainder reassemble the dividend, the remainder is smaller than the divisor and takes the dividend's sign |
| ArithmeticOperations.ModuloInt64 | src/common/include/operations/arithmetic_operations.h:98-101 | int64 `%`: the dividend is quotient times divisor plus the result, which is smaller than the divisor and takes the dividend's sign |
| ArithmeticOperations.ConcatStrings | src/common/include/operations/arithmetic_operations.h:124-137 | length is the sum, the bytes are the left then the right bytes, short results inline and long ones in the buffer with the prefix copied, other bytes of the target kept |
| ArithmeticOperations.AddMonthsToCivil | src/common/include/operations/arithmetic_operations.h:143-153 | the month stays in 1..12 and year*12+month grows by exactly the months added |
| ArithmeticOperations.ShiftMonths | src/common/include/operations/arithmetic_operations.h:141-158 | the month step of date + interval: month in 1..12, total months conserved, day clamped to MonthDays of the new month |
| ArithmeticOperations.AddIntervalToDate | src/common/include/operations/arithmetic_operations.h:140-168 | the start date (shifted only when months != 0), plus the days, plus the whole days of the micros truncated toward zero |
| ArithmeticOperations.SubDayMicros | src/common/include/operations/arithmetic_operations.h:178-179 | the part of the micros below one day, less than a day in magnitude |
| ArithmeticOperations.CarryTimeOfDay | src/common/include/operations/arithmetic_operations.h:180-187 | the time of day lands in [0, MICROS_PER_DAY), the date moves by at most one day, and the instant is unchanged |
| ArithmeticOperations.AddIntervalToTimestamp | src/common/include/operations/arithmetic_operations.h:171-189 | joins a date and a normalised time whose instant is the shifted date plus the old time plus the sub-day micros; without months, the instant moves by exactly the interval's length |
| ArithmeticOperations.AddIntervals | src/common/include/operations/arithmetic_operations.h:192-196 | component-wise sum, so the lengths add |
| ArithmeticOperations.SubtractIntervals | src/common/include/operations/arithmetic_operations.h:233-238 | component-wise difference, so the lengths subtract |
| ArithmeticOperations.SubtractUndoesAddIntervals | src/common/include/operations/arithmetic_operations.h:233-238 | (a + b) - b == a |
| ArithmeticOperations.NegateInterval | src/common/include/operations/arithmetic_operations.h:200-203 | the inverse interval has the negated length |
| ArithmeticOperations.SubtractIntervalFromDate | src/common/include/operations/arithmetic_operations.h:199-205 | date + negated interval; without months it takes the days and whole days of the micros off |
| ArithmeticOperations.SubtractThenAddInterval | src/common/include/operations/arithmetic_operations.h:199-205 | without months, subtracting then adding an interval gives the date back |
| ArithmeticOperations.SubtractIntervalFromTimestamp | src/common/include/operations/arithmetic_operations.h:225-231 | timestamp + negated interval; without months the instant moves back by exactly the interval's length |
| ArithmeticOperations.SubtractDates | src/common/include/operations/arithmetic_operations.h:207-210 | when the int32 difference does not overflow, it is the number of days from the right date to the left one |
| ArithmeticOperations.SubtractDatesInverse | src/common/include/operations/arithmetic_operations.h:207-210 | adding the difference back as days gives the later date |
| ArithmeticOperations.SubtractTimestamps | src/common/include/operations/arithmetic_operations.h:213-222 | months 0; days and micros total l - r; abs(days)*MICROS_PER_DAY + abs(micros) == abs(l - r); abs(micros) < a day; both non-positive iff l < r |
| ArithmeticOperations.DivideInterval | src/common/include/operations/arithmetic_operations.h:241-247 | n times the quotient's length misses the dividend's length by less than n microseconds |
| ArithmeticOperations.DivideIntervalRemainder | src/common/include/operations/arithmetic_operations.h:241-247 | carrying the months remainder into days and the days remainder into micros loses exactly the last remainder |
| ArithmeticOperations.CarryDivision | src/common/include/operations/arithmetic_operations.h:242-247 | three divisions, each remainder carried into the next finer unit, lose only the last remainder |
| ArithmeticOperations.ArithmeticResultType | src/common/include/operations/arithmetic_operations.h:257-294 | INT64 iff both INT64; DOUBLE iff both numeric with one DOUBLE; otherwise invalid_argument naming both types |
| ArithmeticOperations.ArithmeticUnaryResultType | src/common/include/operations/arithmetic_operations.h:296-311 | the operand's type iff it is INT64 or DOUBLE, otherwise invalid_argument naming it |
| ArithmeticOperations.AddResultType | src/common/include/operations/arithmetic_operations.h:326-353 | STRING, DATE, TIMESTAMP and INTERVAL specialisations, everything else numeric dispatch |
| ArithmeticOperations.SubtractResultType | src/common/include/operations/arithmetic_operations.h:355-383 | date - date is INT64, timestamp - timestamp is INTERVAL, date - interval or days and the two other same-type cases keep the left type; every other pair, temporal ones included, goes to numeric dispatch and fails unless both are numeric |
| ArithmeticOperations.DivideResultType | src/common/include/operations/arithmetic_operations.h:390-398 | INTERVAL / INT64 is INTERVAL, the rest is numeric dispatch |
| ArithmeticOperations.NumericOnlyOperations | src/common/include/operations/arithmetic_operations.h:385-408 | multiply, modulo and power accept exactly two numeric operands |
| RelTableStorage.FirstInBatch | src/storage/store/rel_table_data.cpp:191-199 | no row iff no rel of the batch has the offset |
| RelTableStorage.FirstInBatchIsFirst | src/storage/store/rel_table_data.cpp:191-199 | the row found is that of a rel with the offset, with no such rel before it in the batch |
| RelTableStorage.FirstMatchCorrect | src/storage/store/rel_table_data.cpp:184-204 | (NONE, INVALID_ROW_IDX) iff no scanned rel has the offset; otherwise the source and row of the first such rel in scan order |
| RelTableStorage.FirstMatchCommitted | src/storage/store/rel_table_data.cpp:184-204 | a match found in committed batches has a committed source |
| RelTableStorage.RelTableData.FindMatchingRow | src/storage/store/rel_table_data.cpp:160-205 | the nested scan loop returns the first match in scan order, and INVALID_ROW_IDX iff there is none |
| RelTableStorage.RelTableData.CheckIfNodeHasRels | src/storage/store/rel_table_data.cpp:207-238 | true iff the node's group exists and some scan batch selects a rel |
| RelTableStorage.RelTableData.Update | src/storage/store/rel_table_data.cpp:114-130 | false and no change on a null input; otherwise the matched row of the group gets the update and true is returned |
| RelTableStorage.RelTableData.Delete | src/storage/store/rel_table_data.cpp:132-151 | false and no change on a null input or no match; otherwise true iff the row was newly deleted, and a one-row delete entry with the source's handler is pushed iff newly deleted and the transaction keeps undo |
| RelTableStorage.DeleteTwice | src/storage/store/rel_table_data.cpp:132-151 | the first delete reports whether the rel was live and pushes exactly the one undo entry Delete would; the second reports false and adds nothing |
| RelTableStorage.GetVersionRecordHandler | src/storage/store/rel_table_data.cpp:279-286 | persistent handler iff COMMITTED_PERSISTENT, in-memory handler iff COMMITTED_IN_MEMORY; NONE is excluded |
| RelTableStorage.HandledSource | src/storage/store/rel_table_data.cpp:279-286 | every handler serves a committed source |
| RelTableStorage.HandlerSourceInverse | src/storage/store/rel_table_data.cpp:279-286 | handler choice and served source are inverse on committed sources |
| RelTableStorage.InsertStart | src/storage/store/rel_table_data.cpp:248-251 | persistent rows start at 0 without increment; any other rows start at the group's row count with increment |
| RelTableStorage.RelTableData.PushInsertInfo | src/storage/store/rel_table_data.cpp:240-255 | under the persistent-only-when-empty precondition, pushes an insert entry at InsertStart's row with the source's handler, and adds the rows to the count iff InsertStart increments |
| RelTableStorage.CheckpointColumns | src/storage/store/rel_table_data.cpp:257-263 | the checkpointed column list has one entry per id |
| RelTableStorage.CheckpointColumnsAt | src/storage/store/rel_table_data.cpp:257-263 | position i holds the old column ids[i], or nothing when that slot was already moved out |
| RelTableStorage.CheckpointReorders | src/storage/store/rel_table_data.cpp:257-263 | with distinct ids, position i holds exactly the old columns[ids[i]] |
| RelTableStorage.RelTableData.Checkpoint | src/storage/store/rel_table_data.cpp:257-273 | the moving loop leaves the column list equal to CheckpointColumns of the old list |
| RelTableStorage.RelTableData.AddColumn | src/storage/store/rel_table_data.cpp:153-158 | the new column is appended and the existing ones are kept |
| RelTableStorage.Resize | src/storage/store/rel_table_data.cpp:93 | the list gets the new length, keeping existing slots and padding with empty ones |
| RelTableStorage.PlaceProperties | src/storage/store/rel_table_data.cpp:99-107 | placing the property columns keeps the list length |
| RelTableStorage.PlacePropertiesAt | src/storage/store/rel_table_data.cpp:99-107 | with distinct ids, each property's column is at its id and other slots are untouched |
| RelTableStorage.InitialColumns | src/storage/store/rel_table_data.cpp:92-107 | the set-up list has maxColumnID + 1 slots |
| RelTableStorage.InitialColumnsLayout | src/storage/store/rel_table_data.cpp:92-107 | on a fresh table: the neighbour-id column at slot 0, each property at its id, every other slot empty |
| RelTableStorage.RelTableData.InitPropertyColumns | src/storage/store/rel_table_data.cpp:91-112 | the columns are the initial layout with the neighbour-id column pointing into the neighbour table and the rel-id column into this table |
| RelTableStorage.RelTableData.constructor | src/storage/store/rel_table_data.cpp:61-77 | for a fresh table (no deserializer): no node groups, no rows, and the property columns set up by InitPropertyColumns |
| RelTableStorage.RelTableData.RollbackGroupCollectionInsert | src/storage/store/rel_table_data.cpp:288-290 | the collection's count drops by the rows iff they were not persistent |
| RelTableStorage.RollbackCount | src/storage/store/rel_table_data.cpp:56 | min(numRows, groupRows - startRow) with the difference taken modulo 2^64; never more than numRows |
| RelTableStorage.PersistentVersionRecordHandler.constructor | src/storage/store/rel_table_data.cpp:19-20 | the handler refers to its table data |
| RelTableStorage.PersistentVersionRecordHandler.ApplyFuncToChunkedGroups | src/storage/store/rel_table_data.cpp:22-32 | no change when the group does not exist or has no persistent chunked group; otherwise only that chunk is replaced by the function's result |
| RelTableStorage.PersistentVersionRecordHandler.RollbackInsert | src/storage/store/rel_table_data.cpp:34-39 | the group's persistent chunk becomes the chunk rollback over the full numRows, with no clamp; other groups and the collection's row count are unchanged; without a persistent chunk nothing changes |
| RelTableStorage.InMemoryVersionRecordHandler.constructor | src/storage/store/rel_table_data.cpp:41-42 | the handler refers to its table data |
| RelTableStorage.InMemoryVersionRecordHandler.ApplyFuncToChunkedGroups | src/storage/store/rel_table_data.cpp:44-49 | the group's in-memory chunked groups are replaced by the function's result |
| RelTableStorage.InMemoryVersionRecordHandler.RollbackInsert | src/storage/store/rel_table_data.cpp:51-59 | only the group's in-memory chunks (chunk rollback) and its row count (cut to min(startRow, numRows)) change, and the count drops by RollbackCount taken before the cut; every other field and group is unchanged |
| RelTableStorage.InsertThenRollback | src/storage/store/rel_table_data.cpp:51-59 | an in-memory insert whose rows reached the group, rolled back, restores the collection's count and the group's row count |

## Left out

- Overflow strings: `writeString`, `readString`, `equals`, `addANewPage`, `readFromDisk`, `writePageToDisk` and `OverflowFileHandle::checkpoint` are declared without bodies in the header, and they are disk and buffer-manager I/O. The file-level `rollbackInMemory`, `checkpoint` and `checkpointInMemory` of `OverflowFile` are also declared without bodies.
- OverflowStorage.OverflowFile.constructor: the constructors of `OverflowFile` are defined in a source file that is not part of this model. The model's constructor follows the comment at lines 119-121: a fresh file's counter sits at the header page. It does not set `headerChanged`. The code that sets `headerChanged` is not part of this model either.
- The default `PageCursor` is taken to be page 0, position 0. `NUM_HASH_INDEXES` (256) and `KUZU_PAGE_SIZE` (4096) come from headers that are not part of this model. The atomic counter and flag are plain fields; concurrency is not modelled.
- WAL byte encoding: `writeWALRecordToBytes`, `constructWALRecordFromBytes` and the `new*Record` factories have no bodies in the header, so there is no byte-level round trip. `DBFileID::operator==` and `WALRecord::operator==` are only declared. The model takes them to be equality of all fields.
- Parsed expressions: the byte layout of the serializer, and the subclasses' own `serializeInternal`/`deserialize`, are not part of this model. A subclass's state is one payload field in the stream. `serializeVectorOfPtrs` is taken to write the element count and then each element. The `toString` text of the binder messages is not modelled: the error carries the two types the message names. The expression-type enumeration is represented by a part of its members.
- ParsedExpressions.DecodeExpr: its `Malformed` and `EndOfStream` errors stand for reading a stream that `serialize` did not write. The C++ deserializer does not check for that case.
- Arithmetic: `Power`, `Floor`, `Ceil`, `fmod`, `abs` on doubles and every DOUBLE result value are left out, because floating point is not modelled. Only the result type chosen by the dispatch is modelled. `Date + int64` and `Date - int64` depend on a `date_t` operator that is not shown; only their result type is modelled. `IntervalFunc` calls `Interval::FromCString`, which is not shown.
- ArithmeticOperations.AddIntervalToDate: `Date::Convert`, `Date::MonthDays` and `Date::FromDate` are supplied by a `Calendar` value. So are `Timestamp::Convert` and `Timestamp::FromDatetime`. The only property assumed of them is the one each operation requires. The year after a month shift is an unbounded integer, and its int32 overflow is not modelled.
- ArithmeticOperations.ConcatStrings: the 32-bit sum of the two lengths is required not to wrap. In C++ a wrapped sum makes the `memcpy`s run past the target, and that behaviour is not modelled.
- ArithmeticOperations.SubtractTimestamps: `abs` of the 64-bit difference is taken to be the 64-bit absolute value.
- ArithmeticOperations.DivideInterval: the model states the length bound, not the per-component values. Those values are in its body and in DivideIntervalRemainder.
- Relationship tables: the CSR node groups, chunked groups and node-group collection are not part of this model, and neither are the column factory, the storage-name utilities and `getNodeGroupIdx`. The following stand-ins are used:
  - a node group is abstract state;
  - `CSRNodeGroup::delete_` reports whether the row was not yet deleted;
  - `NodeGroup::rollbackInsert(startRow)` cuts the row count to `min(startRow, numRows)`, so a `startRow` past the end leaves the count unchanged;
  - the collection's row count is an unbounded integer, and its 64-bit unsigned width is not modelled;
  - the collection's `pushInsertInfo` pushes an insert entry when the transaction keeps undo, and adds the rows when asked;
  - the collection's `rollbackInsert` takes the rows off its count when asked;
  - the base handler's `rollbackInsert` applies a chunk-level rollback through `applyFuncToChunkedGroups`.
- ParsedExpressions.ValidateDataType: `LogicalType` is reduced to its type id. A LIST or STRUCT type carries no child or field types here, so the check passes any LIST literal against any LIST type. Comparison of nested types is not modelled.
- RelTableStorage.RelTableData.constructor: only the fresh-table path is modelled. When a deserializer is passed, the node-group collection is read from it and need not start empty. Reading from the deserializer is not modelled.
- ArithmeticOperations.CanDivideInterval: `DAYS_PER_MONTH` and `MICROS_PER_DAY` come from a header that is not part of this model. Their products with the remainders are taken to be int64 arithmetic.
- RelTableStorage.PersistentVersionRecordHandler.RollbackInsert: what the persistent chunk's rollback does to its rows is the supplied chunk function's business, so no row count is stated for it.
- RelTableStorage.RelTableData.Checkpoint: `nodeGroups->checkpoint` is not modelled. Neither are `initCSRHeaderColumns`, `serialize` and the collection's `addColumn`.
- RelTableStorage.RelTableData.Update: the `KU_ASSERT` that a match exists is a precondition. The update payload is an abstract datum.
