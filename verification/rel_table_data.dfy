/**
 * The storage of one direction of a relationship table: its property
 * columns, its CSR node groups, the row count of its node-group collection,
 * and the two version-record handlers (persistent and in-memory) that undo
 * and redo operations go through.
 *
 * The node-group internals (CSR scans, per-row updates and deletions, the
 * chunked groups and the node-group collection) are not part of this model.
 * A node group is abstract state: its row count, its optional persistent
 * chunked group, its in-memory chunked groups, the rows deleted so far and
 * the cell updates applied so far. A scan is given as the sequence of
 * batches it returns before its empty result. Column names and node-group
 * indexes come from storage utilities that are also not part of this model,
 * so they are given as inputs.
 */
module RelTableStorage {
  import opened Wrappers

  type uint64 = x: int | 0 <= x < 0x1_0000_0000_0000_0000

  /** The row index that stands for "no row". */
  const INVALID_ROW_IDX: uint64 := 0xFFFF_FFFF_FFFF_FFFF
  /** A real row index: anything but INVALID_ROW_IDX. */
  type RowIdx = x: int | 0 <= x < 0xFFFF_FFFF_FFFF_FFFF

  /** The neighbour-id column and the rel-id column come first in every rel table. */
  const NBR_ID_COLUMN_ID: nat := 0
  const REL_ID_COLUMN_ID: nat := 1

  /** Where a CSR scan found a row: the persistent data, the in-memory data, or nowhere. */
  datatype ScanSource = COMMITTED_PERSISTENT | COMMITTED_IN_MEMORY | NONE

  /** Which of the table's two version-record handlers is meant. */
  datatype VersionRecordHandler = PersistentHandler | InMemoryHandler

  // ---------------------------------------------------------------------
  // Columns
  // ---------------------------------------------------------------------

  datatype ColumnType = INTERNAL_ID | UINT64 | INT64 | DOUBLE | STRING | OTHER

  /** A column: its storage name, its type, and for an internal-id column the table all its ids point into. */
  datatype Column = Column(name: string, columnType: ColumnType, commonTableID: Option<nat>)

  /** A property of the table's catalog entry, with the column id the catalog assigns it. */
  datatype PropertyColumn = PropertyColumn(columnID: nat, column: Column)

  // ---------------------------------------------------------------------
  // Node groups, scans and undo information
  // ---------------------------------------------------------------------

  /** A chunked group, abstractly: its row count and its per-row version information. */
  datatype ChunkedGroup = ChunkedGroup(numRows: nat, versions: seq<int>)

  /** A row of a node group, named by where it lives and its index there. */
  datatype RowKey = RowKey(source: ScanSource, rowIdx: RowIdx)

  datatype CellUpdate = CellUpdate(row: RowKey, columnID: nat, data: int)

  datatype NodeGroup = NodeGroup(
    numRows: nat,
    persistentChunkedGroup: Option<ChunkedGroup>,
    inMemoryChunkedGroups: ChunkedGroup,
    deletedRows: set<RowKey>,
    updates: seq<CellUpdate>)

  /** A rel produced by a scan: its rel-id offset and the row it was read from. */
  datatype ScannedRel = ScannedRel(relOffset: uint64, rowIdx: RowIdx)

  /** One non-empty scan result: the source the scan was reading and the rels it selected. */
  datatype ScanBatch = ScanBatch(source: ScanSource, rels: seq<ScannedRel>)

  /** An entry of a transaction's undo buffer. */
  datatype UndoEntry =
    | DeleteInfo(nodeGroupIdx: nat, startRow: nat, numRows: nat, handler: VersionRecordHandler)
    | InsertInfo(nodeGroupIdx: nat, startRow: nat, numRows: nat, handler: VersionRecordHandler)

  /** The chunk operation a version-record handler applies: chunk, start row, row count, commit timestamp. */
  type ChunkFunc = (ChunkedGroup, nat, nat, nat) -> ChunkedGroup

  class Transaction {
    const shouldAppendToUndoBuffer: bool
    var undoBuffer: seq<UndoEntry>

    constructor (shouldAppendToUndoBuffer: bool)
      ensures this.shouldAppendToUndoBuffer == shouldAppendToUndoBuffer && undoBuffer == []
    {
      this.shouldAppendToUndoBuffer := shouldAppendToUndoBuffer;
      undoBuffer := [];
    }
  }

  // ---------------------------------------------------------------------
  // Specification functions
  // ---------------------------------------------------------------------

  /** The first rel of a batch with the given offset. */
  function FirstInBatch(rels: seq<ScannedRel>, relOffset: uint64): (r: Option<RowIdx>)
    ensures r.None? <==> forall j :: 0 <= j < |rels| ==> rels[j].relOffset != relOffset
  {
    if rels == [] then None
    else if rels[0].relOffset == relOffset then Some(rels[0].rowIdx)
    else FirstInBatch(rels[1..], relOffset)
  }

  /** The source and row of the first rel, in scan order, with the given offset; (NONE, INVALID_ROW_IDX) if there is none. */
  function FirstMatch(batches: seq<ScanBatch>, relOffset: uint64): (ScanSource, uint64)
  {
    if batches == [] then (NONE, INVALID_ROW_IDX)
    else match FirstInBatch(batches[0].rels, relOffset)
      case Some(row) => (batches[0].source, row)
      case None => FirstMatch(batches[1..], relOffset)
  }

  /** Some batch holds a rel with the given offset. */
  predicate HasMatch(batches: seq<ScanBatch>, relOffset: uint64)
  {
    exists b, j :: 0 <= b < |batches| && 0 <= j < |batches[b].rels| && batches[b].rels[j].relOffset == relOffset
  }

  /** Position (b, j) comes before position (b', j') in scan order. */
  predicate Before(b: int, j: int, b': int, j': int)
  {
    b < b' || (b == b' && j < j')
  }

  lemma {:induction false} FirstInBatchIsFirst(rels: seq<ScannedRel>, relOffset: uint64)
    requires FirstInBatch(rels, relOffset).Some?
    ensures exists j :: 0 <= j < |rels| && rels[j].relOffset == relOffset
                        && rels[j].rowIdx == FirstInBatch(rels, relOffset).value
                        && forall k :: 0 <= k < j ==> rels[k].relOffset != relOffset
  {
    if rels[0].relOffset == relOffset {
      assert rels[0].rowIdx == FirstInBatch(rels, relOffset).value;
    } else {
      FirstInBatchIsFirst(rels[1..], relOffset);
      var j :| 0 <= j < |rels[1..]| && rels[1..][j].relOffset == relOffset
               && rels[1..][j].rowIdx == FirstInBatch(rels[1..], relOffset).value
               && forall k :: 0 <= k < j ==> rels[1..][k].relOffset != relOffset;
      assert forall k :: 0 <= k < j + 1 ==> rels[k].relOffset != relOffset by {
        forall k | 0 <= k < j + 1 ensures rels[k].relOffset != relOffset {
          if k > 0 { assert rels[k] == rels[1..][k - 1]; }
        }
      }
      assert rels[j + 1] == rels[1..][j];
    }
  }

  /**
   * FirstMatch finds nothing exactly when no scanned rel has the offset;
   * otherwise it gives the source and row of a rel with the offset before
   * which, in scan order, no rel has it.
   */
  lemma {:induction false} FirstMatchCorrect(batches: seq<ScanBatch>, relOffset: uint64)
    ensures FirstMatch(batches, relOffset).1 == INVALID_ROW_IDX <==> !HasMatch(batches, relOffset)
    ensures FirstMatch(batches, relOffset).1 == INVALID_ROW_IDX ==> FirstMatch(batches, relOffset).0 == NONE
    ensures HasMatch(batches, relOffset) ==>
              exists b, j :: 0 <= b < |batches| && 0 <= j < |batches[b].rels|
                && batches[b].rels[j].relOffset == relOffset
                && FirstMatch(batches, relOffset) == (batches[b].source, batches[b].rels[j].rowIdx)
                && forall b', j' :: 0 <= b' < |batches| && 0 <= j' < |batches[b'].rels| && Before(b', j', b, j)
                                    ==> batches[b'].rels[j'].relOffset != relOffset
  {
    if batches == [] {
      return;
    }
    var first := FirstInBatch(batches[0].rels, relOffset);
    if first.Some? {
      FirstInBatchIsFirst(batches[0].rels, relOffset);
      var j :| 0 <= j < |batches[0].rels| && batches[0].rels[j].relOffset == relOffset
               && batches[0].rels[j].rowIdx == first.value
               && forall k :: 0 <= k < j ==> batches[0].rels[k].relOffset != relOffset;
      assert HasMatch(batches, relOffset);
      assert FirstMatch(batches, relOffset) == (batches[0].source, batches[0].rels[j].rowIdx);
    } else {
      var tail := batches[1..];
      FirstMatchCorrect(tail, relOffset);
      assert FirstMatch(batches, relOffset) == FirstMatch(tail, relOffset);
      if HasMatch(batches, relOffset) {
        var b, j :| 0 <= b < |batches| && 0 <= j < |batches[b].rels| && batches[b].rels[j].relOffset == relOffset;
        assert b > 0;
        assert tail[b - 1] == batches[b];
        assert HasMatch(tail, relOffset);
        var tb, tj :| 0 <= tb < |tail| && 0 <= tj < |tail[tb].rels|
                     && tail[tb].rels[tj].relOffset == relOffset
                     && FirstMatch(tail, relOffset) == (tail[tb].source, tail[tb].rels[tj].rowIdx)
                     && forall b', j' :: 0 <= b' < |tail| && 0 <= j' < |tail[b'].rels| && Before(b', j', tb, tj)
                                         ==> tail[b'].rels[j'].relOffset != relOffset;
        assert tail[tb] == batches[tb + 1];
        forall b', j' | 0 <= b' < |batches| && 0 <= j' < |batches[b'].rels| && Before(b', j', tb + 1, tj)
          ensures batches[b'].rels[j'].relOffset != relOffset
        {
          if b' > 0 {
            assert tail[b' - 1] == batches[b'];
          }
        }
      }
    }
  }

  /** A scan whose batches all come from a committed source, as every CSR scan's do. */
  predicate CommittedSources(batches: seq<ScanBatch>)
  {
    forall b :: 0 <= b < |batches| ==> batches[b].source != NONE
  }

  lemma {:induction false} FirstMatchCommitted(batches: seq<ScanBatch>, relOffset: uint64)
    requires CommittedSources(batches)
    ensures FirstMatch(batches, relOffset).1 != INVALID_ROW_IDX ==> FirstMatch(batches, relOffset).0 != NONE
  {
    if batches != [] && FirstInBatch(batches[0].rels, relOffset).None? {
      FirstMatchCommitted(batches[1..], relOffset);
    }
  }

  /**
   * getVersionRecordHandler: the persistent handler for rows found in the
   * persistent data, the in-memory handler for rows found in memory. A scan
   * that found nothing has no handler.
   */
  function GetVersionRecordHandler(source: ScanSource): (h: VersionRecordHandler)
    requires source != NONE
    ensures h == PersistentHandler <==> source == COMMITTED_PERSISTENT
    ensures h == InMemoryHandler <==> source == COMMITTED_IN_MEMORY
  {
    match source
    case COMMITTED_PERSISTENT => PersistentHandler
    case COMMITTED_IN_MEMORY => InMemoryHandler
  }

  /** The source a handler serves. */
  function HandledSource(h: VersionRecordHandler): (source: ScanSource)
    ensures source != NONE
  {
    match h
    case PersistentHandler => COMMITTED_PERSISTENT
    case InMemoryHandler => COMMITTED_IN_MEMORY
  }

  /** Handlers and committed sources correspond one to one. */
  lemma HandlerSourceInverse(source: ScanSource, h: VersionRecordHandler)
    ensures source != NONE ==> HandledSource(GetVersionRecordHandler(source)) == source
    ensures GetVersionRecordHandler(HandledSource(h)) == h
  {
  }

  /**
   * The start row and the row-count increment pushInsertInfo chooses: rows
   * written straight to the persistent data start at 0 and do not add to the
   * collection's row count; any other rows start after the node group's
   * current rows and do.
   */
  function InsertStart(source: ScanSource, groupRows: nat): (r: (nat, bool))
    ensures source == COMMITTED_PERSISTENT ==> r == (0, false)
    ensures source != COMMITTED_PERSISTENT ==> r == (groupRows, true)
    ensures r.1 <==> source != COMMITTED_PERSISTENT
  {
    if source == COMMITTED_PERSISTENT then (0, false) else (groupRows, true)
  }

  /**
   * The number of rows an in-memory rollback takes off the collection's row
   * count: `min(numRows, groupRows - startRow)` in 64-bit unsigned
   * arithmetic, where a start row past the group's rows wraps the difference.
   */
  function RollbackCount(numRows: uint64, groupRows: uint64, startRow: uint64): (n: uint64)
    ensures n <= numRows
    ensures startRow <= groupRows ==> n <= groupRows - startRow
    ensures n <= (groupRows - startRow) % 0x1_0000_0000_0000_0000
    ensures n == numRows || n == (groupRows - startRow) % 0x1_0000_0000_0000_0000
    ensures startRow <= groupRows && numRows <= groupRows - startRow ==> n == numRows
  {
    var available := (groupRows - startRow) % 0x1_0000_0000_0000_0000;
    if numRows < available then numRows else available
  }

  /**
   * The column list checkpoint builds: for each id in turn, the column moved
   * out of that slot. A slot already moved out holds no column.
   */
  function CheckpointColumns(columns: seq<Option<Column>>, columnIDs: seq<nat>): (r: seq<Option<Column>>)
    requires forall i :: 0 <= i < |columnIDs| ==> columnIDs[i] < |columns|
    ensures |r| == |columnIDs|
  {
    if columnIDs == [] then []
    else
      var last := |columnIDs| - 1;
      var prefix := columnIDs[..last];
      CheckpointColumns(columns, prefix)
        + [if columnIDs[last] in prefix then None else columns[columnIDs[last]]]
  }

  /** Ids that appear once each. */
  predicate Distinct(ids: seq<nat>)
  {
    forall i, j :: 0 <= i < j < |ids| ==> ids[i] != ids[j]
  }

  /** Position i of the checkpointed list holds the old column ids[i], unless that slot was already moved out. */
  lemma {:induction false} CheckpointColumnsAt(columns: seq<Option<Column>>, columnIDs: seq<nat>, i: nat)
    requires forall k :: 0 <= k < |columnIDs| ==> columnIDs[k] < |columns|
    requires i < |columnIDs|
    ensures CheckpointColumns(columns, columnIDs)[i]
            == if columnIDs[i] in columnIDs[..i] then None else columns[columnIDs[i]]
  {
    var last := |columnIDs| - 1;
    if i < last {
      var prefix := columnIDs[..last];
      CheckpointColumnsAt(columns, prefix, i);
      assert prefix[..i] == columnIDs[..i];
    }
  }

  /** With distinct ids, checkpoint is exactly the reordering: position i holds the old column ids[i]. */
  lemma CheckpointReorders(columns: seq<Option<Column>>, columnIDs: seq<nat>)
    requires forall k :: 0 <= k < |columnIDs| ==> columnIDs[k] < |columns|
    requires Distinct(columnIDs)
    ensures |CheckpointColumns(columns, columnIDs)| == |columnIDs|
    ensures forall i :: 0 <= i < |columnIDs| ==> CheckpointColumns(columns, columnIDs)[i] == columns[columnIDs[i]]
  {
    forall i | 0 <= i < |columnIDs|
      ensures CheckpointColumns(columns, columnIDs)[i] == columns[columnIDs[i]]
    {
      CheckpointColumnsAt(columns, columnIDs, i);
      assert columnIDs[i] !in columnIDs[..i];
    }
  }

  /** `columns.resize(n)`: truncated, or padded with empty slots. */
  function Resize(columns: seq<Option<Column>>, n: nat): (r: seq<Option<Column>>)
    ensures |r| == n
    ensures forall i :: 0 <= i < n ==> r[i] == if i < |columns| then columns[i] else None
  {
    if n <= |columns| then columns[..n] else columns + seq(n - |columns|, _ => None)
  }

  /** The property columns placed into their slots in order; a later property with the same id wins. */
  function PlaceProperties(columns: seq<Option<Column>>, properties: seq<PropertyColumn>): (r: seq<Option<Column>>)
    requires forall i :: 0 <= i < |properties| ==> properties[i].columnID < |columns|
    ensures |r| == |columns|
  {
    if properties == [] then columns
    else
      var last := |properties| - 1;
      PlaceProperties(columns, properties[..last])[properties[last].columnID := Some(properties[last].column)]
  }

  /** Ids that no two properties share. */
  predicate DistinctColumnIDs(properties: seq<PropertyColumn>)
  {
    forall i, j :: 0 <= i < j < |properties| ==> properties[i].columnID != properties[j].columnID
  }

  /** With distinct ids, each property's column sits at its id and every other slot is as it was. */
  lemma {:induction false} PlacePropertiesAt(columns: seq<Option<Column>>, properties: seq<PropertyColumn>, c: nat)
    requires forall i :: 0 <= i < |properties| ==> properties[i].columnID < |columns|
    requires DistinctColumnIDs(properties)
    requires c < |columns|
    ensures forall i :: 0 <= i < |properties| && properties[i].columnID == c ==>
              PlaceProperties(columns, properties)[c] == Some(properties[i].column)
    ensures (forall i :: 0 <= i < |properties| ==> properties[i].columnID != c) ==>
              PlaceProperties(columns, properties)[c] == columns[c]
  {
    if properties != [] {
      var last := |properties| - 1;
      PlacePropertiesAt(columns, properties[..last], c);
      forall i | 0 <= i < last && properties[i].columnID == c
        ensures PlaceProperties(columns, properties[..last])[c] == Some(properties[i].column)
      {
        assert properties[..last][i] == properties[i];
      }
    }
  }

  /** The slots of the rel-id column and the neighbour-id column hold internal-id columns. */
  predicate InternalIDColumnsAt(columns: seq<Option<Column>>)
  {
    && REL_ID_COLUMN_ID < |columns|
    && columns[NBR_ID_COLUMN_ID].Some? && columns[NBR_ID_COLUMN_ID].value.columnType == INTERNAL_ID
    && columns[REL_ID_COLUMN_ID].Some? && columns[REL_ID_COLUMN_ID].value.columnType == INTERNAL_ID
  }

  /** The columns initPropertyColumns sets up, before the common table ids are set. */
  function InitialColumns(columns: seq<Option<Column>>, maxColumnID: nat, nbrIDColumnName: string,
                          properties: seq<PropertyColumn>): (r: seq<Option<Column>>)
    requires forall i :: 0 <= i < |properties| ==> properties[i].columnID <= maxColumnID
    ensures |r| == maxColumnID + 1
  {
    PlaceProperties(Resize(columns, maxColumnID + 1)[NBR_ID_COLUMN_ID := Some(Column(nbrIDColumnName, INTERNAL_ID, None))],
                    properties)
  }

  /**
   * On a fresh table whose properties have distinct ids other than the
   * neighbour-id slot, the neighbour-id column sits at its slot, each
   * property's column at its id, and every other slot is empty.
   */
  lemma InitialColumnsLayout(maxColumnID: nat, nbrIDColumnName: string, properties: seq<PropertyColumn>)
    requires forall i :: 0 <= i < |properties| ==> NBR_ID_COLUMN_ID < properties[i].columnID <= maxColumnID
    requires DistinctColumnIDs(properties)
    ensures var cols := InitialColumns([], maxColumnID, nbrIDColumnName, properties);
            && cols[NBR_ID_COLUMN_ID] == Some(Column(nbrIDColumnName, INTERNAL_ID, None))
            && (forall i :: 0 <= i < |properties| ==> cols[properties[i].columnID] == Some(properties[i].column))
            && (forall c :: NBR_ID_COLUMN_ID < c <= maxColumnID && (forall i :: 0 <= i < |properties| ==> properties[i].columnID != c)
                  ==> cols[c] == None)
  {
    var base := Resize([], maxColumnID + 1)[NBR_ID_COLUMN_ID := Some(Column(nbrIDColumnName, INTERNAL_ID, None))];
    PlacePropertiesAt(base, properties, NBR_ID_COLUMN_ID);
    forall i | 0 <= i < |properties|
      ensures PlaceProperties(base, properties)[properties[i].columnID] == Some(properties[i].column)
    {
      PlacePropertiesAt(base, properties, properties[i].columnID);
    }
    forall c | NBR_ID_COLUMN_ID < c <= maxColumnID && (forall i :: 0 <= i < |properties| ==> properties[i].columnID != c)
      ensures PlaceProperties(base, properties)[c] == None
    {
      PlacePropertiesAt(base, properties, c);
    }
  }

  /** A column given the table id all its internal ids point into. */
  function WithCommonTableID(c: Option<Column>, tableID: nat): Option<Column>
    requires c.Some?
  {
    Some(c.value.(commonTableID := Some(tableID)))
  }

  // ---------------------------------------------------------------------
  // The table data
  // ---------------------------------------------------------------------

  class RelTableData {
    const tableID: nat
    /** The property columns by column id; an empty slot is a column moved out by checkpoint. */
    var columns: seq<Option<Column>>
    var nodeGroups: seq<NodeGroup>
    /** The node-group collection's count of rows. */
    var numTotalRows: int

    /**
     * The constructor: no node groups and no rows yet, and the property
     * columns set up by initPropertyColumns from the catalog entry.
     */
    constructor (tableID: nat, maxColumnID: nat, nbrIDColumnName: string, properties: seq<PropertyColumn>,
                 nbrTableID: nat)
      requires forall i :: 0 <= i < |properties| ==> properties[i].columnID <= maxColumnID
      requires InternalIDColumnsAt(InitialColumns([], maxColumnID, nbrIDColumnName, properties))
      ensures this.tableID == tableID && nodeGroups == [] && numTotalRows == 0
      ensures var initial := InitialColumns([], maxColumnID, nbrIDColumnName, properties);
              columns == initial[NBR_ID_COLUMN_ID := WithCommonTableID(initial[NBR_ID_COLUMN_ID], nbrTableID)]
                                [REL_ID_COLUMN_ID := WithCommonTableID(initial[REL_ID_COLUMN_ID], tableID)]
    {
      this.tableID := tableID;
      columns := [];
      nodeGroups := [];
      numTotalRows := 0;
      new;
      InitPropertyColumns(maxColumnID, nbrIDColumnName, properties, nbrTableID);
    }

    /**
     * initPropertyColumns: sizes the column list to the catalog's largest
     * column id, puts the neighbour-id column at its slot and each property's
     * column at its id, then makes every neighbour id point into the
     * neighbour table and every rel id into this table.
     */
    method InitPropertyColumns(maxColumnID: nat, nbrIDColumnName: string, properties: seq<PropertyColumn>,
                               nbrTableID: nat)
      requires forall i :: 0 <= i < |properties| ==> properties[i].columnID <= maxColumnID
      requires InternalIDColumnsAt(InitialColumns(columns, maxColumnID, nbrIDColumnName, properties))
      modifies this`columns
      ensures var initial := InitialColumns(old(columns), maxColumnID, nbrIDColumnName, properties);
              columns == initial[NBR_ID_COLUMN_ID := WithCommonTableID(initial[NBR_ID_COLUMN_ID], nbrTableID)]
                                [REL_ID_COLUMN_ID := WithCommonTableID(initial[REL_ID_COLUMN_ID], tableID)]
    {
      columns := Resize(columns, maxColumnID + 1);
      columns := columns[NBR_ID_COLUMN_ID := Some(Column(nbrIDColumnName, INTERNAL_ID, None))];
      ghost var base := columns;
      var i := 0;
      while i < |properties|
        invariant 0 <= i <= |properties|
        invariant |columns| == maxColumnID + 1
        invariant columns == PlaceProperties(base, properties[..i])
      {
        assert properties[..i + 1][..i] == properties[..i];
        columns := columns[properties[i].columnID := Some(properties[i].column)];
        i := i + 1;
      }
      assert properties[..i] == properties;
      columns := columns[NBR_ID_COLUMN_ID := WithCommonTableID(columns[NBR_ID_COLUMN_ID], nbrTableID)];
      columns := columns[REL_ID_COLUMN_ID := WithCommonTableID(columns[REL_ID_COLUMN_ID], tableID)];
    }

    /** addColumn: the new column is appended after the existing ones, which stay where they are. */
    method AddColumn(column: Column)
      modifies this`columns
      ensures columns == old(columns) + [Some(column)]
      ensures |columns| == old(|columns|) + 1 && columns[..old(|columns|)] == old(columns)
    {
      columns := columns + [Some(column)];
    }

    /**
     * findMatchingRow: goes through the scan's batches in order and, within
     * a batch, through its rels in order, and stops at the first rel whose
     * rel-id offset is the one sought.
     */
    method FindMatchingRow(relOffset: uint64, batches: seq<ScanBatch>) returns (source: ScanSource, rowIdx: uint64)
      ensures (source, rowIdx) == FirstMatch(batches, relOffset)
      ensures rowIdx == INVALID_ROW_IDX <==> !HasMatch(batches, relOffset)
    {
      rowIdx := INVALID_ROW_IDX;
      source := NONE;
      var b := 0;
      while b < |batches|
        invariant 0 <= b <= |batches|
        invariant rowIdx == INVALID_ROW_IDX && source == NONE
        invariant FirstMatch(batches, relOffset) == FirstMatch(batches[b..], relOffset)
      {
        var rels := batches[b].rels;
        var j := 0;
        while j < |rels|
          invariant 0 <= j <= |rels|
          invariant rowIdx == INVALID_ROW_IDX && source == NONE
          invariant FirstInBatch(rels, relOffset) == FirstInBatch(rels[j..], relOffset)
        {
          if rels[j].relOffset == relOffset {
            rowIdx := rels[j].rowIdx;
            source := batches[b].source;
            break;
          }
          assert rels[j..][1..] == rels[j + 1..];
          j := j + 1;
        }
        if rowIdx != INVALID_ROW_IDX {
          break;
        }
        assert batches[b..][1..] == batches[b + 1..];
        b := b + 1;
      }
      FirstMatchCorrect(batches, relOffset);
    }

    /**
     * checkIfNodeHasRels: false for a node whose group does not exist yet;
     * otherwise true as soon as a scan batch selects a rel, false if none does.
     */
    method CheckIfNodeHasRels(nodeGroupIdx: nat, batches: seq<ScanBatch>) returns (r: bool)
      ensures r <==> nodeGroupIdx < |nodeGroups| && exists b :: 0 <= b < |batches| && |batches[b].rels| > 0
    {
      if nodeGroupIdx >= |nodeGroups| {
        return false;
      }
      var b := 0;
      while b < |batches|
        invariant 0 <= b <= |batches|
        invariant forall k :: 0 <= k < b ==> |batches[k].rels| == 0
      {
        if |batches[b].rels| > 0 {
          return true;
        }
        b := b + 1;
      }
      return false;
    }

    /**
     * update: with a null bound node or a null rel id, reports false and
     * changes nothing. Otherwise the rel must be found; the update is applied
     * to that row of the bound node's group and true is reported.
     */
    method Update(boundNodeIsNull: bool, relIDIsNull: bool, nodeGroupIdx: nat, relOffset: uint64,
                  batches: seq<ScanBatch>, columnID: nat, data: int) returns (r: bool)
      requires !boundNodeIsNull && !relIDIsNull ==>
                 nodeGroupIdx < |nodeGroups| && FirstMatch(batches, relOffset).1 != INVALID_ROW_IDX
      modifies this`nodeGroups
      ensures r <==> !boundNodeIsNull && !relIDIsNull
      ensures !r ==> nodeGroups == old(nodeGroups)
      ensures r ==> var (source, rowIdx) := FirstMatch(batches, relOffset);
                    var g := old(nodeGroups)[nodeGroupIdx];
                    rowIdx != INVALID_ROW_IDX &&
                    nodeGroups == old(nodeGroups)[nodeGroupIdx :=
                      g.(updates := g.updates + [CellUpdate(RowKey(source, rowIdx), columnID, data)])]
    {
      if boundNodeIsNull || relIDIsNull {
        return false;
      }
      var source, rowIdx := FindMatchingRow(relOffset, batches);
      var g := nodeGroups[nodeGroupIdx];
      nodeGroups := nodeGroups[nodeGroupIdx := g.(updates := g.updates + [CellUpdate(RowKey(source, rowIdx), columnID, data)])];
      return true;
    }

    /**
     * delete_: with a null input or no matching rel, reports false and
     * changes nothing. Otherwise it deletes the row in the bound node's group
     * and reports whether the row was newly deleted; only a newly deleted row,
     * in a transaction that keeps an undo buffer, gets a one-row delete entry
     * naming the group, the row and the handler of the row's source.
     */
    method Delete(txn: Transaction, boundNodeIsNull: bool, relIDIsNull: bool, nodeGroupIdx: nat,
                  relOffset: uint64, batches: seq<ScanBatch>) returns (r: bool)
      requires !boundNodeIsNull && !relIDIsNull ==> nodeGroupIdx < |nodeGroups| && CommittedSources(batches)
      modifies this`nodeGroups, txn`undoBuffer
      ensures boundNodeIsNull || relIDIsNull || !HasMatch(batches, relOffset) ==>
                !r && nodeGroups == old(nodeGroups) && txn.undoBuffer == old(txn.undoBuffer)
      ensures !boundNodeIsNull && !relIDIsNull && HasMatch(batches, relOffset) ==>
                var (source, rowIdx) := FirstMatch(batches, relOffset);
                var g := old(nodeGroups)[nodeGroupIdx];
                && source != NONE && rowIdx != INVALID_ROW_IDX
                && (r <==> RowKey(source, rowIdx) !in g.deletedRows)
                && nodeGroups == old(nodeGroups)[nodeGroupIdx := g.(deletedRows := g.deletedRows + {RowKey(source, rowIdx)})]
                && txn.undoBuffer == old(txn.undoBuffer)
                     + (if r && txn.shouldAppendToUndoBuffer
                        then [DeleteInfo(nodeGroupIdx, rowIdx, 1, GetVersionRecordHandler(source))] else [])
    {
      if boundNodeIsNull || relIDIsNull {
        return false;
      }
      var source, rowIdx := FindMatchingRow(relOffset, batches);
      if rowIdx == INVALID_ROW_IDX {
        return false;
      }
      FirstMatchCommitted(batches, relOffset);
      var g := nodeGroups[nodeGroupIdx];
      var key := RowKey(source, rowIdx);
      var isDeleted := key !in g.deletedRows;
      nodeGroups := nodeGroups[nodeGroupIdx := g.(deletedRows := g.deletedRows + {key})];
      if isDeleted && txn.shouldAppendToUndoBuffer {
        txn.undoBuffer := txn.undoBuffer + [DeleteInfo(nodeGroupIdx, rowIdx, 1, GetVersionRecordHandler(source))];
      }
      return isDeleted;
    }

    /**
     * pushInsertInfo: records `numRows_` inserted rows of a node group,
     * starting where InsertStart says, with the handler of the source; the
     * collection adds the rows to its count when InsertStart says so. Rows go
     * straight to the persistent data only while that data is absent or empty.
     */
    method PushInsertInfo(txn: Transaction, nodeGroupIdx: nat, numRows_: nat, source: ScanSource)
      requires nodeGroupIdx < |nodeGroups|
      requires source != NONE
      requires source == COMMITTED_PERSISTENT ==>
                 nodeGroups[nodeGroupIdx].persistentChunkedGroup.None?
                 || nodeGroups[nodeGroupIdx].persistentChunkedGroup.value.numRows == 0
      modifies this`numTotalRows, txn`undoBuffer
      ensures var (startRow, increment) := InsertStart(source, nodeGroups[nodeGroupIdx].numRows);
              && txn.undoBuffer == old(txn.undoBuffer)
                   + (if txn.shouldAppendToUndoBuffer
                      then [InsertInfo(nodeGroupIdx, startRow, numRows_, GetVersionRecordHandler(source))] else [])
              && numTotalRows == old(numTotalRows) + (if increment then numRows_ else 0)
    {
      var (startRow, shouldIncrementNumRows) := InsertStart(source, nodeGroups[nodeGroupIdx].numRows);
      // NodeGroupCollection::pushInsertInfo
      if txn.shouldAppendToUndoBuffer {
        txn.undoBuffer := txn.undoBuffer + [InsertInfo(nodeGroupIdx, startRow, numRows_, GetVersionRecordHandler(source))];
      }
      if shouldIncrementNumRows {
        numTotalRows := numTotalRows + numRows_;
      }
    }

    /**
     * checkpoint: the column list becomes, in order, the columns the given
     * ids name, each moved out of its old slot.
     */
    method Checkpoint(columnIDs: seq<nat>)
      requires forall i :: 0 <= i < |columnIDs| ==> columnIDs[i] < |columns|
      modifies this`columns
      ensures columns == CheckpointColumns(old(columns), columnIDs)
    {
      var checkpointColumns: seq<Option<Column>> := [];
      var source := columns;
      ghost var original := columns;
      var i := 0;
      while i < |columnIDs|
        invariant 0 <= i <= |columnIDs|
        invariant |source| == |original|
        invariant checkpointColumns == CheckpointColumns(original, columnIDs[..i])
        invariant forall c :: 0 <= c < |source| ==>
                    source[c] == if c in columnIDs[..i] then None else original[c]
      {
        var columnID := columnIDs[i];
        assert columnIDs[..i + 1][..i] == columnIDs[..i];
        checkpointColumns := checkpointColumns + [source[columnID]];
        source := source[columnID := None];
        assert columnIDs[..i + 1] == columnIDs[..i] + [columnID];
        i := i + 1;
      }
      assert columnIDs[..i] == columnIDs;
      columns := checkpointColumns;
    }

    /**
     * rollbackGroupCollectionInsert: the collection takes the rows off its
     * count only when they were not persistent rows (the flag is passed on
     * negated).
     */
    method RollbackGroupCollectionInsert(numRows_: nat, isPersistent: bool)
      modifies this`numTotalRows
      ensures numTotalRows == old(numTotalRows) - (if !isPersistent then numRows_ else 0)
    {
      var updateNumRows := !isPersistent;
      // NodeGroupCollection::rollbackInsert
      if updateNumRows {
        numTotalRows := numTotalRows - numRows_;
      }
    }
  }

  // ---------------------------------------------------------------------
  // The version-record handlers
  // ---------------------------------------------------------------------

  class PersistentVersionRecordHandler {
    const relTableData: RelTableData

    constructor (relTableData: RelTableData)
      ensures this.relTableData == relTableData
    {
      this.relTableData := relTableData;
    }

    /**
     * applyFuncToChunkedGroups: applies the function to the group's
     * persistent chunked group; a group that does not exist or has no
     * persistent chunked group is left alone, and nothing else changes.
     */
    method ApplyFuncToChunkedGroups(func: ChunkFunc, nodeGroupIdx: nat, startRow: nat, numRows: nat, commitTS: nat)
      modifies relTableData`nodeGroups
      ensures nodeGroupIdx >= |old(relTableData.nodeGroups)|
              || old(relTableData.nodeGroups)[nodeGroupIdx].persistentChunkedGroup.None? ==>
                relTableData.nodeGroups == old(relTableData.nodeGroups)
      ensures nodeGroupIdx < |old(relTableData.nodeGroups)|
              && old(relTableData.nodeGroups)[nodeGroupIdx].persistentChunkedGroup.Some? ==>
                var g := old(relTableData.nodeGroups)[nodeGroupIdx];
                relTableData.nodeGroups == old(relTableData.nodeGroups)[nodeGroupIdx :=
                  g.(persistentChunkedGroup := Some(func(g.persistentChunkedGroup.value, startRow, numRows, commitTS)))]
    {
      if nodeGroupIdx < |relTableData.nodeGroups| {
        var g := relTableData.nodeGroups[nodeGroupIdx];
        if g.persistentChunkedGroup.Some? {
          var chunk := func(g.persistentChunkedGroup.value, startRow, numRows, commitTS);
          relTableData.nodeGroups := relTableData.nodeGroups[nodeGroupIdx := g.(persistentChunkedGroup := Some(chunk))];
        }
      }
    }

    /**
     * rollbackInsert: the chunk-level rollback of the base handler, applied to
     * the group's persistent chunked group with the full `numRows` (no clamp),
     * then the collection's rollback with the persistent flag set, which
     * leaves the collection's row count as it is. Other groups are untouched.
     */
    method RollbackInsert(chunkRollbackInsert: ChunkFunc, commitTS: nat, nodeGroupIdx: nat, startRow: nat, numRows: nat)
      modifies relTableData`nodeGroups, relTableData`numTotalRows
      ensures relTableData.numTotalRows == old(relTableData.numTotalRows)
      ensures nodeGroupIdx >= |old(relTableData.nodeGroups)|
              || old(relTableData.nodeGroups)[nodeGroupIdx].persistentChunkedGroup.None? ==>
                relTableData.nodeGroups == old(relTableData.nodeGroups)
      ensures nodeGroupIdx < |old(relTableData.nodeGroups)|
              && old(relTableData.nodeGroups)[nodeGroupIdx].persistentChunkedGroup.Some? ==>
                var g := old(relTableData.nodeGroups)[nodeGroupIdx];
                relTableData.nodeGroups == old(relTableData.nodeGroups)[nodeGroupIdx :=
                  g.(persistentChunkedGroup := Some(chunkRollbackInsert(g.persistentChunkedGroup.value, startRow, numRows, commitTS)))]
    {
      // VersionRecordHandler::rollbackInsert
      ApplyFuncToChunkedGroups(chunkRollbackInsert, nodeGroupIdx, startRow, numRows, commitTS);
      relTableData.RollbackGroupCollectionInsert(numRows, true);
    }
  }

  class InMemoryVersionRecordHandler {
    const relTableData: RelTableData

    constructor (relTableData: RelTableData)
      ensures this.relTableData == relTableData
    {
      this.relTableData := relTableData;
    }

    /** applyFuncToChunkedGroups: applies the function to the group's in-memory chunked groups. */
    method ApplyFuncToChunkedGroups(func: ChunkFunc, nodeGroupIdx: nat, startRow: nat, numRows: nat, commitTS: nat)
      requires nodeGroupIdx < |relTableData.nodeGroups|
      modifies relTableData`nodeGroups
      ensures var g := old(relTableData.nodeGroups)[nodeGroupIdx];
              relTableData.nodeGroups == old(relTableData.nodeGroups)[nodeGroupIdx :=
                g.(inMemoryChunkedGroups := func(g.inMemoryChunkedGroups, startRow, numRows, commitTS))]
    {
      var g := relTableData.nodeGroups[nodeGroupIdx];
      var chunk := func(g.inMemoryChunkedGroups, startRow, numRows, commitTS);
      relTableData.nodeGroups := relTableData.nodeGroups[nodeGroupIdx := g.(inMemoryChunkedGroups := chunk)];
    }

    /**
     * rollbackInsert: the chunk-level rollback of the base handler; then the
     * group's rows from `startRow` on are dropped, and the collection's count
     * shrinks by RollbackCount, computed from the group's rows before the drop.
     */
    method RollbackInsert(chunkRollbackInsert: ChunkFunc, commitTS: nat, nodeGroupIdx: nat, startRow: uint64, numRows: uint64)
      requires nodeGroupIdx < |relTableData.nodeGroups|
      requires relTableData.nodeGroups[nodeGroupIdx].numRows < 0x1_0000_0000_0000_0000
      modifies relTableData`nodeGroups, relTableData`numTotalRows
      ensures var g := old(relTableData.nodeGroups)[nodeGroupIdx];
              && relTableData.numTotalRows == old(relTableData.numTotalRows) - RollbackCount(numRows, g.numRows, startRow)
              && relTableData.nodeGroups == old(relTableData.nodeGroups)[nodeGroupIdx :=
                   g.(numRows := if startRow < g.numRows then startRow else g.numRows,
                      inMemoryChunkedGroups := chunkRollbackInsert(g.inMemoryChunkedGroups, startRow, numRows, commitTS))]
    {
      // VersionRecordHandler::rollbackInsert
      ApplyFuncToChunkedGroups(chunkRollbackInsert, nodeGroupIdx, startRow, numRows, commitTS);
      var g := relTableData.nodeGroups[nodeGroupIdx];
      var numRowsToRollback := RollbackCount(numRows, g.numRows, startRow);
      // NodeGroup::rollbackInsert
      relTableData.nodeGroups := relTableData.nodeGroups[nodeGroupIdx :=
        g.(numRows := if startRow < g.numRows then startRow else g.numRows)];
      relTableData.RollbackGroupCollectionInsert(numRowsToRollback, false);
    }
  }

  // ---------------------------------------------------------------------
  // Properties across operations
  // ---------------------------------------------------------------------

  /**
   * Deleting the same rel twice: the first delete reports whether the row
   * was live and pushes at most the one undo entry for it; the second finds
   * the row already deleted, reports false, and adds no undo entry.
   */
  method DeleteTwice(data: RelTableData, txn: Transaction, nodeGroupIdx: nat, relOffset: uint64, batches: seq<ScanBatch>)
      returns (first: bool, second: bool)
    requires nodeGroupIdx < |data.nodeGroups| && CommittedSources(batches)
    modifies data`nodeGroups, txn`undoBuffer
    ensures !second
    ensures !HasMatch(batches, relOffset) ==> !first && txn.undoBuffer == old(txn.undoBuffer)
    ensures HasMatch(batches, relOffset) ==>
              var (source, rowIdx) := FirstMatch(batches, relOffset);
              && source != NONE && rowIdx != INVALID_ROW_IDX
              && (first <==> RowKey(source, rowIdx) !in old(data.nodeGroups)[nodeGroupIdx].deletedRows)
              && txn.undoBuffer == old(txn.undoBuffer)
                   + (if first && txn.shouldAppendToUndoBuffer
                      then [DeleteInfo(nodeGroupIdx, rowIdx, 1, GetVersionRecordHandler(source))] else [])
  {
    first := data.Delete(txn, false, false, nodeGroupIdx, relOffset, batches);
    ghost var afterFirst := txn.undoBuffer;
    second := data.Delete(txn, false, false, nodeGroupIdx, relOffset, batches);
    assert txn.undoBuffer == afterFirst;
  }

  /**
   * An in-memory insert whose rows landed in the group, rolled back through
   * the in-memory handler, leaves the collection's row count as it was before
   * the insert.
   */
  method InsertThenRollback(data: RelTableData, handler: InMemoryVersionRecordHandler, txn: Transaction,
                            chunkRollbackInsert: ChunkFunc, nodeGroupIdx: nat, numRows: uint64)
    requires handler.relTableData == data
    requires nodeGroupIdx < |data.nodeGroups|
    requires data.nodeGroups[nodeGroupIdx].numRows + numRows < 0x1_0000_0000_0000_0000
    modifies data`numTotalRows, data`nodeGroups, txn`undoBuffer
    ensures data.numTotalRows == old(data.numTotalRows)
    ensures |data.nodeGroups| == old(|data.nodeGroups|)
    ensures data.nodeGroups[nodeGroupIdx].numRows == old(data.nodeGroups[nodeGroupIdx].numRows)
  {
    var startRow := data.nodeGroups[nodeGroupIdx].numRows;
    data.PushInsertInfo(txn, nodeGroupIdx, numRows, COMMITTED_IN_MEMORY);
    // the inserted rows are appended to the group
    var g := data.nodeGroups[nodeGroupIdx];
    data.nodeGroups := data.nodeGroups[nodeGroupIdx := g.(numRows := startRow + numRows)];
    handler.RollbackInsert(chunkRollbackInsert, 0, nodeGroupIdx, startRow, numRows);
  }
}
