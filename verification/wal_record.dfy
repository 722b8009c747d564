/**
 * The write-ahead log record types: the file-type and record-type tags with
 * their fixed one-byte codes, one value type per record payload with its
 * field-wise equality, and the tagged record itself.
 *
 * Each C++ record constructor copies its arguments into the fields of the
 * same name; here that constructor is the datatype constructor, so a record
 * built from some arguments holds exactly those arguments.
 */
module WalRecords {
  import opened Wrappers

  type uint8 = x: int | 0 <= x < 0x100
  type uint32 = x: int | 0 <= x < 0x1_0000_0000
  type uint64 = x: int | 0 <= x < 0x1_0000_0000_0000_0000

  /** common::table_id_t */
  type TableId = uint64
  /** common::page_idx_t */
  type PageIdx = uint32
  /** common::property_id_t */
  type PropertyId = uint32

  // ---------------------------------------------------------------------
  // Tags and their byte codes
  // ---------------------------------------------------------------------

  datatype DBFileType = NODE_INDEX | DATA | METADATA

  /** The underlying `uint8_t` of each file type. */
  function DBFileTypeCode(t: DBFileType): (code: uint8)
    ensures code <= 2
    ensures code == 0 <==> t == NODE_INDEX
    ensures code == 1 <==> t == DATA
    ensures code == 2 <==> t == METADATA
  {
    match t
    case NODE_INDEX => 0
    case DATA => 1
    case METADATA => 2
  }

  /** Reading a file-type byte back: only the three declared codes name a file type. */
  function DBFileTypeOfCode(code: uint8): (t: Option<DBFileType>)
    ensures t.Some? <==> code <= 2
    ensures t.Some? ==> DBFileTypeCode(t.value) == code
  {
    if code == 0 then Some(NODE_INDEX)
    else if code == 1 then Some(DATA)
    else if code == 2 then Some(METADATA)
    else None
  }

  lemma DBFileTypeCodeRoundTrip(t: DBFileType)
    ensures DBFileTypeOfCode(DBFileTypeCode(t)) == Some(t)
  {
  }

  datatype WALRecordType =
    | PAGE_UPDATE_OR_INSERT_RECORD
    | TABLE_STATISTICS_RECORD
    | COMMIT_RECORD
    | CATALOG_RECORD
    | CREATE_NODE_TABLE_RECORD
    | CREATE_REL_TABLE_RECORD
    | CREATE_REL_TABLE_GROUP_RECORD
    | CREATE_RDF_GRAPH_RECORD
    | OVERFLOW_FILE_NEXT_BYTE_POS_RECORD
    | COPY_NODE_RECORD
    | COPY_REL_RECORD
    | DROP_TABLE_RECORD
    | DROP_PROPERTY_RECORD
    | ADD_PROPERTY_RECORD

  /** The underlying `uint8_t` of each record type: 1 to 8, then 17 to 22. */
  function WALRecordTypeCode(t: WALRecordType): (code: uint8)
    ensures 1 <= code <= 8 || 17 <= code <= 22
  {
    match t
    case PAGE_UPDATE_OR_INSERT_RECORD => 1
    case TABLE_STATISTICS_RECORD => 2
    case COMMIT_RECORD => 3
    case CATALOG_RECORD => 4
    case CREATE_NODE_TABLE_RECORD => 5
    case CREATE_REL_TABLE_RECORD => 6
    case CREATE_REL_TABLE_GROUP_RECORD => 7
    case CREATE_RDF_GRAPH_RECORD => 8
    case OVERFLOW_FILE_NEXT_BYTE_POS_RECORD => 17
    case COPY_NODE_RECORD => 18
    case COPY_REL_RECORD => 19
    case DROP_TABLE_RECORD => 20
    case DROP_PROPERTY_RECORD => 21
    case ADD_PROPERTY_RECORD => 22
  }

  /** Reading a record-type byte back, as a log scan does before it knows the payload layout. */
  function WALRecordTypeOfCode(code: uint8): (t: Option<WALRecordType>)
    ensures t.Some? <==> (1 <= code <= 8 || 17 <= code <= 22)
    ensures t.Some? ==> WALRecordTypeCode(t.value) == code
  {
    match code
    case 1 => Some(PAGE_UPDATE_OR_INSERT_RECORD)
    case 2 => Some(TABLE_STATISTICS_RECORD)
    case 3 => Some(COMMIT_RECORD)
    case 4 => Some(CATALOG_RECORD)
    case 5 => Some(CREATE_NODE_TABLE_RECORD)
    case 6 => Some(CREATE_REL_TABLE_RECORD)
    case 7 => Some(CREATE_REL_TABLE_GROUP_RECORD)
    case 8 => Some(CREATE_RDF_GRAPH_RECORD)
    case 17 => Some(OVERFLOW_FILE_NEXT_BYTE_POS_RECORD)
    case 18 => Some(COPY_NODE_RECORD)
    case 19 => Some(COPY_REL_RECORD)
    case 20 => Some(DROP_TABLE_RECORD)
    case 21 => Some(DROP_PROPERTY_RECORD)
    case 22 => Some(ADD_PROPERTY_RECORD)
    case _ => None
  }

  /** Every record type reads back from its own code. */
  lemma WALRecordTypeCodeRoundTrip(t: WALRecordType)
    ensures WALRecordTypeOfCode(WALRecordTypeCode(t)) == Some(t)
  {
    match t
    case PAGE_UPDATE_OR_INSERT_RECORD =>
    case TABLE_STATISTICS_RECORD =>
    case COMMIT_RECORD =>
    case CATALOG_RECORD =>
    case CREATE_NODE_TABLE_RECORD =>
    case CREATE_REL_TABLE_RECORD =>
    case CREATE_REL_TABLE_GROUP_RECORD =>
    case CREATE_RDF_GRAPH_RECORD =>
    case OVERFLOW_FILE_NEXT_BYTE_POS_RECORD =>
    case COPY_NODE_RECORD =>
    case COPY_REL_RECORD =>
    case DROP_TABLE_RECORD =>
    case DROP_PROPERTY_RECORD =>
    case ADD_PROPERTY_RECORD =>
  }

  /** The codes are pairwise distinct, so the tag byte alone identifies the record type. */
  lemma WALRecordTypeCodeInjective(a: WALRecordType, b: WALRecordType)
    ensures WALRecordTypeCode(a) == WALRecordTypeCode(b) ==> a == b
  {
    WALRecordTypeCodeRoundTrip(a);
    WALRecordTypeCodeRoundTrip(b);
  }

  // ---------------------------------------------------------------------
  // Payloads and their operator==
  // ---------------------------------------------------------------------

  datatype NodeIndexID = NodeIndexID(tableID: TableId)

  function NodeIndexIDEq(lhs: NodeIndexID, rhs: NodeIndexID): (eq: bool)
    ensures eq <==> lhs == rhs
  {
    lhs.tableID == rhs.tableID
  }

  /**
   * A file id: its type, whether it names the overflow part of that file and,
   * for an index file, the node table it indexes. The C++ union holds the
   * index id only for NODE_INDEX; the other file ids carry a zero-filled one.
   */
  datatype DBFileID = DBFileID(dbFileType: DBFileType, isOverflow: bool, nodeIndexID: NodeIndexID)

  datatype PageUpdateOrInsertRecord = PageUpdateOrInsertRecord(
    dbFileID: DBFileID,
    pageIdxInOriginalFile: uint64,
    pageIdxInWAL: uint64,
    isInsert: bool)

  function PageUpdateOrInsertRecordEq(lhs: PageUpdateOrInsertRecord, rhs: PageUpdateOrInsertRecord): (eq: bool)
    ensures eq <==> lhs == rhs
  {
    lhs.dbFileID == rhs.dbFileID && lhs.pageIdxInOriginalFile == rhs.pageIdxInOriginalFile &&
    lhs.pageIdxInWAL == rhs.pageIdxInWAL && lhs.isInsert == rhs.isInsert
  }

  datatype CommitRecord = CommitRecord(transactionID: uint64)

  function CommitRecordEq(lhs: CommitRecord, rhs: CommitRecord): (eq: bool)
    ensures eq <==> lhs == rhs
  {
    lhs.transactionID == rhs.transactionID
  }

  datatype NodeTableRecord = NodeTableRecord(tableID: TableId)

  function NodeTableRecordEq(lhs: NodeTableRecord, rhs: NodeTableRecord): (eq: bool)
    ensures eq <==> lhs == rhs
  {
    lhs.tableID == rhs.tableID
  }

  datatype RelTableRecord = RelTableRecord(tableID: TableId)

  function RelTableRecordEq(lhs: RelTableRecord, rhs: RelTableRecord): (eq: bool)
    ensures eq <==> lhs == rhs
  {
    lhs.tableID == rhs.tableID
  }

  datatype RdfGraphRecord = RdfGraphRecord(
    tableID: TableId,
    resourceTableRecord: NodeTableRecord,
    literalTableRecord: NodeTableRecord,
    resourceTripleTableRecord: RelTableRecord,
    literalTripleTableRecord: RelTableRecord)

  /** Compares the graph id and the four nested table records with their own operator==. */
  function RdfGraphRecordEq(lhs: RdfGraphRecord, rhs: RdfGraphRecord): (eq: bool)
    ensures eq <==> lhs == rhs
  {
    lhs.tableID == rhs.tableID &&
    NodeTableRecordEq(lhs.resourceTableRecord, rhs.resourceTableRecord) &&
    NodeTableRecordEq(lhs.literalTableRecord, rhs.literalTableRecord) &&
    RelTableRecordEq(lhs.resourceTripleTableRecord, rhs.resourceTripleTableRecord) &&
    RelTableRecordEq(lhs.literalTripleTableRecord, rhs.literalTripleTableRecord)
  }

  /** The overflow cursor to restore on rollback. */
  datatype DiskOverflowFileNextBytePosRecord = DiskOverflowFileNextBytePosRecord(
    dbFileID: DBFileID,
    prevNextBytePosToWriteTo: uint64)

  function DiskOverflowFileNextBytePosRecordEq(
    lhs: DiskOverflowFileNextBytePosRecord, rhs: DiskOverflowFileNextBytePosRecord): (eq: bool)
    ensures eq <==> lhs == rhs
  {
    lhs.dbFileID == rhs.dbFileID && lhs.prevNextBytePosToWriteTo == rhs.prevNextBytePosToWriteTo
  }

  datatype CopyNodeRecord = CopyNodeRecord(tableID: TableId, startPageIdx: PageIdx)

  function CopyNodeRecordEq(lhs: CopyNodeRecord, rhs: CopyNodeRecord): (eq: bool)
    ensures eq <==> lhs == rhs
  {
    lhs.tableID == rhs.tableID && lhs.startPageIdx == rhs.startPageIdx
  }

  datatype CopyRelRecord = CopyRelRecord(tableID: TableId)

  function CopyRelRecordEq(lhs: CopyRelRecord, rhs: CopyRelRecord): (eq: bool)
    ensures eq <==> lhs == rhs
  {
    lhs.tableID == rhs.tableID
  }

  datatype TableStatisticsRecord = TableStatisticsRecord(isNodeTable: bool)

  function TableStatisticsRecordEq(lhs: TableStatisticsRecord, rhs: TableStatisticsRecord): (eq: bool)
    ensures eq <==> lhs == rhs
  {
    lhs.isNodeTable == rhs.isNodeTable
  }

  datatype DropTableRecord = DropTableRecord(tableID: TableId)

  function DropTableRecordEq(lhs: DropTableRecord, rhs: DropTableRecord): (eq: bool)
    ensures eq <==> lhs == rhs
  {
    lhs.tableID == rhs.tableID
  }

  datatype DropPropertyRecord = DropPropertyRecord(tableID: TableId, propertyID: PropertyId)

  function DropPropertyRecordEq(lhs: DropPropertyRecord, rhs: DropPropertyRecord): (eq: bool)
    ensures eq <==> lhs == rhs
  {
    lhs.tableID == rhs.tableID && lhs.propertyID == rhs.propertyID
  }

  datatype AddPropertyRecord = AddPropertyRecord(tableID: TableId, propertyID: PropertyId)

  function AddPropertyRecordEq(lhs: AddPropertyRecord, rhs: AddPropertyRecord): (eq: bool)
    ensures eq <==> lhs == rhs
  {
    lhs.tableID == rhs.tableID && lhs.propertyID == rhs.propertyID
  }

  // ---------------------------------------------------------------------
  // The tagged record
  // ---------------------------------------------------------------------

  /**
   * A log record: one variant per record type, carrying the payload that the
   * record type's factory fills in. The catalog record and the rel-table-group
   * record have no member in the C++ union, so they carry nothing.
   */
  datatype WALRecord =
    | PageUpdateOrInsert(pageInsertOrUpdateRecord: PageUpdateOrInsertRecord)
    | TableStatistics(tableStatisticsRecord: TableStatisticsRecord)
    | Commit(commitRecord: CommitRecord)
    | Catalog
    | CreateNodeTable(nodeTableRecord: NodeTableRecord)
    | CreateRelTable(relTableRecord: RelTableRecord)
    | CreateRelTableGroup
    | CreateRdfGraph(rdfGraphRecord: RdfGraphRecord)
    | OverflowFileNextBytePos(diskOverflowFileNextBytePosRecord: DiskOverflowFileNextBytePosRecord)
    | CopyNode(copyNodeRecord: CopyNodeRecord)
    | CopyRel(copyRelRecord: CopyRelRecord)
    | DropTable(dropTableRecord: DropTableRecord)
    | DropProperty(dropPropertyRecord: DropPropertyRecord)
    | AddProperty(addPropertyRecord: AddPropertyRecord)

  /** The `recordType` tag stored beside the union. */
  function RecordType(r: WALRecord): WALRecordType
  {
    match r
    case PageUpdateOrInsert(_) => PAGE_UPDATE_OR_INSERT_RECORD
    case TableStatistics(_) => TABLE_STATISTICS_RECORD
    case Commit(_) => COMMIT_RECORD
    case Catalog => CATALOG_RECORD
    case CreateNodeTable(_) => CREATE_NODE_TABLE_RECORD
    case CreateRelTable(_) => CREATE_REL_TABLE_RECORD
    case CreateRelTableGroup => CREATE_REL_TABLE_GROUP_RECORD
    case CreateRdfGraph(_) => CREATE_RDF_GRAPH_RECORD
    case OverflowFileNextBytePos(_) => OVERFLOW_FILE_NEXT_BYTE_POS_RECORD
    case CopyNode(_) => COPY_NODE_RECORD
    case CopyRel(_) => COPY_REL_RECORD
    case DropTable(_) => DROP_TABLE_RECORD
    case DropProperty(_) => DROP_PROPERTY_RECORD
    case AddProperty(_) => ADD_PROPERTY_RECORD
  }

  /**
   * The tag byte of a record selects its variant: two records with the same
   * code have the same kind of payload, which is what lets a log scan pick the
   * payload layout from the tag alone.
   */
  lemma TagCodeDeterminesVariant(a: WALRecord, b: WALRecord)
    requires WALRecordTypeCode(RecordType(a)) == WALRecordTypeCode(RecordType(b))
    ensures RecordType(a) == RecordType(b)
    ensures a.PageUpdateOrInsert? <==> b.PageUpdateOrInsert?
    ensures a.OverflowFileNextBytePos? <==> b.OverflowFileNextBytePos?
    ensures a.Commit? <==> b.Commit?
    ensures a.CreateRdfGraph? <==> b.CreateRdfGraph?
  {
    WALRecordTypeCodeInjective(RecordType(a), RecordType(b));
  }
}
