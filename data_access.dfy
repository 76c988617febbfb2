/**
 * The data layer: reads the System A (JSON) and System B (CSV) exports,
 * normalises each record's status code and appends one canonical `Order`
 * per record to the `Orders` list, System A first.
 */
module OsihData {
  import opened OsihModel

  const SystemA := "SystemA"
  const SystemB := "SystemB"

  const Pending := "Pending"
  const Processing := "Processing"
  const Shipped := "Shipped"
  const Completed := "Completed"
  const Cancelled := "Cancelled"
  const Unknown := "Unknown"

  /** The six canonical statuses. */
  const CanonicalStatuses: set<string> := {Pending, Processing, Shipped, Completed, Cancelled, Unknown}

  /** The five recognised statuses, in workflow order. */
  const StatusOrder: seq<string> := [Pending, Processing, Shipped, Completed, Cancelled]

  /** System A's codes and System B's codes, index for index with `StatusOrder`. */
  const SystemACodes: seq<string> := ["PEND", "PROC", "SHIP", "COMP", "CANC"]
  const SystemBCodes: seq<string> := ["1", "2", "3", "4", "5"]

  /**
   * Maps a source system's raw status code onto a canonical status. Total:
   * an unknown system, an unmapped code and a missing code all give `Unknown`.
   */
  function NormalizeStatus(system: string, status: Option<string>): (r: string)
    ensures r in CanonicalStatuses
  {
    if system == SystemA then
      match status
      case Some("PEND") => Pending
      case Some("PROC") => Processing
      case Some("SHIP") => Shipped
      case Some("COMP") => Completed
      case Some("CANC") => Cancelled
      case _ => Unknown
    else if system == SystemB then
      match status
      case Some("1") => Pending
      case Some("2") => Processing
      case Some("3") => Shipped
      case Some("4") => Completed
      case Some("5") => Cancelled
      case _ => Unknown
    else
      Unknown
  }

  /** Each system's lookup table, as configuration data keyed by system name. */
  const StatusTables: map<string, map<string, string>> := map[
    SystemA := map["PEND" := Pending, "PROC" := Processing, "SHIP" := Shipped, "COMP" := Completed, "CANC" := Cancelled],
    SystemB := map["1" := Pending, "2" := Processing, "3" := Shipped, "4" := Completed, "5" := Cancelled]
  ]

  /**
   * The normaliser is a lookup in a per-system table, with `Unknown` for an
   * unknown system, a missing code or a code outside the table.
   */
  lemma NormalizeStatusIsTableLookup(system: string, status: Option<string>)
    ensures NormalizeStatus(system, status) ==
      if system in StatusTables && status.Some? && status.value in StatusTables[system]
      then StatusTables[system][status.value]
      else Unknown
  {
  }

  /** Code k of System A and code k of System B both mean the k-th status of the workflow. */
  lemma NormalizeStatusCodesAligned(k: nat)
    requires k < 5
    ensures NormalizeStatus(SystemA, Some(SystemACodes[k])) == StatusOrder[k]
    ensures NormalizeStatus(SystemB, Some(SystemBCodes[k])) == StatusOrder[k]
  {
  }

  /** `Unknown` comes out exactly when the pair is not one of the ten recognised ones. */
  lemma NormalizeStatusUnknownExactly(system: string, status: Option<string>)
    ensures NormalizeStatus(system, status) == Unknown <==>
      !(system == SystemA && status.Some? && status.value in SystemACodes) &&
      !(system == SystemB && status.Some? && status.value in SystemBCodes)
  {
  }

  /** One element of the System A JSON array (`OrderA_DTO`). */
  datatype OrderA = OrderA(
    orderID: Option<string>,
    customer: Option<string>,
    orderDate: string,
    totalAmount: Option<Amount>,
    status: Option<string>)

  /** One data row of the System B CSV file (`OrderB_DTO`). */
  datatype OrderB = OrderB(
    order_num: Option<string>,
    client_name: Option<string>,
    date_placed: string,
    total: Option<Amount>,
    order_status: Option<string>)

  /**
   * What the System A reader finds: no file, a file whose JSON is `null`,
   * or a deserialised array of records.
   */
  datatype SystemAFile = MissingA | JsonNull | JsonList(items: seq<OrderA>)

  /** What the System B reader finds: no file, or the CSV data rows. */
  datatype SystemBFile = MissingB | CsvRows(rows: seq<OrderB>)

  /** The canonical record for one System A item; dates go through `parseDate`. */
  function OrderFromA(item: OrderA, parseDate: string -> Date): Order
  {
    Order(item.orderID, SystemA, item.customer, Some(parseDate(item.orderDate)),
          item.totalAmount, NormalizeStatus(SystemA, item.status))
  }

  /** The canonical record for one System B row; dates go through `parseDate`. */
  function OrderFromB(row: OrderB, parseDate: string -> Date): Order
  {
    Order(row.order_num, SystemB, row.client_name, Some(parseDate(row.date_placed)),
          row.total, NormalizeStatus(SystemB, row.order_status))
  }

  /**
   * The records System A items become, one per item and in item order: each
   * copies the id, customer and amount, is tagged SystemA, carries the parsed
   * date and the normalised status.
   */
  function MapSystemA(items: seq<OrderA>, parseDate: string -> Date): (r: seq<Order>)
    ensures |r| == |items|
    ensures forall k :: 0 <= k < |items| ==>
      r[k].orderId == items[k].orderID && r[k].customerName == items[k].customer &&
      r[k].totalAmount == items[k].totalAmount && r[k].sourceSystem == SystemA &&
      r[k].orderDate == Some(parseDate(items[k].orderDate)) &&
      r[k].status == NormalizeStatus(SystemA, items[k].status)
  {
    if items == [] then [] else [OrderFromA(items[0], parseDate)] + MapSystemA(items[1..], parseDate)
  }

  /** The records System B rows become, one per row and in row order, tagged SystemB. */
  function MapSystemB(rows: seq<OrderB>, parseDate: string -> Date): (r: seq<Order>)
    ensures |r| == |rows|
    ensures forall k :: 0 <= k < |rows| ==>
      r[k].orderId == rows[k].order_num && r[k].customerName == rows[k].client_name &&
      r[k].totalAmount == rows[k].total && r[k].sourceSystem == SystemB &&
      r[k].orderDate == Some(parseDate(rows[k].date_placed)) &&
      r[k].status == NormalizeStatus(SystemB, rows[k].order_status)
  {
    if rows == [] then [] else [OrderFromB(rows[0], parseDate)] + MapSystemB(rows[1..], parseDate)
  }

  /** Mapping one more item appends its record at the end. */
  lemma {:induction false} MapSystemASnoc(items: seq<OrderA>, item: OrderA, parseDate: string -> Date)
    ensures MapSystemA(items + [item], parseDate) == MapSystemA(items, parseDate) + [OrderFromA(item, parseDate)]
  {
    if items != [] {
      assert (items + [item])[1..] == items[1..] + [item];
      MapSystemASnoc(items[1..], item, parseDate);
    }
  }

  /** Mapping one more row appends its record at the end. */
  lemma {:induction false} MapSystemBSnoc(rows: seq<OrderB>, row: OrderB, parseDate: string -> Date)
    ensures MapSystemB(rows + [row], parseDate) == MapSystemB(rows, parseDate) + [OrderFromB(row, parseDate)]
  {
    if rows != [] {
      assert (rows + [row])[1..] == rows[1..] + [row];
      MapSystemBSnoc(rows[1..], row, parseDate);
    }
  }

  /** What one System A read contributes: nothing when the file is missing or holds `null`. */
  function IngestA(file: SystemAFile, parseDate: string -> Date): seq<Order>
  {
    if file.JsonList? then MapSystemA(file.items, parseDate) else []
  }

  /** What one System B read contributes: nothing when the file is missing. */
  function IngestB(file: SystemBFile, parseDate: string -> Date): seq<Order>
  {
    if file.CsvRows? then MapSystemB(file.rows, parseDate) else []
  }

  /** The list a freshly constructed `DataAccess` holds: System A's records, then System B's. */
  function Load(fileA: SystemAFile, fileB: SystemBFile, parseDate: string -> Date): seq<Order>
  {
    IngestA(fileA, parseDate) + IngestB(fileB, parseDate)
  }

  /**
   * After loading, the list is System A's records in item order followed by
   * System B's records in row order, so every SystemA record precedes every
   * SystemB record.
   */
  lemma LoadOrdering(fileA: SystemAFile, fileB: SystemBFile, parseDate: string -> Date)
    ensures var all := Load(fileA, fileB, parseDate);
      |all| == |IngestA(fileA, parseDate)| + |IngestB(fileB, parseDate)| &&
      all[..|IngestA(fileA, parseDate)|] == IngestA(fileA, parseDate) &&
      all[|IngestA(fileA, parseDate)|..] == IngestB(fileB, parseDate)
    ensures var all := Load(fileA, fileB, parseDate);
      forall i, j :: 0 <= i < |all| && 0 <= j < |all| && all[i].sourceSystem == SystemA && all[j].sourceSystem == SystemB ==> i < j
  {
    var a, b := IngestA(fileA, parseDate), IngestB(fileB, parseDate);
    var all := Load(fileA, fileB, parseDate);
    forall i | 0 <= i < |all| ensures (i < |a|) == (all[i].sourceSystem == SystemA) {
      if i < |a| { assert all[i] == a[i]; } else { assert all[i] == b[i - |a|]; }
    }
  }

  /** Every loaded record has a canonical status and a date. */
  lemma LoadInvariant(fileA: SystemAFile, fileB: SystemBFile, parseDate: string -> Date)
    ensures forall o :: o in Load(fileA, fileB, parseDate) ==> o.status in CanonicalStatuses && o.orderDate.Some?
  {
    var a, b := IngestA(fileA, parseDate), IngestB(fileB, parseDate);
    forall o: Order | o in a + b ensures o.status in CanonicalStatuses && o.orderDate.Some? {
      if o in a {
        var k :| 0 <= k < |a| && a[k] == o;
      } else {
        var k :| 0 <= k < |b| && b[k] == o;
      }
    }
  }

  /** With both exports absent, loading gives an empty list and does not fail. */
  lemma LoadNothing(parseDate: string -> Date)
    ensures Load(MissingA, MissingB, parseDate) == []
  {
  }

  /** The in-memory order store (`DataAccess`): a list filled once, at construction. */
  class DataAccess {
    var orders: seq<Order>

    /** Reads System A, then System B, into an initially empty list. */
    constructor (fileA: SystemAFile, fileB: SystemBFile, parseDate: string -> Date)
      ensures orders == Load(fileA, fileB, parseDate)
    {
      orders := [];
      new;
      ReadSystemA(fileA, parseDate);
      assert orders == IngestA(fileA, parseDate);
      ReadSystemB(fileB, parseDate);
    }

    /**
     * Appends one record per System A item, in item order, behind the records
     * already held; a missing file or a `null` document changes nothing.
     */
    method ReadSystemA(file: SystemAFile, parseDate: string -> Date)
      modifies this
      ensures file.JsonList? ==> orders == old(orders) + MapSystemA(file.items, parseDate)
      ensures !file.JsonList? ==> orders == old(orders)
    {
      if file.MissingA? {
        return;
      }
      if file.JsonList? {
        var items := file.items;
        for i := 0 to |items|
          invariant orders == old(orders) + MapSystemA(items[..i], parseDate)
        {
          assert items[..i + 1] == items[..i] + [items[i]];
          MapSystemASnoc(items[..i], items[i], parseDate);
          orders := orders + [OrderFromA(items[i], parseDate)];
        }
        assert items[..|items|] == items;
      }
    }

    /**
     * Appends one record per System B row, in row order, behind the records
     * already held; a missing file changes nothing.
     */
    method ReadSystemB(file: SystemBFile, parseDate: string -> Date)
      modifies this
      ensures file.CsvRows? ==> orders == old(orders) + MapSystemB(file.rows, parseDate)
      ensures file.MissingB? ==> orders == old(orders)
    {
      if file.MissingB? {
        return;
      }
      var rows := file.rows;
      for i := 0 to |rows|
        invariant orders == old(orders) + MapSystemB(rows[..i], parseDate)
      {
        assert rows[..i + 1] == rows[..i] + [rows[i]];
        MapSystemBSnoc(rows[..i], rows[i], parseDate);
        orders := orders + [OrderFromB(rows[i], parseDate)];
      }
      assert rows[..|rows|] == rows;
    }
  }
}
