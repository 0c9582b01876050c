/**
 * The pure part of `update_excel`: the one-row table handed to pandas,
 * as a header of nine column names in a fixed order and one row of cells.
 * Writing it to an .xlsx file at a temporary path is not modelled.
 */
module Sheet {
  import opened Options
  import opened Parser

  /** The column names, in the order of the dictionary given to `pd.DataFrame`. */
  const Columns: seq<string> :=
    ["Order Number", "Date", "Customer", "Address", "Username", "Tray Type", "Quantity", "Status", "Timestamp"]

  /** The status every new row carries. */
  const Pending := "Pending"

  /** A table with one header row and one data row. */
  datatype Table = Table(header: seq<string>, row: seq<string>)

  /**
   * The table `update_excel` builds. `timestamp` stands for
   * `datetime.now().strftime('%Y-%m-%d %H:%M:%S')`, taken as given.
   */
  function BuildTable(info: TransferInfo, username: string, trayType: string, quantity: string,
                      timestamp: string): Table
  {
    Table(Columns,
          [info.orderNumber, info.date, info.customer, info.address,
           username, trayType, quantity, Pending, timestamp])
  }

  /** The position of `name` in `header`, if it is there. */
  function IndexOf(header: seq<string>, name: string): (r: Option<nat>)
    ensures r.Some? ==> r.value < |header| && header[r.value] == name
                        && forall k :: 0 <= k < r.value ==> header[k] != name
    ensures r.None? ==> name !in header
  {
    if header == [] then None
    else if header[0] == name then Some(0)
    else match IndexOf(header[1..], name)
         case None => None
         case Some(k) => Some(k + 1)
  }

  /** Read a cell the way a spreadsheet reader does: by the name in the header. */
  function Cell(t: Table, name: string): Option<string> {
    match IndexOf(t.header, name)
    case Some(k) => if k < |t.row| then Some(t.row[k]) else None
    case None => None
  }

  /** No column name appears twice, so reading by name is unambiguous. */
  lemma {:induction false} ColumnsDistinct()
    ensures forall a, b :: 0 <= a < b < |Columns| ==> Columns[a] != Columns[b]
  {
    var c := Columns;
    assert c[0][0] == 'O' && c[1][0] == 'D' && c[2][0] == 'C' && c[3][0] == 'A';
    assert c[4][0] == 'U' && c[5][0] == 'T' && c[6][0] == 'Q' && c[7][0] == 'S' && c[8][0] == 'T';
    assert c[5][1] == 'r' && c[8][1] == 'i';
    assert forall a, b :: 0 <= a < b < |c| && (a, b) != (5, 8) ==> c[a][0] != c[b][0];
  }

  /**
   * The table has nine columns in the fixed order, whatever the record
   * holds, and its one row has a cell under every column.
   */
  lemma {:induction false} TableShape(info: TransferInfo, username: string, trayType: string,
                                      quantity: string, timestamp: string)
    ensures var t := BuildTable(info, username, trayType, quantity, timestamp);
            && t.header == ["Order Number", "Date", "Customer", "Address", "Username",
                            "Tray Type", "Quantity", "Status", "Timestamp"]
            && |t.row| == |t.header| == 9
  {
  }

  /** In a header without repeated names, each name is found at its own position. */
  lemma {:induction false} IndexOfDistinct(header: seq<string>, k: nat)
    requires forall a, b :: 0 <= a < b < |header| ==> header[a] != header[b]
    requires k < |header|
    ensures IndexOf(header, header[k]) == Some(k)
  {
    var r := IndexOf(header, header[k]);
    assert header[k] in header;
    assert r.Some?;
  }

  /** A cell read by the name of column `k` is the row's `k`-th cell. */
  lemma {:induction false} CellOfColumn(t: Table, k: nat)
    requires t.header == Columns && |t.row| == |Columns| && k < |Columns|
    ensures Cell(t, Columns[k]) == Some(t.row[k])
  {
    ColumnsDistinct();
    IndexOfDistinct(Columns, k);
  }

  /** A name missing from the header reads as no cell. */
  lemma {:induction false} CellMissing(t: Table, name: string)
    requires name !in t.header
    ensures Cell(t, name) == None
  {
  }

  /**
   * Reading the table back by column name gives the parsed fields and the
   * parameters unchanged, "Pending" as the status, and nothing under any
   * other name.
   */
  lemma {:induction false} TableReadsBack(info: TransferInfo, username: string, trayType: string,
                                          quantity: string, timestamp: string, other: string)
    requires other !in Columns
    ensures var t := BuildTable(info, username, trayType, quantity, timestamp);
            && Cell(t, "Order Number") == Some(info.orderNumber)
            && Cell(t, "Date") == Some(info.date)
            && Cell(t, "Customer") == Some(info.customer)
            && Cell(t, "Address") == Some(info.address)
            && Cell(t, "Username") == Some(username)
            && Cell(t, "Tray Type") == Some(trayType)
            && Cell(t, "Quantity") == Some(quantity)
            && Cell(t, "Status") == Some("Pending")
            && Cell(t, "Timestamp") == Some(timestamp)
            && Cell(t, other) == None
  {
    var t := BuildTable(info, username, trayType, quantity, timestamp);
    CellOfColumn(t, 0);
    CellOfColumn(t, 1);
    CellOfColumn(t, 2);
    CellOfColumn(t, 3);
    CellOfColumn(t, 4);
    CellOfColumn(t, 5);
    CellOfColumn(t, 6);
    CellOfColumn(t, 7);
    CellOfColumn(t, 8);
    CellMissing(t, other);
  }
}
