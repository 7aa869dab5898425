/** One (builder, day) report: the fee column chosen per row, the sum over
    the rows (`sumFees`) and the mapping of fetch and decode outcomes to a
    day's sum (`sumForDate`). */
module Fees {
  import opened Wrappers

  /** One parsed CSV row: column name to cell text. A column the report
      does not have is a key the map does not have. */
  type Row = map<string, string>

  /** The candidate fee columns, in the order they are consulted. */
  const FeeColumns: seq<string> := ["fee_usdc", "builder_fee_usdc", "fee", "builder_fee"]

  /** What `fetch` of a report URL gives: a non-ok response, the body bytes,
      or an exception (from `fetch` itself or from reading the body). */
  datatype FetchOutcome = NotOk | Body(bytes: seq<bv8>) | Throws(message: string)

  /** The collaborators the handler calls but does not implement: the
      archive behind `fetch`, LZ4 decompression followed by UTF-8 decoding
      (`None` when it throws), the CSV parser (`None` when it throws) and
      `Number` (`None` for NaN). */
  datatype Externals = Externals(
    fetch: string -> FetchOutcome,
    decompress: seq<bv8> -> Option<string>,
    parseCsv: string -> Option<seq<Row>>,
    toNumber: string -> Option<real>)

  /** The `??` chain over `columns`: the cell of the first column the row
      has, and nothing when it has none of them. */
  function FirstPresent(row: Row, columns: seq<string>): (r: Option<string>)
    ensures r.None? <==> forall k :: 0 <= k < |columns| ==> columns[k] !in row
    ensures forall k :: (0 <= k < |columns| && columns[k] in row && (forall j :: 0 <= j < k ==> columns[j] !in row))
                        ==> r == Some(row[columns[k]])
  {
    if columns == [] then None
    else if columns[0] in row then Some(row[columns[0]])
    else
      var r := FirstPresent(row, columns[1..]);
      assert forall k :: 1 <= k < |columns| ==> columns[k] == columns[1..][k - 1];
      r
  }

  /** What one row adds to the sum: `Number` of the first present fee
      column's cell, or 0 when no fee column is present or the cell is not
      a number. The first present column decides even when its cell is not
      a number: later columns are not consulted. */
  function RowFee(row: Row, toNumber: string -> Option<real>): (v: real)
    ensures (forall k :: 0 <= k < |FeeColumns| ==> FeeColumns[k] !in row) ==> v == 0.0
    ensures forall k :: (0 <= k < |FeeColumns| && FeeColumns[k] in row && (forall j :: 0 <= j < k ==> FeeColumns[j] !in row))
                        ==> v == (match toNumber(row[FeeColumns[k]]) case Some(x) => x case None => 0.0)
  {
    match FirstPresent(row, FeeColumns)
    case None => 0.0
    case Some(raw) => (match toNumber(raw) case Some(x) => x case None => 0.0)
  }

  /** Every row adds a fee of 0 or more. */
  predicate NoNegativeFee(rows: seq<Row>, toNumber: string -> Option<real>)
  {
    forall i :: 0 <= i < |rows| ==> RowFee(rows[i], toNumber) >= 0.0
  }

  /** The sum of the row fees, added up from the first row on. */
  function RowsTotal(rows: seq<Row>, toNumber: string -> Option<real>): (r: real)
    ensures NoNegativeFee(rows, toNumber) ==> r >= 0.0
  {
    if rows == [] then 0.0 else RowsTotal(rows[..|rows| - 1], toNumber) + RowFee(rows[|rows| - 1], toNumber)
  }

  lemma {:induction false} RowsTotalAppend(a: seq<Row>, b: seq<Row>, toNumber: string -> Option<real>)
    ensures RowsTotal(a + b, toNumber) == RowsTotal(a, toNumber) + RowsTotal(b, toNumber)
    decreases |b|
  {
    if b == [] {
      assert a + b == a;
    } else {
      assert (a + b)[..|a + b| - 1] == a + b[..|b| - 1];
      RowsTotalAppend(a, b[..|b| - 1], toNumber);
    }
  }

  /** The numbers in one column, a non-number counting as 0. */
  function ColumnSum(rows: seq<Row>, column: string, toNumber: string -> Option<real>): real
    requires forall i :: 0 <= i < |rows| ==> column in rows[i]
  {
    if rows == [] then 0.0
    else
      (match toNumber(rows[0][column]) case Some(x) => x case None => 0.0)
      + ColumnSum(rows[1..], column, toNumber)
  }

  /** The total is the first row's fee plus the total of the rest. */
  lemma RowsTotalFirst(rows: seq<Row>, toNumber: string -> Option<real>)
    requires rows != []
    ensures RowsTotal(rows, toNumber) == RowFee(rows[0], toNumber) + RowsTotal(rows[1..], toNumber)
  {
    assert rows == [rows[0]] + rows[1..];
    RowsTotalAppend([rows[0]], rows[1..], toNumber);
    assert [rows[0]][..0] == [];
  }

  lemma FeeOfColumn(row: Row, k: nat, toNumber: string -> Option<real>)
    requires k < |FeeColumns| && FeeColumns[k] in row
    requires forall j :: 0 <= j < k ==> FeeColumns[j] !in row
    ensures RowFee(row, toNumber) == (match toNumber(row[FeeColumns[k]]) case Some(x) => x case None => 0.0)
  {
  }

  /** A report whose rows all have candidate `k` and none of the candidates
      before it sums to the arithmetic sum of that column's numbers; later
      candidates are never consulted. */
  lemma {:induction false} RowsTotalOfOneColumn(rows: seq<Row>, k: nat, toNumber: string -> Option<real>)
    requires k < |FeeColumns|
    requires forall i :: 0 <= i < |rows| ==> FeeColumns[k] in rows[i]
    requires forall i, j :: 0 <= i < |rows| && 0 <= j < |FeeColumns| && j < k ==> FeeColumns[j] !in rows[i]
    ensures RowsTotal(rows, toNumber) == ColumnSum(rows, FeeColumns[k], toNumber)
  {
    if rows != [] {
      FeeOfColumn(rows[0], k, toNumber);
      RowsTotalOfOneColumn(rows[1..], k, toNumber);
      RowsTotalFirst(rows, toNumber);
    }
  }

  lemma RowsTotalStep(rows: seq<Row>, i: nat, toNumber: string -> Option<real>)
    requires i < |rows|
    ensures RowsTotal(rows[..i + 1], toNumber) == RowsTotal(rows[..i], toNumber) + RowFee(rows[i], toNumber)
  {
    assert rows[..i + 1][..i] == rows[..i];
  }

  /** `sumFees`: empty text is 0 without parsing; otherwise the parse either
      throws (`None`) or gives rows, whose fees are added one by one. */
  method SumFees(csvText: string, ext: Externals) returns (r: Option<real>)
    ensures csvText == "" ==> r == Some(0.0)
    ensures csvText != "" && ext.parseCsv(csvText).None? ==> r.None?
    ensures csvText != "" && ext.parseCsv(csvText).Some? ==> r == Some(RowsTotal(ext.parseCsv(csvText).value, ext.toNumber))
  {
    if csvText == "" {
      return Some(0.0);
    }
    var parsed := ext.parseCsv(csvText);
    if parsed.None? {
      return None;
    }
    var rows := parsed.value;
    var sum := 0.0;
    for i := 0 to |rows|
      invariant sum == RowsTotal(rows[..i], ext.toNumber)
    {
      var raw := FirstPresent(rows[i], FeeColumns);
      var v := if raw.None? then Some(0.0) else ext.toNumber(raw.value);
      RowsTotalStep(rows, i, ext.toNumber);
      if v.Some? {
        sum := sum + v.value;
      }
    }
    assert rows[..|rows|] == rows;
    return Some(sum);
  }

  const ArchiveBase: string := "https://stats-data.hyperliquid.xyz/Mainnet/builder_fills/"

  /** The archive URL of one builder's report for one day. */
  function ReportUrl(addr: string, day: string): (u: string)
  {
    ArchiveBase + addr + "/" + day + ".csv.lz4"
  }

  /** The URL is the archive base, the address, '/', the day and the
      `.csv.lz4` suffix, in that order. */
  lemma ReportUrlParts(addr: string, day: string)
    ensures var u := ReportUrl(addr, day);
      && |u| == |ArchiveBase| + |addr| + 1 + |day| + 8
      && u[..|ArchiveBase|] == ArchiveBase
      && u[|ArchiveBase|..|ArchiveBase| + |addr|] == addr && u[|ArchiveBase| + |addr|] == '/'
      && u[|ArchiveBase| + |addr| + 1..|u| - 8] == day && u[|u| - 8..] == ".csv.lz4"
  {
  }

  lemma SlashEndsAddress(a: string, tail: string)
    requires '/' !in a
    ensures (a + "/" + tail)[|a|] == '/'
    ensures forall k :: 0 <= k < |a| ==> (a + "/" + tail)[k] != '/'
  {
  }

  /** Distinct (address, day) pairs name distinct reports, as long as the
      two addresses have the same length (as every accepted address does)
      or contain no '/'. */
  lemma ReportUrlInjective(a1: string, d1: string, a2: string, d2: string)
    requires ('/' !in a1 && '/' !in a2) || |a1| == |a2|
    requires ReportUrl(a1, d1) == ReportUrl(a2, d2)
    ensures a1 == a2 && d1 == d2
  {
    var n := |ArchiveBase|;
    var t1, t2 := d1 + ".csv.lz4", d2 + ".csv.lz4";
    var rest := ReportUrl(a1, d1)[n..];
    assert rest == a1 + "/" + t1 && rest == a2 + "/" + t2;
    if '/' !in a1 && '/' !in a2 {
      SlashEndsAddress(a1, t1);
      SlashEndsAddress(a2, t2);
    }
    assert !(|a1| < |a2|) && !(|a2| < |a1|);
    assert a1 == rest[..|a1|] == a2;
    assert d1 == rest[|a1| + 1..|rest| - 8] == d2;
  }

  /** What `sumForDate` yields for one builder and day: a non-ok response,
      a decompression failure and a parse failure all give 0; an exception
      from `fetch` escapes. */
  function DayFee(addr: string, day: string, ext: Externals): (r: Result<real, string>)
    ensures r.Failure? <==> ext.fetch(ReportUrl(addr, day)).Throws?
    ensures r.Failure? ==> ext.fetch(ReportUrl(addr, day)) == Throws(r.error)
    ensures ext.fetch(ReportUrl(addr, day)).NotOk? ==> r == Success(0.0)
    ensures var f := ext.fetch(ReportUrl(addr, day));
      f.Body? && (ext.decompress(f.bytes).None? || ext.decompress(f.bytes).value == ""
                  || ext.parseCsv(ext.decompress(f.bytes).value).None?)
      ==> r == Success(0.0)
    ensures var f := ext.fetch(ReportUrl(addr, day));
      f.Body? && ext.decompress(f.bytes).Some? && ext.decompress(f.bytes).value != ""
      && ext.parseCsv(ext.decompress(f.bytes).value).Some?
      ==> r == Success(RowsTotal(ext.parseCsv(ext.decompress(f.bytes).value).value, ext.toNumber))
  {
    match ext.fetch(ReportUrl(addr, day))
    case Throws(message) => Failure(message)
    case NotOk => Success(0.0)
    case Body(bytes) =>
      match ext.decompress(bytes)
      case None => Success(0.0)
      case Some(text) =>
        if text == "" then Success(0.0)
        else
          match ext.parseCsv(text)
          case None => Success(0.0)
          case Some(rows) => Success(RowsTotal(rows, ext.toNumber))
  }

  /** `sumForDate`. Only the decode and the sum sit inside its `try`, so a
      transport exception is not turned into 0. */
  method SumForDate(addr: string, day: string, ext: Externals) returns (r: Result<real, string>)
    ensures r == DayFee(addr, day, ext)
  {
    var url := ReportUrl(addr, day);
    var fetched := ext.fetch(url);
    if fetched.Throws? {
      return Failure(fetched.message);
    }
    if fetched.NotOk? {
      return Success(0.0);
    }
    var text := ext.decompress(fetched.bytes);
    if text.None? {
      return Success(0.0);
    }
    var sum := SumFees(text.value, ext);
    if sum.None? {
      return Success(0.0);
    }
    return Success(sum.value);
  }
}
