/** `workspaceSourceRows` of `apps/web/components/workspace-renderer.tsx`: source rows with the same
    key are merged into the first one, field by field. */
module SourceRows {
  import opened JsText
  import opened InsertionMap
  import opened SourceLinks

  datatype Row = Row(detail: string, domain: string, href: Option<string>, key: string,
                     name: string, timestamp: string)

  type Rows = seq<Entry<string, Row>>

  /** `a || b` on texts */
  function Either(a: string, b: string): string {
    if a != "" then a else b
  }

  function Merge(existing: Row, row: Row): Row {
    Row(Either(existing.detail, row.detail), Either(existing.domain, row.domain),
        if existing.href.Some? then existing.href else row.href, existing.key,
        Either(existing.name, row.name), Either(existing.timestamp, row.timestamp))
  }

  function AddRow(m: Rows, row: Row): Rows {
    var existing := ValueAt(m, row.key);
    Set(m, row.key, if existing == [] then row else Merge(existing[0], row))
  }

  function AddRows(m: Rows, rows: seq<Row>): Rows
    decreases |rows|
  {
    if rows == [] then m else AddRows(AddRow(m, rows[0]), rows[1..])
  }

  function Values(m: Rows): seq<Row> {
    seq(|m|, i requires 0 <= i < |m| => m[i].value)
  }

  method WorkspaceSourceRows(rows: seq<Row>) returns (merged: seq<Row>)
    ensures merged == Values(AddRows([], rows))
  {
    var unique: Rows := [];
    for k := 0 to |rows|
      invariant AddRows(unique, rows[k..]) == AddRows([], rows)
    {
      assert rows[k..][1..] == rows[k + 1..];
      var row := rows[k];
      var existing := ValueAt(unique, row.key);
      if existing == [] {
        unique := Set(unique, row.key, row);
      } else {
        unique := Set(unique, row.key, Merge(existing[0], row));
      }
    }
    merged := Values(unique);
  }

  // ---- What the merged rows are --------------------------------------------------------------------

  function KeysOf(rows: seq<Row>): seq<string> {
    seq(|rows|, i requires 0 <= i < |rows| => rows[i].key)
  }

  /** The first text that is not empty among the rows with a key, or the empty text. */
  function FirstText(rows: seq<Row>, key: string, part: Row -> string): string {
    if rows == [] then ""
    else if rows[0].key == key && part(rows[0]) != "" then part(rows[0])
    else FirstText(rows[1..], key, part)
  }

  function FirstHref(rows: seq<Row>, key: string): Option<string> {
    if rows == [] then None
    else if rows[0].key == key && rows[0].href.Some? then rows[0].href
    else FirstHref(rows[1..], key)
  }

  function DetailOf(r: Row): string { r.detail }
  function DomainOf(r: Row): string { r.domain }
  function NameOf(r: Row): string { r.name }
  function TimestampOf(r: Row): string { r.timestamp }

  /** Everything the rows with a key say, each field from the first row that has it. */
  function Combined(rows: seq<Row>, key: string): Row {
    Row(FirstText(rows, key, DetailOf), FirstText(rows, key, DomainOf), FirstHref(rows, key), key,
        FirstText(rows, key, NameOf), FirstText(rows, key, TimestampOf))
  }

  /** The merged list has one row per key, in the order in which the keys first appear, and each row
      combines all rows with its key. */
  lemma RowsAreCombined(rows: seq<Row>, i: nat)
    requires i < |AddRows([], rows)|
    ensures Keys(AddRows([], rows)) == FirstSeen(KeysOf(rows))
    ensures Values(AddRows([], rows))[i] == Combined(rows, FirstSeen(KeysOf(rows))[i])
  {
    var none: Rows := [];
    var m := AddRows(none, rows);
    AddRowsKeys(none, rows);
    assert Keys(none) == [];
    var key := Keys(m)[i];
    FirstSeenIsFirstAppearance(KeysOf(rows));
    DistinctKeys(m, KeysOf(rows));
    PositionIs(m, i, key);
    AddRowsValue(none, rows, key);
  }

  lemma {:induction false} AddRowsKeys(m: Rows, rows: seq<Row>)
    ensures Keys(AddRows(m, rows)) == Extend(Keys(m), KeysOf(rows))
    decreases |rows|
  {
    if rows != [] {
      var existing := ValueAt(m, rows[0].key);
      SetKeys(m, rows[0].key, if existing == [] then rows[0] else Merge(existing[0], rows[0]));
      assert KeysOf(rows)[1..] == KeysOf(rows[1..]);
      AddRowsKeys(AddRow(m, rows[0]), rows[1..]);
    }
  }

  lemma AddRowValue(m: Rows, row: Row, key: string)
    ensures var before := ValueAt(m, key);
            ValueAt(AddRow(m, row), key) ==
            if row.key != key then before
            else if before == [] then [row] else [Merge(before[0], row)]
  {
    var existing := ValueAt(m, row.key);
    ValueAfterSet(m, row.key, if existing == [] then row else Merge(existing[0], row), key);
  }

  lemma {:induction false} AddRowsValue(m: Rows, rows: seq<Row>, key: string)
    ensures var before, after := ValueAt(m, key), ValueAt(AddRows(m, rows), key);
            && (before != [] ==>
                  before[0].key == key ==> after == [Merge(before[0], Combined(rows, key))])
            && (before == [] && after != [] ==> after == [Combined(rows, key)])
    decreases |rows|
  {
    if rows != [] {
      AddRowValue(m, rows[0], key);
      AddRowsValue(AddRow(m, rows[0]), rows[1..], key);
    }
  }
}
