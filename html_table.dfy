/**
 * `createHtmlTable` (server_with_sql.js:102-115, index.js:85-98): the fixed
 * header row, then one templated row per record numbered from 1, then the
 * closing tag. The two copies differ only in the indentation inside the
 * template literal.
 */
module HtmlTable {
  import opened Text
  import opened Details

  /** The table opening and its header row. */
  const Header: string := "<table border=\"1\"><tr><th>순번</th><th>상호명</th><th>대표자</th><th>주소</th><th>연락처</th></tr>"

  const Footer: string := "</table>"

  /** The spaces in front of each `<td>` line and in front of the closing `</tr>` of the template. */
  datatype Layout = Layout(cellIndent: nat, closeIndent: nat)

  /** The template of server_with_sql.js:105-111. */
  const ServerLayout: Layout := Layout(16, 13)

  /** The template of index.js:88-94. */
  const IndexLayout: Layout := Layout(20, 17)

  function Spaces(n: nat): string
  {
    seq(n, _ => ' ')
  }

  /** One `<td>` line of the template. */
  function Cell(l: Layout, value: string): string
  {
    Spaces(l.cellIndent) + ("<td>" + (value + "</td>\n"))
  }

  /** The `<td>` lines of a row, one per value. */
  function Cells(l: Layout, values: seq<string>): string
  {
    if values == [] then "" else Cell(l, values[0]) + Cells(l, values[1..])
  }

  /** The columns of a row: its number, then name, representative, address and contact. */
  function Columns(n: nat, item: Details): seq<string>
  {
    [NatToString(n), item.name, item.representative, item.address, item.contact]
  }

  /** The row of record number `n`. */
  function RowHtml(l: Layout, n: nat, item: Details): string
  {
    "<tr>\n" + (Cells(l, Columns(n, item)) + (Spaces(l.closeIndent) + "</tr>"))
  }

  /** The strings of `parts` one after the other. */
  function Concat(parts: seq<string>): string
  {
    if parts == [] then "" else parts[0] + Concat(parts[1..])
  }

  lemma {:induction false} ConcatAppend(a: seq<string>, b: seq<string>)
    ensures Concat(a + b) == Concat(a) + Concat(b)
    decreases |a|
  {
    if a == [] {
      assert a + b == b;
    } else {
      assert (a + b)[1..] == a[1..] + b;
      ConcatAppend(a[1..], b);
    }
  }

  /** The row of each record, record `k` of `items` numbered `first + k`. */
  function RowList(l: Layout, items: seq<Details>, first: nat): seq<string>
  {
    seq(|items|, k requires 0 <= k < |items| => RowHtml(l, first + k, items[k]))
  }

  /** The rows of `items`, the first numbered `first`. */
  function RowsHtml(l: Layout, items: seq<Details>, first: nat): string
  {
    Concat(RowList(l, items, first))
  }

  /** The whole table for `items`. */
  function Table(l: Layout, items: seq<Details>): string
  {
    Header + RowsHtml(l, items, 1) + Footer
  }

  /** The rows of two lists one after the other are the rows of the joined list, numbering carried on. */
  lemma RowsAppend(l: Layout, a: seq<Details>, b: seq<Details>, first: nat)
    ensures RowsHtml(l, a + b, first) == RowsHtml(l, a, first) + RowsHtml(l, b, first + |a|)
  {
    assert RowList(l, a + b, first) == RowList(l, a, first) + RowList(l, b, first + |a|);
    ConcatAppend(RowList(l, a, first), RowList(l, b, first + |a|));
  }

  /** The rows of a single record are its row. */
  lemma RowsOfOne(l: Layout, item: Details, n: nat)
    ensures RowsHtml(l, [item], n) == RowHtml(l, n, item)
  {
    var rs := RowList(l, [item], n);
    assert rs == [RowHtml(l, n, item)];
    assert rs[1..] == [];
    assert Concat(rs) == rs[0] + Concat(rs[1..]);
    assert rs[0] + "" == rs[0];
  }

  /**
   * The rows consist of one row per record, record `k` numbered `first + k`:
   * the rows before it, its row, and the rows after it.
   */
  lemma RowNumbered(l: Layout, items: seq<Details>, first: nat, k: nat)
    requires k < |items|
    ensures RowsHtml(l, items, first)
         == RowsHtml(l, items[..k], first) + RowHtml(l, first + k, items[k]) + RowsHtml(l, items[k + 1..], first + k + 1)
  {
    assert items == items[..k] + ([items[k]] + items[k + 1..]);
    RowsAppend(l, items[..k], [items[k]] + items[k + 1..], first);
    RowsAppend(l, [items[k]], items[k + 1..], first + k);
    RowsOfOne(l, items[k], first + k);
  }

  /** The table begins with the header row and ends with `</table>`. */
  lemma TableFrame(l: Layout, items: seq<Details>)
    ensures StartsWith(Table(l, items), Header)
    ensures |Table(l, items)| >= |Header| + |Footer|
    ensures Table(l, items)[|Table(l, items)| - |Footer|..] == Footer
  {
    var t := Table(l, items);
    assert t[..|Header|] == Header;
  }

  /** An empty list gives the header row and the closing tag alone. */
  lemma EmptyTable(l: Layout)
    ensures Table(l, []) == Header + Footer
  {
  }

  /** One more record adds its row at the end. */
  lemma RowsExtend(l: Layout, data: seq<Details>, i: nat)
    requires i < |data|
    ensures RowsHtml(l, data[..i + 1], 1) == RowsHtml(l, data[..i], 1) + RowHtml(l, i + 1, data[i])
  {
    assert data[..i + 1] == data[..i] + [data[i]];
    RowsAppend(l, data[..i], [data[i]], 1);
    RowsOfOne(l, data[i], i + 1);
  }

  /** `createHtmlTable`: `html +=` one row per record in a `forEach`, then the closing tag. */
  method CreateHtmlTable(l: Layout, data: seq<Details>) returns (html: string)
    ensures html == Table(l, data)
  {
    html := Header;
    for i := 0 to |data|
      invariant html == Header + RowsHtml(l, data[..i], 1)
    {
      RowsExtend(l, data, i);
      html := html + RowHtml(l, i + 1, data[i]);
    }
    assert data[..|data|] == data;
    html := html + Footer;
  }
}
