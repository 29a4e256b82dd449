/**
 * The order history screen: merging an imported backup into the history,
 * the CSV export, and the label reconstructed from a stored item.
 */
module History {
  import opened Wrappers
  import opened Strings
  import opened Num
  import opened Records
  import opened Labels

  // ---------------------------------------------------------------- import

  function Ids(bs: seq<Batch>): set<string>
  {
    set b | b in bs :: b.id
  }

  /** The imported batches whose id is not in the history, in import order, duplicates kept. */
  function NewBatches(existing: seq<Batch>, imported: seq<Batch>): (r: seq<Batch>)
    ensures forall b :: multiset(r)[b] == if b.id in Ids(existing) then 0 else multiset(imported)[b]
    ensures forall b :: b in r ==> b in imported && b.id !in Ids(existing)
    ensures |r| <= |imported|
  {
    if |imported| == 0 then []
    else
      var rest := NewBatches(existing, imported[1..]);
      var r := if imported[0].id in Ids(existing) then rest else [imported[0]] + rest;
      NewBatchesStep(existing, imported, rest, r);
      r
  }

  /** One step of NewBatches: keeping or dropping the first import keeps the count of every batch right. */
  lemma NewBatchesStep(existing: seq<Batch>, imported: seq<Batch>, rest: seq<Batch>, r: seq<Batch>)
    requires |imported| > 0
    requires forall b :: multiset(rest)[b] == if b.id in Ids(existing) then 0 else multiset(imported[1..])[b]
    requires r == if imported[0].id in Ids(existing) then rest else [imported[0]] + rest
    ensures forall b :: multiset(r)[b] == if b.id in Ids(existing) then 0 else multiset(imported)[b]
  {
    assert imported == [imported[0]] + imported[1..];
    assert multiset(imported) == multiset{imported[0]} + multiset(imported[1..]);
  }

  /** A single import is kept exactly when its id is new. */
  lemma NewBatchesOne(existing: seq<Batch>, x: Batch)
    ensures NewBatches(existing, [x]) == if x.id in Ids(existing) then [] else [x]
  {
    assert [x][1..] == [];
  }

  /** The filter keeps import order: the new batches of a + b are a's, then b's. */
  lemma {:induction false} NewBatchesConcat(existing: seq<Batch>, a: seq<Batch>, b: seq<Batch>)
    ensures NewBatches(existing, a + b) == NewBatches(existing, a) + NewBatches(existing, b)
  {
    if |a| == 0 {
      assert a + b == b;
    } else {
      assert (a + b)[0] == a[0] && (a + b)[1..] == a[1..] + b;
      NewBatchesConcat(existing, a[1..], b);
    }
  }

  /**
   * `Number(id)` for plain digit strings (the empty string reads as 0).
   * Every other id is None, read as NaN, including the signed, decimal,
   * blank-padded, exponent and hexadecimal forms that `Number` parses.
   */
  function NumberOf(id: string): Option<nat>
  {
    if AllDigits(id) then Some(DigitsValue(id)) else None
  }

  /** The ids the ledger itself creates, `Date.now().toString()`, read back as the time. */
  lemma NumberOfNowId(now: nat)
    ensures NumberOf(NatText(now)) == Some(now)
  {
    NatTextRoundTrip(now);
  }

  predicate NumericId(b: Batch)
  {
    NumberOf(b.id).Some?
  }

  /** The id as a number, 0 standing in for NaN. */
  function Key(b: Batch): nat
  {
    match NumberOf(b.id)
    case Some(n) => n
    case None => 0
  }

  /**
   * The comparator `Number(b.id) - Number(a.id)` is negative exactly when
   * a's id is the larger number; a NaN difference counts as "equal".
   */
  predicate Before(a: Batch, b: Batch)
  {
    NumericId(a) && NumericId(b) && Key(a) > Key(b)
  }

  /** Insert x after every element it does not strictly precede (so the sort is stable). */
  function Insert(x: Batch, sorted: seq<Batch>): (r: seq<Batch>)
    ensures multiset(r) == multiset(sorted) + multiset{x}
    ensures |r| == |sorted| + 1
    ensures forall y :: y in r ==> y == x || y in sorted
  {
    if |sorted| == 0 then [x]
    else if Before(x, sorted[0]) then [x] + sorted
    else
      assert sorted == [sorted[0]] + sorted[1..];
      [sorted[0]] + Insert(x, sorted[1..])
  }

  /** Descending by numeric id. */
  predicate SortedDesc(s: seq<Batch>)
  {
    forall i, j :: 0 <= i < j < |s| ==> Key(s[i]) >= Key(s[j])
  }

  predicate AllNumeric(s: seq<Batch>)
  {
    forall i :: 0 <= i < |s| ==> NumericId(s[i])
  }

  lemma SortedCons(h: Batch, t: seq<Batch>)
    requires SortedDesc(t)
    requires forall y :: y in t ==> Key(h) >= Key(y)
    ensures SortedDesc([h] + t)
  {
    var s := [h] + t;
    forall i, j | 0 <= i < j < |s|
      ensures Key(s[i]) >= Key(s[j])
    {
      assert s[j] == t[j - 1];
      if i > 0 {
        assert s[i] == t[i - 1];
      } else {
        assert s[j] in t;
      }
    }
  }

  lemma {:induction false} InsertSorted(x: Batch, sorted: seq<Batch>)
    requires NumericId(x) && AllNumeric(sorted) && SortedDesc(sorted)
    ensures SortedDesc(Insert(x, sorted)) && AllNumeric(Insert(x, sorted))
  {
    if |sorted| == 0 {
    } else if Before(x, sorted[0]) {
      SortedTail(sorted);
      AboveAll(x, sorted);
      SortedCons(x, sorted);
      NumericCons(x, sorted);
    } else {
      var h, tail := sorted[0], sorted[1..];
      SortedTail(sorted);
      InsertSorted(x, tail);
      var t := Insert(x, tail);
      assert forall y :: y in t ==> Key(h) >= Key(y);
      SortedCons(h, t);
      NumericCons(h, t);
      assert Insert(x, sorted) == [h] + t;
    }
  }

  /** The tail of a sorted numeric sequence is sorted and numeric, and below its head. */
  lemma SortedTail(s: seq<Batch>)
    requires |s| > 0 && SortedDesc(s) && AllNumeric(s)
    ensures SortedDesc(s[1..]) && AllNumeric(s[1..])
    ensures forall y :: y in s[1..] ==> Key(s[0]) >= Key(y)
    ensures forall y :: y in s ==> Key(s[0]) >= Key(y)
  {
    var tail := s[1..];
    assert SortedDesc(tail) by {
      forall i, j | 0 <= i < j < |tail|
        ensures Key(tail[i]) >= Key(tail[j])
      {
        assert tail[i] == s[i + 1] && tail[j] == s[j + 1];
      }
    }
    assert AllNumeric(tail) by {
      forall i | 0 <= i < |tail|
        ensures NumericId(tail[i])
      {
        assert tail[i] == s[i + 1];
      }
    }
    forall y | y in s
      ensures Key(s[0]) >= Key(y)
    {
      var m :| 0 <= m < |s| && s[m] == y;
      if m > 0 {
        assert Key(s[0]) >= Key(s[m]);
      }
    }
  }

  /** An element whose key is above the head of a sorted sequence is above all of it. */
  lemma AboveAll(x: Batch, s: seq<Batch>)
    requires |s| > 0 && Key(x) >= Key(s[0])
    requires forall y :: y in s ==> Key(s[0]) >= Key(y)
    ensures forall y :: y in s ==> Key(x) >= Key(y)
  {
  }

  lemma NumericCons(h: Batch, t: seq<Batch>)
    requires NumericId(h) && AllNumeric(t)
    ensures AllNumeric([h] + t)
  {
    var r := [h] + t;
    forall i | 0 <= i < |r|
      ensures NumericId(r[i])
    {
      if i > 0 {
        assert r[i] == t[i - 1];
      }
    }
  }

  /** The stable sort by `Number(id)`, largest first. */
  function SortByIdDesc(s: seq<Batch>): (r: seq<Batch>)
    ensures multiset(r) == multiset(s)
  {
    if |s| == 0 then []
    else
      assert s == s[..|s| - 1] + [s[|s| - 1]];
      Insert(s[|s| - 1], SortByIdDesc(s[..|s| - 1]))
  }

  /** When every id is a number the result is ordered by id, largest first. */
  lemma {:induction false} SortByIdDescSorted(s: seq<Batch>)
    requires AllNumeric(s)
    ensures SortedDesc(SortByIdDesc(s)) && AllNumeric(SortByIdDesc(s))
  {
    if |s| > 0 {
      SortByIdDescSorted(s[..|s| - 1]);
      InsertSorted(s[|s| - 1], SortByIdDesc(s[..|s| - 1]));
    }
  }

  /** What `JSON.parse` made of an imported file. */
  datatype ImportPayload = Unparseable | NotArray | Records(batches: seq<Batch>)

  datatype ImportOutcome =
    | ParseFailed
    | FormatError
    | Cancelled
    | NothingNew
    | Merged(history: seq<Batch>, added: nat)

  /**
   * The import: a non-array is rejected, the user may cancel, otherwise
   * the new batches and the history are merged and sorted by id.
   */
  function ImportMerge(history: seq<Batch>, payload: ImportPayload, confirmed: bool): (o: ImportOutcome)
    ensures payload.Unparseable? <==> o.ParseFailed?
    ensures payload.NotArray? <==> o.FormatError?
    ensures payload.Records? && !confirmed <==> o.Cancelled?
    ensures o.NothingNew? <==> payload.Records? && confirmed && NewBatches(history, payload.batches) == []
    ensures o.Merged? ==> o.added == |NewBatches(history, payload.batches)| > 0
    ensures o.Merged? ==> multiset(o.history) == multiset(NewBatches(history, payload.batches)) + multiset(history)
  {
    match payload
    case Unparseable => ParseFailed
    case NotArray => FormatError
    case Records(imported) =>
      if !confirmed then Cancelled
      else
        var newOnes := NewBatches(history, imported);
        if |newOnes| > 0 then Merged(SortByIdDesc(newOnes + history), |newOnes|) else NothingNew
  }

  /** After a merge every batch of the history is still there, unchanged. */
  lemma MergeKeepsHistory(history: seq<Batch>, payload: ImportPayload, confirmed: bool)
    requires ImportMerge(history, payload, confirmed).Merged?
    ensures forall b :: b in history ==> b in ImportMerge(history, payload, confirmed).history
  {
    var o := ImportMerge(history, payload, confirmed);
    forall b | b in history
      ensures b in o.history
    {
      assert b in multiset(history);
      assert b in multiset(o.history);
    }
  }

  /** After a merge of numeric ids the history is ordered by id, largest first. */
  lemma MergeSorted(history: seq<Batch>, payload: ImportPayload, confirmed: bool)
    requires ImportMerge(history, payload, confirmed).Merged?
    requires AllNumeric(history) && AllNumeric(payload.batches)
    ensures SortedDesc(ImportMerge(history, payload, confirmed).history)
  {
    var newOnes := NewBatches(history, payload.batches);
    forall i | 0 <= i < |newOnes + history|
      ensures NumericId((newOnes + history)[i])
    {
      if i < |newOnes| {
        assert newOnes[i] in newOnes;
        var k :| 0 <= k < |payload.batches| && payload.batches[k] == newOnes[i];
      }
    }
    SortByIdDescSorted(newOnes + history);
  }

  /** Importing the current history again adds nothing. */
  lemma ReimportAddsNothing(history: seq<Batch>)
    ensures ImportMerge(history, Records(history), true) == NothingNew
  {
  }

  // ---------------------------------------------------------------- CSV

  /** Quote doubling: every `"` becomes `""`. */
  function DoubleQuotes(s: string): string
  {
    if |s| == 0 then ""
    else (if s[0] == '"' then "\"\"" else [s[0]]) + DoubleQuotes(s[1..])
  }

  /** The inverse of quote doubling, None when a `"` stands alone. */
  function UndoubleQuotes(s: string): Option<string>
  {
    if |s| == 0 then Some("")
    else if s[0] != '"' then
      match UndoubleQuotes(s[1..])
      case Some(r) => Some([s[0]] + r)
      case None => None
    else if |s| >= 2 && s[1] == '"' then
      match UndoubleQuotes(s[2..])
      case Some(r) => Some("\"" + r)
      case None => None
    else None
  }

  lemma {:induction false} UndoubleDouble(s: string)
    ensures UndoubleQuotes(DoubleQuotes(s)) == Some(s)
  {
    if |s| > 0 {
      UndoubleDouble(s[1..]);
      var d := DoubleQuotes(s);
      if s[0] == '"' {
        assert d[0] == '"' && d[1] == '"' && d[2..] == DoubleQuotes(s[1..]);
      } else {
        assert d[0] == s[0] && d[1..] == DoubleQuotes(s[1..]);
      }
      assert s == [s[0]] + s[1..];
    }
  }

  /** A text field of the export: quoted with quotes doubled, or "-" when empty. */
  function QuoteField(s: string): string
  {
    if s == [] then "-" else "\"" + DoubleQuotes(s) + "\""
  }

  /** How a CSV reader reads a quoted field back. */
  function UnquoteField(f: string): Option<string>
  {
    if |f| >= 2 && f[0] == '"' && f[|f| - 1] == '"' then UndoubleQuotes(f[1..|f| - 1]) else None
  }

  /** Unquoting an exported text field gives the original text back. */
  lemma QuoteRoundTrip(s: string)
    requires s != []
    ensures UnquoteField(QuoteField(s)) == Some(s)
  {
    var f := QuoteField(s);
    assert f[1..|f| - 1] == DoubleQuotes(s);
    UndoubleDouble(s);
  }

  function OrDash(s: string): string
  {
    if s == [] then "-" else s
  }

  const BaseColumns: seq<string> := ["订单ID", "提交日期", "规格名称", "规格(根/克)", "类型", "装瓶数量(根)",
    "总瓶数/盒数", "瓶型", "盒型", "包装辅助标志", "详情描述", "电商规格", "总根数"]

  const NagquColumn: string := "那曲发货总价"
  const ChannelColumn: string := "藏境发货总价"
  const RetailColumn: string := "建议零售总价"

  /** The header's columns: the price columns follow the role's visibility. */
  function HeaderColumns(role: Role): seq<string>
  {
    BaseColumns + (if ShowNagqu(role) then [NagquColumn] else []) + (if ShowChannel(role) then [ChannelColumn] else [])
      + [RetailColumn]
  }

  /** One item's fields, in header order. */
  function RowFields(batch: Batch, item: LineItem, role: Role): seq<string>
  {
    [ batch.id, batch.date, item.specName, OrDash(item.rootsPerGram),
      if item.kind == BottleItem then "瓶装" else "礼盒",
      IntText(item.rootsPerBottle), IntText(item.bottleCount),
      OrDash(item.bottleType), OrDash(item.boxType), OrDash(item.packagingColor),
      QuoteField(item.details), QuoteField(item.ecommerceSpec), IntText(item.totalRoots) ]
    + (if ShowNagqu(role) then [Text(item.totalNagquPrice)] else [])
    + (if ShowChannel(role) then [Text(item.totalChannelPrice)] else [])
    + [Text(item.totalRetail)]
  }

  /** The header shows the Nagqu column exactly for zwz and the channel column exactly for zwz and admin. */
  lemma HeaderVisibility(role: Role)
    ensures NagquColumn in HeaderColumns(role) <==> ShowNagqu(role)
    ensures ChannelColumn in HeaderColumns(role) <==> ShowChannel(role)
  {
    assert NagquColumn !in BaseColumns && ChannelColumn !in BaseColumns;
  }

  /** Every row has one field per header column, and each price sits under its own column. */
  lemma ColumnsAlign(batch: Batch, item: LineItem, role: Role)
    ensures var h, r := HeaderColumns(role), RowFields(batch, item, role);
      && |h| == |r| == 14 + (if ShowNagqu(role) then 1 else 0) + (if ShowChannel(role) then 1 else 0)
      && (forall k :: 0 <= k < 13 ==> h[k] == BaseColumns[k])
      && h[0] == "订单ID" && r[0] == batch.id
      && h[10] == "详情描述" && r[10] == QuoteField(item.details)
      && h[11] == "电商规格" && r[11] == QuoteField(item.ecommerceSpec)
      && (ShowNagqu(role) ==> h[13] == NagquColumn && r[13] == Text(item.totalNagquPrice))
      && (ShowChannel(role) ==> h[|h| - 2] == ChannelColumn && r[|r| - 2] == Text(item.totalChannelPrice))
      && h[|h| - 1] == RetailColumn && r[|r| - 1] == Text(item.totalRetail)
  {
    HeaderShape(role);
    RowShape(batch, item, role);
  }

  /** The header's columns: the thirteen fixed ones, the visible price columns, the retail column. */
  lemma HeaderShape(role: Role)
    ensures var h := HeaderColumns(role);
      && |h| == 14 + (if ShowNagqu(role) then 1 else 0) + (if ShowChannel(role) then 1 else 0)
      && (forall k :: 0 <= k < 13 ==> h[k] == BaseColumns[k])
      && h[0] == "订单ID" && h[10] == "详情描述" && h[11] == "电商规格"
      && (ShowNagqu(role) ==> h[13] == NagquColumn)
      && (ShowChannel(role) ==> h[|h| - 2] == ChannelColumn)
      && h[|h| - 1] == RetailColumn
  {
    var n := if ShowNagqu(role) then [NagquColumn] else [];
    var c := if ShowChannel(role) then [ChannelColumn] else [];
    assert HeaderColumns(role) == BaseColumns + n + c + [RetailColumn];
    PriceTail(BaseColumns, n, c, RetailColumn);
  }

  /** An item's fields: the thirteen fixed ones, the visible prices, the retail total. */
  lemma RowShape(batch: Batch, item: LineItem, role: Role)
    ensures var r := RowFields(batch, item, role);
      && |r| == 14 + (if ShowNagqu(role) then 1 else 0) + (if ShowChannel(role) then 1 else 0)
      && r[0] == batch.id && r[10] == QuoteField(item.details) && r[11] == QuoteField(item.ecommerceSpec)
      && (ShowNagqu(role) ==> r[13] == Text(item.totalNagquPrice))
      && (ShowChannel(role) ==> r[|r| - 2] == Text(item.totalChannelPrice))
      && r[|r| - 1] == Text(item.totalRetail)
  {
    var base := [ batch.id, batch.date, item.specName, OrDash(item.rootsPerGram),
      if item.kind == BottleItem then "瓶装" else "礼盒",
      IntText(item.rootsPerBottle), IntText(item.bottleCount),
      OrDash(item.bottleType), OrDash(item.boxType), OrDash(item.packagingColor),
      QuoteField(item.details), QuoteField(item.ecommerceSpec), IntText(item.totalRoots) ];
    var n := if ShowNagqu(role) then [Text(item.totalNagquPrice)] else [];
    var c := if ShowChannel(role) then [Text(item.totalChannelPrice)] else [];
    assert RowFields(batch, item, role) == base + n + c + [Text(item.totalRetail)];
    PriceTail(base, n, c, Text(item.totalRetail));
  }

  /** Thirteen fixed fields, the optional price fields, then the last one, at their positions. */
  lemma PriceTail(base: seq<string>, n: seq<string>, c: seq<string>, last: string)
    requires |base| == 13 && |n| <= 1 && |c| <= 1
    ensures var s := base + n + c + [last];
      && |s| == 14 + |n| + |c| && (forall k :: 0 <= k < 13 ==> s[k] == base[k])
      && (|n| == 1 ==> s[13] == n[0]) && (|c| == 1 ==> s[|s| - 2] == c[0]) && s[|s| - 1] == last
  {
  }

  /** Fields joined with commas. */
  function Join(fields: seq<string>): string
  {
    if |fields| == 0 then "" else if |fields| == 1 then fields[0] else fields[0] + "," + Join(fields[1..])
  }

  /** The header line, after the byte order mark. */
  function Header(role: Role): string
  {
    "﻿" + Join(HeaderColumns(role)) + "\n"
  }

  function Row(batch: Batch, item: LineItem, role: Role): string
  {
    Join(RowFields(batch, item, role)) + "\n"
  }

  /** One row per item of the batch, in order. */
  function BatchLines(batch: Batch, role: Role): (ls: seq<string>)
    ensures |ls| == |batch.items|
    ensures forall k :: 0 <= k < |ls| ==> ls[k] == Row(batch, batch.items[k], role)
  {
    seq(|batch.items|, k requires 0 <= k < |batch.items| => Row(batch, batch.items[k], role))
  }

  /** All rows: batch after batch, item after item. */
  function Lines(batches: seq<Batch>, role: Role): seq<string>
  {
    if |batches| == 0 then [] else Lines(batches[..|batches| - 1], role) + BatchLines(batches[|batches| - 1], role)
  }

  function ItemTotal(batches: seq<Batch>): nat
  {
    if |batches| == 0 then 0 else ItemTotal(batches[..|batches| - 1]) + |batches[|batches| - 1].items|
  }

  /** There is exactly one row per item across all batches. */
  lemma {:induction false} LinesCount(batches: seq<Batch>, role: Role)
    ensures |Lines(batches, role)| == ItemTotal(batches)
  {
    if |batches| > 0 {
      LinesCount(batches[..|batches| - 1], role);
    }
  }

  function Concat(ls: seq<string>): string
  {
    if |ls| == 0 then "" else Concat(ls[..|ls| - 1]) + ls[|ls| - 1]
  }

  lemma ConcatSnoc(ls: seq<string>, x: string)
    ensures Concat(ls + [x]) == Concat(ls) + x
  {
    assert (ls + [x])[..|ls|] == ls;
  }

  lemma LinesSnoc(batches: seq<Batch>, i: nat, role: Role)
    requires i < |batches|
    ensures Lines(batches[..i + 1], role) == Lines(batches[..i], role) + BatchLines(batches[i], role)
  {
    assert batches[..i + 1][..i] == batches[..i];
  }

  lemma RowStep(done: seq<string>, bl: seq<string>, j: nat)
    requires j < |bl|
    ensures Concat(done + bl[..j]) + bl[j] == Concat(done + bl[..j + 1])
  {
    ConcatSnoc(done + bl[..j], bl[j]);
    assert done + bl[..j] + [bl[j]] == done + bl[..j + 1];
  }

  /** The inner loop of the export: append the rows of one batch. */
  method AppendRows(content: string, head: string, done: seq<string>, bl: seq<string>)
    returns (r: string)
    requires content == head + Concat(done)
    ensures r == head + Concat(done + bl)
  {
    assert done + bl[..0] == done;
    r := content;
    var j := 0;
    while j < |bl|
      invariant 0 <= j <= |bl|
      invariant r == head + Concat(done + bl[..j])
    {
      RowStep(done, bl, j);
      assert head + Concat(done + bl[..j]) + bl[j] == head + (Concat(done + bl[..j]) + bl[j]);
      r := r + bl[j];
      j := j + 1;
    }
    assert bl[..j] == bl;
  }

  /** The export file's content: the header, then every row; nothing when there are no batches. */
  method ExportCsv(batches: seq<Batch>, role: Role) returns (csv: Option<string>)
    ensures batches == [] ==> csv == None
    ensures batches != [] ==> csv == Some(Header(role) + Concat(Lines(batches, role)))
  {
    if |batches| == 0 {
      return None;
    }
    var head := Header(role);
    var content := head;
    var i := 0;
    while i < |batches|
      invariant 0 <= i <= |batches|
      invariant content == head + Concat(Lines(batches[..i], role))
    {
      content := AppendRows(content, head, Lines(batches[..i], role), BatchLines(batches[i], role));
      LinesSnoc(batches, i, role);
      i := i + 1;
    }
    assert batches[..i] == batches;
    return Some(content);
  }

  // ---------------------------------------------------------------- labels

  const WeightUnit: string := "克/盒"
  const PerBoxPrefix: string := "每盒"
  const BottleUnit: string := "瓶"

  /**
   * The label for a stored item, read back from its description: a box
   * item's weight is the digits right before "克/盒" (0 when there are none)
   * and its count 1; a bottle item's count is the digits between "每盒"
   * and "瓶" (1 when there are none).
   */
  function ExtractLabel(item: LineItem): (l: LabelData)
    ensures l.isBoxMode <==> item.kind == BoxItem
    ensures l.specName == item.specName && l.rootsPerBottle == item.rootsPerBottle
    ensures item.kind == BoxItem ==> l.totalBottles == 1
    ensures item.kind == BoxItem && FirstCapture(item.details, [], WeightUnit, 0).None? ==> Value(l.gramWeight) == 0.0
    ensures item.kind == BottleItem && FirstCapture(item.details, PerBoxPrefix, BottleUnit, 0).None? ==> l.totalBottles == 1
  {
    if item.kind == BoxItem then
      var w := match FirstCapture(item.details, [], WeightUnit, 0)
        case Some(d) => DigitsValue(d)
        case None => 0;
      LabelData(item.specName, item.rootsPerBottle, 1, FromInt(w), true)
    else
      var n := match FirstCapture(item.details, PerBoxPrefix, BottleUnit, 0)
        case Some(d) => DigitsValue(d)
        case None => 1;
      LabelData(item.specName, item.rootsPerBottle, n, Zero, false)
  }
}
