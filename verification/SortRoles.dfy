/** Sort keys of flow rows and group headers, and their comparison. */
module SortRoles {
  import opened Connections
  import opened GroupTree
  import opened Sorting

  datatype Column = Iface | Flow | RxRate | TxRate | RxTotal | TxTotal | RxMax | TxMax | Process | Container

  datatype SortOrder = Ascending | Descending

  datatype Variant = Num(n: real) | Text(s: string)

  /** A row of the flat source model: the flow with its rates and references. */
  datatype SourceRow = SourceRow(
    conn: Connection,
    rxRate: real, txRate: real,
    rxMax: real, txMax: real,
    remoteText: string)

  /** A pid as the sort key has it: cast to 64 bits, unsigned. */
  function Unsigned(n: int32): nat {
    if n < 0 then n + TWO64 else n
  }

  function SortRole(row: SourceRow, col: Column): Variant {
    match col
    case Iface => Text(row.conn.iface)
    case Flow => Text(row.remoteText)
    case RxRate => Num(row.rxRate)
    case TxRate => Num(row.txRate)
    case RxTotal => Num(row.conn.counters.rxBytes as real)
    case TxTotal => Num(row.conn.counters.txBytes as real)
    case RxMax => Num(row.rxMax)
    case TxMax => Num(row.txMax)
    case Process => Num(Unsigned(row.conn.process.pid) as real)
    case Container =>
      Text(if row.conn.container.name != "" then row.conn.container.name
           else if row.conn.container.id != "" then row.conn.container.id
           else "\U{0001}(host)")
  }

  /** The source answers a row out of range with an empty value. */
  function RowRole(src: seq<SourceRow>, r: nat, col: Column): Variant {
    if r < |src| then SortRole(src[r], col)
    else if col.Iface? || col.Flow? || col.Container? then Text("") else Num(0.0)
  }

  // ---- group aggregates ---------------------------------------------------------

  function SumReal(rows: seq<nat>, f: nat -> real): real {
    if rows == [] then 0.0 else SumReal(rows[..|rows| - 1], f) + f(rows[|rows| - 1])
  }

  function SumNat(rows: seq<nat>, f: nat -> nat): nat {
    if rows == [] then 0 else SumNat(rows[..|rows| - 1], f) + f(rows[|rows| - 1])
  }

  function RxBytesAt(src: seq<SourceRow>): nat -> nat {
    (r: nat) => if r < |src| then src[r].conn.counters.rxBytes else 0
  }

  function TxBytesAt(src: seq<SourceRow>): nat -> nat {
    (r: nat) => if r < |src| then src[r].conn.counters.txBytes else 0
  }

  function RealAt(src: seq<SourceRow>, col: Column): nat -> real {
    (r: nat) => match RowRole(src, r, col) case Num(x) => x case Text(_) => 0.0
  }

  function GroupSortRole(src: seq<SourceRow>, g: Group, col: Column): Variant {
    match col
    case Iface => Text(g.title)
    case Flow => Num(|g.srcRows| as real)
    case RxTotal => Num((SumNat(g.srcRows, RxBytesAt(src)) % TWO64) as real)
    case TxTotal => Num((SumNat(g.srcRows, TxBytesAt(src)) % TWO64) as real)
    case Process => Text("")
    case Container => Text("")
    case _ => Num(SumReal(g.srcRows, RealAt(src, col)))
  }

  // ---- comparison ---------------------------------------------------------------

  predicate TextLess(a: string, b: string) {
    b != "" && (a == "" || a[0] < b[0] || (a[0] == b[0] && TextLess(a[1..], b[1..])))
  }

  predicate Less(a: Variant, b: Variant) {
    match (a, b)
    case (Num(x), Num(y)) => x < y
    case (Text(x), Text(y)) => TextLess(x, y)
    case _ => false
  }

  /** The comparator both sorts use. */
  predicate Before(order: SortOrder, a: Variant, b: Variant) {
    if a == b then false
    else if order.Ascending? then Less(a, b)
    else !Less(a, b)
  }

  lemma {:induction false} TextLessIsAnOrder(a: string, b: string, c: string)
    ensures TextLess(a, b) ==> !TextLess(b, a)
    ensures TextLess(a, c) ==> TextLess(a, b) || TextLess(b, c)
    ensures a == b || TextLess(a, b) || TextLess(b, a)
    ensures !TextLess(a, a)
  {
    if a != "" && b != "" {
      TextLessIsAnOrder(a[1..], b[1..], if c == "" then "" else c[1..]);
      if a[1..] == b[1..] && a[0] == b[0] {
        assert a == [a[0]] + a[1..] && b == [b[0]] + b[1..];
      }
    } else if a != "" {
      TextLessIsAnOrder(a[1..], "", "");
    }
  }

  /** On values of one kind the comparator is what std::sort demands. */
  lemma BeforeIsStrictWeak(order: SortOrder, a: Variant, b: Variant, c: Variant)
    requires a.Num? <==> b.Num?
    requires b.Num? <==> c.Num?
    ensures Before(order, a, b) ==> !Before(order, b, a)
    ensures Before(order, a, c) ==> Before(order, a, b) || Before(order, b, c)
  {
    if a.Text? {
      TextLessIsAnOrder(a.s, b.s, c.s);
      TextLessIsAnOrder(b.s, c.s, a.s);
      TextLessIsAnOrder(a.s, c.s, b.s);
      TextLessIsAnOrder(c.s, a.s, b.s);
      TextLessIsAnOrder(b.s, a.s, c.s);
      TextLessIsAnOrder(c.s, b.s, a.s);
    }
  }

  function RowBefore(src: seq<SourceRow>, col: Column, order: SortOrder): (nat, nat) -> bool {
    (a: nat, b: nat) => Before(order, RowRole(src, a, col), RowRole(src, b, col))
  }

  function GroupBefore(src: seq<SourceRow>, col: Column, order: SortOrder): (Group, Group) -> bool {
    (a: Group, b: Group) => Before(order, GroupSortRole(src, a, col), GroupSortRole(src, b, col))
  }

  lemma ComparatorsAreStrictWeak(src: seq<SourceRow>, col: Column, order: SortOrder)
    ensures StrictWeak(RowBefore(src, col, order))
    ensures StrictWeak(GroupBefore(src, col, order))
  {
    forall a: nat, b: nat, c: nat
      ensures RowBefore(src, col, order)(a, b) ==> !RowBefore(src, col, order)(b, a)
      ensures RowBefore(src, col, order)(a, c) ==> RowBefore(src, col, order)(a, b) || RowBefore(src, col, order)(b, c)
    {
      BeforeIsStrictWeak(order, RowRole(src, a, col), RowRole(src, b, col), RowRole(src, c, col));
    }
    forall a: Group, b: Group, c: Group
      ensures GroupBefore(src, col, order)(a, b) ==> !GroupBefore(src, col, order)(b, a)
      ensures GroupBefore(src, col, order)(a, c) ==>
        GroupBefore(src, col, order)(a, b) || GroupBefore(src, col, order)(b, c)
    {
      BeforeIsStrictWeak(order, GroupSortRole(src, a, col), GroupSortRole(src, b, col), GroupSortRole(src, c, col));
    }
  }

  // ---- what the order means ---------------------------------------------------------

  /** The order of texts by their first difference, an end counting as smallest. */
  ghost predicate Precedes(a: string, b: string) {
    exists k :: 0 <= k <= |a| && DiffersFirstAt(a, b, k)
  }

  ghost predicate DiffersFirstAt(a: string, b: string, k: nat) {
    && k <= |a| && k < |b| && a[..k] == b[..k]
    && (k < |a| ==> a[k] < b[k])
  }

  lemma {:induction false} TextOrderExactly(a: string, b: string)
    ensures TextLess(a, b) <==> Precedes(a, b)
  {
    if TextLess(a, b) {
      var k := FirstDifference(a, b);
    }
    if k :| 0 <= k <= |a| && DiffersFirstAt(a, b, k) {
      DifferenceDecides(a, b, k);
    }
  }

  lemma {:induction false} FirstDifference(a: string, b: string) returns (k: nat)
    requires TextLess(a, b)
    ensures DiffersFirstAt(a, b, k)
  {
    if a == "" || a[0] < b[0] {
      k := 0;
    } else {
      k := FirstDifference(a[1..], b[1..]);
      assert a == [a[0]] + a[1..] && b == [b[0]] + b[1..];
      assert a[..k + 1] == [a[0]] + a[1..][..k] && b[..k + 1] == [b[0]] + b[1..][..k];
      k := k + 1;
    }
  }

  lemma {:induction false} DifferenceDecides(a: string, b: string, k: nat)
    requires DiffersFirstAt(a, b, k)
    ensures TextLess(a, b)
  {
    if k > 0 {
      assert a[0] == a[..k][0] == b[..k][0] == b[0];
      assert a[1..][..k - 1] == a[..k][1..] && b[1..][..k - 1] == b[..k][1..];
      DifferenceDecides(a[1..], b[1..], k - 1);
    }
  }

  /** a may stand before b in this order. */
  ghost predicate NumbersInOrder(order: SortOrder, a: real, b: real) {
    if order.Ascending? then a <= b else a >= b
  }

  ghost predicate TextsInOrder(order: SortOrder, a: string, b: string) {
    if order.Ascending? then !Precedes(b, a) else !Precedes(a, b)
  }

  lemma OrderedValues(order: SortOrder, a: Variant, b: Variant)
    requires !Before(order, b, a)
    ensures a.Num? && b.Num? ==> NumbersInOrder(order, a.n, b.n)
    ensures a.Text? && b.Text? ==> TextsInOrder(order, a.s, b.s)
  {
    if a.Text? && b.Text? {
      TextOrderExactly(a.s, b.s);
      TextOrderExactly(b.s, a.s);
      TextLessIsAnOrder(a.s, b.s, a.s);
    }
  }

  /** Rows a and b stand in this order by the named column of the flows themselves. */
  ghost predicate RowsInOrder(a: SourceRow, b: SourceRow, col: Column, order: SortOrder) {
    match col
    case Iface => TextsInOrder(order, a.conn.iface, b.conn.iface)
    case Flow => TextsInOrder(order, a.remoteText, b.remoteText)
    case RxRate => NumbersInOrder(order, a.rxRate, b.rxRate)
    case TxRate => NumbersInOrder(order, a.txRate, b.txRate)
    case RxTotal => NumbersInOrder(order, a.conn.counters.rxBytes as real, b.conn.counters.rxBytes as real)
    case TxTotal => NumbersInOrder(order, a.conn.counters.txBytes as real, b.conn.counters.txBytes as real)
    case RxMax => NumbersInOrder(order, a.rxMax, b.rxMax)
    case TxMax => NumbersInOrder(order, a.txMax, b.txMax)
    case Process =>
      NumbersInOrder(order, (if a.conn.process.pid < 0 then 0x1_0000_0000_0000_0000 + a.conn.process.pid
                             else a.conn.process.pid) as real,
                     (if b.conn.process.pid < 0 then 0x1_0000_0000_0000_0000 + b.conn.process.pid
                      else b.conn.process.pid) as real)
    case Container => TextsInOrder(order, ContainerText(a.conn.container), ContainerText(b.conn.container))
  }

  /** By name, for want of one by id, and flows of the host to one end. */
  ghost function ContainerText(i: ContainerInfo): string {
    if i.name != "" then i.name else if i.id != "" then i.id else "\U{0001}(host)"
  }

  /** Comparator order is the order of the column's own field. */
  lemma OrderedRows(src: seq<SourceRow>, rows: seq<nat>, col: Column, order: SortOrder, i: nat, j: nat)
    requires Ordered(rows, RowBefore(src, col, order)) && i < j < |rows| && rows[i] < |src| && rows[j] < |src|
    ensures RowsInOrder(src[rows[i]], src[rows[j]], col, order)
  {
    assert !RowBefore(src, col, order)(rows[j], rows[i]);
    hide NumbersInOrder, TextsInOrder;
    OrderedValues(order, SortRole(src[rows[i]], col), SortRole(src[rows[j]], col));
  }

  /** A negative pid ranks above all others. */
  lemma NegativePidRanksHigh(a: SourceRow, b: SourceRow)
    requires a.conn.process.pid < 0 <= b.conn.process.pid
    ensures Before(Ascending, SortRole(b, Process), SortRole(a, Process))
  {
  }

  /** The sums a header shows, over the fields of its flows; bytes in 64 bits. */
  ghost function RateSum(src: seq<SourceRow>, rows: seq<nat>, col: Column): real {
    if rows == [] then 0.0
    else
      var r := rows[|rows| - 1];
      RateSum(src, rows[..|rows| - 1], col)
      + (if r >= |src| then 0.0
         else match col
           case RxRate => src[r].rxRate
           case TxRate => src[r].txRate
           case RxMax => src[r].rxMax
           case TxMax => src[r].txMax
           case _ => 0.0)
  }

  ghost function ByteSum(src: seq<SourceRow>, rows: seq<nat>, rx: bool): nat {
    if rows == [] then 0
    else
      var r := rows[|rows| - 1];
      ByteSum(src, rows[..|rows| - 1], rx)
      + (if r >= |src| then 0 else if rx then src[r].conn.counters.rxBytes else src[r].conn.counters.txBytes)
  }

  lemma {:induction false} RateSumExactly(src: seq<SourceRow>, rows: seq<nat>, col: Column)
    requires col.RxRate? || col.TxRate? || col.RxMax? || col.TxMax?
    ensures SumReal(rows, RealAt(src, col)) == RateSum(src, rows, col)
  {
    if rows != [] {
      RateSumExactly(src, rows[..|rows| - 1], col);
    }
  }

  lemma {:induction false} ByteSumExactly(src: seq<SourceRow>, rows: seq<nat>)
    ensures SumNat(rows, RxBytesAt(src)) == ByteSum(src, rows, true)
    ensures SumNat(rows, TxBytesAt(src)) == ByteSum(src, rows, false)
  {
    if rows != [] {
      ByteSumExactly(src, rows[..|rows| - 1]);
    }
  }

  /** Headers a and b stand in this order: by title, size, or the sum over their flows. */
  ghost predicate HeadersInOrder(src: seq<SourceRow>, a: Group, b: Group, col: Column, order: SortOrder) {
    match col
    case Iface => TextsInOrder(order, a.title, b.title)
    case Flow => NumbersInOrder(order, |a.srcRows| as real, |b.srcRows| as real)
    case RxTotal =>
      NumbersInOrder(order, (ByteSum(src, a.srcRows, true) % TWO64) as real,
                     (ByteSum(src, b.srcRows, true) % TWO64) as real)
    case TxTotal =>
      NumbersInOrder(order, (ByteSum(src, a.srcRows, false) % TWO64) as real,
                     (ByteSum(src, b.srcRows, false) % TWO64) as real)
    case Process => true
    case Container => true
    case _ => NumbersInOrder(order, RateSum(src, a.srcRows, col), RateSum(src, b.srcRows, col))
  }

  lemma HeaderSums(src: seq<SourceRow>, g: Group, col: Column)
    ensures col.RxRate? || col.TxRate? || col.RxMax? || col.TxMax? ==>
      SumReal(g.srcRows, RealAt(src, col)) == RateSum(src, g.srcRows, col)
    ensures SumNat(g.srcRows, RxBytesAt(src)) == ByteSum(src, g.srcRows, true)
    ensures SumNat(g.srcRows, TxBytesAt(src)) == ByteSum(src, g.srcRows, false)
  {
    ByteSumExactly(src, g.srcRows);
    if col.RxRate? || col.TxRate? || col.RxMax? || col.TxMax? {
      RateSumExactly(src, g.srcRows, col);
    }
  }

  /** Comparator order of headers is the order of their titles, sizes or sums. */
  lemma OrderedHeaders(src: seq<SourceRow>, groups: seq<Group>, col: Column, order: SortOrder, i: nat, j: nat)
    requires Ordered(groups, GroupBefore(src, col, order)) && i < j < |groups|
    ensures HeadersInOrder(src, groups[i], groups[j], col, order)
  {
    assert !GroupBefore(src, col, order)(groups[j], groups[i]);
    HeaderSums(src, groups[i], col);
    HeaderSums(src, groups[j], col);
    hide NumbersInOrder, TextsInOrder, SumReal, SumNat, RateSum, ByteSum;
    OrderedValues(order, GroupSortRole(src, groups[i], col), GroupSortRole(src, groups[j], col));
  }
}
