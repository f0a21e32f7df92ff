/** The terminal interface's state machine and its text helpers: the row
    selection that skips adapter header rows, the detail panel's tab cycle, the
    binary-unit byte formatter and the sparkline, bar and rate strings. */
module Ui {
  import opened Text
  import opened Types
  import History
  import Discovery

  // ---- Rows of the port table ---------------------------------------------------

  /** One table row: None for an adapter's header, Some((adapter, port)) for a port. */
  type Row = Option<(string, u16)>

  /** `is_header_row`: a row past the end, or an adapter's header row. */
  predicate IsHeader(items: seq<Row>, row: nat) {
    row >= |items| || items[row].None?
  }

  /** Moves up from `row` while on a header row above row 0. */
  function SkipUp(items: seq<Row>, row: nat): (r: nat)
    ensures r <= row && (r == 0 || !IsHeader(items, r))
    ensures forall k :: r < k <= row ==> IsHeader(items, k)
  {
    if row > 0 && IsHeader(items, row) then SkipUp(items, row - 1) else row
  }

  /** `select_prev`: the nearest row above that is a port row, or row 0; from row 0
      nothing moves. */
  function PrevRow(items: seq<Row>, row: nat): (r: nat)
    ensures row == 0 ==> r == 0
    ensures row > 0 ==> r < row && (r == 0 || !IsHeader(items, r))
    ensures forall k :: r < k < row ==> IsHeader(items, k)
  {
    if row > 0 then SkipUp(items, row - 1) else row
  }

  /** Moves down from `row` while on a header row before the last row. */
  function SkipDown(items: seq<Row>, row: nat): (r: nat)
    ensures row <= r && (r + 1 >= |items| || !IsHeader(items, r))
    ensures row < |items| ==> r < |items|
    ensures forall k :: row <= k < r ==> IsHeader(items, k)
    decreases |items| - row
  {
    if row + 1 < |items| && IsHeader(items, row) then SkipDown(items, row + 1) else row
  }

  /** `select_next`: the nearest row below that is a port row, or the last row; from
      the last row (or past it) nothing moves. */
  function NextRow(items: seq<Row>, row: nat): (r: nat)
    ensures row + 1 >= |items| ==> r == row
    ensures row + 1 < |items| ==> row < r < |items| && (r == |items| - 1 || !IsHeader(items, r))
    ensures forall k :: row < k < r ==> IsHeader(items, k)
  {
    if row + 1 < |items| then SkipDown(items, row + 1) else row
  }

  /** The ports of one adapter as rows. */
  function PortRows(a: AdapterInfo): (rs: seq<Row>)
    ensures |rs| == |a.ports|
    ensures forall k :: 0 <= k < |rs| ==> rs[k] == Some((a.name, a.ports[k].portNumber))
  {
    seq(|a.ports|, k requires 0 <= k < |a.ports| => Some((a.name, a.ports[k].portNumber)))
  }

  /** The rows of the table: for each adapter in order, its header, then its ports. */
  function Rows(adapters: seq<AdapterInfo>): seq<Row> {
    if adapters == [] then []
    else Rows(adapters[..|adapters| - 1]) + [None] + PortRows(adapters[|adapters| - 1])
  }

  lemma RowsSnoc(adapters: seq<AdapterInfo>, a: AdapterInfo)
    ensures Rows(adapters + [a]) == Rows(adapters) + [None] + PortRows(a)
  {
    assert (adapters + [a])[..|adapters|] == adapters;
  }

  function TotalPorts(adapters: seq<AdapterInfo>): nat {
    if adapters == [] then 0 else TotalPorts(adapters[..|adapters| - 1]) + |adapters[|adapters| - 1].ports|
  }

  /** Some adapter lists a port with this key. */
  ghost predicate PortListed(adapters: seq<AdapterInfo>, key: (string, u16)) {
    exists j, k :: 0 <= j < |adapters| && 0 <= k < |adapters[j].ports| &&
      key == (adapters[j].name, adapters[j].ports[k].portNumber)
  }

  /** One row per adapter and one per port; the first row is a header; a key is
      selectable exactly when some adapter lists that port. */
  lemma {:induction false} RowsShape(adapters: seq<AdapterInfo>)
    ensures |Rows(adapters)| == |adapters| + TotalPorts(adapters)
    ensures adapters != [] ==> Rows(adapters)[0].None?
    ensures forall key :: Some(key) in Rows(adapters) <==> PortListed(adapters, key)
  {
    if adapters != [] {
      var init, last := adapters[..|adapters| - 1], adapters[|adapters| - 1];
      RowsShape(init);
      var rows := Rows(adapters);
      assert rows == Rows(init) + [None] + PortRows(last);
      forall key ensures Some(key) in rows <==> PortListed(adapters, key) {
        if Some(key) in rows {
          if Some(key) in Rows(init) {
            var j, k :| 0 <= j < |init| && 0 <= k < |init[j].ports| &&
              key == (init[j].name, init[j].ports[k].portNumber);
            assert adapters[j] == init[j];
          } else {
            assert Some(key) in PortRows(last);
            var k :| 0 <= k < |PortRows(last)| && PortRows(last)[k] == Some(key);
            assert key == (adapters[|adapters| - 1].name, adapters[|adapters| - 1].ports[k].portNumber);
          }
        }
        if PortListed(adapters, key) {
          var j, k :| 0 <= j < |adapters| && 0 <= k < |adapters[j].ports| &&
            key == (adapters[j].name, adapters[j].ports[k].portNumber);
          if j < |init| {
            assert init[j] == adapters[j];
            assert PortListed(init, key);
          } else {
            assert PortRows(last)[k] == Some(key);
          }
        }
      }
    }
  }

  /** The selection `update_selectable_items` leaves: first clamped to the last row
      (0 for an empty table), then moved down off header rows while a row follows. */
  function UpdatedRow(items: seq<Row>, row: nat): (r: nat)
    ensures |items| == 0 ==> r == 0
    ensures |items| > 0 ==> r < |items| && (r == |items| - 1 || !IsHeader(items, r))
    ensures row < |items| ==> row <= r && forall k :: row <= k < r ==> IsHeader(items, k)
  {
    var clamped := if row >= |items| then (if |items| == 0 then 0 else |items| - 1) else row;
    SkipDown(items, clamped)
  }

  // ---- Detail tabs ----------------------------------------------------------------

  /** `next_tab`: the three tabs in a cycle. */
  function NextTabOf(tab: nat): (r: nat)
    ensures r < 3 && (tab < 2 ==> r == tab + 1) && (tab == 2 ==> r == 0)
  {
    (tab + 1) % 3
  }

  /** `prev_tab`: the cycle backwards. */
  function PrevTabOf(tab: nat): (r: nat)
    ensures tab < 3 ==> r < 3
    ensures tab >= 1 ==> r + 1 == tab
  {
    if tab == 0 then 2 else tab - 1
  }

  /** Three steps forward return to the starting tab, and a step back undoes a step
      forward (and the other way round). */
  lemma TabCycle(tab: nat)
    requires tab < 3
    ensures NextTabOf(NextTabOf(NextTabOf(tab))) == tab
    ensures PrevTabOf(NextTabOf(tab)) == tab && NextTabOf(PrevTabOf(tab)) == tab
  {
  }

  // ---- AppState ---------------------------------------------------------------------

  /** The UI state: the selected row, whether the detail panel is open, the panel's
      tab, and the table's rows. */
  class AppState {
    var selectedRow: nat
    var detailExpanded: bool
    var detailTab: nat
    var selectableItems: seq<Row>

    /** The derived `Default`: row 0, panel closed, first tab, no rows. */
    constructor ()
      ensures selectedRow == 0 && !detailExpanded && detailTab == 0 && selectableItems == []
    {
      selectedRow := 0;
      detailExpanded := false;
      detailTab := 0;
      selectableItems := [];
    }

    /** Rows past the end count as headers. */
    function IsHeaderRow(row: nat): (r: bool)
      reads this
      ensures r <==> row >= |selectableItems| || selectableItems[row].None?
    {
      match if row < |selectableItems| then Some(selectableItems[row]) else None
      case None => true
      case Some(item) => item.None?
    }

    method SelectPrev()
      modifies this
      ensures selectedRow == PrevRow(old(selectableItems), old(selectedRow))
      ensures selectableItems == old(selectableItems)
      ensures detailExpanded == old(detailExpanded) && detailTab == old(detailTab)
    {
      if selectedRow > 0 {
        selectedRow := selectedRow - 1;
        while selectedRow > 0 && IsHeaderRow(selectedRow)
          invariant selectableItems == old(selectableItems)
          invariant detailExpanded == old(detailExpanded) && detailTab == old(detailTab)
          invariant SkipUp(selectableItems, selectedRow) == PrevRow(old(selectableItems), old(selectedRow))
        {
          selectedRow := selectedRow - 1;
        }
      }
    }

    method SelectNext()
      modifies this
      ensures selectedRow == NextRow(old(selectableItems), old(selectedRow))
      ensures selectableItems == old(selectableItems)
      ensures detailExpanded == old(detailExpanded) && detailTab == old(detailTab)
    {
      if selectedRow + 1 < |selectableItems| {
        selectedRow := selectedRow + 1;
        while selectedRow + 1 < |selectableItems| && IsHeaderRow(selectedRow)
          invariant selectableItems == old(selectableItems)
          invariant detailExpanded == old(detailExpanded) && detailTab == old(detailTab)
          invariant SkipDown(selectableItems, selectedRow) == NextRow(old(selectableItems), old(selectedRow))
          decreases |selectableItems| - selectedRow
        {
          selectedRow := selectedRow + 1;
        }
      }
    }

    method ToggleDetail()
      modifies this
      ensures detailExpanded == !old(detailExpanded)
      ensures selectedRow == old(selectedRow) && detailTab == old(detailTab)
      ensures selectableItems == old(selectableItems)
    {
      detailExpanded := !detailExpanded;
    }

    /** The port of the selected row: none on a header row or past the end. */
    function SelectedPort(): (r: Option<(string, u16)>)
      reads this
      ensures r.Some? <==> selectedRow < |selectableItems| && !IsHeader(selectableItems, selectedRow)
      ensures r.Some? ==> selectableItems[selectedRow] == Some(r.value)
    {
      if selectedRow < |selectableItems| then
        match selectableItems[selectedRow]
        case Some(key) => Some(key)
        case None => None
      else None
    }

    method NextTab()
      modifies this
      ensures detailTab == NextTabOf(old(detailTab))
      ensures selectedRow == old(selectedRow) && detailExpanded == old(detailExpanded)
      ensures selectableItems == old(selectableItems)
    {
      detailTab := (detailTab + 1) % 3;
    }

    method PrevTab()
      modifies this
      ensures detailTab == PrevTabOf(old(detailTab))
      ensures selectedRow == old(selectedRow) && detailExpanded == old(detailExpanded)
      ensures selectableItems == old(selectableItems)
    {
      detailTab := if detailTab == 0 then 2 else detailTab - 1;
    }

    /** Rebuilds the rows from the adapters and moves the selection onto them. */
    method UpdateSelectableItems(adapters: seq<AdapterInfo>)
      modifies this
      ensures selectableItems == Rows(adapters)
      ensures selectedRow == UpdatedRow(Rows(adapters), old(selectedRow))
      ensures detailExpanded == old(detailExpanded) && detailTab == old(detailTab)
    {
      selectableItems := [];
      for i := 0 to |adapters|
        invariant selectableItems == Rows(adapters[..i])
        invariant selectedRow == old(selectedRow)
        invariant detailExpanded == old(detailExpanded) && detailTab == old(detailTab)
      {
        var adapter := adapters[i];
        ghost var before := selectableItems + [None];
        selectableItems := selectableItems + [None];
        for j := 0 to |adapter.ports|
          invariant selectableItems == before + PortRows(adapter)[..j]
          invariant selectedRow == old(selectedRow)
          invariant detailExpanded == old(detailExpanded) && detailTab == old(detailTab)
        {
          assert PortRows(adapter)[..j + 1] == PortRows(adapter)[..j] + [PortRows(adapter)[j]];
          selectableItems := selectableItems + [Some((adapter.name, adapter.ports[j].portNumber))];
        }
        assert PortRows(adapter)[..|adapter.ports|] == PortRows(adapter);
        assert adapters[..i + 1] == adapters[..i] + [adapter];
        RowsSnoc(adapters[..i], adapter);
      }
      assert adapters[..|adapters|] == adapters;
      ghost var clamped := if selectedRow >= |selectableItems| then
        (if |selectableItems| == 0 then 0 else |selectableItems| - 1) else selectedRow;
      if selectedRow >= |selectableItems| {
        selectedRow := if |selectableItems| == 0 then 0 else |selectableItems| - 1;
      }
      while selectedRow < |selectableItems| && IsHeaderRow(selectedRow)
        invariant selectableItems == Rows(adapters)
        invariant detailExpanded == old(detailExpanded) && detailTab == old(detailTab)
        invariant selectedRow < |selectableItems| || selectedRow == clamped
        invariant SkipDown(selectableItems, selectedRow) == SkipDown(selectableItems, clamped)
        decreases |selectableItems| - selectedRow
      {
        if selectedRow + 1 < |selectableItems| {
          selectedRow := selectedRow + 1;
        } else {
          break;
        }
      }
    }
  }

  /** The rows of ibtop's `test_app_state_navigation`: [header, port, port, header, port]. */
  lemma NavigationExample()
    ensures var items: seq<Row> := [None, Some(("mlx5_0", 1)), Some(("mlx5_0", 2)), None, Some(("mlx5_1", 1))];
      NextRow(items, 1) == 2 && NextRow(items, 2) == 4 && PrevRow(items, 4) == 2
  {
    var items: seq<Row> := [None, Some(("mlx5_0", 1)), Some(("mlx5_0", 2)), None, Some(("mlx5_1", 1))];
    assert SkipDown(items, 3) == 4;
    assert SkipUp(items, 3) == 2;
  }

  /** Moving up from the first port of the first adapter selects that adapter's
      header row, where no port is selected. */
  lemma PrevFromFirstPortSelectsHeader(adapters: seq<AdapterInfo>)
    requires adapters != [] && adapters[0].ports != []
    ensures |Rows(adapters)| > 1 && PrevRow(Rows(adapters), 1) == 0 && IsHeader(Rows(adapters), 0)
  {
    RowsShape(adapters);
  }

  /** ibtop's `test_app_state_navigation`: from row 1, down twice (skipping the
      header at row 3), then up once. */
  method AppStateNavigation() returns (afterNext: nat, afterSkip: nat, afterPrev: nat)
    ensures afterNext == 2 && afterSkip == 4 && afterPrev == 2
  {
    var st := new AppState();
    st.selectableItems := [None, Some(("mlx5_0", 1)), Some(("mlx5_0", 2)), None, Some(("mlx5_1", 1))];
    st.selectedRow := 1;
    NavigationExample();
    st.SelectNext();
    afterNext := st.selectedRow;
    st.SelectNext();
    afterSkip := st.selectedRow;
    st.SelectPrev();
    afterPrev := st.selectedRow;
  }

  /** ibtop's `test_app_state_toggle_detail`: closed at first, open after one toggle,
      closed again after a second. */
  method AppStateToggleDetail() returns (initially: bool, once: bool, twice: bool)
    ensures !initially && once && !twice
  {
    var st := new AppState();
    initially := st.detailExpanded;
    st.ToggleDetail();
    once := st.detailExpanded;
    st.ToggleDetail();
    twice := st.detailExpanded;
  }

  /** ibtop's `test_app_state_tab_cycling`: tab 0, three steps forward, one back. */
  method AppStateTabCycling() returns (tabs: seq<nat>)
    ensures tabs == [0, 1, 2, 0, 2]
  {
    var st := new AppState();
    tabs := [st.detailTab];
    st.NextTab();
    tabs := tabs + [st.detailTab];
    st.NextTab();
    tabs := tabs + [st.detailTab];
    st.NextTab();
    tabs := tabs + [st.detailTab];
    st.PrevTab();
    tabs := tabs + [st.detailTab];
  }

  // ---- format_bytes ---------------------------------------------------------------

  const UNITS: seq<string> := ["B", "KB", "MB", "GB", "TB", "PB"]

  function Pow1024(k: nat): (p: nat)
    ensures p >= 1
  {
    if k == 0 then 1 else 1024 * Pow1024(k - 1)
  }

  lemma Pow1024Values()
    ensures Pow1024(1) == 1024 && Pow1024(2) == 1048576 && Pow1024(3) == 1073741824
    ensures Pow1024(4) == 1099511627776 && Pow1024(5) == 1125899906842624
    ensures Pow1024(6) == 1152921504606846976
  {
  }

  /** The unit a byte count is shown in: the largest power of 1024 it reaches, up to PB. */
  function UnitOf(bytes: nat): (u: nat)
    ensures u < |UNITS|
    ensures u == 0 || Pow1024(u) <= bytes
    ensures u == |UNITS| - 1 || bytes < Pow1024(u + 1)
  {
    Pow1024Values();
    if bytes < Pow1024(1) then 0
    else if bytes < Pow1024(2) then 1
    else if bytes < Pow1024(3) then 2
    else if bytes < Pow1024(4) then 3
    else if bytes < Pow1024(5) then 4
    else 5
  }

  /** The unit is the one whose power the count reaches and whose next power it stays
      below (none above PB). */
  lemma UnitOfUnique(bytes: nat, u: nat)
    requires u < |UNITS|
    requires u == 0 || Pow1024(u) <= bytes
    requires u == |UNITS| - 1 || bytes < Pow1024(u + 1)
    ensures UnitOf(bytes) == u
  {
    Pow1024Values();
    if u == 0 {
    } else if u == 1 {
    } else if u == 2 {
    } else if u == 3 {
    } else if u == 4 {
    }
  }

  lemma MulMono(a: int, b: int, c: int)
    requires a <= b && c >= 0
    ensures a * c <= b * c
  {
    assert b * c - a * c == (b - a) * c;
  }

  /** Euclidean division is determined by quotient and remainder. */
  lemma DivUnique(a: int, d: int, q: int, r: int)
    requires d > 0 && 0 <= r < d && a == q * d + r
    ensures a / d == q && a % d == r
  {
    var q' := a / d;
    if q' < q {
      MulMono(q' + 1, q, d);
    } else if q' > q {
      MulMono(q + 1, q', d);
    }
  }

  lemma DivDiv(a: nat, b: nat, c: nat)
    requires b > 0 && c > 0
    ensures a / b / c == a / (b * c)
  {
    var q1, r1 := a / b, a % b;
    var q2, r2 := q1 / c, q1 % c;
    assert a == q2 * (b * c) + (r2 * b + r1) by {
      assert q1 * b == (q2 * c + r2) * b == q2 * (b * c) + r2 * b;
    }
    MulMono(r2, c - 1, b);
    assert (c - 1) * b == b * c - b;
    DivUnique(a, b * c, q2, r2 * b + r1);
  }

  /** A quotient below 1024 means the count is below the next power, and one of at
      least 1024 means it reaches it. */
  lemma QuotientVersusNextPower(bytes: nat, u: nat)
    ensures bytes / Pow1024(u) < 1024 <==> bytes < Pow1024(u + 1)
    ensures Pow1024(u) <= bytes ==> bytes / Pow1024(u) >= 1
  {
    var p := Pow1024(u);
    var q, r := bytes / p, bytes % p;
    assert bytes == q * p + r;
    assert Pow1024(u + 1) == 1024 * p;
    if q < 1024 {
      MulMono(q + 1, 1024, p);
    } else {
      MulMono(1024, q, p);
    }
    if q == 0 {
      assert bytes == r;
    }
  }

  /** A remainder below `p` has fewer than ten tenths of `p`. */
  lemma TenthBound(r: nat, p: nat)
    requires r < p
    ensures 0 <= r * 10 / p < 10
  {
    var q := r * 10 / p;
    if q >= 10 {
      MulMono(10, q, p);
    } else if q < 0 {
      MulMono(q, -1, p);
    }
  }

  /** The digit after the point: the `10 * (unit - 1)` bits below the unit's, as a
      share of 1024, tenths rounded down. */
  function TenthAsWritten(bytes: nat, u: nat): (d: nat)
    requires u >= 1
    ensures d < 10
  {
    (bytes / Pow1024(u - 1)) % 1024 * 10 / 1024
  }

  /** The text `format!("{value}{unit}")` or `format!("{value}.{digit}{unit}")`. */
  function Shown(value: nat, u: nat, digit: nat): string
    requires u < |UNITS| && digit < 10
  {
    NatToString(value) + (if u == 0 then "" else "." + [DigitChar(digit)]) + UNITS[u]
  }

  /** What `format_bytes` shows for a count. */
  function FormatBytesOf(bytes: nat): string {
    var u := UnitOf(bytes);
    Shown(bytes / Pow1024(u), u, if u == 0 then 0 else TenthAsWritten(bytes, u))
  }

  /** One division by 1024 moves to the next unit. */
  lemma ScaleStep(bytes: nat, u: nat)
    requires bytes / Pow1024(u) >= 1024
    ensures bytes / Pow1024(u) / 1024 == bytes / Pow1024(u + 1) && Pow1024(u + 1) <= bytes
  {
    QuotientVersusNextPower(bytes, u);
    DivDiv(bytes, Pow1024(u), 1024);
    assert Pow1024(u) * 1024 == Pow1024(u + 1);
  }

  /** `format_bytes`: divides by 1024 (at most five times) while the value reaches
      1024, then prints the value, the digit after the point and the unit. */
  method FormatBytes(bytes: u64) returns (s: string)
    ensures s == FormatBytesOf(bytes)
  {
    var value: nat := bytes;
    var unitIndex := 0;
    while value >= 1024 && unitIndex < |UNITS| - 1
      invariant unitIndex < |UNITS|
      invariant value == bytes / Pow1024(unitIndex)
      invariant unitIndex == 0 || Pow1024(unitIndex) <= bytes
    {
      ScaleStep(bytes, unitIndex);
      value := value / 1024;
      unitIndex := unitIndex + 1;
    }
    QuotientVersusNextPower(bytes, unitIndex);
    UnitOfUnique(bytes, unitIndex);
    if unitIndex == 0 {
      s := NatToString(value) + UNITS[unitIndex];
    } else {
      var fractional := (bytes / Pow1024(unitIndex - 1)) % 1024;
      var decimalPart := (fractional * 10) / 1024;
      s := NatToString(value) + "." + [DigitChar(decimalPart)] + UNITS[unitIndex];
    }
  }

  /** The count shown is below 1024 in every unit but PB, and the unit is never
      above the count. */
  lemma FormatBytesBounds(bytes: nat)
    ensures UnitOf(bytes) < |UNITS|
    ensures UnitOf(bytes) < |UNITS| - 1 ==> bytes / Pow1024(UnitOf(bytes)) < 1024
    ensures UnitOf(bytes) > 0 ==> bytes / Pow1024(UnitOf(bytes)) >= 1
  {
    QuotientVersusNextPower(bytes, UnitOf(bytes));
  }

  /** ibtop's `test_format_bytes` below one KB. */
  lemma FormatBytesBytes()
    ensures FormatBytesOf(0) == "0B" && FormatBytesOf(1023) == "1023B"
  {
    BelowOneKilobyte(0);
    BelowOneKilobyte(1023);
    assert NatToString(0) == "0";
    assert NatToString(1023) == "1023" by {
      assert NatToString(102) == "102" by {
        assert NatToString(10) == "10";
      }
    }
  }

  /** Below one KB a count is shown whole, in bytes. */
  lemma BelowOneKilobyte(bytes: nat)
    requires bytes < 1024
    ensures FormatBytesOf(bytes) == NatToString(bytes) + "B"
  {
    Pow1024Values();
    assert UnitOf(bytes) == 0;
  }

  /** ibtop's `test_format_bytes` at one KB and just above. */
  lemma FormatBytesKilobytes()
    ensures FormatBytesOf(1024) == "1.0KB" && FormatBytesOf(1025) == "1.0KB"
  {
    Pow1024Values();
    assert NatToString(1) == "1";
  }

  /** A power of 1024 from KB on shows as one of its unit. */
  lemma FormatBytesOfPower(k: nat)
    requires 1 <= k < |UNITS|
    ensures FormatBytesOf(Pow1024(k)) == "1.0" + UNITS[k]
  {
    PowerParts(k);
    ShownOne(k);
  }

  lemma ShownOne(k: nat)
    requires 1 <= k < |UNITS|
    ensures Shown(1, k, 0) == "1.0" + UNITS[k]
  {
    assert NatToString(1) == "1";
    assert DigitChar(0) == '0';
    assert "1" + "." + ['0'] == "1.0";
  }

  /** A power of 1024 is one of its unit with no tenths. */
  lemma PowerParts(k: nat)
    requires 1 <= k < |UNITS|
    ensures FormatBytesOf(Pow1024(k)) == Shown(1, k, 0)
  {
    var p := Pow1024(k);
    assert p < Pow1024(k + 1);
    UnitOfUnique(p, k);
    DivUnique(p, p, 1, 0);
    DivUnique(p, Pow1024(k - 1), 1024, 0);
    assert TenthAsWritten(p, k) == 0;
  }

  /** ibtop's `test_format_bytes` at each larger unit. */
  lemma FormatBytesLargerUnits()
    ensures FormatBytesOf(1024 * 1024) == "1.0MB" && FormatBytesOf(1024 * 1024 * 1024) == "1.0GB"
    ensures FormatBytesOf(1024 * 1024 * 1024 * 1024) == "1.0TB"
    ensures FormatBytesOf(1024 * 1024 * 1024 * 1024 * 1024) == "1.0PB"
  {
    Pow1024Values();
    FormatBytesOfPower(2);
    FormatBytesOfPower(3);
    FormatBytesOfPower(4);
    FormatBytesOfPower(5);
  }

  /** The digit after the point that shows the count truncated to tenths of the unit. */
  function ExactTenth(bytes: nat, u: nat): (d: nat)
    ensures d < 10
  {
    TenthBound(bytes % Pow1024(u), Pow1024(u));
    (bytes % Pow1024(u)) * 10 / Pow1024(u)
  }

  /** A reference formatter: the value in the unit and the digit of its exact first
      decimal place, truncated. */
  function FormatBytesExact(bytes: nat): string {
    var u := UnitOf(bytes);
    Shown(bytes / Pow1024(u), u, if u == 0 then 0 else ExactTenth(bytes, u))
  }

  /** With the reference digit, "value.digit" is the count in the unit truncated to
      one decimal place. */
  lemma ExactShowsTenths(bytes: nat, u: nat)
    ensures (bytes / Pow1024(u)) * 10 + ExactTenth(bytes, u) == bytes * 10 / Pow1024(u)
  {
    var p := Pow1024(u);
    var q, r := bytes / p, bytes % p;
    var d, r' := (r * 10) / p, (r * 10) % p;
    assert bytes * 10 == (q * 10 + d) * p + r' by {
      assert bytes == q * p + r;
      assert r * 10 == d * p + r';
    }
    DivUnique(bytes * 10, p, q * 10 + d, r');
  }

  /** In KB both digits agree: the bits below the unit are all there are. */
  lemma KilobytesAgree(bytes: nat)
    requires UnitOf(bytes) == 1
    ensures FormatBytesOf(bytes) == FormatBytesExact(bytes)
  {
    assert Pow1024(1) == 1024;
  }

  /** From MB on, `format_bytes`'s digit ignores the bits below the next unit down,
      so it can fall one short of the exact tenth: 1,153,624 bytes (1.1002 MB)
      shows as "1.0MB". */
  lemma FormatBytesDropsLowBits()
    ensures FormatBytesOf(1153624) == "1.0MB"
    ensures FormatBytesExact(1153624) == "1.1MB"
    ensures 1153624 * 10 / Pow1024(2) == 11
  {
    Pow1024Values();
    assert NatToString(1) == "1";
  }

  // ---- Sparkline, bar and rate strings -----------------------------------------------

  /** The eight block glyphs, lowest first (U+2581 to U+2588). */
  const SPARK_CHARS: seq<char> := ['\U{2581}', '\U{2582}', '\U{2583}', '\U{2584}', '\U{2585}', '\U{2586}', '\U{2587}', '\U{2588}']

  /** `render_inline_sparkline`: the glyph of each level, levels above 7 shown as
      the full block. */
  function RenderInlineSparkline(data: seq<u64>): (r: string)
    ensures |r| == |data|
    ensures forall i :: 0 <= i < |data| ==> r[i] == SPARK_CHARS[History.Min(data[i], 7)]
  {
    seq(|data|, i requires 0 <= i < |data| => SPARK_CHARS[History.Min(data[i], 7)])
  }

  /** Higher levels get taller glyphs, and different levels up to 7 different glyphs. */
  lemma SparklineOrder(data: seq<u64>, i: nat, j: nat)
    requires i < |data| && j < |data| && data[i] <= 7 && data[j] <= 7
    ensures data[i] <= data[j] <==> RenderInlineSparkline(data)[i] <= RenderInlineSparkline(data)[j]
  {
    var r := RenderInlineSparkline(data);
    assert r[i] as int == 0x2581 + data[i];
    assert r[j] as int == 0x2581 + data[j];
  }

  /** ibtop's `test_render_inline_sparkline` and `test_render_inline_sparkline_empty`:
      levels 0 to 7 give the eight glyphs in order; no levels give no glyphs. */
  lemma SparklineExample()
    ensures RenderInlineSparkline([0, 1, 2, 3, 4, 5, 6, 7]) == SPARK_CHARS
    ensures RenderInlineSparkline([]) == ""
  {
  }

  /** A series quantised for the sparkline renders one glyph per sample without
      clamping. */
  lemma RendersNormalizedLevels(values: seq<real>)
    ensures var levels := History.NormalizeForSparkline(values);
      (forall i :: 0 <= i < |levels| ==> levels[i] <= U64_MAX) &&
      |RenderInlineSparkline(levels)| == |values| &&
      forall i :: 0 <= i < |levels| ==> RenderInlineSparkline(levels)[i] == SPARK_CHARS[levels[i]]
  {
  }

  const FULL_CELL: char := '\U{2588}'
  const LIGHT_CELL: char := '\U{2591}'

  /** The filled cells: `((percent / 100) * width).round()` cast to `usize`, at most
      `width`. */
  function FilledCells(percent: real, width: nat): (f: nat)
    ensures f <= width
  {
    History.Min(History.SaturateU64(History.RoundHalfAway(Scaled(percent, width))), width)
  }

  /** `(percent / 100.0) * width as f64`. */
  function Scaled(percent: real, width: nat): real {
    percent / 100.0 * width as real
  }

  lemma ScaledMonotone(p1: real, p2: real, width: nat)
    requires p1 <= p2
    ensures Scaled(p1, width) <= Scaled(p2, width)
  {
    MulRightMonotone(p1 / 100.0, p2 / 100.0, width as real);
  }

  /** At or below 0% the product is not positive, at or above 100% it is at least `width`. */
  lemma ScaledEnds(percent: real, width: nat)
    ensures percent <= 0.0 ==> Scaled(percent, width) <= 0.0
    ensures percent >= 100.0 ==> Scaled(percent, width) >= width as real
  {
    if percent <= 0.0 {
      MulRightMonotone(percent / 100.0, 0.0, width as real);
    } else if percent >= 100.0 {
      MulRightMonotone(1.0, percent / 100.0, width as real);
    }
  }

  /** `render_utilization_bar`: `width` cells, the filled ones first. */
  function RenderUtilizationBar(percent: real, width: nat): (r: string)
    ensures |r| == width
    ensures forall i :: 0 <= i < width ==> (r[i] == FULL_CELL <==> i < FilledCells(percent, width))
    ensures forall i :: 0 <= i < width ==> (r[i] == LIGHT_CELL <==> i >= FilledCells(percent, width))
  {
    seq(width, i requires 0 <= i < width => if i < FilledCells(percent, width) then FULL_CELL else LIGHT_CELL)
  }

  lemma RoundMonotone(x: real, y: real)
    requires x <= y
    ensures History.RoundHalfAway(x) <= History.RoundHalfAway(y)
  {
    if x < 0.0 && y < 0.0 {
      assert -y + 0.5 <= -x + 0.5;
    }
  }

  /** A higher percentage never fills fewer cells. */
  lemma BarMonotone(p1: real, p2: real, width: nat)
    requires p1 <= p2
    ensures FilledCells(p1, width) <= FilledCells(p2, width)
  {
    ScaledMonotone(p1, p2, width);
    RoundMonotone(Scaled(p1, width), Scaled(p2, width));
  }

  /** Nothing is filled at or below 0%, every cell at or above 100%. */
  lemma BarEnds(percent: real, width: nat)
    requires width <= U64_MAX
    ensures percent <= 0.0 ==> FilledCells(percent, width) == 0
    ensures percent >= 100.0 ==> FilledCells(percent, width) == width
  {
    ScaledEnds(percent, width);
    if percent <= 0.0 {
      RoundMonotone(Scaled(percent, width), 0.0);
    }
    if percent >= 100.0 {
      RoundOfInteger(width);
      RoundMonotone(width as real, Scaled(percent, width));
    }
  }

  lemma RoundOfInteger(n: nat)
    ensures History.RoundHalfAway(n as real) == n
  {
    assert n as real <= n as real + 0.5 < (n + 1) as real;
  }

  lemma MulRightMonotone(a: real, b: real, c: real)
    requires a <= b && c >= 0.0
    ensures a * c <= b * c
  {
    assert b * c - a * c == (b - a) * c;
  }

  /** ibtop's `test_utilization_bar`: half of ten cells is five of each kind. */
  lemma BarExample()
    ensures FilledCells(50.0, 10) == 5
    ensures |RenderUtilizationBar(50.0, 10)| == 10
    ensures FULL_CELL in RenderUtilizationBar(50.0, 10) && LIGHT_CELL in RenderUtilizationBar(50.0, 10)
  {
    assert Scaled(50.0, 10) == 5.0;
    assert RenderUtilizationBar(50.0, 10)[0] == FULL_CELL;
    assert RenderUtilizationBar(50.0, 10)[9] == LIGHT_CELL;
  }

  /** `truncate_rate`: the trimmed text before the first '(' (all of it without one). */
  function TruncateRate(rate: string): (r: string)
    ensures IsTrimmed(r) && '(' !in r
  {
    match Find(rate, '(')
    case Some(paren) =>
      var t := Trim(rate[..paren]);
      assert t == rate[..paren][StartIndex(rate[..paren], 0)..StartIndex(rate[..paren], 0) + |t|];
      t
    case None => Trim(rate)
  }

  /** The table shows the same rate text as discovery stored: cutting before '(' and
      trimming gives what trimming, cutting and trimming again gives. */
  lemma TruncateRateAgrees(rate: string)
    ensures TruncateRate(rate) == Discovery.ReadPortRate(Some(rate))
  {
    var t := Trim(rate);
    match Find(rate, '(')
    case None =>
      assert t == rate[StartIndex(rate, 0)..StartIndex(rate, 0) + |t|];
      assert '(' !in t;
    case Some(p) =>
      CutThenTrim(rate, p);
  }

  /** With the first '(' at `p`, the trimmed text holds it at the same place past
      the leading whitespace, and what comes before it trims alike. */
  lemma CutThenTrim(rate: string, p: nat)
    requires Find(rate, '(') == Some(p)
    ensures Trim(rate[..p]) == Discovery.ReadPortRate(Some(rate))
  {
    var lo := StartIndex(rate, 0);
    ParenInTrim(rate, p);
    var before := Trim(rate)[..p - lo];
    assert before == rate[lo..p];
    Discovery.RateCutAt(rate, p - lo);
    assert Discovery.ReadPortRate(Some(rate)) == Trim(before);
    CutKeepsTrim(rate, lo, p);
  }

  /** The first '(' of the trimmed text is the first of the whole, moved by the
      leading whitespace, and the trimmed text before it is the text before it. */
  lemma ParenInTrim(rate: string, p: nat)
    requires Find(rate, '(') == Some(p)
    ensures StartIndex(rate, 0) <= p
    ensures Find(Trim(rate), '(') == Some(p - StartIndex(rate, 0))
    ensures Trim(rate)[..p - StartIndex(rate, 0)] == rate[StartIndex(rate, 0)..p]
  {
    var lo := StartIndex(rate, 0);
    var t := Trim(rate);
    assert t == rate[lo..lo + |t|];
    InsideTrim(rate, p);
    assert t[p - lo] == '(';
    assert t[..p - lo] == rate[lo..p];
    assert '(' !in t[..p - lo];
    Discovery.FindFirst(t, '(', p - lo);
  }

  /** An opening parenthesis, never whitespace, lies inside the trimmed text. */
  lemma InsideTrim(s: string, i: nat)
    requires i < |s| && s[i] == '('
    ensures StartIndex(s, 0) <= i < StartIndex(s, 0) + |Trim(s)|
  {
    var lo := StartIndex(s, 0);
    var t := Trim(s);
    assert !IsWhitespace(s[i]);
    assert WhitespaceBetween(s, 0, lo);
    assert WhitespaceBetween(s, lo + |t|, |s|);
  }

  /** Leading whitespace before the cut does not change its trim. */
  lemma CutKeepsTrim(rate: string, lo: nat, p: nat)
    requires lo <= p <= |rate| && WhitespaceBetween(rate, 0, lo)
    ensures Trim(rate[..p]) == Trim(rate[lo..p])
  {
    assert rate[..p] == rate[..lo] + rate[lo..p] + "";
    assert AllWhitespace(rate[..lo]) && AllWhitespace("");
    TrimIgnoresPadding(rate[..lo], rate[lo..p], "");
  }

  /** ibtop's `test_truncate_rate`. */
  lemma TruncateRateExamples()
    ensures TruncateRate("100 Gb/sec (4X EDR)") == "100 Gb/sec"
    ensures TruncateRate("200 Gb/sec") == "200 Gb/sec"
  {
    TruncateDetailExample();
    TruncatePlainExample();
  }

  lemma TruncateDetailExample()
    ensures TruncateRate("100 Gb/sec (4X EDR)") == "100 Gb/sec"
  {
    ExampleRateText();
    Discovery.FindFirst("100 Gb/sec (4X EDR)", '(', 11);
    Discovery.TrimAfterSpace("100 Gb/sec");
  }

  lemma ExampleRateText()
    ensures var long := "100 Gb/sec (4X EDR)";
      |long| > 11 && long[11] == '(' && '(' !in long[..11] && long[..11] == "100 Gb/sec" + " "
    ensures IsTrimmed("100 Gb/sec")
  {
  }

  lemma TruncatePlainExample()
    ensures TruncateRate("200 Gb/sec") == "200 Gb/sec"
  {
    assert '(' !in "200 Gb/sec" && IsTrimmed("200 Gb/sec");
    TrimOfTrimmed("200 Gb/sec");
  }

}
