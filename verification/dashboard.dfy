/** The dashboard: it turns the patron sheet into ticket records, sorts
    them by date code, and keeps the list of selected tickets. The sheet is
    an input: the rows the endpoint returned, or nothing when the fetch or
    its JSON failed. */
module Dashboard {
  import opened Wrappers
  import opened Strings
  import opened Arrays
  import opened Tickets
  import opened TicketList

  /** One sheet row: its cells, left to right. A row may be shorter than the
      header when its trailing cells are empty. */
  type Row = seq<string>

  /** `row[index]`: `undefined` for index -1 or beyond the end of the row. */
  function Cell(row: Row, index: int): (c: Option<string>)
    ensures c.Some? <==> 0 <= index < |row|
    ensures c.Some? ==> c.value == row[index]
  {
    if 0 <= index < |row| then Some(row[index]) else None
  }

  /** A cell as a template literal prints it. */
  function CellText(c: Option<string>): string {
    match c
    case Some(s) => s
    case None => "undefined"
  }

  /** The record built from one row; a field whose column is missing from
      the header, or whose cell is missing from the row, is `undefined`. */
  datatype SheetTicket = SheetTicket(
    show: Option<string>,
    dateTime: Option<string>,
    name: string,
    section: Option<string>,
    row: Option<string>,
    seat: Option<string>,
    isSubscriber: bool,
    abbrev: Option<string>,
    attendeeCode: Option<string>,
    dateCode: Option<string>)

  /** The column of each field, found by `indexOf` on the header row. */
  datatype Columns = Columns(
    firstName: int, lastName: int, showTitle: int, abbrev: int, dateTime: int,
    section: int, row: int, seat: int, isSubscriber: int, attendeeCode: int, dateCode: int)

  function HeaderColumns(header: Row): Columns {
    Columns(
      IndexOf(header, "First Name"), IndexOf(header, "Last Name"), IndexOf(header, "Show Title"),
      IndexOf(header, "Abbrev"), IndexOf(header, "Performance Date"), IndexOf(header, "Section"),
      IndexOf(header, "Row"), IndexOf(header, "Seat"), IndexOf(header, "Is Subscriber?"),
      IndexOf(header, "Attendee Code"), IndexOf(header, "Date Code"))
  }

  /** The record for one row. */
  function RowTicket(cols: Columns, row: Row): SheetTicket {
    SheetTicket(
      Cell(row, cols.showTitle),
      Cell(row, cols.dateTime),
      CellText(Cell(row, cols.firstName)) + " " + CellText(Cell(row, cols.lastName)),
      Cell(row, cols.section),
      Cell(row, cols.row),
      Cell(row, cols.seat),
      Cell(row, cols.isSubscriber) == Some("TRUE"),
      Cell(row, cols.abbrev),
      Cell(row, cols.attendeeCode),
      Cell(row, cols.dateCode))
  }

  /** The cell under a header: a header the sheet lacks has index -1 and so
      gives `undefined` in every row; a header it has gives the row's cell
      under the header's first occurrence, `undefined` when the row is too
      short. */
  lemma HeaderCell(header: Row, row: Row, h: string)
    ensures h !in header ==> IndexOf(header, h) == -1 && Cell(row, IndexOf(header, h)) == None
    ensures h in header ==>
      var i := IndexOf(header, h);
      && 0 <= i && header[i] == h && h !in header[..i]
      && Cell(row, i) == (if i < |row| then Some(row[i]) else None)
  {
  }

  /** Each field is the cell under the first header cell of that name: the
      name joins first and last name with one space, and the subscriber flag
      is set exactly by the text "TRUE". */
  lemma RowTicketFields(header: Row, row: Row)
    ensures var t := RowTicket(HeaderColumns(header), row);
      && t.show == Cell(row, IndexOf(header, "Show Title"))
      && t.dateTime == Cell(row, IndexOf(header, "Performance Date"))
      && t.name == CellText(Cell(row, IndexOf(header, "First Name"))) + " "
                   + CellText(Cell(row, IndexOf(header, "Last Name")))
      && t.section == Cell(row, IndexOf(header, "Section"))
      && t.row == Cell(row, IndexOf(header, "Row"))
      && t.seat == Cell(row, IndexOf(header, "Seat"))
      && (t.isSubscriber <==> Cell(row, IndexOf(header, "Is Subscriber?")) == Some("TRUE"))
      && t.abbrev == Cell(row, IndexOf(header, "Abbrev"))
      && t.attendeeCode == Cell(row, IndexOf(header, "Attendee Code"))
      && t.dateCode == Cell(row, IndexOf(header, "Date Code"))
  {
  }

  /** A header the sheet lacks leaves its field `undefined` in every record,
      and a missing subscriber column makes no one a subscriber. */
  lemma RowTicketMissingColumns(header: Row, row: Row)
    ensures var t := RowTicket(HeaderColumns(header), row);
      && ("Show Title" !in header ==> t.show == None)
      && ("Performance Date" !in header ==> t.dateTime == None)
      && ("Section" !in header ==> t.section == None)
      && ("Row" !in header ==> t.row == None)
      && ("Seat" !in header ==> t.seat == None)
      && ("Is Subscriber?" !in header ==> !t.isSubscriber)
      && ("Abbrev" !in header ==> t.abbrev == None)
      && ("Attendee Code" !in header ==> t.attendeeCode == None)
      && ("Date Code" !in header ==> t.dateCode == None)
  {
  }

  /** A missing name column prints as "undefined" in the attendee name. */
  lemma RowTicketMissingName(header: Row, row: Row)
    ensures var t := RowTicket(HeaderColumns(header), row);
      && ("First Name" !in header ==> StartsWith(t.name, "undefined "))
      && ("Last Name" !in header ==> EndsWith(t.name, " undefined"))
  {
    var cols := HeaderColumns(header);
    NameParts(CellText(Cell(row, cols.firstName)), CellText(Cell(row, cols.lastName)));
    UndefinedWithSpace();
    if "First Name" !in header {
      HeaderCell(header, row, "First Name");
    }
    if "Last Name" !in header {
      HeaderCell(header, row, "Last Name");
    }
  }

  lemma UndefinedWithSpace()
    ensures "undefined" + " " == "undefined " && " " + "undefined" == " undefined"
  {
  }

  lemma NameParts(first: string, last: string)
    ensures StartsWith(first + " " + last, first + " ")
    ensures EndsWith(first + " " + last, " " + last)
  {
    var name := first + " " + last;
    assert name[..|first| + 1] == first + " ";
    assert name[|name| - |last| - 1..] == " " + last;
  }

  /** Only the exact text "TRUE" marks a subscriber. */
  lemma SubscriberNeedsExactTrue(header: Row, row: Row)
    requires Cell(row, IndexOf(header, "Is Subscriber?")) in {Some("true"), Some("Yes"), None}
    ensures !RowTicket(HeaderColumns(header), row).isSubscriber
  {
  }

  function MapRows(cols: Columns, rows: seq<Row>): (r: seq<SheetTicket>)
    ensures |r| == |rows|
    ensures forall i | 0 <= i < |rows| :: r[i] == RowTicket(cols, rows[i])
  {
    seq(|rows|, i requires 0 <= i < |rows| => RowTicket(cols, rows[i]))
  }

  // ---------------------------------------------------------------- sorting

  /** The comparator's `a.dateCode < b.dateCode`: string order when both are
      present, false when either is `undefined`. */
  predicate DateBefore(a: SheetTicket, b: SheetTicket) {
    a.dateCode.Some? && b.dateCode.Some? && StrLess(a.dateCode.value, b.dateCode.value)
  }

  /** Insert `x` after every element it does not precede: later equal keys
      stay after earlier ones. */
  function Insert(x: SheetTicket, sorted: seq<SheetTicket>): (r: seq<SheetTicket>)
    ensures multiset(r) == multiset(sorted) + multiset{x}
  {
    if |sorted| == 0 then [x]
    else if DateBefore(x, sorted[0]) then [x] + sorted
    else
      assert sorted == [sorted[0]] + sorted[1..];
      [sorted[0]] + Insert(x, sorted[1..])
  }

  /** `.sort(...)` on the mapped rows, as a stable insertion sort. */
  function SortByDateCode(s: seq<SheetTicket>): (r: seq<SheetTicket>)
    ensures multiset(r) == multiset(s)
  {
    if |s| == 0 then []
    else
      assert s == s[..|s| - 1] + [s[|s| - 1]];
      Insert(s[|s| - 1], SortByDateCode(s[..|s| - 1]))
  }

  /** No record comes after one whose date code it precedes. */
  ghost predicate SortedByDate(s: seq<SheetTicket>) {
    forall i, j | 0 <= i < j < |s| :: !DateBefore(s[j], s[i])
  }

  lemma DateBeforeTransitive(a: SheetTicket, b: SheetTicket, c: SheetTicket)
    requires DateBefore(a, b) && DateBefore(b, c)
    ensures DateBefore(a, c)
  {
    StrLessTransitive(a.dateCode.value, b.dateCode.value, c.dateCode.value);
  }

  lemma DateBeforeIrreflexive(a: SheetTicket)
    ensures !DateBefore(a, a)
  {
    if a.dateCode.Some? {
      StrLessIrreflexive(a.dateCode.value);
    }
  }

  lemma {:induction false} InsertKeepsSorted(x: SheetTicket, sorted: seq<SheetTicket>)
    requires SortedByDate(sorted)
    ensures SortedByDate(Insert(x, sorted))
    decreases |sorted|
  {
    var r := Insert(x, sorted);
    if |sorted| > 0 {
      if DateBefore(x, sorted[0]) {
        forall j | 0 < j < |r|
          ensures !DateBefore(r[j], x)
        {
          assert r[j] == sorted[j - 1];
          if DateBefore(sorted[j - 1], x) {
            DateBeforeTransitive(sorted[j - 1], x, sorted[0]);
            DateBeforeIrreflexive(sorted[0]);
          }
        }
        assert r == [x] + sorted;
      } else {
        var tail := Insert(x, sorted[1..]);
        InsertKeepsSorted(x, sorted[1..]);
        assert r == [sorted[0]] + tail;
        forall j | 0 <= j < |tail|
          ensures !DateBefore(tail[j], sorted[0])
        {
          assert tail[j] in multiset(tail);
          assert tail[j] == x || tail[j] in sorted[1..];
          if tail[j] != x {
            var k :| 0 <= k < |sorted[1..]| && sorted[1..][k] == tail[j];
            assert sorted[k + 1] == tail[j];
          }
        }
      }
    }
  }

  /** The result is ordered by date code: no record is followed by one with
      a smaller date code. */
  lemma {:induction false} SortIsSorted(s: seq<SheetTicket>)
    ensures SortedByDate(SortByDateCode(s))
    decreases |s|
  {
    if |s| > 0 {
      SortIsSorted(s[..|s| - 1]);
      InsertKeepsSorted(s[|s| - 1], SortByDateCode(s[..|s| - 1]));
    }
  }

  /** The records with one given date code, in order. */
  function WithDateCode(s: seq<SheetTicket>, key: Option<string>): seq<SheetTicket> {
    if |s| == 0 then []
    else (if s[0].dateCode == key then [s[0]] else []) + WithDateCode(s[1..], key)
  }

  lemma {:induction false} WithDateCodeAppend(a: seq<SheetTicket>, b: seq<SheetTicket>, key: Option<string>)
    ensures WithDateCode(a + b, key) == WithDateCode(a, key) + WithDateCode(b, key)
    decreases |a|
  {
    if |a| > 0 {
      assert (a + b)[1..] == a[1..] + b;
      WithDateCodeAppend(a[1..], b, key);
      ConcatAssoc(if a[0].dateCode == key then [a[0]] else [], WithDateCode(a[1..], key), WithDateCode(b, key));
    } else {
      assert a + b == b;
    }
  }

  lemma {:induction false} WithDateCodeNone(s: seq<SheetTicket>, key: Option<string>)
    requires forall i | 0 <= i < |s| :: s[i].dateCode != key
    ensures WithDateCode(s, key) == []
    decreases |s|
  {
    if |s| > 0 {
      WithDateCodeNone(s[1..], key);
    }
  }

  lemma WithDateCodeSnoc(s: seq<SheetTicket>, key: Option<string>)
    requires |s| > 0
    ensures WithDateCode(s, key)
         == WithDateCode(s[..|s| - 1], key) + (if s[|s| - 1].dateCode == key then [s[|s| - 1]] else [])
  {
    var last := s[|s| - 1];
    assert s == s[..|s| - 1] + [last];
    WithDateCodeAppend(s[..|s| - 1], [last], key);
    assert WithDateCode([last], key) == (if last.dateCode == key then [last] else []) + WithDateCode([], key);
  }

  /** Inserting into a sorted list places `x` after every record with its
      date code. */
  lemma {:induction false} InsertIsStable(x: SheetTicket, sorted: seq<SheetTicket>, key: Option<string>)
    requires SortedByDate(sorted)
    ensures WithDateCode(Insert(x, sorted), key)
         == WithDateCode(sorted, key) + (if x.dateCode == key then [x] else [])
    decreases |sorted|
  {
    var own := if x.dateCode == key then [x] else [];
    if |sorted| == 0 {
      assert Insert(x, sorted) == [x];
    } else if DateBefore(x, sorted[0]) {
      assert Insert(x, sorted) == [x] + sorted;
      if x.dateCode == key {
        forall i | 0 <= i < |sorted|
          ensures sorted[i].dateCode != key
        {
          assert i > 0 ==> !DateBefore(sorted[i], sorted[0]);
          DateBeforeIrreflexive(sorted[0]);
        }
        WithDateCodeNone(sorted, key);
      }
      WithDateCodeAppend([x], sorted, key);
    } else {
      var head := if sorted[0].dateCode == key then [sorted[0]] else [];
      InsertKeepsSortedTail(sorted);
      InsertIsStable(x, sorted[1..], key);
      assert Insert(x, sorted) == [sorted[0]] + Insert(x, sorted[1..]);
      assert WithDateCode(Insert(x, sorted), key) == head + WithDateCode(Insert(x, sorted[1..]), key);
      ConcatAssoc(head, WithDateCode(sorted[1..], key), own);
    }
  }

  lemma InsertKeepsSortedTail(sorted: seq<SheetTicket>)
    requires SortedByDate(sorted) && |sorted| > 0
    ensures SortedByDate(sorted[1..])
  {
  }

  /** The sort is stable: the records sharing a date code keep their input
      order, for every date code and for records with none. */
  lemma {:induction false} SortIsStable(s: seq<SheetTicket>, key: Option<string>)
    ensures WithDateCode(SortByDateCode(s), key) == WithDateCode(s, key)
    decreases |s|
  {
    if |s| > 0 {
      var init := s[..|s| - 1];
      var last := s[|s| - 1];
      var sortedInit := SortByDateCode(init);
      SortIsStable(init, key);
      SortIsSorted(init);
      InsertIsStable(last, sortedInit, key);
      assert SortByDateCode(s) == Insert(last, sortedInit);
      WithDateCodeSnoc(s, key);
    }
  }

  // ---------------------------------------------------------------- loading

  const LoadError := "Failed to load ticket data. Please check your Google Sheets connection."

  datatype LoadResult = LoadFailed(message: string) | Loaded(tickets: seq<SheetTicket>)

  /** `loadTickets`. `response` is `None` when `fetchTicketData`, the fetch
      or its JSON decoding throws. That failure, or an empty sheet (no header
      row to call `indexOf` on), shows the error. Otherwise the header row is
      dropped, the other rows become records and the records are sorted. */
  function LoadTickets(response: Option<seq<Row>>): (r: LoadResult)
    ensures r.LoadFailed? <==> response.None? || |response.value| == 0
    ensures r.LoadFailed? ==> r.message == LoadError
    ensures r.Loaded? ==>
      && |r.tickets| == |response.value| - 1
      && multiset(r.tickets) == multiset(MapRows(HeaderColumns(response.value[0]), response.value[1..]))
  {
    match response
    case None => LoadFailed(LoadError)
    case Some(rows) =>
      if |rows| == 0 then LoadFailed(LoadError)
      else
        var records := SortByDateCode(MapRows(HeaderColumns(rows[0]), rows[1..]));
        assert |records| == |multiset(records)|;
        Loaded(records)
  }

  /** The loaded list is ordered by date code, and records that share a date
      code keep the order of their rows. */
  lemma LoadedIsSortedAndStable(rows: seq<Row>, key: Option<string>)
    requires |rows| > 0
    ensures var records := MapRows(HeaderColumns(rows[0]), rows[1..]);
      && SortedByDate(LoadTickets(Some(rows)).tickets)
      && WithDateCode(LoadTickets(Some(rows)).tickets, key) == WithDateCode(records, key)
  {
    var records := MapRows(HeaderColumns(rows[0]), rows[1..]);
    SortIsSorted(records);
    SortIsStable(records, key);
  }

  // ---------------------------------------------------------------- selection

  /** Ticking a checkbox appends the ticket. */
  function Select(selected: seq<TicketData>, t: TicketData): (r: seq<TicketData>)
    ensures |r| == |selected| + 1 && r[..|selected|] == selected && r[|selected|] == t
  {
    selected + [t]
  }

  /** Unticking removes every entry with the ticket's identity and keeps the
      rest in order. */
  function Deselect(selected: seq<TicketData>, t: TicketData): (r: seq<TicketData>)
    ensures |r| <= |selected|
  {
    if |selected| == 0 then []
    else
      var last := selected[|selected| - 1];
      Deselect(selected[..|selected| - 1], t) + (if SameTicket(last, t) then [] else [last])
  }

  /** `handleTicketSelect`. */
  function HandleTicketSelect(selected: seq<TicketData>, t: TicketData, isSelected: bool): seq<TicketData> {
    if isSelected then Select(selected, t) else Deselect(selected, t)
  }

  /** After the handler runs, the ticket's checkbox shows what was clicked. */
  lemma HandleTicketSelectShows(selected: seq<TicketData>, t: TicketData, isSelected: bool)
    ensures IsTicketSelected(HandleTicketSelect(selected, t, isSelected), t) == isSelected
  {
    var r := HandleTicketSelect(selected, t, isSelected);
    IsTicketSelectedIff(r, t);
    if isSelected {
      assert SameTicket(r[|selected|], t);
    } else {
      DeselectRemoves(selected, t);
    }
  }

  /** Unticking keeps each entry of another identity as often as it was
      there, and drops every entry of this identity. */
  lemma {:induction false} DeselectRemoves(selected: seq<TicketData>, t: TicketData)
    ensures forall e :: multiset(Deselect(selected, t))[e] == (if SameTicket(e, t) then 0 else multiset(selected)[e])
    ensures forall i | 0 <= i < |Deselect(selected, t)| :: !SameTicket(Deselect(selected, t)[i], t)
    decreases |selected|
  {
    if |selected| > 0 {
      var init := selected[..|selected| - 1];
      DeselectRemoves(init, t);
      assert selected == init + [selected[|selected| - 1]];
    }
  }

  /** Unticking works piecewise on the list, so relative order is kept. */
  lemma {:induction false} DeselectAppend(a: seq<TicketData>, b: seq<TicketData>, t: TicketData)
    ensures Deselect(a + b, t) == Deselect(a, t) + Deselect(b, t)
    decreases |b|
  {
    if |b| == 0 {
      assert a + b == a;
    } else {
      assert (a + b)[..|a + b| - 1] == a + b[..|b| - 1];
      DeselectAppend(a, b[..|b| - 1], t);
    }
  }

  /** Unticking ignores the subscriber flag of the clicked ticket. */
  lemma DeselectIgnoresSubscriber(selected: seq<TicketData>, t: TicketData, flag: bool)
    ensures Deselect(selected, t.(isSubscriber := flag)) == Deselect(selected, t)
  {
    DeselectSameIdentity(selected, t, t.(isSubscriber := flag));
  }

  lemma {:induction false} DeselectSameIdentity(selected: seq<TicketData>, t: TicketData, u: TicketData)
    requires forall e :: SameTicket(e, t) <==> SameTicket(e, u)
    ensures Deselect(selected, t) == Deselect(selected, u)
    decreases |selected|
  {
    if |selected| > 0 {
      DeselectSameIdentity(selected[..|selected| - 1], t, u);
    }
  }

  /** Unticking right after ticking leaves the list as if the ticket had been
      unticked in the first place. */
  lemma DeselectUndoesSelect(selected: seq<TicketData>, t: TicketData)
    ensures Deselect(Select(selected, t), t) == Deselect(selected, t)
  {
    DeselectAppend(selected, [t], t);
    assert Deselect([t], t) == [];
  }

  /** Ticking twice keeps two copies: selection does not deduplicate. */
  lemma ReselectDuplicates(selected: seq<TicketData>, t: TicketData)
    ensures multiset(Select(Select(selected, t), t))[t] == multiset(selected)[t] + 2
  {
    assert Select(Select(selected, t), t) == selected + [t] + [t];
  }
}
