/** The ticket table: the search box and the two filter menus, the lists
    that fill those menus, whether a row's checkbox is ticked, and the count
    line under the table. */
module TicketList {
  import opened Strings
  import opened Arrays
  import opened Tickets

  // ---------------------------------------------------------------- menus

  /** `Array.from(new Set(xs))`: each value once, at its first occurrence. */
  function Dedupe(xs: seq<string>): (r: seq<string>)
    ensures forall x :: x in r <==> x in xs
    ensures forall i, j | 0 <= i < j < |r| :: r[i] != r[j]
  {
    if |xs| == 0 then []
    else
      var d := Dedupe(xs[..|xs| - 1]);
      var last := xs[|xs| - 1];
      assert xs == xs[..|xs| - 1] + [last];
      if last in d then d else d + [last]
  }

  /** The values keep the order of their first occurrences. */
  lemma {:induction false} DedupeKeepsFirstOccurrenceOrder(xs: seq<string>)
    ensures forall i, j | 0 <= i < j < |Dedupe(xs)| :: IndexOf(xs, Dedupe(xs)[i]) < IndexOf(xs, Dedupe(xs)[j])
    decreases |xs|
  {
    if |xs| > 0 {
      var init := xs[..|xs| - 1];
      var last := xs[|xs| - 1];
      var d := Dedupe(init);
      var r := Dedupe(xs);
      DedupeKeepsFirstOccurrenceOrder(init);
      assert xs == init + [last];
      forall i | 0 <= i < |d|
        ensures IndexOf(xs, d[i]) == IndexOf(init, d[i]) < |init|
      {
        assert d[i] in init;
        IndexOfExtend(init, last, d[i]);
      }
      if last !in d {
        assert last !in init;
        IndexOfExtend(init, last, last);
        assert r == d + [last];
        forall i, j | 0 <= i < j < |r|
          ensures IndexOf(xs, r[i]) < IndexOf(xs, r[j])
        {
          assert r[i] == d[i];
          assert IndexOf(xs, d[i]) == IndexOf(init, d[i]) < |init|;
          if j < |d| {
            assert r[j] == d[j];
            assert IndexOf(xs, d[j]) == IndexOf(init, d[j]);
            assert IndexOf(init, d[i]) < IndexOf(init, d[j]);
          } else {
            assert r[j] == last;
            assert IndexOf(xs, last) == |init|;
          }
        }
      } else {
        assert r == d;
      }
    }
  }

  /** Appending a value leaves the first position of earlier values alone,
      and puts a new value at the end. */
  lemma IndexOfExtend(xs: seq<string>, y: string, x: string)
    ensures x in xs ==> IndexOf(xs + [y], x) == IndexOf(xs, x)
    ensures x !in xs && x == y ==> IndexOf(xs + [y], x) == |xs|
  {
    if x in xs {
      var k := IndexOf(xs, x);
      assert (xs + [y])[..k] == xs[..k];
      IndexOfAt(xs + [y], x, k);
    } else if x == y {
      assert (xs + [y])[..|xs|] == xs;
      IndexOfAt(xs + [y], x, |xs|);
    }
  }

  /** A position holding `x` with no `x` before it is the first position. */
  lemma IndexOfAt(xs: seq<string>, x: string, k: int)
    requires 0 <= k < |xs| && xs[k] == x && x !in xs[..k]
    ensures IndexOf(xs, x) == k
  {
    var i := IndexOf(xs, x);
    forall j | 0 <= j < i ensures xs[j] != x {
      assert xs[..i][j] == xs[j];
    }
    forall j | 0 <= j < k ensures xs[j] != x {
      assert xs[..k][j] == xs[j];
    }
  }

  function Shows(tickets: seq<TicketData>): (r: seq<string>)
    ensures |r| == |tickets| && forall i | 0 <= i < |r| :: r[i] == tickets[i].show
  {
    seq(|tickets|, i requires 0 <= i < |tickets| => tickets[i].show)
  }

  function DateTimes(tickets: seq<TicketData>): (r: seq<string>)
    ensures |r| == |tickets| && forall i | 0 <= i < |r| :: r[i] == tickets[i].dateTime
  {
    seq(|tickets|, i requires 0 <= i < |tickets| => tickets[i].dateTime)
  }

  /** The show menu: each show once, every ticket's show present. */
  function UniqueShows(tickets: seq<TicketData>): (r: seq<string>)
    ensures forall t | t in tickets :: t.show in r
    ensures forall s | s in r :: exists t | t in tickets :: t.show == s
    ensures forall i, j | 0 <= i < j < |r| :: r[i] != r[j]
  {
    var shows := Shows(tickets);
    assert forall t | t in tickets :: t.show in shows by {
      forall t | t in tickets ensures t.show in shows {
        var i :| 0 <= i < |tickets| && tickets[i] == t;
        assert shows[i] == t.show;
      }
    }
    Dedupe(shows)
  }

  /** The date menu: each date/time text once, every ticket's present. */
  function UniqueDates(tickets: seq<TicketData>): (r: seq<string>)
    ensures forall t | t in tickets :: t.dateTime in r
    ensures forall s | s in r :: exists t | t in tickets :: t.dateTime == s
    ensures forall i, j | 0 <= i < j < |r| :: r[i] != r[j]
  {
    var dates := DateTimes(tickets);
    assert forall t | t in tickets :: t.dateTime in dates by {
      forall t | t in tickets ensures t.dateTime in dates {
        var i :| 0 <= i < |tickets| && tickets[i] == t;
        assert dates[i] == t.dateTime;
      }
    }
    Dedupe(dates)
  }

  // ---------------------------------------------------------------- filter

  /** The filter menus' "show everything" value. */
  const All := "all"

  /** The search box: a case-insensitive substring of name, section, row or
      seat. */
  predicate MatchesSearch(t: TicketData, term: string) {
    var needle := Lower(term);
    || Contains(Lower(t.name), needle)
    || Contains(Lower(t.section), needle)
    || Contains(Lower(t.row), needle)
    || Contains(Lower(t.seat), needle)
  }

  /** The show menu: exact equality. */
  predicate MatchesShow(t: TicketData, showFilter: string) {
    showFilter == All || t.show == showFilter
  }

  /** The date menu: a substring of the date/time text. */
  predicate MatchesDate(t: TicketData, dateFilter: string) {
    dateFilter == All || Contains(t.dateTime, dateFilter)
  }

  predicate Keep(t: TicketData, term: string, showFilter: string, dateFilter: string) {
    MatchesSearch(t, term) && MatchesShow(t, showFilter) && MatchesDate(t, dateFilter)
  }

  /** `tickets.filter(...)`. */
  function Filtered(tickets: seq<TicketData>, term: string, showFilter: string, dateFilter: string)
    : (r: seq<TicketData>)
    ensures |r| <= |tickets|
    ensures forall t | t in r :: t in tickets && Keep(t, term, showFilter, dateFilter)
  {
    if |tickets| == 0 then []
    else
      var init := tickets[..|tickets| - 1];
      var last := tickets[|tickets| - 1];
      Filtered(init, term, showFilter, dateFilter)
      + (if Keep(last, term, showFilter, dateFilter) then [last] else [])
  }

  /** Filtering a list in two pieces filters each piece and keeps the pieces
      in order: the result is an order-preserving subsequence. */
  lemma {:induction false} FilteredAppend(a: seq<TicketData>, b: seq<TicketData>,
                                          term: string, showFilter: string, dateFilter: string)
    ensures Filtered(a + b, term, showFilter, dateFilter)
         == Filtered(a, term, showFilter, dateFilter) + Filtered(b, term, showFilter, dateFilter)
    decreases |b|
  {
    if |b| == 0 {
      assert a + b == a;
    } else {
      assert (a + b)[..|a + b| - 1] == a + b[..|b| - 1];
      FilteredAppend(a, b[..|b| - 1], term, showFilter, dateFilter);
    }
  }

  /** Every ticket that passes all three tests is kept, as often as it occurs. */
  lemma {:induction false} FilteredKeepsMatches(tickets: seq<TicketData>, term: string,
                                                showFilter: string, dateFilter: string)
    ensures forall t ::
      multiset(Filtered(tickets, term, showFilter, dateFilter))[t]
        == (if Keep(t, term, showFilter, dateFilter) then multiset(tickets)[t] else 0)
    decreases |tickets|
  {
    if |tickets| > 0 {
      var init := tickets[..|tickets| - 1];
      FilteredKeepsMatches(init, term, showFilter, dateFilter);
      assert tickets == init + [tickets[|tickets| - 1]];
    }
  }

  /** An empty search with both menus on "all" shows every ticket. */
  lemma {:induction false} NoFilterKeepsAll(tickets: seq<TicketData>)
    ensures Filtered(tickets, "", All, All) == tickets
    decreases |tickets|
  {
    if |tickets| > 0 {
      var last := tickets[|tickets| - 1];
      NoFilterKeepsAll(tickets[..|tickets| - 1]);
      ContainsEmpty(Lower(last.name));
      assert Lower("") == "";
      assert tickets[..|tickets| - 1] + [last] == tickets;
    }
  }

  /** The search never looks at the show or the date/time. */
  lemma SearchIgnoresShowAndDate(t: TicketData, term: string, show: string, dateTime: string)
    ensures MatchesSearch(t.(show := show, dateTime := dateTime), term) == MatchesSearch(t, term)
  {
  }

  /** The search does not depend on the case of the term. */
  lemma SearchIgnoresTermCase(t: TicketData, term: string)
    ensures MatchesSearch(t, Lower(term)) == MatchesSearch(t, term)
  {
    LowerIsLowered(term);
  }

  /** A term is found when it matches, in any case, a piece of the name:
      typing "SMITH" or "smith" finds "Smith". */
  lemma NameSubstringIsFound(t: TicketData, term: string, part: string)
    requires Contains(t.name, part) && Lower(term) == Lower(part)
    ensures MatchesSearch(t, term)
  {
    ContainsLower(t.name, part);
  }

  /** Lower-casing both sides keeps an occurrence. */
  lemma ContainsLower(s: string, sub: string)
    requires Contains(s, sub)
    ensures Contains(Lower(s), Lower(sub))
  {
    ContainsIffOccurs(s, sub);
    var i :| OccursAt(s, sub, i);
    assert Lower(s)[i..i + |sub|] == Lower(s[i..i + |sub|]);
    assert OccursAt(Lower(s), Lower(sub), i);
    ContainsIffOccurs(Lower(s), Lower(sub));
  }

  // ---------------------------------------------------------------- selection

  /** `selectedTickets.some(...)` on the six identity fields. */
  function IsTicketSelected(selected: seq<TicketData>, t: TicketData): (r: bool) {
    |selected| > 0 && (SameTicket(selected[0], t) || IsTicketSelected(selected[1..], t))
  }

  /** The checkbox is ticked exactly when some selected entry has the same
      identity, whatever its subscriber flag. */
  lemma {:induction false} IsTicketSelectedIff(selected: seq<TicketData>, t: TicketData)
    ensures IsTicketSelected(selected, t) <==> exists i | 0 <= i < |selected| :: SameTicket(selected[i], t)
    decreases |selected|
  {
    if |selected| > 0 {
      IsTicketSelectedIff(selected[1..], t);
      if exists i | 0 <= i < |selected| :: SameTicket(selected[i], t) {
        var i :| 0 <= i < |selected| && SameTicket(selected[i], t);
        if i > 0 {
          assert SameTicket(selected[1..][i - 1], t);
        }
      }
      if exists i | 0 <= i < |selected| - 1 :: SameTicket(selected[1..][i], t) {
        var i :| 0 <= i < |selected| - 1 && SameTicket(selected[1..][i], t);
        assert SameTicket(selected[i + 1], t);
      }
    }
  }

  // ---------------------------------------------------------------- count

  /** The line under the table: "N ticket found" or "N tickets found". */
  function CountLabel(n: nat): (r: string)
    ensures StartsWith(r, Decimal(n))
  {
    var r := Decimal(n) + " ticket" + (if n != 1 then "s" else "") + " found";
    assert r[..|Decimal(n)|] == Decimal(n);
    r
  }

  /** The plural form is used exactly when the count is not one. */
  lemma CountLabelPlural(n: nat)
    ensures EndsWith(CountLabel(n), " tickets found") <==> n != 1
    ensures n == 1 ==> CountLabel(n) == "1 ticket found"
  {
    var r := CountLabel(n);
    if n == 1 {
      assert Decimal(1) == "1";
      assert r == "1 ticket found";
      assert r[|r| - 14..][0] == '1';
    } else {
      ConcatAssoc(Decimal(n), " ticket", "s");
      assert r == Decimal(n) + " tickets" + " found";
      assert r[|r| - 14..] == " tickets found";
    }
  }
}
