/** The ticket record every component passes around, its selection identity,
    and the payload of its scannable code. */
module Tickets {
  import opened Strings

  /** One attendee's seat for one performance. */
  datatype TicketData = TicketData(
    show: string,
    dateTime: string,
    name: string,
    section: string,
    row: string,
    seat: string,
    isSubscriber: bool)

  /** The six fields that identify a ticket, in payload order. */
  function IdentityFields(t: TicketData): seq<string> {
    [t.name, t.show, t.dateTime, t.section, t.row, t.seat]
  }

  /** Selection identity: equal on name, show, date, section, row and seat;
      the subscriber flag plays no part. */
  predicate SameTicket(a: TicketData, b: TicketData) {
    && a.name == b.name
    && a.show == b.show
    && a.dateTime == b.dateTime
    && a.section == b.section
    && a.row == b.row
    && a.seat == b.seat
  }

  lemma SameTicketIsIdentityEquality(a: TicketData, b: TicketData)
    ensures SameTicket(a, b) <==> IdentityFields(a) == IdentityFields(b)
  {
    if IdentityFields(a) == IdentityFields(b) {
      assert IdentityFields(a)[0] == IdentityFields(b)[0];
      assert IdentityFields(a)[1] == IdentityFields(b)[1];
      assert IdentityFields(a)[2] == IdentityFields(b)[2];
      assert IdentityFields(a)[3] == IdentityFields(b)[3];
      assert IdentityFields(a)[4] == IdentityFields(b)[4];
      assert IdentityFields(a)[5] == IdentityFields(b)[5];
    }
  }

  /** The scannable-code payload `name-show-dateTime-section-row-seat`; both
      renderers build it the same way. */
  function AttendeeCode(t: TicketData): string {
    JoinWith(IdentityFields(t), "-")
  }

  /** The payload is the template string both renderers write: the six
      identity fields, in order, each pair separated by one "-". */
  lemma AttendeeCodeTemplate(t: TicketData)
    ensures AttendeeCode(t)
         == t.name + "-" + t.show + "-" + t.dateTime + "-" + t.section + "-" + t.row + "-" + t.seat
  {
    var tail := JoinWith([t.section, t.row, t.seat], "-");
    JoinThree(t.section, t.row, t.seat);
    assert IdentityFields(t)[2..] == [t.dateTime, t.section, t.row, t.seat];
    assert JoinWith([t.dateTime, t.section, t.row, t.seat], "-") == t.dateTime + "-" + tail
      by { assert [t.dateTime, t.section, t.row, t.seat][1..] == [t.section, t.row, t.seat]; }
    CodeUnfold(t, t.dateTime + "-" + tail);
    var x := t.name + "-" + t.show + "-" + t.dateTime + "-";
    assert t.name + "-" + (t.show + "-" + (t.dateTime + "-" + tail)) == x + tail;
    assert x + (t.section + "-" + t.row + "-" + t.seat)
        == t.name + "-" + t.show + "-" + t.dateTime + "-" + t.section + "-" + t.row + "-" + t.seat;
  }

  lemma JoinThree(a: string, b: string, c: string)
    ensures JoinWith([a, b, c], "-") == a + "-" + b + "-" + c
  {
    assert [a, b, c][1..] == [b, c];
    assert [b, c][1..] == [c];
    assert JoinWith([b, c], "-") == b + "-" + c;
    assert JoinWith([a, b, c], "-") == a + "-" + (b + "-" + c);
  }

  predicate DashFree(t: TicketData) {
    forall i | 0 <= i < 6 :: '-' !in IdentityFields(t)[i]
  }

  /** When no identity field holds a "-", the payload splits back into the six
      fields. */
  lemma AttendeeCodeDecodes(t: TicketData)
    requires DashFree(t)
    ensures Split(AttendeeCode(t), '-') == IdentityFields(t)
  {
    SplitJoinWith(IdentityFields(t), '-');
  }

  /** On dash-free tickets the payload identifies the ticket exactly as the
      selection identity does. */
  lemma AttendeeCodeIdentifies(a: TicketData, b: TicketData)
    requires DashFree(a) && DashFree(b)
    ensures AttendeeCode(a) == AttendeeCode(b) <==> SameTicket(a, b)
  {
    AttendeeCodeDecodes(a);
    AttendeeCodeDecodes(b);
    SameTicketIsIdentityEquality(a, b);
  }

  /** With a "-" inside a field, two different tickets can share a payload:
      moving a dash-joined word from the show into the name changes the
      ticket but not its code. */
  lemma AttendeeCodeCollides(t: TicketData, word: string)
    requires word != ""
    ensures var u := t.(name := t.name + "-" + word, show := t.show);
            var v := t.(show := word + "-" + t.show);
            AttendeeCode(u) == AttendeeCode(v) && !SameTicket(u, v)
  {
    var u := t.(name := t.name + "-" + word, show := t.show);
    var v := t.(show := word + "-" + t.show);
    var rest := JoinWith(IdentityFields(t)[2..], "-");
    assert IdentityFields(u)[2..] == IdentityFields(t)[2..];
    assert IdentityFields(v)[2..] == IdentityFields(t)[2..];
    CodeUnfold(u, rest);
    CodeUnfold(v, rest);
    assert |u.name| != |v.name|;
  }

  lemma CodeUnfold(t: TicketData, rest: string)
    requires rest == JoinWith(IdentityFields(t)[2..], "-")
    ensures AttendeeCode(t) == t.name + "-" + (t.show + "-" + rest)
  {
    var f := IdentityFields(t);
    assert f[1..][1..] == f[2..];
    assert JoinWith(f[1..], "-") == t.show + "-" + rest;
  }
}
