/** The bulk printer: one off-screen drawing per selected ticket, assembled
    into a print document of one page per ticket; plus the preview's download
    file name and its previous/next navigation. Image loads, the code
    generator and the canvas context are inputs: each ticket comes with the
    outcome of every asynchronous step. */
module Generator {
  import opened Wrappers
  import opened Strings
  import opened Tickets
  import opened TextFit
  import opened Layout
  import opened FontLoader

  /** The template load settles by `onload`, by `onerror`, or by the 3000ms
      timer rejecting first. */
  datatype TemplateLoad = TemplateLoaded | TemplateError | TemplateTimeout

  /** Title art: loaded with its natural height, failed, or timed out. */
  datatype TitleLoad = TitleLoaded(height: nat) | TitleError | TitleTimeout

  /** Whether the code generator resolved or rejected. */
  datatype QrGeneration = QrGenerated | QrRejected

  /** The code image either loads, or errors / hits its 1000ms fallback;
      both of the latter leave it undrawn. */
  datatype QrImageLoad = QrImageLoaded | QrImageMissing

  datatype TicketAssets = TicketAssets(
    hasContext: bool,
    template: TemplateLoad,
    title: TitleLoad,
    qrGeneration: QrGeneration,
    qrImage: QrImageLoad)

  datatype BulkItem = BulkItem(ticket: TicketData, assets: TicketAssets)

  /** The title height the date baseline is computed from. It starts at 60 and
      is overwritten only when the title promise resolves. */
  function TitleHeight(title: TitleLoad): (h: int)
    ensures title.TitleLoaded? ==> h == title.height
    ensures title == TitleError ==> h == 28
    ensures title == TitleTimeout ==> h == 60
  {
    match title
    case TitleLoaded(height) => height
    case TitleError => 28
    case TitleTimeout => 60
  }

  function BackgroundOps(template: TemplateLoad): seq<DrawOp>
    requires template != TemplateTimeout
  {
    if template == TemplateLoaded then [TemplateBackground()] else BorderedCard()
  }

  /** Title art, or the show name in bold 60px when the art errored or timed out. */
  function TitleOps(t: TicketData, title: TitleLoad): seq<DrawOp> {
    if title.TitleLoaded? then [TitleArtOp(t.show)] else [TitleTextOp(t.show, 60)]
  }

  /** The drawing of one ticket, or `None` when the `try` block throws: the
      template timed out or the code generator rejected. */
  function BulkTicketOps(m: Measure, t: TicketData, a: TicketAssets): (r: Option<seq<DrawOp>>)
    ensures r.None? <==> a.template == TemplateTimeout || a.qrGeneration == QrRejected
  {
    if a.template == TemplateTimeout || a.qrGeneration == QrRejected then None
    else
      Some(BackgroundOps(a.template) + TitleOps(t, a.title)
           + FittedDetails(m, t, DateBaseline(TitleHeight(a.title)))
           + (if a.qrImage == QrImageLoaded then [QrOp(AttendeeCode(t))] else []))
  }

  lemma HeaderFacts(t: TicketData, a: TicketAssets)
    requires a.template != TemplateTimeout
    ensures var head := BackgroundOps(a.template) + TitleOps(t, a.title);
      && multiset(head)[GaNoteOp(562)] == 0
      && MarkerDisc() !in head
      && (forall op | op in head :: !IsCodeImage(op))
      && (TitleTextOp(t.show, 60) in head <==> !a.title.TitleLoaded?)
  {
  }

  /** The three parts of a drawn bulk ticket: background and title, the
      fitted details, and the code image when it loaded. */
  lemma BulkTicketParts(m: Measure, t: TicketData, a: TicketAssets)
    returns (head: seq<DrawOp>, details: seq<DrawOp>, code: seq<DrawOp>)
    requires a.template != TemplateTimeout && a.qrGeneration == QrGenerated
    ensures BulkTicketOps(m, t, a) == Some(head + details + code)
    ensures head == BackgroundOps(a.template) + TitleOps(t, a.title)
    ensures details == FittedDetails(m, t, DateBaseline(TitleHeight(a.title)))
    ensures code == if a.qrImage == QrImageLoaded then [QrOp(AttendeeCode(t))] else []
  {
    head := BackgroundOps(a.template) + TitleOps(t, a.title);
    details := FittedDetails(m, t, DateBaseline(TitleHeight(a.title)));
    code := if a.qrImage == QrImageLoaded then [QrOp(AttendeeCode(t))] else [];
  }

  /** A drawn bulk ticket carries the date at the fitted size on the baseline
      50px below the title, and the fitted name. */
  lemma BulkTicketText(m: Measure, t: TicketData, a: TicketAssets)
    requires a.template != TemplateTimeout && a.qrGeneration == QrGenerated
    ensures var ops := BulkTicketOps(m, t, a).value;
      && FillText(t.dateTime, 59, 45 + TitleHeight(a.title) + 50,
                  Font(500, FitFontSize(m, t.dateTime, DateFit)), Black, AlignLeft, Some(700)) in ops
      && FillText(t.name, 372, 307,
                  Font(600, FitFontSize(m, t.name, NameFit)), White, AlignCenter, Some(570)) in ops
  {
    var head, details, code := BulkTicketParts(m, t, a);
    PartsOf(head, details, code, FittedDateOp(m, t, DateBaseline(TitleHeight(a.title))));
    PartsOf(head, details, code, FittedNameOp(m, t));
  }

  /** A drawn bulk ticket carries the GA advisory exactly once for a GA
      subscriber and never otherwise. */
  lemma BulkTicketGaNote(m: Measure, t: TicketData, a: TicketAssets)
    requires a.template != TemplateTimeout && a.qrGeneration == QrGenerated
    ensures multiset(BulkTicketOps(m, t, a).value)[GaNoteOp(562)]
            == (if t.isSubscriber && t.section == "GA" then 1 else 0)
  {
    var head, details, code := BulkTicketParts(m, t, a);
    HeaderFacts(t, a);
    PartsOf(head, details, code, GaNoteOp(562));
  }

  /** A drawn bulk ticket carries the marker disc exactly for a non-subscriber. */
  lemma BulkTicketMarker(m: Measure, t: TicketData, a: TicketAssets)
    requires a.template != TemplateTimeout && a.qrGeneration == QrGenerated
    ensures MarkerDisc() in BulkTicketOps(m, t, a).value <==> !t.isSubscriber
  {
    var head, details, code := BulkTicketParts(m, t, a);
    HeaderFacts(t, a);
    PartsOf(head, details, code, MarkerDisc());
  }

  /** A drawn bulk ticket carries the title art of its own show, the file
      named by the show's abbreviation, exactly when the art loaded, and no
      other show's art. */
  lemma BulkTicketArt(m: Measure, t: TicketData, a: TicketAssets)
    requires a.template != TemplateTimeout && a.qrGeneration == QrGenerated
    ensures var ops := BulkTicketOps(m, t, a).value;
      && (DrawImage(TitleArt(ShowAbbreviation(t.show)), 59, 45) in ops <==> a.title.TitleLoaded?)
      && (forall op | op in ops && IsTitleArt(op) :: op.image.key == ShowAbbreviation(t.show))
  {
    var head, details, code := BulkTicketParts(m, t, a);
    HeadArt(t, a);
    OnlyArtInHead(head, details, code, TitleArtOp(t.show));
  }

  /** The opening of a drawn ticket holds its show's art exactly when the art
      loaded, and no other art. */
  lemma HeadArt(t: TicketData, a: TicketAssets)
    requires a.template != TemplateTimeout
    ensures var head := BackgroundOps(a.template) + TitleOps(t, a.title);
      && (TitleArtOp(t.show) in head <==> a.title.TitleLoaded?)
      && (forall op | op in head && IsTitleArt(op) :: op == TitleArtOp(t.show))
  {
  }

  /** Art found only in the opening of a drawing is all the art it holds. */
  lemma OnlyArtInHead(head: seq<DrawOp>, details: seq<DrawOp>, code: seq<DrawOp>, art: DrawOp)
    requires IsTitleArt(art)
    requires forall op | op in head && IsTitleArt(op) :: op == art
    requires forall op | op in details :: op.FillText? || op.Disc?
    requires code == [] || (|code| == 1 && IsCodeImage(code[0]))
    ensures art in head + details + code <==> art in head
    ensures forall op | op in head + details + code && IsTitleArt(op) :: op == art
  {
  }

  /** A drawn bulk ticket shows the show name as 60px text exactly when the
      title art did not load. */
  lemma BulkTicketTitleText(m: Measure, t: TicketData, a: TicketAssets)
    requires a.template != TemplateTimeout && a.qrGeneration == QrGenerated
    ensures TitleTextOp(t.show, 60) in BulkTicketOps(m, t, a).value <==> !a.title.TitleLoaded?
  {
    var head, details, code := BulkTicketParts(m, t, a);
    HeaderFacts(t, a);
    DetailsAvoidTitleText(m, t, DateBaseline(TitleHeight(a.title)));
    PartsOf(head, details, code, TitleTextOp(t.show, 60));
  }

  /** A drawn bulk ticket carries the code image encoding the ticket's
      attendee code exactly when the image loaded, then as its last
      operation at (811, 60) in 477 x 477; it draws no other code image. */
  lemma BulkTicketCode(m: Measure, t: TicketData, a: TicketAssets)
    requires a.template != TemplateTimeout && a.qrGeneration == QrGenerated
    ensures var ops := BulkTicketOps(m, t, a).value;
      && (QrOp(AttendeeCode(t)) in ops <==> a.qrImage == QrImageLoaded)
      && (a.qrImage == QrImageLoaded ==> ops[|ops| - 1] == DrawImageScaled(QrCode(AttendeeCode(t)), 811, 60, 477, 477))
      && (forall op | op in ops && IsCodeImage(op) :: op == QrOp(AttendeeCode(t)))
  {
    var head, details, code := BulkTicketParts(m, t, a);
    HeaderFacts(t, a);
    var q := QrOp(AttendeeCode(t));
    NoCodeImageIn(head, details);
    OnlyCodeImage(head + details, code, q);
  }

  lemma NoCodeImageIn(head: seq<DrawOp>, details: seq<DrawOp>)
    requires forall op | op in head :: !IsCodeImage(op)
    requires forall op | op in details :: op.FillText? || op.Disc?
    ensures forall op | op in head + details :: !IsCodeImage(op)
  {
  }

  /** A code image appended to a drawing that has none is its only one. */
  lemma OnlyCodeImage(body: seq<DrawOp>, code: seq<DrawOp>, q: DrawOp)
    requires forall op | op in body :: !IsCodeImage(op)
    requires IsCodeImage(q) && (code == [] || code == [q])
    ensures q in body + code <==> code == [q]
    ensures code == [q] ==> (body + code)[|body + code| - 1] == q
    ensures forall op | op in body + code && IsCodeImage(op) :: op == q
  {
  }

  /** The date baseline of a drawn bulk ticket: 50px below title art of
      natural height h at y = 45, so 95 + h; 123 when the title art errored
      (height 28); 155 when it timed out (the initial height 60 stands). */
  lemma BulkTicketDateBaseline(m: Measure, t: TicketData, a: TicketAssets)
    requires a.template != TemplateTimeout && a.qrGeneration == QrGenerated
    ensures var ops := BulkTicketOps(m, t, a).value;
      && (a.title.TitleLoaded? ==> FittedDateOp(m, t, 95 + a.title.height) in ops)
      && (a.title == TitleError ==> FittedDateOp(m, t, 123) in ops)
      && (a.title == TitleTimeout ==> FittedDateOp(m, t, 155) in ops)
  {
    var head, details, code := BulkTicketParts(m, t, a);
    var y := DateBaseline(TitleHeight(a.title));
    assert FittedDateOp(m, t, y) in details;
    PartsOf(head, details, code, FittedDateOp(m, t, y));
    assert y == TitleTop + TitleHeight(a.title) + 50;
  }

  /** A drawn bulk ticket begins with the template image over the whole canvas
      when the template loaded, and with the bordered white card when it
      errored; the title art filed under the show's abbreviation or, failing it, the show name in bold 60px at
      (59, 80) follows. */
  lemma BulkTicketBegins(m: Measure, t: TicketData, a: TicketAssets)
    requires a.template != TemplateTimeout && a.qrGeneration == QrGenerated
    ensures var ops := BulkTicketOps(m, t, a).value;
      && (a.template == TemplateLoaded ==>
            |ops| > 1 && ops[0] == DrawImageScaled(Template, 0, 0, 1650, 600)
            && ops[1] == (if a.title.TitleLoaded? then DrawImage(TitleArt(ShowAbbreviation(t.show)), 59, 45)
                          else FillText(t.show, 59, 80, Font(700, 60), Black, AlignLeft, None)))
      && (a.template == TemplateError ==>
            |ops| > 2 && ops[0] == FillRect(0, 0, 1650, 600, White)
            && ops[1] == StrokeRect(10, 10, 1630, 580, Charcoal, 2)
            && ops[2] == (if a.title.TitleLoaded? then DrawImage(TitleArt(ShowAbbreviation(t.show)), 59, 45)
                          else FillText(t.show, 59, 80, Font(700, 60), Black, AlignLeft, None)))
  {
    var head, details, code := BulkTicketParts(m, t, a);
    var title := if a.title.TitleLoaded? then TitleArtOp(t.show) else TitleTextOp(t.show, 60);
    assert TitleOps(t, a.title) == [title];
    ConcatAssoc(head, details, code);
    if a.template == TemplateLoaded {
      assert head == [TemplateBackground(), title];
    } else {
      assert head == [WhiteBackground(), StrokeRect(10, 10, 1630, 580, Charcoal, 2), title];
    }
  }

  /** Counting and membership in a three-part drawing, part by part. */
  lemma PartsOf(head: seq<DrawOp>, details: seq<DrawOp>, code: seq<DrawOp>, x: DrawOp)
    ensures multiset(head + details + code)[x] == multiset(head)[x] + multiset(details)[x] + multiset(code)[x]
    ensures x in head + details + code <==> x in head || x in details || x in code
  {
    assert multiset(head + details + code) == multiset(head) + multiset(details) + multiset(code);
  }

  lemma DetailsAvoidTitleText(m: Measure, t: TicketData, dateY: int)
    requires dateY != 80
    ensures forall size :: TitleTextOp(t.show, size) !in FittedDetails(m, t, dateY)
  {
  }

  /** One page of the print document: the ticket image, or a notice naming
      the attendee whose ticket failed. */
  datatype Page = ImagePage(ops: seq<DrawOp>) | ErrorPage(message: string)

  function FailureNotice(name: string): string {
    "Failed to generate ticket for " + name
  }

  /** The page for a ticket whose canvas has a 2D context. */
  function PageFor(m: Measure, item: BulkItem): (p: Page)
    ensures p.ErrorPage? <==> item.assets.template == TemplateTimeout || item.assets.qrGeneration == QrRejected
    ensures p.ErrorPage? ==> p.message == FailureNotice(item.ticket.name) && EndsWith(p.message, item.ticket.name)
  {
    match BulkTicketOps(m, item.ticket, item.assets)
    case Some(ops) => ImagePage(ops)
    case None => ErrorPage(FailureNotice(item.ticket.name))
  }

  /** The loop over the tickets: a ticket without a 2D context is skipped,
      every other ticket adds exactly one page. */
  function BulkPages(m: Measure, items: seq<BulkItem>): seq<Page> {
    if |items| == 0 then []
    else
      var last := items[|items| - 1];
      BulkPages(m, items[..|items| - 1]) + (if last.assets.hasContext then [PageFor(m, last)] else [])
  }

  /** The tickets that reach the drawing code. */
  function WithContext(items: seq<BulkItem>): (r: seq<BulkItem>)
    ensures |r| <= |items|
    ensures forall x | x in r :: x in items && x.assets.hasContext
    ensures forall x | x in items && x.assets.hasContext :: x in r
  {
    if |items| == 0 then []
    else
      var last := items[|items| - 1];
      WithContext(items[..|items| - 1]) + (if last.assets.hasContext then [last] else [])
  }

  /** The page sequence is the page of each ticket that has a context, in
      input order: nothing else is added, dropped or reordered. */
  lemma {:induction false} BulkPagesArePagesInOrder(m: Measure, items: seq<BulkItem>)
    ensures var pages := BulkPages(m, items);
      var kept := WithContext(items);
      && |pages| == |kept|
      && forall i | 0 <= i < |kept| :: pages[i] == PageFor(m, kept[i])
    decreases |items|
  {
    if |items| > 0 {
      BulkPagesArePagesInOrder(m, items[..|items| - 1]);
    }
  }

  /** Folding over two batches one after the other gives the pages of each,
      concatenated. */
  lemma {:induction false} BulkPagesAppend(m: Measure, a: seq<BulkItem>, b: seq<BulkItem>)
    ensures BulkPages(m, a + b) == BulkPages(m, a) + BulkPages(m, b)
    decreases |b|
  {
    if |b| == 0 {
      assert a + b == a;
    } else {
      assert (a + b)[..|a + b| - 1] == a + b[..|b| - 1];
      BulkPagesAppend(m, a, b[..|b| - 1]);
    }
  }

  /** When every ticket has a context, there is exactly one page per ticket,
      in input order, whatever failed while drawing them. */
  lemma OnePagePerTicket(m: Measure, items: seq<BulkItem>)
    requires forall i | 0 <= i < |items| :: items[i].assets.hasContext
    ensures var pages := BulkPages(m, items);
      && |pages| == |items|
      && forall i | 0 <= i < |items| :: pages[i] == PageFor(m, items[i])
  {
    AllKeptWhenAllHaveContext(items);
    BulkPagesArePagesInOrder(m, items);
  }

  lemma {:induction false} AllKeptWhenAllHaveContext(items: seq<BulkItem>)
    requires forall i | 0 <= i < |items| :: items[i].assets.hasContext
    ensures WithContext(items) == items
    decreases |items|
  {
    if |items| > 0 {
      AllKeptWhenAllHaveContext(items[..|items| - 1]);
      assert items[..|items| - 1] + [items[|items| - 1]] == items;
    }
  }

  /** `handlePrint`: nothing is printed when the print window cannot be
      opened; otherwise the document holds the pages of the tickets. */
  function HandlePrint(m: Measure, windowOpened: bool, items: seq<BulkItem>): (r: Option<seq<Page>>)
    ensures r.None? <==> !windowOpened
    ensures r.Some? ==> |r.value| == |WithContext(items)| <= |items|
    ensures r.Some? ==> forall i | 0 <= i < |r.value| :: r.value[i] == PageFor(m, WithContext(items)[i])
  {
    if windowOpened then
      BulkPagesArePagesInOrder(m, items);
      Some(BulkPages(m, items))
    else None
  }

  /** The preview's download name: `ticket-<name with whitespace runs as "-">.png`. */
  function DownloadName(name: string): (r: string)
    ensures StartsWith(r, "ticket-") && EndsWith(r, ".png")
    ensures NoSpace(r)
  {
    ReplaceSpaceRunsShape(name);
    PrintableHasNoSpace("ticket-");
    PrintableHasNoSpace(".png");
    var r := "ticket-" + ReplaceSpaceRuns(name) + ".png";
    assert r[..7] == "ticket-";
    assert r[|r| - 4..] == ".png";
    r
  }

  /** A name cut at its whitespace runs gives its words joined by "-". */
  lemma DownloadNameOfWords(words: seq<string>, runs: seq<string>)
    requires IsRunDecomposition(words, runs)
    ensures DownloadName(Weave(words, runs)) == "ticket-" + JoinWith(words, "-") + ".png"
  {
    ReplaceWovenRuns(words, runs);
  }

  /** The "Previous" button: step back, wrapping from the first to the last. */
  function PrevIndex(i: int, n: int): (r: int)
    ensures 0 <= i <= n && n >= 1 ==> 0 <= r < n
    ensures i > 0 ==> r == i - 1
  {
    if i > 0 then i - 1 else n - 1
  }

  /** The "Next" button: step forward, wrapping from the last to the first. */
  function NextIndex(i: int, n: int): (r: int)
    ensures n >= 1 && i >= 0 ==> 0 <= r < n
    ensures r == 0 || r == i + 1
  {
    if i < n - 1 then i + 1 else 0
  }

  /** On a valid index, previous and next undo each other. */
  lemma PrevNextInverse(i: int, n: int)
    requires 0 <= i < n
    ensures NextIndex(PrevIndex(i, n), n) == i
    ensures PrevIndex(NextIndex(i, n), n) == i
  {
  }
}
