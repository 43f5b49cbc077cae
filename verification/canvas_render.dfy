/** The on-screen ticket preview. Its render effect runs once the fonts have
    loaded and the code image URL is known, then draws one of three layouts
    depending on which images load: the full template layout, the template
    layout without title art, or a plain bordered card. */
module CanvasRender {
  import opened Wrappers
  import opened Strings
  import opened Tickets
  import opened TextFit
  import opened Layout
  import opened FontLoader
  import Generator

  /** An image that fires `onload` or `onerror`. */
  datatype ImageLoad = Loads | Fails

  /** Title art loads with its natural height, or fails. */
  datatype ArtLoad = ArtLoads(height: nat) | ArtFails

  /** Everything the render effect reads: the font state, the code image URL
      (`null` while it is being generated) and the text that image encodes,
      whether the canvas element and its 2D context exist, and how each image
      load settles. */
  datatype CanvasState = CanvasState(
    fontsLoaded: bool,
    qrDataUrl: Option<string>,
    qrData: string,
    hasCanvas: bool,
    hasContext: bool,
    template: ImageLoad,
    title: ArtLoad,
    qrImage: ImageLoad)

  /** JavaScript truthiness of the URL: `null` and the empty string are falsy. */
  predicate HasQrUrl(url: Option<string>) {
    url.Some? && url.value != ""
  }

  /** The render effect proceeds past its three early returns. */
  predicate ReadyToRender(st: CanvasState) {
    st.fontsLoaded && HasQrUrl(st.qrDataUrl) && st.hasCanvas && st.hasContext
  }

  /** The code-generation effect settling for ticket `t`: the URL of an image
      encoding the ticket's attendee code is stored in state. */
  function CodeGenerated(st: CanvasState, t: TicketData, url: string): (r: CanvasState)
    ensures r.qrData == AttendeeCode(t) && r.qrDataUrl == Some(url)
    ensures r.(qrDataUrl := st.qrDataUrl, qrData := st.qrData) == st
  {
    st.(qrDataUrl := Some(url), qrData := AttendeeCode(t))
  }

  /** The code image encoding `code` at `x`, drawn when it loads. */
  function CodeImage(x: int, code: string, load: ImageLoad): (r: seq<DrawOp>)
    ensures |r| <= 1
    ensures r != [] <==> load == Loads
    ensures r != [] ==> r[0] == DrawImageScaled(QrCode(code), x, 60, 477, 477)
  {
    if load == Loads then [DrawImageScaled(QrCode(code), x, 60, 477, 477)] else []
  }

  /** Template and title art loaded: the same block the bulk printer draws,
      over a white fill. The art is the file named by the show's abbreviation. */
  function FullLayout(m: Measure, t: TicketData, titleHeight: nat, code: string, qr: ImageLoad): (r: seq<DrawOp>)
    ensures |r| > 2 && r[0] == WhiteBackground() && r[1] == TemplateBackground()
    ensures r[2] == DrawImage(TitleArt(ShowAbbreviation(t.show)), 59, 45)
  {
    [WhiteBackground(), TemplateBackground(), TitleArtOp(t.show)]
    + FittedDetails(m, t, DateBaseline(titleHeight))
    + CodeImage(811, code, qr)
  }

  /** The fixed-position text of the layout without title art. */
  function TitleMissingHead(t: TicketData): seq<DrawOp> {
    [ WhiteBackground(), TemplateBackground(), TitleTextOp(t.show, 28),
      FillText(t.dateTime, 59, 130, Font(500, 32), Black, AlignLeft, Some(700)),
      FillText(t.name, 372, 265, Font(600, 42), White, AlignCenter, Some(570)) ]
  }

  /** Template loaded, title art failed: the show name in bold 28px, then
      fixed positions with no shrink-to-fit. */
  function TitleMissingLayout(t: TicketData, code: string, qr: ImageLoad): (r: seq<DrawOp>)
    ensures |r| > 1 && r[0] == WhiteBackground() && r[1] == TemplateBackground()
  {
    TitleMissingHead(t)
    + SeatOps(t, 420)
    + ConditionalMarks(t, 537)
    + CodeImage(811, code, qr)
  }

  /** The horizontal centre of the canvas, where the plain card centres its text. */
  const Centre := CanvasWidth / 2

  /** One centred line of the plain card. */
  function CentredText(text: string, y: int, font: Font, color: Color): DrawOp {
    FillText(text, Centre, y, font, color, AlignCenter, None)
  }

  /** The subscriber badge of the plain card, and under it the GA advisory. */
  function SubscriberLines(t: TicketData): seq<DrawOp> {
    if t.isSubscriber then
      [CentredText("SUBSCRIBER", 520, Font(Bold, 25), SubscriberBlue)]
      + (if t.section == "GA" then [CentredText(GaNote, 550, Font(500, 25), Black)] else [])
    else []
  }

  /** The six centred lines of the plain card. */
  function BasicText(t: TicketData): seq<DrawOp> {
    [ CentredText(t.show, 80, Font(Bold, 28), Black),
      CentredText(t.dateTime, 130, Font(500, 32), Black),
      CentredText(t.name, 200, Font(600, 42), Black),
      CentredText("Section: " + t.section, 300, Font(500, 70), Black),
      CentredText("Row: " + t.row, 380, Font(500, 70), Black),
      CentredText("Seat: " + t.seat, 460, Font(500, 70), Black) ]
  }

  /** Template failed: a white card with a charcoal border, every line of
      text centred, and the code image near the right edge. */
  function BasicLayout(t: TicketData, code: string, qr: ImageLoad): (r: seq<DrawOp>)
    ensures |r| > 0 && r[0] == WhiteBackground() && TemplateBackground() !in r
  {
    var text := BasicText(t);
    var r := BorderedCard() + text + SubscriberLines(t) + CodeImage(CanvasWidth - 500, code, qr);
    assert forall op | op in text + SubscriberLines(t) :: op.FillText?;
    assert forall op | op in r :: op in BorderedCard() || op in text + SubscriberLines(t) || op in CodeImage(CanvasWidth - 500, code, qr);
    r
  }

  /** What the preview draws, or `None` when the effect returns early. */
  function RenderTicket(m: Measure, t: TicketData, st: CanvasState): (r: Option<seq<DrawOp>>)
    ensures r.None? <==> !ReadyToRender(st)
    ensures r.Some? ==> |r.value| > 0 && r.value[0] == WhiteBackground()
    ensures r.Some? ==> (TemplateBackground() in r.value <==> st.template == Loads)
  {
    if !ReadyToRender(st) then None
    else
      match st.template
      case Fails => Some(BasicLayout(t, st.qrData, st.qrImage))
      case Loads =>
        match st.title
        case ArtLoads(h) => Some(FullLayout(m, t, h, st.qrData, st.qrImage))
        case ArtFails => Some(TitleMissingLayout(t, st.qrData, st.qrImage))
  }

  /** With the template and title art loaded and the code image generated
      for this ticket, the preview is the bulk printer's drawing over a white
      fill: the two renderers agree. */
  lemma PreviewMatchesBulk(m: Measure, t: TicketData, st: CanvasState, a: Generator.TicketAssets)
    requires ReadyToRender(st) && st.template == Loads && st.title.ArtLoads?
    requires st.qrData == AttendeeCode(t)
    requires a.template == Generator.TemplateLoaded && a.qrGeneration == Generator.QrGenerated
    requires a.title == Generator.TitleLoaded(st.title.height)
    requires (a.qrImage == Generator.QrImageLoaded) <==> (st.qrImage == Loads)
    ensures Generator.BulkTicketOps(m, t, a).Some?
    ensures RenderTicket(m, t, st).value == [WhiteBackground()] + Generator.BulkTicketOps(m, t, a).value
  {
    var head, details, code := Generator.BulkTicketParts(m, t, a);
    assert head == [TemplateBackground(), TitleArtOp(t.show)];
    assert code == CodeImage(811, st.qrData, st.qrImage);
    assert RenderTicket(m, t, st) == Some(FullLayout(m, t, st.title.height, st.qrData, st.qrImage));
    FullLayoutParts(m, t, st.title.height, st.qrData, st.qrImage);
  }

  lemma FullLayoutParts(m: Measure, t: TicketData, h: nat, code: string, qr: ImageLoad)
    ensures FullLayout(m, t, h, code, qr)
         == [WhiteBackground()]
            + ([TemplateBackground(), TitleArtOp(t.show)] + FittedDetails(m, t, DateBaseline(h)) + CodeImage(811, code, qr))
  {
    var white := [WhiteBackground()];
    var head := [TemplateBackground(), TitleArtOp(t.show)];
    var details := FittedDetails(m, t, DateBaseline(h));
    assert [WhiteBackground(), TemplateBackground(), TitleArtOp(t.show)] == white + head;
    ConcatAssoc(white, head + details, CodeImage(811, code, qr));
    ConcatAssoc(white, head, details);
  }

  /** When the title art fails in both renderers, they place the text
      differently: the preview draws the show name at 28px and the date at
      y = 130 at a fixed 32px, the name at y = 265 at a fixed 42px; the bulk
      printer draws the show name at 60px, the date at y = 123 and the name at
      y = 307, both shrunk to fit. */
  lemma TitleFallbacksDiffer(m: Measure, t: TicketData, st: CanvasState, a: Generator.TicketAssets)
    requires ReadyToRender(st) && st.template == Loads && st.title == ArtFails
    requires a.template == Generator.TemplateLoaded && a.qrGeneration == Generator.QrGenerated
    requires a.title == Generator.TitleError
    ensures var preview := RenderTicket(m, t, st).value;
      && TitleTextOp(t.show, 28) in preview && TitleTextOp(t.show, 60) !in preview
      && FillText(t.dateTime, 59, 130, Font(500, 32), Black, AlignLeft, Some(700)) in preview
      && FillText(t.name, 372, 265, Font(600, 42), White, AlignCenter, Some(570)) in preview
    ensures var bulk := Generator.BulkTicketOps(m, t, a).value;
      && TitleTextOp(t.show, 60) in bulk
      && FillText(t.dateTime, 59, 123, Font(500, FitFontSize(m, t.dateTime, DateFit)), Black, AlignLeft, Some(700)) in bulk
      && FillText(t.name, 372, 307, Font(600, FitFontSize(m, t.name, NameFit)), White, AlignCenter, Some(570)) in bulk
  {
    var preview := RenderTicket(m, t, st).value;
    assert preview[2] == TitleTextOp(t.show, 28);
    assert TitleTextOp(t.show, 60) !in preview by {
      TitleMissingAvoidsBoldSixty(t, st.qrData, st.qrImage);
    }
    assert preview[3] == FillText(t.dateTime, 59, 130, Font(500, 32), Black, AlignLeft, Some(700));
    assert preview[4] == FillText(t.name, 372, 265, Font(600, 42), White, AlignCenter, Some(570));
    Generator.BulkTicketTitleText(m, t, a);
    Generator.BulkTicketText(m, t, a);
  }

  lemma TitleMissingAvoidsBoldSixty(t: TicketData, code: string, qr: ImageLoad)
    ensures TitleTextOp(t.show, 60) !in TitleMissingLayout(t, code, qr)
  {
    var marks := ConditionalMarks(t, 537);
    assert TitleTextOp(t.show, 60) !in marks;
  }

  /** Every line of text on the plain card is centred on the canvas's middle,
      x = 825, and carries no maximum width. */
  lemma BasicTextIsCentred(t: TicketData, code: string, qr: ImageLoad)
    ensures forall op | op in BasicLayout(t, code, qr) && op.FillText? ::
      op.x == 825 && op.align == AlignCenter && op.maxWidth == None
  {
  }

  /** The plain card shows the subscriber badge exactly for subscribers, the
      GA advisory exactly for GA subscribers, and never the marker disc. */
  lemma BasicLayoutMarks(t: TicketData, code: string, qr: ImageLoad)
    ensures var ops := BasicLayout(t, code, qr);
      && (CentredText("SUBSCRIBER", 520, Font(Bold, 25), SubscriberBlue) in ops <==> t.isSubscriber)
      && (CentredText(GaNote, 550, Font(500, 25), Black) in ops <==> WantsGaNote(t))
      && MarkerDisc() !in ops
  {
    var body := BasicText(t);
    assert BasicLayout(t, code, qr) == BorderedCard() + body + SubscriberLines(t) + CodeImage(CanvasWidth - 500, code, qr);
    assert CentredText("SUBSCRIBER", 520, Font(Bold, 25), SubscriberBlue) !in body;
    assert CentredText(GaNote, 550, Font(500, 25), Black) !in body;
  }

  /** Without title art the preview puts section, row and seat on y = 420,
      the GA advisory at (59, 537) exactly for a GA subscriber, and the marker
      disc exactly for a non-subscriber. */
  lemma TitleMissingMarks(t: TicketData, code: string, qr: ImageLoad)
    ensures var ops := TitleMissingLayout(t, code, qr);
      && (forall op | op in SeatOps(t, 420) :: op in ops)
      && (GaNoteOp(537) in ops <==> WantsGaNote(t))
      && (MarkerDisc() in ops <==> !t.isSubscriber)
  {
    var head := TitleMissingHead(t);
    var seats := SeatOps(t, 420);
    var marks := ConditionalMarks(t, 537);
    var image := CodeImage(811, code, qr);
    assert TitleMissingLayout(t, code, qr) == head + seats + marks + image;
    assert GaNoteOp(537) !in head + seats && MarkerDisc() !in head + seats;
    assert GaNoteOp(537) !in image && MarkerDisc() !in image;
    assert multiset(marks)[GaNoteOp(537)] > 0 <==> GaNoteOp(537) in marks;
  }

  /** The plain card labels the seat fields: "Section: ", "Row: " and
      "Seat: " lines at y = 300, 380 and 460, in 70px. */
  lemma BasicSeatLines(t: TicketData, code: string, qr: ImageLoad)
    ensures var ops := BasicLayout(t, code, qr);
      && CentredText("Section: " + t.section, 300, Font(500, 70), Black) in ops
      && CentredText("Row: " + t.row, 380, Font(500, 70), Black) in ops
      && CentredText("Seat: " + t.seat, 460, Font(500, 70), Black) in ops
  {
    assert BasicLayout(t, code, qr)[5] == CentredText("Section: " + t.section, 300, Font(500, 70), Black);
    assert BasicLayout(t, code, qr)[6] == CentredText("Row: " + t.row, 380, Font(500, 70), Black);
    assert BasicLayout(t, code, qr)[7] == CentredText("Seat: " + t.seat, 460, Font(500, 70), Black);
  }

  /** Outside the code image itself, no layout draws the code image. */
  lemma DetailsHaveNoCodeImage(m: Measure, t: TicketData, dateY: int)
    ensures forall op | op in FittedDetails(m, t, dateY) :: !IsCodeImage(op)
  {
  }

  /** `ops` ends with the code image encoding `code` at (x, 60), 477 x 477,
      when that image loads; it holds no other code image, and none at all
      when the image fails. */
  predicate CodeOnTop(ops: seq<DrawOp>, x: int, code: string, qr: ImageLoad) {
    && (qr == Loads ==> |ops| > 0 && ops[|ops| - 1] == DrawImageScaled(QrCode(code), x, 60, 477, 477))
    && (forall op | op in ops && IsCodeImage(op) :: op == DrawImageScaled(QrCode(code), x, 60, 477, 477))
    && (qr == Fails ==> forall op | op in ops :: !IsCodeImage(op))
  }

  /** A layout of the form `body + CodeImage(x, code, qr)`, with no code image
      in `body`: when the image loads, its last operation is the code image
      encoding `code` at `x`, and that is the only code image; otherwise it
      draws none. */
  lemma CodeImageEnds(body: seq<DrawOp>, x: int, code: string, qr: ImageLoad)
    requires forall op | op in body :: !IsCodeImage(op)
    ensures CodeOnTop(body + CodeImage(x, code, qr), x, code, qr)
  {
  }

  /** In every layout the code image, when it loads, is drawn last and so
      lies on top: at (811, 60) over the template, at (1150, 60) on the plain
      card, 477 x 477 in both, encoding the text the stored URL encodes. It
      is the only code image; when it does not load none is drawn. */
  lemma CodeImageIsLast(m: Measure, t: TicketData, st: CanvasState)
    requires ReadyToRender(st)
    ensures CodeOnTop(RenderTicket(m, t, st).value, if st.template == Loads then 811 else 1150, st.qrData, st.qrImage)
  {
    match st.template
    case Fails =>
      assert RenderTicket(m, t, st) == Some(BasicLayout(t, st.qrData, st.qrImage));
      BasicEndsWithCode(t, st.qrData, st.qrImage);
    case Loads =>
      match st.title
      case ArtLoads(h) =>
        assert RenderTicket(m, t, st) == Some(FullLayout(m, t, h, st.qrData, st.qrImage));
        FullEndsWithCode(m, t, h, st.qrData, st.qrImage);
      case ArtFails =>
        assert RenderTicket(m, t, st) == Some(TitleMissingLayout(t, st.qrData, st.qrImage));
        TitleMissingEndsWithCode(t, st.qrData, st.qrImage);
  }

  /** Once the code-generation effect has settled for the ticket on screen,
      a preview whose code image loads ends with that ticket's attendee
      code. */
  lemma PreviewCarriesAttendeeCode(m: Measure, t: TicketData, st: CanvasState, url: string)
    requires ReadyToRender(CodeGenerated(st, t, url)) && st.qrImage == Loads
    ensures var ops := RenderTicket(m, t, CodeGenerated(st, t, url)).value;
      && ops[|ops| - 1].DrawImageScaled?
      && ops[|ops| - 1].image == QrCode(AttendeeCode(t))
  {
    CodeImageIsLast(m, t, CodeGenerated(st, t, url));
  }

  lemma BasicEndsWithCode(t: TicketData, code: string, qr: ImageLoad)
    ensures CodeOnTop(BasicLayout(t, code, qr), CanvasWidth - 500, code, qr)
  {
    var body := BorderedCard() + BasicText(t) + SubscriberLines(t);
    assert BasicLayout(t, code, qr) == body + CodeImage(CanvasWidth - 500, code, qr);
    CodeImageEnds(body, CanvasWidth - 500, code, qr);
  }

  lemma FullEndsWithCode(m: Measure, t: TicketData, h: nat, code: string, qr: ImageLoad)
    ensures CodeOnTop(FullLayout(m, t, h, code, qr), 811, code, qr)
  {
    DetailsHaveNoCodeImage(m, t, DateBaseline(h));
    var body := [WhiteBackground(), TemplateBackground(), TitleArtOp(t.show)] + FittedDetails(m, t, DateBaseline(h));
    CodeImageEnds(body, 811, code, qr);
  }

  lemma TitleMissingEndsWithCode(t: TicketData, code: string, qr: ImageLoad)
    ensures CodeOnTop(TitleMissingLayout(t, code, qr), 811, code, qr)
  {
    var body := TitleMissingHead(t) + SeatOps(t, 420) + ConditionalMarks(t, 537);
    assert TitleMissingLayout(t, code, qr) == body + CodeImage(811, code, qr);
    CodeImageEnds(body, 811, code, qr);
  }
}
