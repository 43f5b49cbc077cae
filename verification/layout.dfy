/** A ticket drawing as a display list: the canvas calls a renderer makes,
    in order, on a 1650 x 600 canvas. Later operations paint over earlier
    ones. The fragments here are the pieces the bulk printer and the on-screen
    canvas draw identically. */
module Layout {
  import opened Wrappers
  import opened Tickets
  import opened TextFit
  import opened FontLoader

  /** The four fill and stroke colours: #000000, #FFFFFF, #333333, #1d4ed8. */
  datatype Color = Black | White | Charcoal | SubscriberBlue

  datatype Align = AlignLeft | AlignCenter

  /** A HankenGrotesk font: CSS weight ("bold" is 700) and pixel size. */
  datatype Font = Font(weight: int, size: int)

  /** The template, the title art file `/title-images/<key>.png`, and a code
      image encoding `data`. */
  datatype Image = Template | TitleArt(key: string) | QrCode(data: string)

  datatype DrawOp =
    | FillRect(x: int, y: int, width: int, height: int, color: Color)
    | StrokeRect(x: int, y: int, width: int, height: int, color: Color, lineWidth: int)
      /** An image at its natural size. */
    | DrawImage(image: Image, x: int, y: int)
    | DrawImageScaled(image: Image, x: int, y: int, width: int, height: int)
      /** `fillText`, with the optional `maxWidth` argument. */
    | FillText(text: string, x: int, y: int, font: Font, color: Color, align: Align, maxWidth: Option<int>)
      /** A filled and outlined circle. */
    | Disc(cx: int, cy: int, radius: int, fill: Color, stroke: Color, lineWidth: int)

  const CanvasWidth := 1650
  const CanvasHeight := 600
  const Bold := 700

  /** The advisory printed on general-admission subscriber tickets. */
  const GaNote := "See board member for seat preference selection"

  /** The y of the title art's top edge; the date sits 50px below its bottom. */
  const TitleTop := 45

  function WhiteBackground(): DrawOp {
    FillRect(0, 0, CanvasWidth, CanvasHeight, White)
  }

  function TemplateBackground(): DrawOp {
    DrawImageScaled(Template, 0, 0, CanvasWidth, CanvasHeight)
  }

  /** The plain card drawn when the template image is unavailable. */
  function BorderedCard(): seq<DrawOp> {
    [WhiteBackground(), StrokeRect(10, 10, CanvasWidth - 20, CanvasHeight - 20, Charcoal, 2)]
  }

  /** The title art of a show, looked up by the show's abbreviation. */
  function TitleArtOp(show: string): DrawOp {
    DrawImage(TitleArt(ShowAbbreviation(show)), 59, TitleTop)
  }

  /** A drawing of some show's title art, wherever it is placed. */
  predicate IsTitleArt(op: DrawOp) {
    op.DrawImage? && op.image.TitleArt?
  }

  /** The show name drawn in place of missing title art. */
  function TitleTextOp(show: string, size: int): DrawOp {
    FillText(show, 59, 80, Font(Bold, size), Black, AlignLeft, None)
  }

  /** The date baseline below title art of height `titleHeight`. */
  function DateBaseline(titleHeight: int): int {
    TitleTop + titleHeight + 50
  }

  /** Section, row and seat at 70px, centred on x = 187, 402 and 589. */
  function SeatOps(t: TicketData, y: int): seq<DrawOp> {
    [ FillText(t.section, 187, y, Font(500, 70), Black, AlignCenter, None),
      FillText(t.row, 402, y, Font(500, 70), Black, AlignCenter, None),
      FillText(t.seat, 589, y, Font(500, 70), Black, AlignCenter, None) ]
  }

  predicate WantsGaNote(t: TicketData) {
    t.isSubscriber && t.section == "GA"
  }

  function GaNoteOp(y: int): DrawOp {
    FillText(GaNote, 59, y, Font(500, 25), Black, AlignLeft, None)
  }

  /** The white disc that marks a non-subscriber ticket. */
  function MarkerDisc(): DrawOp {
    Disc(663, 267, 10, White, Black, 1)
  }

  /** The code image encoding `code`, scaled to 477 x 477 at (811, 60). */
  function QrOp(code: string): DrawOp {
    DrawImageScaled(QrCode(code), 811, 60, 477, 477)
  }

  /** A drawing of a code image, whatever it encodes and wherever it is placed. */
  predicate IsCodeImage(op: DrawOp) {
    op.DrawImageScaled? && op.image.QrCode?
  }

  /** The GA advisory at `gaY` for a GA subscriber, then the marker disc for
      a non-subscriber. */
  function ConditionalMarks(t: TicketData, gaY: int): (r: seq<DrawOp>)
    ensures multiset(r)[GaNoteOp(gaY)] == (if WantsGaNote(t) then 1 else 0)
    ensures MarkerDisc() in r <==> !t.isSubscriber
    ensures multiset(r)[MarkerDisc()] <= 1
    ensures forall op | op in r :: op == GaNoteOp(gaY) || op == MarkerDisc()
  {
    (if WantsGaNote(t) then [GaNoteOp(gaY)] else [])
    + (if !t.isSubscriber then [MarkerDisc()] else [])
  }

  /** The date drawn at the shrink-to-fit size. */
  function FittedDateOp(m: Measure, t: TicketData, y: int): DrawOp {
    FillText(t.dateTime, 59, y, Font(500, FitFontSize(m, t.dateTime, DateFit)), Black, AlignLeft, Some(700))
  }

  /** The attendee name in white, centred on x = 372, at the shrink-to-fit size. */
  function FittedNameOp(m: Measure, t: TicketData): DrawOp {
    FillText(t.name, 372, 307, Font(600, FitFontSize(m, t.name, NameFit)), White, AlignCenter, Some(570))
  }

  /** Date, name, seat fields, GA advisory and marker, the block both
      template layouts draw after title art of known height. */
  function FittedDetails(m: Measure, t: TicketData, dateY: int): (r: seq<DrawOp>)
    ensures FittedDateOp(m, t, dateY) in r && FittedNameOp(m, t) in r
    ensures multiset(r)[GaNoteOp(562)] == (if WantsGaNote(t) then 1 else 0)
    ensures MarkerDisc() in r <==> !t.isSubscriber
    ensures forall op | op in r :: op.FillText? || op.Disc?
  {
    var head := [FittedDateOp(m, t, dateY), FittedNameOp(m, t)] + SeatOps(t, 490);
    var marks := ConditionalMarks(t, 562);
    assert forall op | op in head :: op.FillText? && (op.maxWidth.Some? || op.font.size == 70);
    assert GaNoteOp(562) !in head;
    assert multiset(head)[GaNoteOp(562)] == 0 && MarkerDisc() !in head;
    assert multiset(head + marks) == multiset(head) + multiset(marks);
    head + marks
  }
}
