/** The print endpoint: `POST` with `{ imageData, ticketInfo }` writes the
    image to a temporary file, runs the platform's print command on it and
    reports the outcome. The request body, the clock, the platform, the
    printer configuration and the outcome of every filesystem and process
    call are inputs; the result is the response together with the trace of
    effects the handler performed, in order. */
module PrintRoute {
  import opened Wrappers
  import opened Strings

  /** The `imageData` field as the handler sees it: absent (`undefined` or
      `null`), a string, or some other JSON value with its truthiness. */
  datatype ImageField = Absent | Text(text: string) | NonText(truthy: bool)

  /** The six identity fields echoed back on success. */
  datatype TicketSummary = TicketSummary(name: string, show: string, dateTime: string,
                                         section: string, row: string, seat: string)

  /** `request.json()` fails, or yields the two fields the handler reads;
      `ticketInfo` is `None` when it is `undefined` or `null`. */
  datatype Request = Malformed | Body(imageData: ImageField, ticketInfo: Option<TicketSummary>)

  /** `process.platform === "win32"` or anything else. */
  datatype Platform = Win32 | Posix

  /** The printer configuration, each value as its template-literal text. */
  datatype PrinterConfig = PrinterConfig(printerName: string, dpi: string, width: string,
                                         height: string, windowsPrintUtility: string)

  datatype FsOutcome = FsOk | FsFailed

  /** `exec` rejects (non-zero exit, spawn failure), or completes with its output. */
  datatype ExecOutcome = Rejected | Completed(stdout: string, stderr: string)

  /** Everything outside the handler: the platform, working directory, the
      clock in milliseconds, the configuration, and how each call settles. */
  datatype Environment = Environment(
    platform: Platform,
    cwd: string,
    now: nat,
    config: PrinterConfig,
    mkdir: FsOutcome,
    write: FsOutcome,
    exec: ExecOutcome,
    unlink: FsOutcome)

  datatype Effect = MakeDir(path: string) | WriteFile(path: string, base64: string)
                  | Exec(command: string) | Unlink(path: string)

  datatype ResponseBody =
    | ErrorOnly(error: string)
    | ErrorWithDetails(error: string, details: string)
      /** `{ error: "Server error", details: error }`; the thrown value is not modelled. */
    | ServerError
    | Success(message: string, output: string, ticketInfo: TicketSummary)

  datatype Response = Response(status: int, body: ResponseBody)

  datatype Outcome = Outcome(response: Response, effects: seq<Effect>)

  const NoImageMessage := "No image data provided"
  const PrintErrorMessage := "Print error"
  const SuccessMessage := "Print job sent to printer"

  /** The only standard-error text a successful job may print. */
  const BenignStderr := "requesting printer"

  // ---------------------------------------------------------------- prefix strip

  const DataImage := "data:image/"
  const Base64Marker := ";base64,"

  /** A character of the regular-expression class `\w`. */
  predicate IsWordChar(c: char) {
    ('a' <= c <= 'z') || ('A' <= c <= 'Z') || ('0' <= c <= '9') || c == '_'
  }

  predicate AllWord(s: string) {
    forall i | 0 <= i < |s| :: IsWordChar(s[i])
  }

  /** A complete match of `data:image\/\w+;base64,`. */
  predicate IsImagePrefix(p: string) {
    && |p| > |DataImage| + |Base64Marker|
    && p[..|DataImage|] == DataImage
    && p[|p| - |Base64Marker|..] == Base64Marker
    && AllWord(p[|DataImage|..|p| - |Base64Marker|])
  }

  /** The length of the leading run of word characters. */
  function WordRun(s: string): (k: nat)
    ensures k <= |s|
    ensures AllWord(s[..k])
    ensures k < |s| ==> !IsWordChar(s[k])
  {
    if |s| > 0 && IsWordChar(s[0]) then
      var k := 1 + WordRun(s[1..]);
      assert s[..k] == [s[0]] + s[1..][..k - 1];
      k
    else 0
  }

  /** `imageData.replace(/^data:image\/\w+;base64,/, "")`. */
  function StripPrefix(s: string): string {
    if StartsWith(s, DataImage) then
      var rest := s[|DataImage|..];
      var k := WordRun(rest);
      if k >= 1 && StartsWith(rest[k..], Base64Marker) then rest[k + |Base64Marker|..]
      else s
    else s
  }

  /** The result is a suffix of the input, and when it differs the part
      removed is one complete prefix match. */
  lemma StripPrefixShape(s: string)
    ensures EndsWith(s, StripPrefix(s))
    ensures StripPrefix(s) != s ==> IsImagePrefix(s[..|s| - |StripPrefix(s)|])
  {
    var r := StripPrefix(s);
    if r != s {
      var rest := s[|DataImage|..];
      var k := WordRun(rest);
      assert r == rest[k + |Base64Marker|..];
      assert s[..|s| - |r|] == DataImage + rest[..k] + Base64Marker;
    }
  }

  /** A word run stops at the `;` of the marker. */
  lemma WordRunBeforeMarker(kind: string, data: string)
    requires AllWord(kind)
    ensures WordRun(kind + Base64Marker + data) == |kind|
    decreases |kind|
  {
    var s := kind + Base64Marker + data;
    if |kind| > 0 {
      assert s[1..] == kind[1..] + Base64Marker + data;
      WordRunBeforeMarker(kind[1..], data);
    } else {
      assert s[0] == ';';
    }
  }

  /** Exactly one prefix is removed: stripping a prefixed payload gives the
      payload back, even when the payload itself starts with a prefix. */
  lemma StripPrefixRoundTrip(kind: string, data: string)
    requires |kind| >= 1 && AllWord(kind)
    ensures StripPrefix(DataImage + kind + Base64Marker + data) == data
  {
    var s := DataImage + kind + Base64Marker + data;
    assert s[..|DataImage|] == DataImage;
    var rest := s[|DataImage|..];
    assert rest == kind + Base64Marker + data;
    WordRunBeforeMarker(kind, data);
    assert rest[|kind|..] == Base64Marker + data;
    assert rest[|kind| + |Base64Marker|..] == data;
  }

  /** Input with no prefix match at its start is left unchanged. */
  lemma StripPrefixKeepsUnprefixed(s: string)
    requires forall i | 0 <= i <= |s| :: !IsImagePrefix(s[..i])
    ensures StripPrefix(s) == s
  {
    StripPrefixShape(s);
  }

  // ---------------------------------------------------------------- temp file

  /** The separator `path.join` inserts on each platform. */
  function Separator(p: Platform): string {
    if p == Win32 then "\\" else "/"
  }

  /** `path.join(cwd, "temp")`. */
  function TempDir(env: Environment): string {
    env.cwd + Separator(env.platform) + "temp"
  }

  /** `ticket-${Date.now()}.png`. */
  function TempFileName(now: nat): string {
    "ticket-" + Decimal(now) + ".png"
  }

  /** The file name is `ticket-`, then one or more decimal digits that read
      back as the millisecond clock, then `.png`. */
  lemma TempFileNameShape(now: nat)
    ensures StartsWith(TempFileName(now), "ticket-") && EndsWith(TempFileName(now), ".png")
    ensures var r := TempFileName(now);
      && |r| >= 12
      && (forall i | 7 <= i < |r| - 4 :: IsDigit(r[i]))
      && r[7..|r| - 4] == Decimal(now)
      && ParseDecimal(r[7..|r| - 4]) == now
  {
    var r := TempFileName(now);
    assert r[..7] == "ticket-";
    assert r[|r| - 4..] == ".png";
    assert r[7..|r| - 4] == Decimal(now);
    ParseDecimalOfDecimal(now);
  }

  function TempPath(env: Environment): string {
    TempDir(env) + Separator(env.platform) + TempFileName(env.now)
  }

  /** Requests handled at different milliseconds write different files. */
  lemma TempPathsDiffer(env: Environment, later: Environment)
    requires later == env.(now := later.now) && later.now != env.now
    ensures TempPath(env) != TempPath(later)
  {
    var dir := TempDir(env) + Separator(env.platform) + "ticket-";
    var a := Decimal(env.now);
    var b := Decimal(later.now);
    ConcatAssoc(TempDir(env) + Separator(env.platform), "ticket-" + a, ".png");
    ConcatAssoc(TempDir(env) + Separator(env.platform), "ticket-", a);
    ConcatAssoc(TempDir(env) + Separator(env.platform), "ticket-" + b, ".png");
    ConcatAssoc(TempDir(env) + Separator(env.platform), "ticket-", b);
    assert TempPath(env) == dir + a + ".png";
    assert TempPath(later) == dir + b + ".png";
    DecimalInjective(env.now, later.now);
    if TempPath(env) == TempPath(later) {
      FrameCancels(dir, a, b, ".png");
    }
  }

  lemma FrameCancels(x: string, a: string, b: string, y: string)
    requires x + a + y == x + b + y
    ensures a == b
  {
    var s := x + a + y;
    assert a == s[|x|..|s| - |y|];
    assert b == (x + b + y)[|x|..|s| - |y|];
  }

  // ---------------------------------------------------------------- command

  function Quoted(s: string): string {
    "\"" + s + "\""
  }

  /** The print command: on Windows the configured utility with printer,
      DPI and paper size flags; elsewhere `lp` with a BOCA media descriptor
      and a resolution. The file path comes last, quoted. */
  function PrintCommand(p: Platform, c: PrinterConfig, path: string): string {
    CommandHead(p, c) + " \"" + path + "\""
  }

  /** Everything before the file path. */
  function CommandHead(p: Platform, c: PrinterConfig): string {
    if p == Win32 then
      "\"" + c.windowsPrintUtility + "\" -printer \"" + c.printerName + "\" -dpi " + c.dpi
      + " -papersize \"" + c.width + "x" + c.height + "\""
    else
      "lp -d \"" + c.printerName + "\" -o media=\"BOCA " + c.width + "x" + c.height
      + "in\" -o resolution=" + c.dpi
  }

  /** The command starts with the quoted utility on Windows and with
      `lp -d ` elsewhere, and ends with the quoted file path, so the path is
      the last argument on both platforms. */
  lemma PrintCommandShape(p: Platform, c: PrinterConfig, path: string)
    ensures var r := PrintCommand(p, c, path);
      && EndsWith(r, " " + Quoted(path))
      && (p == Win32 ==> StartsWith(r, Quoted(c.windowsPrintUtility)))
      && (p == Posix ==> StartsWith(r, "lp -d "))
  {
    var r := PrintCommand(p, c, path);
    var head := r[..|r| - |path| - 3];
    assert r == head + " \"" + path + "\"";
    CommandEnds(head, path);
    assert p == Win32 ==> r[..|Quoted(c.windowsPrintUtility)|] == Quoted(c.windowsPrintUtility);
    assert p == Posix ==> r[..6] == "lp -d ";
  }

  /** With no `"` inside the configured strings or the path, the command
      gives its arguments back: the printer name follows `lp -d "` (seven
      characters) or, on Windows, the quoted utility and ` -printer "`, up to
      the next quote; the file path is the final quoted field. */
  lemma PrintCommandFields(p: Platform, c: PrinterConfig, path: string)
    requires '"' !in c.printerName && '"' !in path
    requires p == Win32 ==> '"' !in c.windowsPrintUtility
    ensures var r := PrintCommand(p, c, path);
      && r[|r| - 1] == '"' && AfterLast(r[..|r| - 1], '"') == path
      && (p == Posix ==> |r| > 7 && UpTo(r[7..], '"') == c.printerName)
      && (p == Win32 ==>
            var k := |c.windowsPrintUtility| + 13;
            && r[0] == '"' && UpTo(r[1..], '"') == c.windowsPrintUtility
            && r[k - 12..k] == "\" -printer \""
            && UpTo(r[k..], '"') == c.printerName)
  {
    PathField(CommandHead(p, c), path);
    if p == Posix {
      PosixCommandFields(c, path);
    } else {
      WindowsCommandFields(c, path);
    }
  }

  lemma PosixCommandFields(c: PrinterConfig, path: string)
    requires '"' !in c.printerName
    ensures var r := PrintCommand(Posix, c, path);
      |r| > 7 && UpTo(r[7..], '"') == c.printerName
  {
    var head := CommandHead(Posix, c);
    var suffix := " \"" + path + "\"";
    assert PrintCommand(Posix, c, path) == head + suffix;
    PosixHeadFields(c);
    FieldAfter(head, 7, c.printerName, suffix);
  }

  lemma WindowsCommandFields(c: PrinterConfig, path: string)
    requires '"' !in c.printerName && '"' !in c.windowsPrintUtility
    ensures var r := PrintCommand(Win32, c, path);
      var k := |c.windowsPrintUtility| + 13;
      && |r| > k
      && r[0] == '"' && UpTo(r[1..], '"') == c.windowsPrintUtility
      && r[k - 12..k] == "\" -printer \""
      && UpTo(r[k..], '"') == c.printerName
  {
    var head := CommandHead(Win32, c);
    var suffix := " \"" + path + "\"";
    var k := |c.windowsPrintUtility| + 13;
    assert PrintCommand(Win32, c, path) == head + suffix;
    WindowsUtilityField(c);
    WindowsPrinterField(c);
    FieldAfter(head, 1, c.windowsPrintUtility, suffix);
    FieldAfter(head, k, c.printerName, suffix);
    assert (head + suffix)[0] == head[0];
    assert (head + suffix)[k - 12..k] == head[k - 12..k];
  }

  /** A quote-free path is the final quoted field of the command. */
  lemma PathField(head: string, path: string)
    requires '"' !in path
    ensures var r := head + " \"" + path + "\"";
      r[|r| - 1] == '"' && AfterLast(r[..|r| - 1], '"') == path
  {
    var r := head + " \"" + path + "\"";
    assert r[..|r| - 1] == head + " " + ['"'] + path;
    AfterLastField(head + " ", '"', path);
  }

  /** A quote-free field at `k` in a head is still the field at `k` once
      anything is appended. */
  lemma FieldAfter(head: string, k: nat, field: string, suffix: string)
    requires k <= |head| && '"' !in field && UpTo(head[k..], '"') == field
    requires |head| - k > |field| && head[k + |field|] == '"'
    ensures k < |head + suffix| && UpTo((head + suffix)[k..], '"') == field
  {
    var rest := head[k + |field| + 1..];
    assert head[k..] == field + ['"'] + rest;
    assert (head + suffix)[k..] == field + ['"'] + (rest + suffix);
    UpToField(field, '"', rest + suffix);
  }

  lemma PosixHeadFields(c: PrinterConfig)
    requires '"' !in c.printerName
    ensures var head := CommandHead(Posix, c);
      && |head| - 7 > |c.printerName| && head[7 + |c.printerName|] == '"'
      && UpTo(head[7..], '"') == c.printerName
  {
    var head := CommandHead(Posix, c);
    var tail := " -o media=\"BOCA " + c.width + "x" + c.height + "in\" -o resolution=" + c.dpi;
    assert head == "lp -d \"" + c.printerName + ['"'] + tail;
    assert head[7..] == c.printerName + ['"'] + tail;
    UpToField(c.printerName, '"', tail);
  }

  lemma WindowsUtilityField(c: PrinterConfig)
    requires '"' !in c.windowsPrintUtility
    ensures var head := CommandHead(Win32, c);
      var u := c.windowsPrintUtility;
      && |head| - 1 > |u| && head[0] == '"' && head[1 + |u|] == '"'
      && UpTo(head[1..], '"') == u
  {
    var head := CommandHead(Win32, c);
    var u := c.windowsPrintUtility;
    var rest := head[|u| + 2..];
    assert head == "\"" + u + ['"'] + rest;
    assert head[1..] == u + ['"'] + rest;
    UpToField(u, '"', rest);
  }

  lemma WindowsPrinterField(c: PrinterConfig)
    requires '"' !in c.printerName
    ensures var head := CommandHead(Win32, c);
      var k := |c.windowsPrintUtility| + 13;
      && |head| - k > |c.printerName| && head[k + |c.printerName|] == '"'
      && head[k - 12..k] == "\" -printer \""
      && UpTo(head[k..], '"') == c.printerName
  {
    var head := CommandHead(Win32, c);
    var k := |c.windowsPrintUtility| + 13;
    var front := "\"" + c.windowsPrintUtility + "\" -printer \"";
    var tail := " -dpi " + c.dpi + " -papersize \"" + c.width + "x" + c.height + "\"";
    assert |front| == k;
    assert head == front + c.printerName + ['"'] + tail;
    assert head[k..] == c.printerName + ['"'] + tail;
    UpToField(c.printerName, '"', tail);
  }

  lemma CommandEnds(head: string, path: string)
    ensures EndsWith(head + " \"" + path + "\"", " " + Quoted(path))
  {
    var r := head + " \"" + path + "\"";
    assert r == head + (" " + Quoted(path));
  }

  // ---------------------------------------------------------------- handler

  /** JavaScript truthiness of `imageData`. */
  predicate ImageTruthy(f: ImageField) {
    match f
    case Absent => false
    case Text(s) => s != ""
    case NonText(truthy) => truthy
  }

  /** `stderr && !stderr.includes("requesting printer")`. */
  predicate IsPrintError(stderr: string) {
    stderr != "" && !Contains(stderr, BenignStderr)
  }

  function Fail(status: int, body: ResponseBody, effects: seq<Effect>): Outcome {
    Outcome(Response(status, body), effects)
  }

  /** `POST`, as written: on the print-error path it returns before the
      clean-up step. */
  function HandlePost(req: Request, env: Environment): (o: Outcome)
    ensures o.response.status == 400 <==> req.Body? && !ImageTruthy(req.imageData)
    ensures o.response.status == 400 ==> o.effects == [] && o.response.body == ErrorOnly(NoImageMessage)
    ensures o.response.status in {200, 400, 500}
    ensures o.response.status == 200 <==> o.response.body.Success?
  {
    match req
    case Malformed => Fail(500, ServerError, [])
    case Body(image, info) =>
      if !ImageTruthy(image) then Fail(400, ErrorOnly(NoImageMessage), [])
      else if !image.Text? then Fail(500, ServerError, [])
      else WriteAndPrint(image.text, info, env)
  }

  /** From the prefix strip on: create the directory, write the file, and
      print it unless the write threw. */
  function WriteAndPrint(image: string, info: Option<TicketSummary>, env: Environment): (o: Outcome)
    ensures o.response.status in {200, 500}
    ensures o.response.status == 200 <==> o.response.body.Success?
  {
    var path := TempPath(env);
    var written := [MakeDir(TempDir(env)), WriteFile(path, StripPrefix(image))];
    if env.write == FsFailed then Fail(500, ServerError, written)
    else PrintAndReport(written, path, info, env)
  }

  /** Run the command, classify its stderr, clean up and answer. */
  function PrintAndReport(written: seq<Effect>, path: string, info: Option<TicketSummary>, env: Environment): (o: Outcome)
    ensures o.response.status in {200, 500}
    ensures o.response.status == 200 <==> o.response.body.Success?
  {
    var ran := written + [Exec(PrintCommand(env.platform, env.config, path))];
    match env.exec
    case Rejected => Fail(500, ServerError, ran)
    case Completed(stdout, stderr) =>
      if IsPrintError(stderr) then Fail(500, ErrorWithDetails(PrintErrorMessage, stderr), ran)
      else
        var cleaned := ran + [Unlink(path)];
        match info
        case None => Fail(500, ServerError, cleaned)
        case Some(summary) => Fail(200, Success(SuccessMessage, stdout, summary), cleaned)
  }

  /** The temp file was written: the handler issued the write and it succeeded. */
  predicate WroteTemp(o: Outcome, env: Environment) {
    && env.write == FsOk
    && exists i | 0 <= i < |o.effects| :: o.effects[i].WriteFile? && o.effects[i].path == TempPath(env)
  }

  /** The temp file is still on disk when the handler returns. */
  predicate TempLeft(o: Outcome, env: Environment) {
    WroteTemp(o, env) && !(Unlink(TempPath(env)) in o.effects && env.unlink == FsOk)
  }

  /** The request carries a non-empty string image. */
  predicate HasImageText(req: Request) {
    req.Body? && req.imageData.Text? && req.imageData.text != ""
  }

  /** The job succeeds exactly when the image is a non-empty string, the
      write succeeds, the command completes with no stderr other than the
      benign spooler notice, and `ticketInfo` is present; the response then
      echoes stdout and the ticket summary. */
  lemma SuccessIff(req: Request, env: Environment)
    ensures var o := HandlePost(req, env);
      o.response.status == 200 <==>
        && HasImageText(req) && env.write == FsOk
        && env.exec.Completed? && !IsPrintError(env.exec.stderr)
        && req.ticketInfo.Some?
    ensures var o := HandlePost(req, env);
      o.response.status == 200 ==>
        o.response.body == Success(SuccessMessage, env.exec.stdout, req.ticketInfo.value)
  {
  }

  /** A non-benign stderr after a successful write is reported as a print
      error carrying the stderr text, with status 500. */
  lemma PrintErrorReported(req: Request, env: Environment)
    requires HasImageText(req) && env.write == FsOk
    requires env.exec.Completed? && IsPrintError(env.exec.stderr)
    ensures HandlePost(req, env).response == Response(500, ErrorWithDetails(PrintErrorMessage, env.exec.stderr))
  {
  }

  /** A thrown error answers 500 "Server error": a body that is not JSON, an
      image that is not a string, a failed write, or a rejected command. */
  lemma ThrownErrorsAnswerServerError(req: Request, env: Environment)
    requires || req.Malformed?
             || (req.Body? && ImageTruthy(req.imageData) && !req.imageData.Text?)
             || (HasImageText(req) && (env.write == FsFailed || env.exec.Rejected?))
    ensures HandlePost(req, env).response == Response(500, ServerError)
  {
  }

  /** A failed `mkdir` does not stop the write: it is still attempted, right
      after the directory call. */
  lemma WriteFollowsMkdir(req: Request, env: Environment)
    requires HasImageText(req)
    ensures var o := HandlePost(req, env);
      && |o.effects| >= 2
      && o.effects[0] == MakeDir(TempDir(env))
      && o.effects[1] == WriteFile(TempPath(env), StripPrefix(req.imageData.text))
  {
    EffectOrder(req, env);
  }

  /** Everything a request with image text can make the handler do, in order. */
  function PlannedEffects(image: string, env: Environment): seq<Effect> {
    var path := TempPath(env);
    [ MakeDir(TempDir(env)), WriteFile(path, StripPrefix(image)),
      Exec(PrintCommand(env.platform, env.config, path)), Unlink(path) ]
  }

  /** How far through the plan the handler gets. */
  function StagesRun(env: Environment): nat {
    if env.write == FsFailed then 2
    else if env.exec.Rejected? || IsPrintError(env.exec.stderr) then 3
    else 4
  }

  /** The handler's effects are a prefix of mkdir, write, exec, unlink, in
      that order: the command runs only after a successful write, and the
      unlink only after the command completed without a print error. */
  lemma EffectOrder(req: Request, env: Environment)
    requires HasImageText(req)
    ensures HandlePost(req, env).effects == PlannedEffects(req.imageData.text, env)[..StagesRun(env)]
  {
    var image := req.imageData.text;
    var path := TempPath(env);
    var written := [MakeDir(TempDir(env)), WriteFile(path, StripPrefix(image))];
    var exec := Exec(PrintCommand(env.platform, env.config, path));
    var plan := PlannedEffects(image, env);
    assert plan == written + [exec] + [Unlink(path)];
    assert HandlePost(req, env) == WriteAndPrint(image, req.ticketInfo, env);
    if env.write == FsFailed {
      assert plan[..2] == written;
    } else {
      assert WriteAndPrint(image, req.ticketInfo, env) == PrintAndReport(written, path, req.ticketInfo, env);
      ReportEffects(written, path, req.ticketInfo, env);
      if StagesRun(env) == 3 {
        assert plan[..3] == written + [exec];
      } else {
        assert plan[..4] == plan;
      }
    }
  }

  /** The effects of the last stage, with the path left abstract. */
  lemma ReportEffects(written: seq<Effect>, path: string, info: Option<TicketSummary>, env: Environment)
    requires env.write == FsOk
    ensures PrintAndReport(written, path, info, env).effects
         == written + [Exec(PrintCommand(env.platform, env.config, path))]
            + (if StagesRun(env) == 4 then [Unlink(path)] else [])
  {
  }

  /** As written, the temp file outlives the request exactly when it was
      written and then either the command was rejected, the spooler reported
      an error, or the unlink failed. */
  lemma {:induction false} TempLeftAsWritten(req: Request, env: Environment)
    ensures TempLeft(HandlePost(req, env), env) <==>
      && HasImageText(req) && env.write == FsOk
      && (env.exec.Rejected? || IsPrintError(env.exec.stderr) || env.unlink == FsFailed)
  {
    var o := HandlePost(req, env);
    if !HasImageText(req) {
      NoEffectsWithoutImage(req, env);
    } else if env.write == FsOk {
      EffectOrder(req, env);
      assert o.effects[1].WriteFile? && o.effects[1].path == TempPath(env);
    }
  }

  /** Without a non-empty string image the handler touches nothing. */
  lemma NoEffectsWithoutImage(req: Request, env: Environment)
    requires !HasImageText(req)
    ensures HandlePost(req, env).effects == []
  {
  }

  /** A failed `mkdir` is only logged: the response and the effects are the
      same as when it succeeds. */
  lemma MkdirFailureIgnored(req: Request, env: Environment)
    ensures HandlePost(req, env.(mkdir := FsFailed)) == HandlePost(req, env.(mkdir := FsOk))
  {
    var failed := env.(mkdir := FsFailed);
    var ok := env.(mkdir := FsOk);
    if req.Body? && req.imageData.Text? && req.imageData.text != "" {
      StagesIgnoreOtherFields(req.imageData.text, req.ticketInfo, failed, ok);
    }
  }

  /** A failed unlink is only logged: the response is the same as when it
      succeeds. */
  lemma UnlinkFailureIgnored(req: Request, env: Environment)
    ensures HandlePost(req, env.(unlink := FsFailed)).response == HandlePost(req, env.(unlink := FsOk)).response
  {
    var failed := env.(unlink := FsFailed);
    var ok := env.(unlink := FsOk);
    if req.Body? && req.imageData.Text? && req.imageData.text != "" {
      StagesIgnoreOtherFields(req.imageData.text, req.ticketInfo, failed, ok);
    }
  }

  /** The stages read the platform, directory, clock, configuration, write
      and command outcomes and nothing else of the environment. */
  lemma StagesIgnoreOtherFields(image: string, info: Option<TicketSummary>, a: Environment, b: Environment)
    requires a.platform == b.platform && a.cwd == b.cwd && a.now == b.now && a.config == b.config
    requires a.write == b.write && a.exec == b.exec
    ensures WriteAndPrint(image, info, a) == WriteAndPrint(image, info, b)
  {
    assert TempDir(a) == TempDir(b);
    assert TempPath(a) == TempPath(b);
  }

  /** The spooler's queueing notice is not an error. */
  lemma RequestingPrinterSucceeds(req: Request, env: Environment, summary: TicketSummary)
    requires HasImageText(req) && req.ticketInfo == Some(summary) && env.write == FsOk
    requires env.exec == Completed("", "requesting printer 5678")
    ensures HandlePost(req, env).response == Response(200, Success(SuccessMessage, "", summary))
  {
    assert StartsWith("requesting printer 5678", BenignStderr);
  }

  /** Any other stderr text fails the job and is returned as the details. */
  lemma UnknownPrinterFails(req: Request, env: Environment)
    requires HasImageText(req) && env.write == FsOk
    requires env.exec == Completed("", "unknown printer")
    ensures HandlePost(req, env).response == Response(500, ErrorWithDetails(PrintErrorMessage, "unknown printer"))
  {
    ShorterDoesNotContain("unknown printer", BenignStderr);
    PrintErrorReported(req, env);
  }

  lemma {:induction false} ShorterDoesNotContain(s: string, sub: string)
    requires |s| < |sub|
    ensures !Contains(s, sub)
    decreases |s|
  {
    if |s| > 0 {
      ShorterDoesNotContain(s[1..], sub);
    }
  }

  // ---------------------------------------------------------------- clean-up

  /** `POST` with the clean-up in a `finally`: once the temp file is written,
      the unlink is attempted whatever the command did, as the last effect. */
  function HandlePostCleaned(req: Request, env: Environment): (o: Outcome)
    ensures o.response.status in {200, 400, 500}
    ensures HasImageText(req) && env.write == FsOk ==>
      |o.effects| == 4 && o.effects[1].WriteFile? && o.effects[3] == Unlink(o.effects[1].path)
  {
    match req
    case Malformed => Fail(500, ServerError, [])
    case Body(image, info) =>
      if !ImageTruthy(image) then Fail(400, ErrorOnly(NoImageMessage), [])
      else if !image.Text? then Fail(500, ServerError, [])
      else WriteAndPrintCleaned(image.text, info, env)
  }

  function WriteAndPrintCleaned(image: string, info: Option<TicketSummary>, env: Environment): (o: Outcome)
    ensures env.write == FsOk ==> |o.effects| == 4 && o.effects[3] == Unlink(TempPath(env))
  {
    var path := TempPath(env);
    var written := [MakeDir(TempDir(env)), WriteFile(path, StripPrefix(image))];
    if env.write == FsFailed then Fail(500, ServerError, written)
    else PrintAndReportCleaned(written, path, info, env)
  }

  /** Run the command and answer as before, with the unlink on every branch:
      rejection, print error, and the two outcomes after a clean run. */
  function PrintAndReportCleaned(written: seq<Effect>, path: string, info: Option<TicketSummary>, env: Environment): (o: Outcome)
    ensures o.effects == written + [Exec(PrintCommand(env.platform, env.config, path)), Unlink(path)]
  {
    var cleaned := written + [Exec(PrintCommand(env.platform, env.config, path)), Unlink(path)];
    match env.exec
    case Rejected => Fail(500, ServerError, cleaned)
    case Completed(stdout, stderr) =>
      if IsPrintError(stderr) then Fail(500, ErrorWithDetails(PrintErrorMessage, stderr), cleaned)
      else
        match info
        case None => Fail(500, ServerError, cleaned)
        case Some(summary) => Fail(200, Success(SuccessMessage, stdout, summary), cleaned)
  }

  /** Moving the clean-up changes no response: the client sees exactly what
      the handler as written answers, on every request and environment. */
  lemma CleanedKeepsResponse(req: Request, env: Environment)
    ensures HandlePostCleaned(req, env).response == HandlePost(req, env).response
  {
    if HasImageText(req) && env.write == FsOk {
      var image := req.imageData.text;
      var path := TempPath(env);
      var written := [MakeDir(TempDir(env)), WriteFile(path, StripPrefix(image))];
      assert HandlePost(req, env) == PrintAndReport(written, path, req.ticketInfo, env);
      assert HandlePostCleaned(req, env) == PrintAndReportCleaned(written, path, req.ticketInfo, env);
    }
  }

  /** The corrected handler runs the whole plan once the write succeeds, and
      stops after the write when it fails. */
  lemma CleanedEffects(req: Request, env: Environment)
    requires HasImageText(req)
    ensures HandlePostCleaned(req, env).effects
         == PlannedEffects(req.imageData.text, env)[..if env.write == FsFailed then 2 else 4]
  {
    var image := req.imageData.text;
    var path := TempPath(env);
    var written := [MakeDir(TempDir(env)), WriteFile(path, StripPrefix(image))];
    var plan := PlannedEffects(image, env);
    assert plan[..2] == written;
    assert plan[..4] == plan;
  }

  /** With the clean-up on every path, the temp file outlives the request
      only when it was written and the unlink itself failed. */
  lemma {:induction false} CleanedLeavesNoTempFile(req: Request, env: Environment)
    ensures TempLeft(HandlePostCleaned(req, env), env) <==>
      HasImageText(req) && env.write == FsOk && env.unlink == FsFailed
  {
    var c := HandlePostCleaned(req, env);
    if !HasImageText(req) {
      assert c.effects == [];
    } else {
      CleanedEffects(req, env);
      if env.write == FsOk {
        assert c.effects[1].WriteFile? && c.effects[1].path == TempPath(env);
        assert c.effects[3] == Unlink(TempPath(env));
      }
    }
  }

  /** A job the spooler rejects, on a host where every filesystem call
      succeeds, leaves its temp file behind as written; with the clean-up
      on every path it does not. */
  lemma PrintErrorLeavesTempFile(req: Request, env: Environment)
    requires HasImageText(req) && env.write == FsOk && env.unlink == FsOk
    requires env.exec == Completed("", "unknown printer")
    ensures TempLeft(HandlePost(req, env), env)
    ensures !TempLeft(HandlePostCleaned(req, env), env)
  {
    ShorterDoesNotContain("unknown printer", BenignStderr);
    TempLeftAsWritten(req, env);
    CleanedLeavesNoTempFile(req, env);
  }
}
