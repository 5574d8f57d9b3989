/** The confirmation mail of `SendEmail` and `GetEmail`
    (src/controllers/user.go): header lines, a blank line, then the HTML
    template. The SMTP transport is outside the model; the composed request
    is what would be handed to it. */
module Mail {
  import opened Wrappers
  import opened Models
  import Seqs

  const CRLF: string := "\r\n"
  const SubjectLine: string := "Subject: Welcome to LinuxDiary 5.0"
  const MimeLine: string := "MIME-Version: 1.0"
  const ContentTypeLine: string := "Content-Type: text/html; charset=UTF-8"
  /** The SMTP submission port the transport is dialled on. */
  const SubmissionPort: string := "587"

  /** The welcome page. The markup itself is presentation only; the model
      keeps its opening lines. */
  const WelcomeTemplate: string := "<!DOCTYPE html>\n<html lang=\"en\">\n"

  /** `GetEmail`: the template, which takes the display name as a parameter
      but never inserts it. */
  function GetEmail(name: string): (r: string)
    ensures "<!DOCTYPE html>" <= r
  {
    WelcomeTemplate
  }

  lemma GetEmailIgnoresName(a: string, b: string)
    ensures GetEmail(a) == GetEmail(b)
    ensures |GetEmail(a)| > 0
  {
  }

  /** The mail settings read from the environment. */
  datatype MailConfig = MailConfig(from: string, password: string, host: string)

  /** `smtp.PlainAuth(identity, username, password, host)`. */
  datatype SmtpAuth = PlainAuth(identity: string, username: string, password: string, host: string)

  /** The arguments of the `smtp.SendMail` call. */
  datatype MailRequest = MailRequest(server: string, auth: SmtpAuth, sender: string, recipients: seq<string>, message: string)

  /** A message as its reader sees it: the two variable headers and the body. */
  datatype ReadMail = ReadMail(from: string, to: string, body: string)

  /** The message bytes built by `SendEmail`. */
  function ComposeMessage(from: string, to: string, body: string): (m: string)
    ensures "From: " + from + CRLF <= m
    ensures |body| <= |m| && m[|m| - |body|..] == body
  {
    "From: " + from + CRLF + "To: " + to + CRLF
      + SubjectLine + CRLF
      + MimeLine + CRLF
      + ContentTypeLine + CRLF + CRLF
      + body
  }

  /** `SendEmail` up to the transport call: the mail goes from the
      configured sender to the user's email address alone, over the
      configured host's submission port, with the welcome template as body. */
  function SendEmail(cfg: MailConfig, user: UserInput): (r: MailRequest)
    ensures r.recipients == [user.email] && r.sender == cfg.from
    ensures r.server == cfg.host + ":" + SubmissionPort
    ensures r.auth == PlainAuth("", cfg.from, cfg.password, cfg.host)
  {
    var msg := ComposeMessage(cfg.from, user.email, GetEmail(user.name));
    MailRequest(cfg.host + ":" + SubmissionPort, PlainAuth("", cfg.from, cfg.password, cfg.host), cfg.from, [user.email], msg)
  }

  /** The message handed to the transport reads back as the configured
      sender, the user's address and the welcome template, when neither
      address contains a line break. */
  lemma SendEmailReadsBack(cfg: MailConfig, user: UserInput)
    requires !HasCrlf(cfg.from) && !HasCrlf(user.email)
    ensures ParseMessage(SendEmail(cfg, user).message) == Some(ReadMail(cfg.from, user.email, GetEmail(user.name)))
  {
    MessageRoundTrip(cfg.from, user.email, GetEmail(user.name));
  }

  // ---------------------------------------------------------------------
  // Reading a message back: header lines up to the first empty line.

  /** True when `s` contains a CR immediately followed by LF. */
  predicate HasCrlf(s: string) {
    exists i :: 0 <= i < |s| - 1 && s[i] == '\r' && s[i + 1] == '\n'
  }

  /** Split off the text before the first CRLF. */
  function TakeLine(s: string): (r: Option<(string, string)>)
    ensures r.Some? ==> s == r.value.0 + CRLF + r.value.1 && !HasCrlf(r.value.0)
    ensures r.None? ==> !HasCrlf(s)
    decreases |s|
  {
    if |s| < 2 then None
    else if s[0] == '\r' && s[1] == '\n' then Some(("", s[2..]))
    else match TakeLine(s[1..])
      case None => None
      case Some((line, rest)) => Some(([s[0]] + line, rest))
  }

  /** Header lines, each followed by CRLF; the serialised form of a header
      block without its terminating blank line. */
  function JoinLines(lines: seq<string>): string {
    if |lines| == 0 then "" else lines[0] + CRLF + JoinLines(lines[1..])
  }

  predicate ProperLines(lines: seq<string>) {
    forall i :: 0 <= i < |lines| ==> lines[i] != "" && !HasCrlf(lines[i])
  }

  /** Read header lines until the empty line; the rest is the body. */
  function ReadHeaders(s: string): (r: Option<(seq<string>, string)>)
    ensures r.Some? ==> s == JoinLines(r.value.0) + CRLF + r.value.1 && ProperLines(r.value.0)
    decreases |s|
  {
    match TakeLine(s)
    case None => None
    case Some((line, rest)) =>
      if line == "" then Some(([], rest))
      else match ReadHeaders(rest)
        case None => None
        case Some((lines, body)) => Some(([line] + lines, body))
  }

  function HeaderLines(from: string, to: string): seq<string> {
    ["From: " + from, "To: " + to, SubjectLine, MimeLine, ContentTypeLine]
  }

  /** Recognise a message of exactly the shape `SendEmail` builds. */
  function ParseMessage(m: string): Option<ReadMail> {
    match ReadHeaders(m)
    case None => None
    case Some((lines, body)) =>
      if |lines| == 5 && |lines[0]| >= 6 && |lines[1]| >= 4
         && lines == HeaderLines(lines[0][6..], lines[1][4..])
      then Some(ReadMail(lines[0][6..], lines[1][4..], body))
      else None
  }

  // ---------------------------------------------------------------------
  // Lemmas

  lemma {:induction false} TakeLineOf(line: string, rest: string)
    requires !HasCrlf(line)
    ensures TakeLine(line + CRLF + rest) == Some((line, rest))
    decreases |line|
  {
    var s := line + CRLF + rest;
    if |line| > 0 {
      var tail := line[1..];
      assert s[1..] == tail + CRLF + rest;
      assert !HasCrlf(tail);
      if |line| == 1 {
        assert s[1] == '\r';
      } else {
        assert s[1] == line[1];
      }
      TakeLineOf(tail, rest);
      assert [line[0]] + tail == line;
    }
  }

  lemma {:induction false} ReadHeadersOf(lines: seq<string>, body: string)
    requires ProperLines(lines)
    ensures ReadHeaders(JoinLines(lines) + CRLF + body) == Some((lines, body))
    decreases |lines|
  {
    var s := JoinLines(lines) + CRLF + body;
    if |lines| == 0 {
      assert s == "" + CRLF + body;
      TakeLineOf("", body);
    } else {
      var rest := JoinLines(lines[1..]) + CRLF + body;
      assert s == lines[0] + CRLF + rest;
      TakeLineOf(lines[0], rest);
      ReadHeadersOf(lines[1..], body);
      Seqs.HeadTail(lines);
    }
  }

  lemma ComposeIsJoin(from: string, to: string, body: string)
    ensures ComposeMessage(from, to, body) == JoinLines(HeaderLines(from, to)) + CRLF + body
  {
    var ls := HeaderLines(from, to);
    var j4 := ContentTypeLine + CRLF;
    var j3 := MimeLine + CRLF + j4;
    var j2 := SubjectLine + CRLF + j3;
    var j1 := "To: " + to + CRLF + j2;
    assert ls[1..][1..][1..][1..][1..] == [];
    assert JoinLines(ls[4..]) == j4;
    assert JoinLines(ls[3..]) == j3;
    assert JoinLines(ls[2..]) == j2;
    assert JoinLines(ls[1..]) == j1;
    assert JoinLines(ls) == "From: " + from + CRLF + j1;
    // The message's left-nested prefixes, one header line at a time.
    var p0 := "From: " + from + CRLF;
    var p1 := p0 + "To: " + to + CRLF;
    var p2 := p1 + SubjectLine + CRLF;
    var p3 := p2 + MimeLine + CRLF;
    var p4 := p3 + ContentTypeLine + CRLF;
    assert p4 == p3 + j4 by { Seqs.Assoc(p3, ContentTypeLine, CRLF); }
    assert p3 + j4 == p2 + j3 by {
      Seqs.Assoc(p2, MimeLine, CRLF);
      Seqs.Assoc(p2, MimeLine + CRLF, j4);
    }
    assert p2 + j3 == p1 + j2 by {
      Seqs.Assoc(p1, SubjectLine, CRLF);
      Seqs.Assoc(p1, SubjectLine + CRLF, j3);
    }
    assert p1 + j2 == p0 + j1 by {
      Seqs.Assoc(p0, "To: ", to);
      Seqs.Assoc(p0, "To: " + to, CRLF);
      Seqs.Assoc(p0, "To: " + to + CRLF, j2);
    }
  }

  /** A prefix ending in a character other than CR cannot complete a CRLF
      across the seam. */
  lemma NoCrlfAfterPrefix(p: string, s: string)
    requires |p| > 0 && p[|p| - 1] != '\r' && !HasCrlf(p)
    ensures HasCrlf(p + s) <==> HasCrlf(s)
  {
    var t := p + s;
    if HasCrlf(t) {
      var i :| 0 <= i < |t| - 1 && t[i] == '\r' && t[i + 1] == '\n';
      if i >= |p| {
        assert s[i - |p|] == '\r' && s[i - |p| + 1] == '\n';
      }
    }
    if HasCrlf(s) {
      var i :| 0 <= i < |s| - 1 && s[i] == '\r' && s[i + 1] == '\n';
      assert t[i + |p|] == '\r' && t[i + |p| + 1] == '\n';
    }
  }

  lemma HeaderLinesProper(from: string, to: string)
    requires !HasCrlf(from) && !HasCrlf(to)
    ensures ProperLines(HeaderLines(from, to))
  {
    NoCrlfAfterPrefix("From: ", from);
    NoCrlfAfterPrefix("To: ", to);
    assert !HasCrlf(SubjectLine) && !HasCrlf(MimeLine) && !HasCrlf(ContentTypeLine);
  }

  /** The message `SendEmail` builds reads back as its sender, recipient
      and body, provided neither address contains a line break. */
  lemma MessageRoundTrip(from: string, to: string, body: string)
    requires !HasCrlf(from) && !HasCrlf(to)
    ensures ParseMessage(ComposeMessage(from, to, body)) == Some(ReadMail(from, to, body))
  {
    var ls := HeaderLines(from, to);
    ComposeIsJoin(from, to, body);
    HeaderLinesProper(from, to);
    ReadHeadersOf(ls, body);
    assert ls[0][6..] == from && ls[1][4..] == to;
  }

  /** The address is not checked for line breaks before the message is
      built: a CRLF inside it ends the `To:` line early and its tail reads
      as a header of its own, so the message no longer has the shape
      `SendEmail` intends. Such a message is never delivered: `smtp.SendMail`
      refuses a sender or recipient holding any CR or LF (a stricter test
      than `HasCrlf`, which looks only for the CR LF pair), so the
      background send fails. */
  lemma LineBreakInRecipientAddsHeader(from: string, a: string, b: string, body: string)
    requires !HasCrlf(from) && !HasCrlf(a) && !HasCrlf(b) && b != ""
    ensures ReadHeaders(ComposeMessage(from, a + CRLF + b, body))
      == Some((["From: " + from, "To: " + a, b, SubjectLine, MimeLine, ContentTypeLine], body))
    ensures ParseMessage(ComposeMessage(from, a + CRLF + b, body)).None?
  {
    var to := a + CRLF + b;
    var five := HeaderLines(from, to);
    var six := ["From: " + from, "To: " + a, b, SubjectLine, MimeLine, ContentTypeLine];
    var tail := JoinLines(five[2..]);
    ComposeIsJoin(from, to, body);
    assert six[3..] == five[2..];
    assert JoinLines(five[1..]) == "To: " + to + CRLF + tail;
    assert JoinLines(six[2..]) == b + CRLF + tail;
    assert JoinLines(six[1..]) == "To: " + a + CRLF + (b + CRLF + tail);
    SplitToLine(a, b, tail);
    assert JoinLines(five) == JoinLines(six);
    var h := HeaderLines(from, a);
    HeaderLinesProper(from, a);
    forall i | 0 <= i < |six|
      ensures six[i] != "" && !HasCrlf(six[i])
    {
      if i < 2 {
        assert six[i] == h[i];
      } else if i > 2 {
        assert six[i] == h[i - 1];
      }
    }
    ReadHeadersOf(six, body);
  }

  lemma SplitToLine(a: string, b: string, tail: string)
    ensures "To: " + (a + CRLF + b) + CRLF + tail == "To: " + a + CRLF + (b + CRLF + tail)
  {
  }

  /** Conversely, every message the reader accepts is exactly the one
      composed from what it read, with line-break-free addresses. */
  lemma ParsedMessageIsComposed(m: string)
    requires ParseMessage(m).Some?
    ensures var x := ParseMessage(m).value;
      m == ComposeMessage(x.from, x.to, x.body) && !HasCrlf(x.from) && !HasCrlf(x.to)
  {
    var x := ParseMessage(m).value;
    var ls := HeaderLines(x.from, x.to);
    ComposeIsJoin(x.from, x.to, x.body);
    assert ls[0] == "From: " + x.from && ls[1] == "To: " + x.to;
    NoCrlfAfterPrefix("From: ", x.from);
    NoCrlfAfterPrefix("To: ", x.to);
  }
}
