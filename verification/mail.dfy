/** The message SMTPProvider puts on the wire, and a reader that takes it apart again. */
module Mail {
  import opened Values

  const CRLF: string := "\r\n"

  predicate ContainsHeaderControl(value: string) {
    '\r' in value || '\n' in value || '\0' in value
  }

  /** Where the last '@' of an address stands. */
  function LastAt(s: string): (i: int)
    ensures -1 <= i < |s|
    ensures i >= 0 ==> s[i] == '@'
    ensures forall j | i < j < |s| :: s[j] != '@'
  {
    if s == "" then -1
    else if s[|s| - 1] == '@' then |s| - 1
    else LastAt(s[..|s| - 1])
  }

  /** The domain of a Message-ID: what follows the last '@' of the sender's address. */
  function MessageIDDomain(sender: string): (domain: string)
    ensures domain != "" && '@' !in domain
    ensures forall c | c in domain :: c in sender || c in LOCALHOST
  {
    var at := LastAt(sender);
    if at >= 0 && at + 1 < |sender| then sender[at + 1..] else LOCALHOST
  }

  lemma DomainOfAddress(local: string, domain: string)
    requires domain != "" && '@' !in domain
    ensures MessageIDDomain(local + "@" + domain) == domain
  {
    var s := local + "@" + domain;
    assert s[|local|] == '@' && s[|local| + 1..] == domain;
    assert forall j | |local| < j < |s| :: s[j] == domain[j - |local| - 1];
  }

  /** A sender without '@', or with nothing after the last one, gets localhost. */
  lemma NoDomain(sender: string)
    requires '@' !in sender || sender[|sender| - 1] == '@'
    ensures MessageIDDomain(sender) == "localhost"
  {
    var at := LastAt(sender);
    if at >= 0 {
      assert sender[at] in sender && sender[|sender| - 1] == '@';
    }
  }

  const LOCALHOST: string := "localhost"

  function FromLine(sender: string): string { "From: " + sender }

  function ToLine(to: string): string { "To: " + to }

  function SubjectLine(subject: string): string { "Subject: " + subject }

  const MIME_LINE: string := "MIME-Version: " + "1.0"

  const TYPE_LINE: string := "Content-Type: " + "text/plain; charset=UTF-8"

  function IDLine(messageID: string, domain: string): string {
    "Message-ID: " + ("<" + messageID + "@" + domain + ">")
  }

  /** The header fields in order; the formatted addresses and the encoded subject come from the mail and mime
      libraries. */
  function HeaderLines(sender: string, to: string, subject: string, messageID: string,
          senderAddress: string): seq<string> {
    var addressed := [FromLine(sender)] + [ToLine(to)];
    var titled := if subject != "" then addressed + [SubjectLine(subject)] else addressed;
    titled + [MIME_LINE] + [TYPE_LINE] + [IDLine(messageID, MessageIDDomain(senderAddress))]
  }

  function Lines(lines: seq<string>): string {
    if lines == [] then "" else lines[0] + CRLF + Lines(lines[1..])
  }

  method WriteLine(sb: string, ghost written: seq<string>, line: string) returns (r: string)
    requires sb == Lines(written)
    ensures r == Lines(written + [line])
  {
    LinesAppend(written, line);
    r := sb + line + CRLF;
  }

  method WriteHeaders(sender: string, to: string, subject: string, messageID: string,
          senderAddress: string) returns (sb: string)
    ensures sb == Lines(HeaderLines(sender, to, subject, messageID, senderAddress))
  {
    ghost var done := [FromLine(sender)];
    sb := WriteLine("", [], FromLine(sender));
    assert [] + [FromLine(sender)] == done;
    sb := WriteLine(sb, done, ToLine(to));
    done := done + [ToLine(to)];
    if subject != "" {
      sb := WriteLine(sb, done, SubjectLine(subject));
      done := done + [SubjectLine(subject)];
    }
    sb := WriteLine(sb, done, MIME_LINE);
    sb := WriteLine(sb, done + [MIME_LINE], TYPE_LINE);
    done := done + [MIME_LINE] + [TYPE_LINE];
    sb := WriteLine(sb, done, IDLine(messageID, MessageIDDomain(senderAddress)));
  }

  method BuildEmailBody(sender: string, to: string, subject: string, messageID: string, senderAddress: string,
          body: string)
    returns (message: string)
    ensures var lines := HeaderLines(sender, to, subject, messageID, senderAddress);
            message == Lines(lines) + CRLF + body && (Framed(lines) <==> Read(message) == Some((lines, body)))
    ensures Guarded(sender, to, subject, messageID, senderAddress) ==>
              && Read(message).Some? && Read(message).value.1 == body
              && var fields := Read(message).value.0;
                 && FieldValues("From: ", fields) == [sender] && FieldValues("To: ", fields) == [to]
                 && FieldValues("Subject: ", fields) == (if subject == "" then [] else [subject])
                 && FieldValues("MIME-Version: ", fields) == ["1.0"]
                 && FieldValues("Content-Type: ", fields) == ["text/plain; charset=UTF-8"]
                 && FieldValues("Message-ID: ", fields)
                    == ["<" + messageID + "@" + MessageIDDomain(senderAddress) + ">"]
                 && |fields| == if subject == "" then 5 else 6
  {
    var headers := WriteHeaders(sender, to, subject, messageID, senderAddress);
    message := headers + CRLF + body;
    ReadsBackIffFramed(HeaderLines(sender, to, subject, messageID, senderAddress), body);
    FieldsByName(sender, to, subject, messageID, senderAddress);
    if Guarded(sender, to, subject, messageID, senderAddress) {
      GuardedHeadersAreFramed(sender, to, subject, messageID, senderAddress);
    }
  }

  // ---------------------------------------------------------------- looking a field up by name

  /** The value a single line gives for the name, if any. */
  function ValueIn(name: string, line: string): seq<string> {
    if name <= line then [line[|name|..]] else []
  }

  /** What follows the name on each line that begins with it. */
  function FieldValues(name: string, lines: seq<string>): seq<string> {
    if lines == [] then [] else ValueIn(name, lines[0]) + FieldValues(name, lines[1..])
  }

  lemma {:induction false} FieldValuesAppend(name: string, lines: seq<string>, line: string)
    ensures FieldValues(name, lines + [line])
         == FieldValues(name, lines) + ValueIn(name, line)
  {
    if lines == [] {
      assert (lines + [line])[1..] == [];
    } else {
      FieldValuesAppend(name, lines[1..], line);
      assert (lines + [line])[1..] == lines[1..] + [line];
    }
  }

  lemma FieldValuesOfHeader(name: string, sender: string, to: string, subject: string, messageID: string,
                       senderAddress: string)
    ensures FieldValues(name, HeaderLines(sender, to, subject, messageID, senderAddress))
         == ValueIn(name, FromLine(sender)) + ValueIn(name, ToLine(to))
            + (if subject != "" then ValueIn(name, SubjectLine(subject)) else [])
            + ValueIn(name, MIME_LINE) + ValueIn(name, TYPE_LINE)
            + ValueIn(name, IDLine(messageID, MessageIDDomain(senderAddress)))
  {
    var opt := if subject != "" then [SubjectLine(subject)] else [];
    var id := IDLine(messageID, MessageIDDomain(senderAddress));
    FieldValuesOfLines(name, FromLine(sender), ToLine(to), opt, MIME_LINE, TYPE_LINE, id);
    if subject != "" {
      FieldValueOfLine(name, SubjectLine(subject));
    } else {
      assert [FromLine(sender)] + [ToLine(to)] + [] == [FromLine(sender)] + [ToLine(to)];
    }
  }

  lemma FieldValueOfLine(name: string, line: string)
    ensures FieldValues(name, [line]) == ValueIn(name, line)
  {
    assert [line][1..] == [];
  }

  lemma FieldValuesOfLines(name: string, f: string, t: string, opt: seq<string>, m: string, c: string, i: string)
    ensures FieldValues(name, [f] + [t] + opt + [m] + [c] + [i])
         == ValueIn(name, f) + ValueIn(name, t) + FieldValues(name, opt) + ValueIn(name, m) + ValueIn(name, c)
            + ValueIn(name, i)
  {
    FieldValueOfLine(name, f);
    FieldValuesAppend(name, [f], t);
    FieldValuesConcat(name, [f] + [t], opt);
    FieldValuesAppend(name, [f] + [t] + opt, m);
    FieldValuesAppend(name, [f] + [t] + opt + [m], c);
    FieldValuesAppend(name, [f] + [t] + opt + [m] + [c], i);
  }

  lemma {:induction false} FieldValuesConcat(name: string, a: seq<string>, b: seq<string>)
    ensures FieldValues(name, a + b) == FieldValues(name, a) + FieldValues(name, b)
  {
    if a == [] {
      assert a + b == b;
    } else {
      FieldValuesConcat(name, a[1..], b);
      assert (a + b)[1..] == a[1..] + b;
    }
  }

  /** Another field is told from the name by its first two characters. */
  lemma OtherField(name: string, line: string)
    requires |name| >= 2 && |line| >= 2 && (name[0] != line[0] || name[1] != line[1])
    ensures ValueIn(name, line) == []
  {
  }

  lemma OwnField(name: string, value: string)
    ensures ValueIn(name, name + value) == [value]
  {
  }

  /** The first two characters of every header line. */
  lemma LineStarts(sender: string, to: string, subject: string, messageID: string, domain: string)
    ensures |FromLine(sender)| >= 2 && FromLine(sender)[0] == 'F' && FromLine(sender)[1] == 'r'
    ensures |ToLine(to)| >= 2 && ToLine(to)[0] == 'T' && ToLine(to)[1] == 'o'
    ensures |SubjectLine(subject)| >= 2 && SubjectLine(subject)[0] == 'S' && SubjectLine(subject)[1] == 'u'
    ensures |MIME_LINE| >= 2 && MIME_LINE[0] == 'M' && MIME_LINE[1] == 'I'
    ensures |TYPE_LINE| >= 2 && TYPE_LINE[0] == 'C' && TYPE_LINE[1] == 'o'
    ensures |IDLine(messageID, domain)| >= 2 && IDLine(messageID, domain)[0] == 'M'
    ensures IDLine(messageID, domain)[1] == 'e'
  {
  }

  /** The fields of a header that are not called `name`, told by the two characters with which it begins. */
  lemma OtherFields(name: string, a: char, b: char, sender: string, to: string, subject: string, messageID: string,
                    domain: string)
    requires |name| >= 2 && name[0] == a && name[1] == b
    ensures (a, b) != ('F', 'r') ==> ValueIn(name, FromLine(sender)) == []
    ensures (a, b) != ('T', 'o') ==> ValueIn(name, ToLine(to)) == []
    ensures (a, b) != ('S', 'u') ==> ValueIn(name, SubjectLine(subject)) == []
    ensures (a, b) != ('M', 'I') ==> ValueIn(name, MIME_LINE) == []
    ensures (a, b) != ('C', 'o') ==> ValueIn(name, TYPE_LINE) == []
    ensures (a, b) != ('M', 'e') ==> ValueIn(name, IDLine(messageID, domain)) == []
  {
    LineStarts(sender, to, subject, messageID, domain);
  }

  lemma SenderValue(sender: string, to: string, subject: string, messageID: string, senderAddress: string)
    ensures FieldValues("From: ", HeaderLines(sender, to, subject, messageID, senderAddress)) == [sender]
  {
    FieldValuesOfHeader("From: ", sender, to, subject, messageID, senderAddress);
    OtherFields("From: ", 'F', 'r', sender, to, subject, messageID, MessageIDDomain(senderAddress));
    OwnField("From: ", sender);
  }

  lemma RecipientValue(sender: string, to: string, subject: string, messageID: string, senderAddress: string)
    ensures FieldValues("To: ", HeaderLines(sender, to, subject, messageID, senderAddress)) == [to]
  {
    FieldValuesOfHeader("To: ", sender, to, subject, messageID, senderAddress);
    OtherFields("To: ", 'T', 'o', sender, to, subject, messageID, MessageIDDomain(senderAddress));
    OwnField("To: ", to);
  }

  lemma SubjectValue(sender: string, to: string, subject: string, messageID: string, senderAddress: string)
    ensures FieldValues("Subject: ", HeaderLines(sender, to, subject, messageID, senderAddress))
         == if subject == "" then [] else [subject]
  {
    FieldValuesOfHeader("Subject: ", sender, to, subject, messageID, senderAddress);
    OtherFields("Subject: ", 'S', 'u', sender, to, subject, messageID, MessageIDDomain(senderAddress));
    OwnField("Subject: ", subject);
  }

  lemma IDValue(sender: string, to: string, subject: string, messageID: string, senderAddress: string)
    ensures FieldValues("Message-ID: ", HeaderLines(sender, to, subject, messageID, senderAddress))
         == ["<" + messageID + "@" + MessageIDDomain(senderAddress) + ">"]
  {
    var domain := MessageIDDomain(senderAddress);
    FieldValuesOfHeader("Message-ID: ", sender, to, subject, messageID, senderAddress);
    OtherFields("Message-ID: ", 'M', 'e', sender, to, subject, messageID, domain);
    OwnField("Message-ID: ", "<" + messageID + "@" + domain + ">");
  }

  lemma FixedLines()
    ensures ValueIn("MIME-Version: ", MIME_LINE) == ["1.0"]
    ensures ValueIn("Content-Type: ", TYPE_LINE) == ["text/plain; charset=UTF-8"]
  {
    OwnField("MIME-Version: ", "1.0");
    OwnField("Content-Type: ", "text/plain; charset=UTF-8");
  }

  lemma MimeValue(sender: string, to: string, subject: string, messageID: string, senderAddress: string)
    ensures FieldValues("MIME-Version: ", HeaderLines(sender, to, subject, messageID, senderAddress)) == ["1.0"]
  {
    FieldValuesOfHeader("MIME-Version: ", sender, to, subject, messageID, senderAddress);
    OtherFields("MIME-Version: ", 'M', 'I', sender, to, subject, messageID, MessageIDDomain(senderAddress));
    FixedLines();
  }

  lemma TypeValue(sender: string, to: string, subject: string, messageID: string, senderAddress: string)
    ensures FieldValues("Content-Type: ", HeaderLines(sender, to, subject, messageID, senderAddress))
         == ["text/plain; charset=UTF-8"]
  {
    FieldValuesOfHeader("Content-Type: ", sender, to, subject, messageID, senderAddress);
    OtherFields("Content-Type: ", 'C', 'o', sender, to, subject, messageID, MessageIDDomain(senderAddress));
    FixedLines();
  }

  /** FIELDS. Looked up by name, each field is there once, with what it was given; the subject exactly when there is
      one. */
  lemma FieldsByName(sender: string, to: string, subject: string, messageID: string, senderAddress: string)
    ensures var lines := HeaderLines(sender, to, subject, messageID, senderAddress);
            && FieldValues("From: ", lines) == [sender] && FieldValues("To: ", lines) == [to]
            && FieldValues("Subject: ", lines) == (if subject == "" then [] else [subject])
            && FieldValues("MIME-Version: ", lines) == ["1.0"]
            && FieldValues("Content-Type: ", lines) == ["text/plain; charset=UTF-8"]
            && FieldValues("Message-ID: ", lines) == ["<" + messageID + "@" + MessageIDDomain(senderAddress) + ">"]
            && |lines| == if subject == "" then 5 else 6
  {
    SenderValue(sender, to, subject, messageID, senderAddress);
    RecipientValue(sender, to, subject, messageID, senderAddress);
    SubjectValue(sender, to, subject, messageID, senderAddress);
    MimeValue(sender, to, subject, messageID, senderAddress);
    TypeValue(sender, to, subject, messageID, senderAddress);
    IDValue(sender, to, subject, messageID, senderAddress);
  }

  lemma {:induction false} LinesAppend(lines: seq<string>, line: string)
    ensures Lines(lines + [line]) == Lines(lines) + line + CRLF
  {
    if lines == [] {
    } else {
      LinesAppend(lines[1..], line);
      assert (lines + [line])[1..] == lines[1..] + [line];
    }
  }

  // ---------------------------------------------------------------- reading it back

  /** Where the first line ends, if it does. */
  function LineEnd(s: string): (i: int)
    ensures -1 <= i && (i >= 0 ==> i + 2 <= |s| && s[i] == '\r' && s[i + 1] == '\n')
    ensures forall j | 0 <= j && j + 2 <= |s| && (i < 0 || j < i) :: !(s[j] == '\r' && s[j + 1] == '\n')
  {
    if |s| < 2 then -1
    else if s[0] == '\r' && s[1] == '\n' then 0
    else
      var rest := LineEnd(s[1..]);
      assert forall j | 0 < j && j + 2 <= |s| :: s[j] == s[1..][j - 1] && s[j + 1] == s[1..][j];
      if rest < 0 then -1 else rest + 1
  }

  /** A reader in the sense of section 2.1 of RFC 5322: header lines up to the first empty line, then the body. */
  function Read(s: string): Option<(seq<string>, string)> {
    var i := LineEnd(s);
    if i < 0 then None
    else if i == 0 then Some(([], s[2..]))
    else
      match Read(s[i + 2..])
      case None => None
      case Some(r) => Some(([s[..i]] + r.0, r.1))
  }

  /** No line is empty or holds a line break of its own. */
  ghost predicate Framed(lines: seq<string>) {
    forall i | 0 <= i < |lines| :: lines[i] != "" && LineEnd(lines[i]) < 0
  }

  lemma FirstLine(line: string, rest: string)
    requires LineEnd(line) < 0
    ensures LineEnd(line + CRLF + rest) == |line|
  {
    var s := line + CRLF + rest;
    var i := LineEnd(s);
    assert s[|line|] == '\r' && s[|line| + 1] == '\n';
    assert forall j | 0 <= j < |line| :: s[j] == line[j];
  }

  lemma {:induction false} FramedReadsBack(lines: seq<string>, body: string)
    requires Framed(lines)
    ensures Read(Lines(lines) + CRLF + body) == Some((lines, body))
  {
    if lines == [] {
      assert Lines(lines) + CRLF + body == "" + CRLF + body;
      FirstLine("", body);
    } else {
      var rest := Lines(lines[1..]) + CRLF + body;
      var s := Lines(lines) + CRLF + body;
      assert s == lines[0] + CRLF + rest;
      FirstLine(lines[0], rest);
      assert s[..|lines[0]|] == lines[0] && s[|lines[0]| + 2..] == rest;
      FramedReadsBack(lines[1..], body);
      assert [lines[0]] + lines[1..] == lines;
    }
  }

  lemma {:induction false} ReadLinesAreFramed(s: string)
    requires Read(s).Some?
    ensures Framed(Read(s).value.0)
  {
    var i := LineEnd(s);
    if i > 0 {
      ReadLinesAreFramed(s[i + 2..]);
      assert LineEnd(s[..i]) < 0 by {
        assert forall j | 0 <= j < i :: s[..i][j] == s[j];
      }
    }
  }

  /** FRAMING. The reader gets back exactly the header lines and the body that were written, whatever the body, if
      and only if no header line is empty or carries a line break. */
  lemma ReadsBackIffFramed(lines: seq<string>, body: string)
    ensures Read(Lines(lines) + CRLF + body) == Some((lines, body)) <==> Framed(lines)
  {
    if Framed(lines) {
      FramedReadsBack(lines, body);
    } else if Read(Lines(lines) + CRLF + body).Some? {
      ReadLinesAreFramed(Lines(lines) + CRLF + body);
    }
  }

  predicate NoBreaks(s: string) { '\r' !in s && '\n' !in s }

  lemma NoBreaksHasNoEnd(s: string)
    requires NoBreaks(s)
    ensures LineEnd(s) < 0
  {
  }

  lemma IDLineHasNoBreaks(messageID: string, domain: string)
    requires NoBreaks(messageID) && NoBreaks(domain)
    ensures NoBreaks(IDLine(messageID, domain))
  {
    assert NoBreaks("Message-ID: <") && NoBreaks("@") && NoBreaks(">");
  }

  lemma AddressLinesHaveNoBreaks(sender: string, to: string, subject: string)
    requires NoBreaks(sender) && NoBreaks(to) && NoBreaks(subject)
    ensures NoBreaks(FromLine(sender)) && NoBreaks(ToLine(to)) && NoBreaks(SubjectLine(subject))
  {
    assert NoBreaks("From: ") && NoBreaks("To: ") && NoBreaks("Subject: ");
  }

  lemma MimeLineHasNoBreaks()
    ensures NoBreaks(MIME_LINE)
  {
  }

  lemma TypeLineHasNoBreaks()
    ensures NoBreaks(TYPE_LINE)
  {
  }

  /** All fields pass the guard. */
  predicate Guarded(sender: string, to: string, subject: string, messageID: string, senderAddress: string) {
    && !ContainsHeaderControl(sender) && !ContainsHeaderControl(to) && !ContainsHeaderControl(subject)
    && !ContainsHeaderControl(messageID) && !ContainsHeaderControl(senderAddress)
  }

  /** The guard refuses exactly the values with one of three characters in them. */
  lemma GuardLaw(value: string)
    ensures ContainsHeaderControl(value) <==> exists i :: 0 <= i < |value| && value[i] in "\r\n\0"
  {
    assert forall c: char :: c in "\r\n\0" <==> c == '\r' || c == '\n' || c == '\0' by {
      assert "\r\n\0" == ['\r', '\n', '\0'];
    }
  }

  /** Fields that pass the guards keep the frame: the reader gets them and the body back as written. */
  lemma GuardedHeadersAreFramed(sender: string, to: string, subject: string, messageID: string, senderAddress: string)
    requires Guarded(sender, to, subject, messageID, senderAddress)
    ensures Framed(HeaderLines(sender, to, subject, messageID, senderAddress))
  {
    var lines := HeaderLines(sender, to, subject, messageID, senderAddress);
    AddressLinesHaveNoBreaks(sender, to, subject);
    MimeLineHasNoBreaks();
    TypeLineHasNoBreaks();
    assert NoBreaks(LOCALHOST);
    IDLineHasNoBreaks(messageID, MessageIDDomain(senderAddress));
    forall i | 0 <= i < |lines| ensures lines[i] != "" && LineEnd(lines[i]) < 0 {
      NoBreaksHasNoEnd(lines[i]);
    }
  }
}
