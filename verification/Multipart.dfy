/** The form the CI controller posts (components/ci-controller/src/lib.rs,
    build_multipart), and a reader of such forms after section 5.1.1 of RFC 2046
    and section 4 of RFC 7578. */
module Multipart {
  import opened Wrappers
  import opened ByteStrings

  function AsBytes(s: string): (b: Bytes)
    ensures |b| == |s|
    ensures forall i :: 0 <= i < |s| && s[i] < 128 as char ==> b[i] as int == s[i] as int
  {
    seq(|s|, i requires 0 <= i < |s| => if s[i] < 128 as char then s[i] as int as byte else 63)
  }

  const CR: byte := 13
  const LF: byte := 10
  const QUOTE: byte := 34
  const EQUALS: byte := 61
  const CRLF: Bytes := [CR, LF]
  const DASHES: Bytes := [45, 45]

  const BOUNDARY: Bytes := AsBytes("--------------------------" + "realmci")
  const DASH_BOUNDARY: Bytes := DASHES + BOUNDARY
  const DELIMITER: Bytes := CRLF + DASH_BOUNDARY

  const DISPOSITION: Bytes := AsBytes("Content-Disposition: form-data")
  const GZIP_LINE: Bytes := AsBytes("Content-Type: application/gzip")
  const NAME: Bytes := AsBytes("name")
  const FILENAME: Bytes := AsBytes("filename")
  const SEMICOLON: Bytes := AsBytes("; ")
  const OPEN: Bytes := [EQUALS, QUOTE]

  const JOB_TOML: Bytes := AsBytes("job_toml")
  const ASSET: Bytes := AsBytes("asset")
  const WORKSPACE_FILE: Bytes := AsBytes("workspace.tar.gz")
  const TOKEN_FILE: Bytes := AsBytes("gh_token")

  function Param(key: Bytes, value: Bytes): Bytes {
    SEMICOLON + key + OPEN + value + [QUOTE]
  }

  // ---------- writing ----------

  /** A part: its header lines and its content. */
  datatype Part = Part(headers: seq<Bytes>, content: Bytes)

  function JobPart(job: Bytes): Part {
    Part([DISPOSITION + Param(NAME, JOB_TOML)], job)
  }

  function WorkspacePart(workspace: Bytes): Part {
    Part([DISPOSITION + Param(NAME, ASSET) + Param(FILENAME, WORKSPACE_FILE), GZIP_LINE], workspace)
  }

  function TokenPart(token: Bytes): Part {
    Part([DISPOSITION + Param(NAME, ASSET) + Param(FILENAME, TOKEN_FILE)], token)
  }

  function FormParts(job: Bytes, workspace: Option<Bytes>, token: Option<Bytes>): seq<Part> {
    [JobPart(job)]
    + (if workspace.Some? then [WorkspacePart(workspace.value)] else [])
    + (if token.Some? then [TokenPart(token.value)] else [])
  }

  function Lines(headers: seq<Bytes>): Bytes {
    if headers == [] then [] else headers[0] + CRLF + Lines(headers[1..])
  }

  function HeaderText(headers: seq<Bytes>): Bytes {
    Lines(headers) + CRLF
  }

  /** What follows a delimiter: the end of its line, headers, a blank line, content. */
  function Opened(p: Part): Bytes {
    CRLF + HeaderText(p.headers) + p.content
  }

  /** What follows the first dash-boundary. */
  function Encoded(parts: seq<Part>): Bytes {
    if parts == [] then DASHES + CRLF else Opened(parts[0]) + DELIMITER + Encoded(parts[1..])
  }

  /** A part as the builder writes it: its boundary line in front, a line end behind. */
  function Section(header: Bytes, content: Bytes): Bytes {
    DASH_BOUNDARY + CRLF + header + content + CRLF
  }

  function Sections(parts: seq<Part>): Bytes {
    if parts == [] then []
    else Section(HeaderText(parts[0].headers), parts[0].content) + Sections(parts[1..])
  }

  lemma AppendFour(data: Bytes, a: Bytes, b: Bytes, c: Bytes, d: Bytes)
    ensures data + a + b + c + d == data + (a + b + c + d)
  {
  }

  method EmitPart(data: Bytes, header: Bytes, content: Bytes) returns (out: Bytes)
    ensures out == data + Section(header, content)
  {
    out := data;
    out := out + (DASH_BOUNDARY + CRLF);
    out := out + header;
    out := out + content;
    out := out + CRLF;
    AppendFour(data, DASH_BOUNDARY + CRLF, header, content, CRLF);
  }

  lemma {:induction false} AppendSection(parts: seq<Part>, p: Part)
    ensures Sections(parts + [p]) == Sections(parts) + Section(HeaderText(p.headers), p.content)
  {
    var section := Section(HeaderText(p.headers), p.content);
    if parts == [] {
      assert parts + [p] == [p];
      assert section + Sections([]) == section && Sections([]) + section == section;
    } else {
      AppendSection(parts[1..], p);
      assert (parts + [p])[1..] == parts[1..] + [p];
      var first := Section(HeaderText(parts[0].headers), parts[0].content);
      assert first + (Sections(parts[1..]) + section) == (first + Sections(parts[1..])) + section;
    }
  }

  lemma HeaderTexts()
    ensures forall line :: HeaderText([line]) == line + CRLF + CRLF
    ensures forall line, second :: HeaderText([line, second]) == line + CRLF + (second + CRLF + CRLF)
  {
    forall line: Bytes
      ensures HeaderText([line]) == line + CRLF + CRLF
    {
      assert Lines([line]) == line + CRLF;
    }
    forall line: Bytes, second: Bytes
      ensures HeaderText([line, second]) == line + CRLF + (second + CRLF + CRLF)
    {
      assert [line, second][1..] == [second];
      assert Lines([second]) == second + CRLF;
    }
  }

  lemma CloseOne(db: Bytes, crlf: Bytes, header: Bytes, content: Bytes, rest: Bytes)
    ensures (db + crlf + header + content + crlf) + (db + rest)
            == db + ((crlf + header + content) + (crlf + db) + rest)
  {
  }

  lemma Associative(a: Bytes, b: Bytes, c: Bytes)
    ensures (a + b) + c == a + (b + c)
  {
  }

  /** The line end behind each part is the start of the next delimiter. */
  lemma {:induction false} SectionsClosed(parts: seq<Part>)
    ensures Sections(parts) + (DASH_BOUNDARY + (DASHES + CRLF)) == DASH_BOUNDARY + Encoded(parts)
  {
    var last := DASH_BOUNDARY + (DASHES + CRLF);
    if parts == [] {
      assert [] + last == last;
    } else {
      var p, rest := parts[0], Encoded(parts[1..]);
      var first := Section(HeaderText(p.headers), p.content);
      SectionsClosed(parts[1..]);
      Associative(first, Sections(parts[1..]), last);
      CloseOne(DASH_BOUNDARY, CRLF, HeaderText(p.headers), p.content, rest);
    }
  }

  method BuildMultipart(job: Bytes, workspace: Option<Bytes>, token: Option<Bytes>) returns (boundary: Bytes, data: Bytes)
    ensures boundary == BOUNDARY && data == DASH_BOUNDARY + Encoded(FormParts(job, workspace, token))
  {
    boundary := BOUNDARY;
    data := [];
    HeaderTexts();
    ghost var parts: seq<Part> := [];
    data := EmitPart(data, DISPOSITION + Param(NAME, JOB_TOML) + CRLF + CRLF, job);
    AppendSection(parts, JobPart(job));
    parts := parts + [JobPart(job)];
    if workspace.Some? {
      data := EmitPart(data, DISPOSITION + Param(NAME, ASSET) + Param(FILENAME, WORKSPACE_FILE) + CRLF
                       + (GZIP_LINE + CRLF + CRLF), workspace.value);
      AppendSection(parts, WorkspacePart(workspace.value));
      parts := parts + [WorkspacePart(workspace.value)];
    }
    if token.Some? {
      data := EmitPart(data, DISPOSITION + Param(NAME, ASSET) + Param(FILENAME, TOKEN_FILE) + CRLF + CRLF, token.value);
      AppendSection(parts, TokenPart(token.value));
      parts := parts + [TokenPart(token.value)];
    }
    data := data + (DASH_BOUNDARY + (DASHES + CRLF));
    SectionsClosed(parts);
    assert parts == FormParts(job, workspace, token);
  }

  // ---------- the text of the form ----------

  lemma Joined(a: string, b: string)
    ensures AsBytes(a + b) == AsBytes(a) + AsBytes(b)
  {
    var s, t := AsBytes(a + b), AsBytes(a) + AsBytes(b);
    forall i | 0 <= i < |s|
      ensures s[i] == t[i]
    {
      assert (a + b)[i] == if i < |a| then a[i] else b[i - |a|];
    }
  }

  lemma Marks()
    ensures CRLF == AsBytes("\r\n") && DASHES == AsBytes("--") && OPEN == AsBytes("=\"") && [QUOTE] == AsBytes("\"")
  {
    assert AsBytes("\r\n") == [13, 10] && AsBytes("--") == [45, 45];
    assert AsBytes("=\"") == [61, 34] && AsBytes("\"") == [34];
  }

  const DELIMITER_LINE := "--" + ("--------------------------" + "realmci")

  lemma BoundaryText()
    ensures DASH_BOUNDARY == AsBytes(DELIMITER_LINE) && BOUNDARY == AsBytes("--------------------------" + "realmci")
  {
    Marks();
    Joined("--", "--------------------------" + "realmci");
  }

  function ParamText(key: string, value: string): string {
    "; " + key + "=\"" + value + "\""
  }

  lemma ParamBytes(key: string, value: string)
    ensures Param(AsBytes(key), AsBytes(value)) == AsBytes(ParamText(key, value))
  {
    Marks();
    Joined("; ", key);
    Joined("; " + key, "=\"");
    Joined("; " + key + "=\"", value);
    Joined("; " + key + "=\"" + value, "\"");
  }

  lemma ParamAs(key: string, value: string, text: string)
    requires ParamText(key, value) == text
    ensures Param(AsBytes(key), AsBytes(value)) == AsBytes(text)
  {
    ParamBytes(key, value);
  }

  const JOB_LINE := "Content-Disposition: form-data" + "; name=\"job_toml\""
  const WORKSPACE_LINE := "Content-Disposition: form-data" + "; name=\"asset\"" + "; filename=\"workspace.tar.gz\""
  const GZIP_TYPE_LINE := "Content-Type: application/gzip"
  const TOKEN_LINE := "Content-Disposition: form-data" + "; name=\"asset\"" + "; filename=\"gh_token\""

  lemma HeaderLinesText()
    ensures DISPOSITION + Param(NAME, JOB_TOML) == AsBytes(JOB_LINE)
    ensures DISPOSITION + Param(NAME, ASSET) + Param(FILENAME, WORKSPACE_FILE) == AsBytes(WORKSPACE_LINE)
    ensures GZIP_LINE == AsBytes(GZIP_TYPE_LINE)
    ensures DISPOSITION + Param(NAME, ASSET) + Param(FILENAME, TOKEN_FILE) == AsBytes(TOKEN_LINE)
  {
    ParamAs("name", "job_toml", "; name=\"job_toml\"");
    ParamAs("name", "asset", "; name=\"asset\"");
    ParamAs("filename", "workspace.tar.gz", "; filename=\"workspace.tar.gz\"");
    ParamAs("filename", "gh_token", "; filename=\"gh_token\"");
    Joined("Content-Disposition: form-data", "; name=\"job_toml\"");
    Joined("Content-Disposition: form-data", "; name=\"asset\"");
    Joined("Content-Disposition: form-data" + "; name=\"asset\"", "; filename=\"workspace.tar.gz\"");
    Joined("Content-Disposition: form-data" + "; name=\"asset\"", "; filename=\"gh_token\"");
  }

  lemma SectionOne(lead: Bytes, line: Bytes, end: Bytes, content: Bytes)
    ensures lead + (line + end + end) + content + end == lead + line + end + end + content + end
  {
    Associative(lead, line + end, end);
    Associative(lead, line, end);
  }

  lemma OneHeaderSection(line: Bytes, content: Bytes)
    ensures Section(HeaderText([line]), content) == DASH_BOUNDARY + CRLF + line + CRLF + CRLF + content + CRLF
  {
    HeaderTexts();
    SectionOne(DASH_BOUNDARY + CRLF, line, CRLF, content);
  }

  lemma SectionTwo(lead: Bytes, line: Bytes, second: Bytes, end: Bytes, content: Bytes)
    ensures lead + (line + end + (second + end + end)) + content + end
            == lead + line + end + second + end + end + content + end
  {
    Associative(lead, line + end, second + end + end);
    Associative(lead, line, end);
    Associative(lead + line + end, second + end, end);
    Associative(lead + line + end, second, end);
  }

  lemma TwoHeaderSection(line: Bytes, second: Bytes, content: Bytes)
    ensures Section(HeaderText([line, second]), content)
            == DASH_BOUNDARY + CRLF + line + CRLF + second + CRLF + CRLF + content + CRLF
  {
    HeaderTexts();
    SectionTwo(DASH_BOUNDARY + CRLF, line, second, CRLF, content);
  }

  lemma {:induction false} SectionsJoin(p: seq<Part>, q: seq<Part>)
    ensures Sections(p + q) == Sections(p) + Sections(q)
  {
    if p == [] {
      assert p + q == q && [] + Sections(q) == Sections(q);
    } else {
      var first := Section(HeaderText(p[0].headers), p[0].content);
      SectionsJoin(p[1..], q);
      assert (p + q)[1..] == p[1..] + q;
      Associative(first, Sections(p[1..]), Sections(q));
    }
  }

  lemma OnlySection(p: Part)
    ensures Sections([p]) == Section(HeaderText(p.headers), p.content)
  {
    var s := Section(HeaderText(p.headers), p.content);
    assert [p][1..] == [] && s + Sections([]) == s;
  }

  function JobText(job: Bytes): Bytes {
    AsBytes(DELIMITER_LINE) + CRLF + AsBytes(JOB_LINE) + CRLF + CRLF + job + CRLF
  }

  function WorkspaceText(workspace: Option<Bytes>): Bytes {
    if workspace.None? then []
    else AsBytes(DELIMITER_LINE) + CRLF + AsBytes(WORKSPACE_LINE) + CRLF + AsBytes(GZIP_TYPE_LINE) + CRLF + CRLF
         + workspace.value + CRLF
  }

  function TokenText(token: Option<Bytes>): Bytes {
    if token.None? then []
    else AsBytes(DELIMITER_LINE) + CRLF + AsBytes(TOKEN_LINE) + CRLF + CRLF + token.value + CRLF
  }

  lemma PartTexts(job: Bytes, workspace: Option<Bytes>, token: Option<Bytes>)
    ensures Sections([JobPart(job)]) == JobText(job)
    ensures Sections(if workspace.Some? then [WorkspacePart(workspace.value)] else []) == WorkspaceText(workspace)
    ensures Sections(if token.Some? then [TokenPart(token.value)] else []) == TokenText(token)
  {
    BoundaryText();
    HeaderLinesText();
    OnlySection(JobPart(job));
    OneHeaderSection(AsBytes(JOB_LINE), job);
    if workspace.Some? {
      OnlySection(WorkspacePart(workspace.value));
      TwoHeaderSection(AsBytes(WORKSPACE_LINE), AsBytes(GZIP_TYPE_LINE), workspace.value);
    }
    if token.Some? {
      OnlySection(TokenPart(token.value));
      OneHeaderSection(AsBytes(TOKEN_LINE), token.value);
    }
  }

  /** What the builder writes, line by line: for each part there is, its delimiter
      line, its header lines, a blank line, and its content; and the closing line. */
  lemma FormText(job: Bytes, workspace: Option<Bytes>, token: Option<Bytes>)
    ensures CRLF == [13, 10]
    ensures DASH_BOUNDARY + Encoded(FormParts(job, workspace, token))
            == JobText(job) + WorkspaceText(workspace) + TokenText(token) + (AsBytes(DELIMITER_LINE) + (AsBytes("--") + CRLF))
  {
    Marks();
    BoundaryText();
    var w: seq<Part> := if workspace.Some? then [WorkspacePart(workspace.value)] else [];
    var k: seq<Part> := if token.Some? then [TokenPart(token.value)] else [];
    PartTexts(job, workspace, token);
    SectionsJoin([JobPart(job)], w);
    SectionsJoin([JobPart(job)] + w, k);
    SectionsClosed(FormParts(job, workspace, token));
  }

  // ---------- reading ----------

  /** `s` split at the first occurrence of `p`. */
  function Cut(p: Bytes, s: Bytes): (r: Option<(Bytes, Bytes)>)
    requires p != []
    ensures r.Some? ==> s == r.value.0 + p + r.value.1
  {
    if |s| < |p| then None
    else if s[..|p|] == p then Some(([], s[|p|..]))
    else
      match Cut(p, s[1..])
      case None => None
      case Some((before, after)) => Some(([s[0]] + before, after))
  }

  predicate Contains(s: Bytes, p: Bytes) {
    |p| <= |s| && (s[..|p|] == p || Contains(s[1..], p))
  }

  /** The header lines up to the blank line, and what follows it. */
  function ReadHeaders(s: Bytes): Option<(seq<Bytes>, Bytes)>
    decreases |s|
  {
    match Cut(CRLF, s)
    case None => None
    case Some((line, rest)) =>
      if line == [] then Some(([], rest))
      else
        match ReadHeaders(rest)
        case None => None
        case Some((lines, content)) => Some(([line] + lines, content))
  }

  /** Linear white space may pad a delimiter line. */
  predicate Blank(s: Bytes) {
    forall i :: 0 <= i < |s| ==> s[i] == 32 || s[i] == 9
  }

  /** The parts after a dash-boundary, up to the close delimiter. */
  function ReadParts(s: Bytes): Option<seq<Part>>
    decreases |s|
  {
    if DASHES <= s then Some([])
    else
      match Cut(CRLF, s)
      case None => None
      case Some((padding, body)) =>
        if !Blank(padding) then None
        else
          match ReadHeaders(body)
          case None => None
          case Some((headers, from)) =>
            match Cut(DELIMITER, from)
            case None => None
            case Some((content, rest)) =>
              if |rest| >= |s| then None
              else
                match ReadParts(rest)
                case None => None
                case Some(parts) => Some([Part(headers, content)] + parts)
  }

  /** The form's body: text before the first delimiter is ignored. */
  function ReadBody(data: Bytes): Option<seq<Part>> {
    if DASHES + BOUNDARY <= data then ReadParts(data[|DASHES + BOUNDARY|..])
    else
      match Cut(DELIMITER, data)
      case None => None
      case Some((_, rest)) => ReadParts(rest)
  }

  // ---------- reading back what was written ----------

  /** Only the first byte of the pattern is `p[0]`. */
  ghost predicate HeadUnique(p: Bytes) {
    p != [] && forall i :: 0 < i < |p| ==> p[i] != p[0]
  }

  lemma NotHere(p: Bytes, before: Bytes, after: Bytes)
    requires HeadUnique(p) && before != [] && !Contains(before, p)
    ensures (before + p + after)[..|p|] != p && !Contains(before[1..], p)
  {
    var s := before + p + after;
    if |p| <= |before| {
      assert s[..|p|] == before[..|p|];
    } else {
      assert s[..|p|][|before|] == p[0];
    }
  }

  /** Such a pattern cannot begin in `before` and end beyond it, so it is first
      found behind `before`, even if `before` ends in a part of the pattern. */
  lemma {:induction false} CutAt(p: Bytes, before: Bytes, after: Bytes)
    requires HeadUnique(p) && !Contains(before, p)
    ensures Cut(p, before + p + after) == Some((before, after))
  {
    var s := before + p + after;
    if before == [] {
      assert s[..|p|] == p && s[|p|..] == after;
    } else {
      NotHere(p, before, after);
      assert s[1..] == before[1..] + p + after;
      assert before == [before[0]] + before[1..];
      CutAt(p, before[1..], after);
    }
  }

  /** If the pattern is in `before`, the cut comes inside `before`. */
  lemma {:induction false} CutEarly(p: Bytes, before: Bytes, after: Bytes)
    requires p != [] && Contains(before, p)
    ensures var r := Cut(p, before + after); r.Some? && |r.value.0| < |before|
  {
    var s := before + after;
    assert s[..|p|] == before[..|p|];
    if before[..|p|] != p {
      CutEarly(p, before[1..], after);
      assert s[1..] == before[1..] + after;
    }
  }

  lemma PatternHeads()
    ensures HeadUnique(CRLF) && HeadUnique(DELIMITER) && HeadUnique(OPEN) && HeadUnique([QUOTE])
  {
    var dashes, name := "--------------------------", "realmci";
    assert forall i :: 0 <= i < |dashes| ==> dashes[i] == '-';
    assert forall i :: 0 <= i < |name| ==> name[i] != '\r' && name[i] < 128 as char;
    assert forall i :: 0 <= i < |dashes + name| ==> (dashes + name)[i] != '\r' && (dashes + name)[i] < 128 as char;
    assert forall i :: 0 <= i < |BOUNDARY| ==> BOUNDARY[i] != CR;
  }

  /** A header line: not empty and on one line. */
  ghost predicate HeaderLine(line: Bytes) {
    line != [] && !Contains(line, CRLF)
  }

  lemma {:induction false} HeadersRead(headers: seq<Bytes>, content: Bytes)
    requires forall i :: 0 <= i < |headers| ==> HeaderLine(headers[i])
    ensures ReadHeaders(HeaderText(headers) + content) == Some((headers, content))
    decreases |headers|
  {
    PatternHeads();
    if headers == [] {
      assert HeaderText(headers) + content == [] + CRLF + content;
      CutAt(CRLF, [], content);
    } else {
      var line, rest := headers[0], HeaderText(headers[1..]) + content;
      assert HeaderText(headers) + content == line + CRLF + rest;
      CutAt(CRLF, line, rest);
      HeadersRead(headers[1..], content);
      assert headers == [line] + headers[1..];
    }
  }

  ghost predicate WellFormed(p: Part) {
    forall i :: 0 <= i < |p.headers| ==> HeaderLine(p.headers[i])
  }

  lemma ConsRead(p: Part, parts: seq<Part>, r: Option<seq<Part>>)
    requires parts != [] && parts[0] == p
    ensures (if r.Some? then Some([p] + r.value) else None) == Some(parts) <==> r == Some(parts[1..])
  {
    assert parts == [p] + parts[1..];
    assert r.Some? ==> ([p] + r.value)[1..] == r.value;
  }

  lemma Regroup(a: Bytes, b: Bytes, c: Bytes, d: Bytes, e: Bytes)
    ensures (a + b + c) + d + e == a + (b + (c + d + e))
  {
  }

  /** The delimiter line and the headers of a part are read off. */
  lemma PartOpens(p: Part, rest: Bytes)
    requires WellFormed(p)
    ensures var s, from := Opened(p) + DELIMITER + rest, p.content + DELIMITER + rest;
            && !(DASHES <= s)
            && Cut(CRLF, s) == Some(([], HeaderText(p.headers) + from))
            && ReadHeaders(HeaderText(p.headers) + from) == Some((p.headers, from))
  {
    var from := p.content + DELIMITER + rest;
    var body := HeaderText(p.headers) + from;
    Regroup(CRLF, HeaderText(p.headers), p.content, DELIMITER, rest);
    PatternHeads();
    CutAt(CRLF, [], body);
    assert [] + CRLF + body == CRLF + body;
    HeadersRead(p.headers, from);
    assert (CRLF + body)[0] == CR;
  }

  lemma ReadOnePart(s: Bytes, headers: seq<Bytes>, from: Bytes)
    requires !(DASHES <= s) && Cut(CRLF, s).Some? && Cut(CRLF, s).value.0 == []
    requires ReadHeaders(Cut(CRLF, s).value.1) == Some((headers, from))
    requires Cut(DELIMITER, from).Some? && |Cut(DELIMITER, from).value.1| < |s|
    ensures var (content, rest) := Cut(DELIMITER, from).value;
            ReadParts(s) ==
            if ReadParts(rest).Some? then Some([Part(headers, content)] + ReadParts(rest).value) else None
  {
  }

  lemma FirstPartRead(p: Part, rest: Bytes)
    requires WellFormed(p)
    ensures !Contains(p.content, DELIMITER) ==>
              ReadParts(Opened(p) + DELIMITER + rest) ==
              (if ReadParts(rest).Some? then Some([p] + ReadParts(rest).value) else None)
    ensures Contains(p.content, DELIMITER) ==>
              var r := ReadParts(Opened(p) + DELIMITER + rest);
              r.Some? ==> r.value != [] && r.value[0] != p
  {
    var s := Opened(p) + DELIMITER + rest;
    PartOpens(p, rest);
    PatternHeads();
    if Contains(p.content, DELIMITER) {
      Associative(p.content, DELIMITER, rest);
      CutEarly(DELIMITER, p.content, DELIMITER + rest);
    } else {
      CutAt(DELIMITER, p.content, rest);
    }
    ReadOnePart(s, p.headers, p.content + DELIMITER + rest);
  }

  /** The reader gives back a list of parts from its encoding exactly when no
      content contains the delimiter. */
  lemma {:induction false} PartsRead(parts: seq<Part>)
    requires forall i :: 0 <= i < |parts| ==> WellFormed(parts[i])
    ensures ReadParts(Encoded(parts)) == Some(parts)
            <==> forall i :: 0 <= i < |parts| ==> !Contains(parts[i].content, DELIMITER)
    decreases |parts|
  {
    if parts == [] {
      assert DASHES <= Encoded(parts);
    } else {
      var p, rest := parts[0], Encoded(parts[1..]);
      FirstPartRead(p, rest);
      PartsRead(parts[1..]);
      ConsRead(p, parts, ReadParts(rest));
      assert forall i :: 0 < i < |parts| ==> parts[i] == parts[1..][i - 1];
    }
  }

  // ---------- the form ----------

  /** No byte that means something to the reader of header lines. */
  ghost predicate Plain(s: Bytes) {
    forall i :: 0 <= i < |s| ==> s[i] != CR && s[i] != QUOTE && s[i] != EQUALS
  }

  ghost predicate PlainText(s: string) {
    forall i :: 0 <= i < |s| ==> s[i] < 128 as char && s[i] != '\r' && s[i] != '"' && s[i] != '='
  }

  lemma PlainBytes(s: string)
    requires PlainText(s)
    ensures Plain(AsBytes(s))
  {
  }

  lemma LinesPlain()
    ensures Plain(DISPOSITION) && Plain(GZIP_LINE) && Plain(SEMICOLON)
  {
    PlainBytes("Content-Disposition: form-data");
    PlainBytes("Content-Type: application/gzip");
    PlainBytes("; ");
  }

  lemma NamesPlain()
    ensures Plain(NAME) && Plain(FILENAME)
    ensures Plain(JOB_TOML) && Plain(ASSET) && Plain(WORKSPACE_FILE) && Plain(TOKEN_FILE)
  {
    PlainBytes("name");
    PlainBytes("filename");
    PlainBytes("job_toml");
    PlainBytes("asset");
    PlainBytes("workspace.tar.gz");
    PlainBytes("gh_token");
  }

  lemma ConstantsPlain()
    ensures Plain(DISPOSITION) && Plain(GZIP_LINE) && Plain(NAME) && Plain(FILENAME) && Plain(SEMICOLON)
    ensures Plain(JOB_TOML) && Plain(ASSET) && Plain(WORKSPACE_FILE) && Plain(TOKEN_FILE)
  {
    LinesPlain();
    NamesPlain();
  }

  lemma {:induction false} NoCrNoLineEnd(s: Bytes)
    requires forall i :: 0 <= i < |s| ==> s[i] != CR
    ensures !Contains(s, CRLF)
  {
    if s != [] {
      assert |s| >= 2 ==> s[..2][0] != CR;
      NoCrNoLineEnd(s[1..]);
    }
  }

  lemma ParamHasNoCr(key: Bytes, value: Bytes)
    requires Plain(key) && Plain(value)
    ensures forall i :: 0 <= i < |Param(key, value)| ==> Param(key, value)[i] != CR
  {
    ConstantsPlain();
  }

  lemma FormWellFormed(job: Bytes, workspace: Option<Bytes>, token: Option<Bytes>)
    ensures var parts := FormParts(job, workspace, token);
            forall i :: 0 <= i < |parts| ==> WellFormed(parts[i])
  {
    ConstantsPlain();
    ParamHasNoCr(NAME, JOB_TOML);
    ParamHasNoCr(NAME, ASSET);
    ParamHasNoCr(FILENAME, WORKSPACE_FILE);
    ParamHasNoCr(FILENAME, TOKEN_FILE);
    NoCrNoLineEnd(GZIP_LINE);
    NoCrNoLineEnd(DISPOSITION + Param(NAME, JOB_TOML));
    NoCrNoLineEnd(DISPOSITION + Param(NAME, ASSET) + Param(FILENAME, WORKSPACE_FILE));
    NoCrNoLineEnd(DISPOSITION + Param(NAME, ASSET) + Param(FILENAME, TOKEN_FILE));
  }

  predicate Clean(content: Option<Bytes>) {
    content.Some? ==> !Contains(content.value, DELIMITER)
  }

  /** A reader of what build_multipart wrote recovers the parts, every byte of them,
      exactly when none of the contents contains the delimiter. */
  lemma FormRoundTrip(job: Bytes, workspace: Option<Bytes>, token: Option<Bytes>)
    ensures ReadBody(DASH_BOUNDARY + Encoded(FormParts(job, workspace, token))) == Some(FormParts(job, workspace, token))
            <==> Clean(Some(job)) && Clean(workspace) && Clean(token)
  {
    var parts := FormParts(job, workspace, token);
    var data := DASH_BOUNDARY + Encoded(parts);
    FormWellFormed(job, workspace, token);
    PartsRead(parts);
    assert data[|DASH_BOUNDARY|..] == Encoded(parts);
    assert parts[0] == JobPart(job);
    assert workspace.Some? ==> parts[1] == WorkspacePart(workspace.value);
    assert token.Some? ==> parts[|parts| - 1] == TokenPart(token.value);
  }

  lemma ContainsBehindLineEnd(content: Bytes)
    ensures Contains(CRLF + content, DELIMITER) <==> DASH_BOUNDARY <= content || Contains(content, DELIMITER)
  {
    var s, n := CRLF + content, |DELIMITER|;
    assert s[1..] == [LF] + content && s[1..][1..] == content;
    assert n <= |s[1..]| ==> s[1..][..n][0] == LF;
    assert DELIMITER[0] == CR;
    if DASH_BOUNDARY <= content {
      assert content[..|DASH_BOUNDARY|] == DASH_BOUNDARY;
      assert s[..n] == CRLF + content[..|DASH_BOUNDARY|];
    }
    if n <= |s| && s[..n] == DELIMITER {
      assert s[..n][2..] == content[..|DASH_BOUNDARY|] && DELIMITER[2..] == DASH_BOUNDARY;
    }
  }

  /** A stricter reader lets the line end before the content begin a delimiter: it
      finds the content if and only if, besides, no dash-boundary stands at its front. */
  lemma StrictReader(content: Bytes, rest: Bytes)
    ensures Cut(DELIMITER, CRLF + content + DELIMITER + rest) == Some((CRLF + content, rest))
            <==> !Contains(content, DELIMITER) && !(DASH_BOUNDARY <= content)
  {
    var before := CRLF + content;
    PatternHeads();
    ContainsBehindLineEnd(content);
    if Contains(before, DELIMITER) {
      Associative(before, DELIMITER, rest);
      CutEarly(DELIMITER, before, DELIMITER + rest);
    } else {
      CutAt(DELIMITER, before, rest);
    }
  }

  // ---------- field names (section 4 of RFC 7578) ----------

  type Params = map<Bytes, Bytes>

  /** `; key="value"` pairs. */
  function ReadParams(s: Bytes): Params
    decreases |s|
  {
    if !(SEMICOLON <= s) then map[]
    else
      match Cut(OPEN, s[|SEMICOLON|..])
      case None => map[]
      case Some((key, rest)) =>
        match Cut([QUOTE], rest)
        case None => map[]
        case Some((value, more)) => if |more| < |s| then map[key := value] + ReadParams(more) else map[]
  }

  datatype Field = Field(name: Option<Bytes>, filename: Option<Bytes>, content: Bytes)

  function Lookup(m: Params, key: Bytes): Option<Bytes> {
    if key in m then Some(m[key]) else None
  }

  function ReadField(p: Part): Field {
    if p.headers != [] && DISPOSITION <= p.headers[0] then
      var params := ReadParams(p.headers[0][|DISPOSITION|..]);
      Field(Lookup(params, NAME), Lookup(params, FILENAME), p.content)
    else Field(None, None, p.content)
  }

  lemma {:induction false} PlainLacks(s: Bytes, p: Bytes)
    requires Plain(s) && p != [] && (p[0] == QUOTE || p[0] == EQUALS)
    ensures !Contains(s, p)
  {
    if s != [] {
      PlainLacks(s[1..], p);
    }
  }

  lemma RegroupSix(a: Bytes, b: Bytes, c: Bytes, d: Bytes, e: Bytes, f: Bytes)
    ensures a + b + c + d + e + f == a + (b + c + (d + e + f))
  {
    Associative(a + b + c, d + e, f);
    Associative(a + b + c, d, e);
    Associative(a, b, c);
    Associative(a, b + c, d + e + f);
  }

  lemma ParamCuts(lead: Bytes, key: Bytes, open: Bytes, value: Bytes, quote: Bytes, more: Bytes)
    requires HeadUnique(open) && HeadUnique(quote) && !Contains(key, open) && !Contains(value, quote)
    ensures var s := lead + key + open + value + quote + more;
            && lead <= s
            && Cut(open, s[|lead|..]) == Some((key, value + quote + more))
            && Cut(quote, value + quote + more) == Some((value, more))
  {
    RegroupSix(lead, key, open, value, quote, more);
    CutAt(open, key, value + quote + more);
    CutAt(quote, value, more);
    var tail := key + open + (value + quote + more);
    assert (lead + tail)[|lead|..] == tail;
  }

  lemma ParamRead(key: Bytes, value: Bytes, more: Bytes)
    requires Plain(key) && Plain(value)
    ensures ReadParams(Param(key, value) + more) == map[key := value] + ReadParams(more)
  {
    PatternHeads();
    PlainLacks(key, OPEN);
    PlainLacks(value, [QUOTE]);
    ParamCuts(SEMICOLON, key, OPEN, value, [QUOTE], more);
  }

  lemma NamesDiffer()
    ensures NAME != FILENAME
  {
    assert |NAME| == 4 && |FILENAME| == 8;
  }

  lemma NamedField(p: Part, name: Bytes)
    requires Plain(name) && p.headers != [] && p.headers[0] == DISPOSITION + Param(NAME, name)
    ensures ReadField(p) == Field(Some(name), None, p.content)
  {
    NamesPlain();
    NamesDiffer();
    var params := Param(NAME, name);
    assert p.headers[0][|DISPOSITION|..] == params;
    ParamRead(NAME, name, []);
    assert params + [] == params;
    assert ReadParams([]) == map[];
  }

  lemma NamedFile(p: Part, name: Bytes, file: Bytes)
    requires Plain(name) && Plain(file) && p.headers != []
    requires p.headers[0] == DISPOSITION + Param(NAME, name) + Param(FILENAME, file)
    ensures ReadField(p) == Field(Some(name), Some(file), p.content)
  {
    NamesPlain();
    NamesDiffer();
    var first, second := Param(NAME, name), Param(FILENAME, file);
    assert p.headers[0][|DISPOSITION|..] == first + second;
    ParamRead(NAME, name, second);
    ParamRead(FILENAME, file, []);
    assert second + [] == second;
    assert ReadParams([]) == map[];
  }

  /** The fields are read under the names the agent looks for. */
  lemma FieldsNamed(content: Bytes)
    ensures ReadField(JobPart(content)) == Field(Some(JOB_TOML), None, content)
    ensures ReadField(WorkspacePart(content)) == Field(Some(ASSET), Some(WORKSPACE_FILE), content)
    ensures ReadField(TokenPart(content)) == Field(Some(ASSET), Some(TOKEN_FILE), content)
  {
    NamesPlain();
    NamedField(JobPart(content), JOB_TOML);
    NamedFile(WorkspacePart(content), ASSET, WORKSPACE_FILE);
    NamedFile(TokenPart(content), ASSET, TOKEN_FILE);
  }
}
