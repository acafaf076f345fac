/** Task packets: markdown rendered from planner JSON, and the fields parsed back out of it. */
module TaskPackets {
  import opened Common
  import opened Texts

  // ---- lines ----

  predicate NoNewline(s: string) {
    '\n' !in s
  }

  /** The characters before the first newline. */
  function FirstLine(s: string): (n: nat)
    ensures n <= |s| && NoNewline(s[..n]) && (n < |s| ==> s[n] == '\n')
  {
    if s == "" || s[0] == '\n' then 0 else 1 + FirstLine(s[1..])
  }

  /** The stretches between newlines: where `^` and `$` match. */
  function Lines(s: string): seq<string> {
    var n := FirstLine(s);
    if n == |s| then [s] else [s[..n]] + Lines(s[n + 1..])
  }

  function Joined(lines: seq<string>): string {
    if lines == [] then "" else if |lines| == 1 then lines[0] else lines[0] + ['\n'] + Joined(lines[1..])
  }

  predicate IsBreak(c: char) {
    var n := c as int;
    0x0a <= n <= 0x0d || 0x1c <= n <= 0x1e || n == 0x85 || n == 0x2028 || n == 0x2029
  }

  function UntilBreak(s: string): (n: nat)
    ensures n <= |s| && (forall i :: 0 <= i < n ==> !IsBreak(s[i])) && (n < |s| ==> IsBreak(s[n]))
  {
    if s == "" || IsBreak(s[0]) then 0 else 1 + UntilBreak(s[1..])
  }

  /** Python's `splitlines`. */
  function SplitLines(s: string): (r: seq<string>)
    ensures forall i :: 0 <= i < |r| ==> NoNewline(r[i])
  {
    if s == "" then []
    else
      var n := UntilBreak(s);
      if n == |s| then [s]
      else
        var after := if s[n] == '\r' && n + 1 < |s| && s[n + 1] == '\n' then n + 2 else n + 1;
        [s[..n]] + SplitLines(s[after..])
  }

  // ---- fields ----

  predicate IsKeyStart(c: char) {
    'A' <= c <= 'Z'
  }

  predicate IsKeyChar(c: char) {
    'A' <= c <= 'Z' || '0' <= c <= '9' || c == '_'
  }

  predicate IsKey(s: string) {
    s != "" && IsKeyStart(s[0]) && forall i :: 0 <= i < |s| ==> IsKeyChar(s[i])
  }

  function KeyLength(s: string): (n: nat)
    ensures n <= |s|
  {
    if s != "" && IsKeyChar(s[0]) then 1 + KeyLength(s[1..]) else 0
  }

  datatype Field = Field(key: string, value: string)

  /** `- KEY: value` on one line. */
  function FieldOf(line: string): Option<Field> {
    if line == "" || line[0] != '-' then None
    else
      var rest := SkipBlanks(line[1..]);
      var n := KeyLength(rest);
      if |rest| == |line| - 1 || n == 0 || !IsKeyStart(rest[0]) || n == |rest| || rest[n] != ':' then None
      else Some(Field(rest[..n], Strip(SkipBlanks(rest[n + 1..]))))
  }

  function FieldText(key: string, value: string): string {
    "- " + key + ": " + value
  }

  /** The last write wins. */
  function FieldsOf(lines: seq<string>): map<string, string> {
    if lines == [] then map[]
    else
      match FieldOf(Last(lines))
      case None => FieldsOf(Init(lines))
      case Some(f) => FieldsOf(Init(lines))[f.key := f.value]
  }

  function ParseFields(text: string): map<string, string> {
    FieldsOf(Lines(text))
  }

  function EscapeLine(line: string): string {
    if FieldOf(line).Some? then "> " + line else line
  }

  /** Free text, line by line, with every field line quoted. */
  function EscapedLines(text: string): (r: seq<string>)
    ensures r != []
  {
    var lines := SplitLines(text);
    if lines == [] then [""] else seq(|lines|, i requires 0 <= i < |lines| => EscapeLine(lines[i]))
  }

  // ---- scope tokens ----

  predicate IsDelimiter(c: char) {
    c == '`' || c == ',' || IsSpace(c)
  }

  predicate IsToken(s: string) {
    s != "" && forall i :: 0 <= i < |s| ==> !IsDelimiter(s[i])
  }

  function RunLength(s: string): (n: nat)
    ensures n <= |s|
  {
    if s != "" && !IsDelimiter(s[0]) then 1 + RunLength(s[1..]) else 0
  }

  /** Backquotes become blanks, then the field splits at commas and whitespace. */
  function ParseScopeGlobs(s: string): seq<string>
    decreases |s|
  {
    if s == "" then []
    else if IsDelimiter(s[0]) then ParseScopeGlobs(s[1..])
    else
      var n := RunLength(s);
      [s[..n]] + ParseScopeGlobs(s[n..])
  }

  // ---- rendering ----

  const RELATED := "RELATED_FILES"

  /** The planner's JSON object, with its values as text. */
  datatype Plan = Plan(dispatchId: string, relatedFiles: seq<string>, goal: string, notes: string)

  function Stripped(xs: seq<string>): (r: seq<string>)
    ensures |r| == |xs|
  {
    seq(|xs|, i requires 0 <= i < |xs| => Strip(xs[i]))
  }

  function Inline(files: seq<string>): string {
    if files == [] then ""
    else if |files| == 1 then "`" + files[0] + "`"
    else "`" + files[0] + "`, " + Inline(files[1..])
  }

  function Header(id: string, author: string, timestamp: string, inline: string): seq<string> {
    ["# TASK \U{2014} " + id, "",
     FieldText("DISPATCH_ID", id), FieldText("AUTHOR", author), FieldText("TIMESTAMP", timestamp),
     FieldText(RELATED, inline), FieldText("STATUS", "ready"), "", "## Goal", ""]
  }

  /** Two fixed lines. The verifier reaches the characters of short literals only, so they are joined. */
  const OUTSIDE_RULE := "MUST NOT edit: " + "any file outside " + "the " + RELATED + " list."
  const FOOTER_MARK := "<!-- " + "machine-footer: " + "filled on completion" + " -->"

  function ScopeSection(inline: string): seq<string> {
    ["", "## Scope", "", "MAY edit: " + inline, OUTSIDE_RULE, "", "## Notes", ""]
  }

  function Footer(id: string): seq<string> {
    ["", FOOTER_MARK, FieldText("HANDOFF_STATUS", "COMPLETE"), FieldText("DISPATCH_ID", id),
     FieldText("NEXT_ROLE", "EXECUTOR_AI"), FieldText("EXIT_CODE", "0"), ""]
  }

  function PacketLines(
    id: string, author: string, timestamp: string, inline: string, goal: seq<string>, notes: seq<string>): seq<string>
  {
    Header(id, author, timestamp, inline) + goal + ScopeSection(inline) + notes + Footer(id)
  }

  /** The canonical packet, or a refusal of the planner's JSON. */
  function RenderTaskPacket(plan: Plan, scaffold: string, now: string): Option<string> {
    var fields := ParseFields(scaffold);
    var id, files := Strip(plan.dispatchId), Stripped(plan.relatedFiles);
    var goal := Strip(plan.goal);
    var notes := if Strip(plan.notes) == "" then "No additional notes." else Strip(plan.notes);
    if || "DISPATCH_ID" !in fields || fields["DISPATCH_ID"] != id
       || files == [] || (exists i :: 0 <= i < |files| && !IsToken(files[i])) || goal == ""
    then None
    else
      var author := if "AUTHOR" in fields then fields["AUTHOR"] else "planner:codex";
      var timestamp := if "TIMESTAMP" in fields then fields["TIMESTAMP"] else now;
      Some(Joined(PacketLines(id, author, timestamp, Inline(files), EscapedLines(goal), EscapedLines(notes))))
  }

  // ---- lines survive joining ----

  lemma {:induction false} FirstLineWhole(line: string, rest: string)
    requires NoNewline(line)
    ensures FirstLine(line) == |line|
    ensures FirstLine(line + ['\n'] + rest) == |line|
  {
    var s := line + ['\n'] + rest;
    if line != "" {
      assert line[0] in line && (forall c :: c in line[1..] ==> c in line);
      FirstLineWhole(line[1..], rest);
      assert s[1..] == line[1..] + ['\n'] + rest;
    } else {
      assert s[0] == '\n';
    }
  }

  lemma {:induction false} JoinedLines(lines: seq<string>)
    requires lines != [] && forall i :: 0 <= i < |lines| ==> NoNewline(lines[i])
    ensures Lines(Joined(lines)) == lines
  {
    if |lines| == 1 {
      FirstLineWhole(lines[0], "");
    } else {
      var rest := Joined(lines[1..]);
      FirstLineWhole(lines[0], rest);
      JoinedLines(lines[1..]);
      var s := lines[0] + ['\n'] + rest;
      assert s[..|lines[0]|] == lines[0] && s[|lines[0]| + 1..] == rest;
    }
  }

  lemma {:induction false} LinesHaveNone(s: string)
    ensures forall i :: 0 <= i < |Lines(s)| ==> NoNewline(Lines(s)[i])
    decreases |s|
  {
    var n := FirstLine(s);
    if n < |s| {
      LinesHaveNone(s[n + 1..]);
    } else {
      assert s[..n] == s;
    }
  }

  lemma {:induction false} SkipIsTail(s: string)
    ensures forall c :: c in SkipBlanks(s) ==> c in s
  {
    if s != "" && IsBlank(s[0]) {
      SkipIsTail(s[1..]);
    }
  }

  lemma {:induction false} StripLeftWithin(s: string)
    ensures forall c :: c in StripLeft(s) ==> c in s
  {
    if s != "" && IsSpace(s[0]) {
      StripLeftWithin(s[1..]);
    }
  }

  lemma FieldValueWithin(line: string)
    requires FieldOf(line).Some? && NoNewline(line)
    ensures NoNewline(FieldOf(line).value.value)
  {
    var rest := SkipBlanks(line[1..]);
    var n := KeyLength(rest);
    var value := SkipBlanks(rest[n + 1..]);
    SkipIsTail(line[1..]);
    SkipIsTail(rest[n + 1..]);
    StripLeftWithin(value);
    assert forall c :: c in Strip(value) ==> c in StripLeft(value);
    assert forall c :: c in rest[n + 1..] ==> c in rest;
    assert forall c :: c in line[1..] ==> c in line;
  }

  /** No field value spans lines. */
  lemma {:induction false} FieldValuesOneLine(lines: seq<string>)
    requires forall i :: 0 <= i < |lines| ==> NoNewline(lines[i])
    ensures forall k :: k in FieldsOf(lines) ==> NoNewline(FieldsOf(lines)[k])
  {
    if lines != [] {
      FieldValuesOneLine(Init(lines));
      if FieldOf(Last(lines)).Some? {
        FieldValueWithin(Last(lines));
      }
    }
  }

  // ---- which lines are fields ----

  lemma {:induction false} KeyWhole(key: string, rest: string)
    requires (forall i :: 0 <= i < |key| ==> IsKeyChar(key[i])) && rest != "" && !IsKeyChar(rest[0])
    ensures KeyLength(key + rest) == |key|
  {
    if key == "" {
      assert key + rest == rest;
    } else {
      assert (key + rest)[1..] == key[1..] + rest;
      KeyWhole(key[1..], rest);
    }
  }

  /** A rendered field line reads back as its key and its stripped value. */
  lemma FieldLine(key: string, value: string)
    requires IsKey(key)
    ensures FieldOf(FieldText(key, value)) == Some(Field(key, Strip(SkipBlanks(" " + value))))
  {
    var line := FieldText(key, value);
    var rest := key + (":" + (" " + value));
    assert line[1..] == " " + rest;
    OneBlank(rest);
    KeyPart(key, value);
  }

  lemma KeyPart(key: string, value: string)
    requires IsKey(key)
    ensures var rest := key + (":" + (" " + value)); var n := KeyLength(rest);
            && n == |key| && n < |rest| && rest[0] == key[0] && rest[n] == ':'
            && rest[..n] == key && rest[n + 1..] == " " + value
  {
    KeyWhole(key, ":" + (" " + value));
  }

  lemma OneBlank(s: string)
    requires s != "" && !IsBlank(s[0])
    ensures SkipBlanks(" " + s) == s
  {
    assert (" " + s)[1..] == s;
  }

  lemma EscapedIsNoField(line: string)
    ensures FieldOf(EscapeLine(line)).None?
  {
  }

  lemma EscapedLinesSafe(text: string)
    ensures forall i :: 0 <= i < |EscapedLines(text)| ==>
              FieldOf(EscapedLines(text)[i]).None? && NoNewline(EscapedLines(text)[i])
  {
    forall line: string ensures FieldOf(EscapeLine(line)).None? {
      EscapedIsNoField(line);
    }
  }

  /** A line that cannot write the key. */
  predicate Silent(line: string, key: string) {
    FieldOf(line).None? || FieldOf(line).value.key != key
  }

  predicate AllSilent(lines: seq<string>, key: string) {
    forall i :: 0 <= i < |lines| ==> Silent(lines[i], key)
  }

  lemma {:induction false} SilentTail(lines: seq<string>, tail: seq<string>, key: string)
    requires AllSilent(tail, key)
    ensures key in FieldsOf(lines + tail) <==> key in FieldsOf(lines)
    ensures key in FieldsOf(lines) ==> FieldsOf(lines + tail)[key] == FieldsOf(lines)[key]
  {
    if tail == [] {
      assert lines + tail == lines;
    } else {
      SilentTail(lines, Init(tail), key);
      assert Init(lines + tail) == lines + Init(tail) && Last(lines + tail) == Last(tail);
      assert Silent(tail[|tail| - 1], key);
    }
  }

  /** Not a list item at all, or a field with another key. */
  ghost predicate Harmless(line: string) {
    || line == "" || line[0] != '-'
    || exists key, value :: OtherField(line, key, value)
  }

  ghost predicate OtherField(line: string, key: string, value: string) {
    IsKey(key) && key != RELATED && line == FieldText(key, value)
  }

  lemma HarmlessSilent(lines: seq<string>)
    requires forall i :: 0 <= i < |lines| ==> Harmless(lines[i])
    ensures AllSilent(lines, RELATED)
  {
    forall i | 0 <= i < |lines| ensures Silent(lines[i], RELATED) {
      assert Harmless(lines[i]);
      if key, value :| OtherField(lines[i], key, value) {
        FieldLine(key, value);
      }
    }
  }

  lemma HarmlessField(key: string, value: string)
    requires IsKey(key) && key != RELATED
    ensures Harmless(FieldText(key, value))
  {
    assert OtherField(FieldText(key, value), key, value);
  }

  lemma FooterHarmless(id: string)
    ensures forall i :: 0 <= i < |Footer(id)| ==> Harmless(Footer(id)[i])
  {
    var f := Footer(id);
    HarmlessField("HANDOFF_STATUS", "COMPLETE");
    HarmlessField("DISPATCH_ID", id);
    HarmlessField("NEXT_ROLE", "EXECUTOR_AI");
    HarmlessField("EXIT_CODE", "0");
    assert f[1][0] == '<';
    forall i | 0 <= i < |f| ensures Harmless(f[i]) {
      assert i == 0 || i == 1 || i == 2 || i == 3 || i == 4 || i == 5 || i == 6;
    }
  }

  lemma ScopeHarmless(inline: string)
    ensures forall i :: 0 <= i < |ScopeSection(inline)| ==> Harmless(ScopeSection(inline)[i])
  {
    var s := ScopeSection(inline);
    assert s[1][0] == '#' && s[3][0] == 'M' && s[4][0] == 'M' && s[6][0] == '#';
    forall i | 0 <= i < |s| ensures Harmless(s[i]) {
      assert i == 0 || i == 1 || i == 2 || i == 3 || i == 4 || i == 5 || i == 6 || i == 7;
    }
  }

  /** The header lines around the scope field. */
  lemma HeaderHarmless(id: string, author: string, timestamp: string, inline: string)
    ensures forall i :: 0 <= i < 10 && i != 5 ==> Harmless(Header(id, author, timestamp, inline)[i])
  {
    var h := Header(id, author, timestamp, inline);
    HarmlessField("DISPATCH_ID", id);
    HarmlessField("AUTHOR", author);
    HarmlessField("TIMESTAMP", timestamp);
    HarmlessField("STATUS", "ready");
    assert h[0][0] == '#' && h[8][0] == '#';
    forall i | 0 <= i < 10 && i != 5 ensures Harmless(h[i]) {
      assert i == 0 || i == 1 || i == 2 || i == 3 || i == 4 || i == 6 || i == 7 || i == 8 || i == 9;
    }
  }

  // ---- the round trip ----

  lemma {:induction false} TokenRun(token: string, rest: string)
    requires (forall i :: 0 <= i < |token| ==> !IsDelimiter(token[i])) && rest != "" && IsDelimiter(rest[0])
    ensures RunLength(token + rest) == |token|
  {
    if token == "" {
      assert token + rest == rest;
    } else {
      assert (token + rest)[1..] == token[1..] + rest;
      TokenRun(token[1..], rest);
    }
  }

  /** One quoted token, then whatever follows its closing quote. */
  lemma QuotedToken(token: string, rest: string)
    requires IsToken(token)
    ensures ParseScopeGlobs("`" + token + "`" + rest) == [token] + ParseScopeGlobs(rest)
  {
    var s := "`" + token + "`" + rest;
    var tail := "`" + rest;
    assert s[1..] == token + tail;
    TokenThenQuote(token, rest);
  }

  lemma TokenThenQuote(token: string, rest: string)
    requires IsToken(token)
    ensures ParseScopeGlobs(token + ("`" + rest)) == [token] + ParseScopeGlobs(rest)
  {
    var tail := "`" + rest;
    var s := token + tail;
    TokenRun(token, tail);
    assert s[0] == token[0] && !IsDelimiter(s[0]);
    assert s[..|token|] == token && s[|token|..] == tail;
    assert tail[1..] == rest;
    assert ParseScopeGlobs(tail) == ParseScopeGlobs(rest);
  }

  lemma SeparatorSkipped(s: string)
    ensures ParseScopeGlobs(", " + s) == ParseScopeGlobs(s)
  {
    assert (", " + s)[1..] == " " + s;
    assert (" " + s)[1..] == s;
  }

  /** Quoted and comma-separated tokens split back into the same tokens. */
  lemma {:induction false} InlineParses(files: seq<string>)
    requires forall i :: 0 <= i < |files| ==> IsToken(files[i])
    ensures ParseScopeGlobs(Inline(files)) == files
  {
    if |files| == 1 {
      QuotedToken(files[0], "");
      assert "`" + files[0] + "`" + "" == Inline(files);
      assert files == [files[0]] + [];
    } else if 1 < |files| {
      var more := Inline(files[1..]);
      InlineParses(files[1..]);
      QuotedToken(files[0], ", " + more);
      SeparatorSkipped(more);
      InlineHead(files);
      assert files == [files[0]] + files[1..];
    }
  }

  lemma InlineHead(files: seq<string>)
    requires 1 < |files|
    ensures Inline(files) == "`" + files[0] + "`" + (", " + Inline(files[1..]))
  {
  }

  lemma {:induction false} InlineEnds(files: seq<string>)
    requires files != []
    ensures Inline(files) != "" && Inline(files)[0] == '`' && Last(Inline(files)) == '`'
  {
    if |files| > 1 {
      InlineEnds(files[1..]);
      var head := "`" + files[0] + "`, ";
      assert Inline(files) == head + Inline(files[1..]);
      assert Last(head + Inline(files[1..])) == Last(Inline(files[1..]));
    }
  }

  lemma {:induction false} InlineOneLine(files: seq<string>)
    requires forall i :: 0 <= i < |files| ==> IsToken(files[i])
    ensures NoNewline(Inline(files))
  {
    if files != [] {
      forall c | c in files[0] ensures c != '\n' {
        var k :| 0 <= k < |files[0]| && files[0][k] == c;
        assert !IsDelimiter(files[0][k]);
      }
      if |files| > 1 {
        InlineOneLine(files[1..]);
      }
    }
  }

  lemma ScopeFieldReads(files: seq<string>)
    requires files != []
    ensures FieldOf(FieldText(RELATED, Inline(files))) == Some(Field(RELATED, Inline(files)))
  {
    var inline := Inline(files);
    FieldLine(RELATED, inline);
    InlineEnds(files);
    OneBlank(inline);
    StripTight(inline);
  }

  /** Whatever silent lines surround it, the one scope field decides the value. */
  lemma OneScopeField(before: seq<string>, line: string, after: seq<string>, value: string)
    requires AllSilent(after, RELATED) && FieldOf(line) == Some(Field(RELATED, value))
    ensures var fields := FieldsOf(before + [line] + after); RELATED in fields && fields[RELATED] == value
  {
    SnocParts(before, line);
    SilentTail(before + [line], after, RELATED);
  }

  // ---- the packet, section by section ----

  predicate OneLineEach(lines: seq<string>) {
    forall i :: 0 <= i < |lines| ==> NoNewline(lines[i])
  }

  lemma HeaderOneLine(id: string, author: string, timestamp: string, inline: string)
    requires NoNewline(id) && NoNewline(author) && NoNewline(timestamp) && NoNewline(inline)
    ensures OneLineEach(Header(id, author, timestamp, inline))
  {
    var h := Header(id, author, timestamp, inline);
    FieldOneLine("DISPATCH_ID", id);
    FieldOneLine("AUTHOR", author);
    FieldOneLine("TIMESTAMP", timestamp);
    FieldOneLine(RELATED, inline);
    FieldOneLine("STATUS", "ready");
    assert NoNewline(h[0]) && NoNewline(h[8]);
    forall i | 0 <= i < |h| ensures NoNewline(h[i]) {
      assert i == 0 || i == 1 || i == 2 || i == 3 || i == 4 || i == 5 || i == 6 || i == 7 || i == 8 || i == 9;
    }
  }

  lemma FieldOneLine(key: string, value: string)
    requires NoNewline(key) && NoNewline(value)
    ensures NoNewline(FieldText(key, value))
  {
    forall c | c in FieldText(key, value) ensures c in "- " || c in key || c in ": " || c in value {
    }
  }

  lemma OneLineSeven(a: string, b: string, c: string, d: string, e: string, f: string, g: string)
    requires NoNewline(a) && NoNewline(b) && NoNewline(c) && NoNewline(d)
    requires NoNewline(e) && NoNewline(f) && NoNewline(g)
    ensures OneLineEach([a, b, c, d, e, f, g])
  {
  }

  lemma NoNewlineJoin(a: string, b: string)
    requires NoNewline(a) && NoNewline(b)
    ensures NoNewline(a + b)
  {
  }

  lemma FixedOneLine()
    ensures NoNewline(OUTSIDE_RULE) && NoNewline(FOOTER_MARK)
  {
    NoNewlineJoin("MUST NOT edit: ", "any file outside ");
    NoNewlineJoin("MUST NOT edit: " + "any file outside ", "the ");
    NoNewlineJoin("MUST NOT edit: " + "any file outside " + "the ", RELATED);
    NoNewlineJoin("MUST NOT edit: " + "any file outside " + "the " + RELATED, " list.");
    NoNewlineJoin("<!-- ", "machine-footer: ");
    NoNewlineJoin("<!-- " + "machine-footer: ", "filled on completion");
    NoNewlineJoin("<!-- " + "machine-footer: " + "filled on completion", " -->");
  }

  lemma ScopeOneLine(inline: string)
    requires NoNewline(inline)
    ensures OneLineEach(ScopeSection(inline))
  {
    var may := "MAY edit: " + inline;
    NoNewlineJoin("MAY edit: ", inline);
    FixedOneLine();
    OneLineSeven("", "## Scope", "", may, OUTSIDE_RULE, "", "## Notes");
    assert ScopeSection(inline) == ["", "## Scope", "", may, OUTSIDE_RULE, "", "## Notes"] + [""];
  }

  lemma FooterOneLine(id: string)
    requires NoNewline(id)
    ensures OneLineEach(Footer(id))
  {
    FieldOneLine("HANDOFF_STATUS", "COMPLETE");
    FieldOneLine("DISPATCH_ID", id);
    FieldOneLine("NEXT_ROLE", "EXECUTOR_AI");
    FieldOneLine("EXIT_CODE", "0");
    FixedOneLine();
    OneLineSeven("", FOOTER_MARK, FieldText("HANDOFF_STATUS", "COMPLETE"),
                 FieldText("DISPATCH_ID", id), FieldText("NEXT_ROLE", "EXECUTOR_AI"), FieldText("EXIT_CODE", "0"), "");
  }

  predicate Says(lines: seq<string>, inline: string) {
    RELATED in FieldsOf(lines) && FieldsOf(lines)[RELATED] == inline
  }

  lemma HeaderSays(id: string, author: string, timestamp: string, files: seq<string>)
    requires files != []
    ensures Says(Header(id, author, timestamp, Inline(files)), Inline(files))
  {
    var h := Header(id, author, timestamp, Inline(files));
    HeaderHarmless(id, author, timestamp, Inline(files));
    HarmlessSilent(h[6..]);
    ScopeFieldReads(files);
    OneScopeField(h[..5], h[5], h[6..], Inline(files));
    assert h == h[..5] + [h[5]] + h[6..];
  }

  lemma ThenText(lines: seq<string>, text: string, inline: string)
    requires Says(lines, inline)
    ensures Says(lines + EscapedLines(text), inline)
  {
    EscapedLinesSafe(text);
    SilentTail(lines, EscapedLines(text), RELATED);
  }

  lemma ThenScope(lines: seq<string>, inline: string)
    requires Says(lines, inline)
    ensures Says(lines + ScopeSection(inline), inline)
  {
    ScopeHarmless(inline);
    HarmlessSilent(ScopeSection(inline));
    SilentTail(lines, ScopeSection(inline), RELATED);
  }

  lemma ThenFooter(lines: seq<string>, id: string, inline: string)
    requires Says(lines, inline)
    ensures Says(lines + Footer(id), inline)
  {
    FooterHarmless(id);
    HarmlessSilent(Footer(id));
    SilentTail(lines, Footer(id), RELATED);
  }

  lemma PacketSays(id: string, author: string, timestamp: string, files: seq<string>, goal: string, notes: string)
    requires files != []
    ensures var inline := Inline(files);
            Says(PacketLines(id, author, timestamp, inline, EscapedLines(goal), EscapedLines(notes)), inline)
  {
    var inline := Inline(files);
    HeaderSays(id, author, timestamp, files);
    RestSays(Header(id, author, timestamp, inline), id, goal, notes, inline);
  }

  lemma RestSays(h: seq<string>, id: string, goal: string, notes: string, inline: string)
    requires Says(h, inline)
    ensures Says(h + EscapedLines(goal) + ScopeSection(inline) + EscapedLines(notes) + Footer(id), inline)
  {
    var g, n := EscapedLines(goal), EscapedLines(notes);
    ThenText(h, goal, inline);
    ThenScope(h + g, inline);
    ThenText(h + g + ScopeSection(inline), notes, inline);
    ThenFooter(h + g + ScopeSection(inline) + n, id, inline);
  }

  lemma OneLineJoin(xs: seq<string>, ys: seq<string>)
    requires OneLineEach(xs) && OneLineEach(ys)
    ensures OneLineEach(xs + ys)
  {
  }

  lemma PacketOneLine(h: seq<string>, g: seq<string>, s: seq<string>, n: seq<string>, f: seq<string>)
    requires OneLineEach(h) && OneLineEach(g) && OneLineEach(s) && OneLineEach(n) && OneLineEach(f)
    ensures OneLineEach(h + g + s + n + f)
  {
    OneLineJoin(h, g);
    OneLineJoin(h + g, s);
    OneLineJoin(h + g + s, n);
    OneLineJoin(h + g + s + n, f);
  }

  lemma EscapedOneLine(text: string)
    ensures OneLineEach(EscapedLines(text))
  {
    EscapedLinesSafe(text);
  }

  lemma PacketIsLines(id: string, author: string, timestamp: string, inline: string, goal: string, notes: string)
    requires NoNewline(id) && NoNewline(author) && NoNewline(timestamp) && NoNewline(inline)
    ensures var lines := PacketLines(id, author, timestamp, inline, EscapedLines(goal), EscapedLines(notes));
            OneLineEach(lines) && lines != []
  {
    HeaderOneLine(id, author, timestamp, inline);
    ScopeOneLine(inline);
    FooterOneLine(id);
    EscapedOneLine(goal);
    EscapedOneLine(notes);
    PacketOneLine(
      Header(id, author, timestamp, inline), EscapedLines(goal), ScopeSection(inline), EscapedLines(notes), Footer(id));
  }

  lemma LinesSay(lines: seq<string>, inline: string)
    requires OneLineEach(lines) && lines != [] && Says(lines, inline)
    ensures var fields := ParseFields(Joined(lines)); RELATED in fields && fields[RELATED] == inline
  {
    JoinedLines(lines);
  }

  /** Whatever goal and notes the planner writes, the rendered packet declares exactly the planned
      files, in order. */
  lemma ScopeRoundTrip(plan: Plan, scaffold: string, now: string)
    requires NoNewline(now) && RenderTaskPacket(plan, scaffold, now).Some?
    ensures var fields := ParseFields(RenderTaskPacket(plan, scaffold, now).value);
            RELATED in fields && ParseScopeGlobs(fields[RELATED]) == Stripped(plan.relatedFiles)
  {
    var fields := ParseFields(scaffold);
    ScaffoldOneLine(scaffold);
    var id, files := Strip(plan.dispatchId), Stripped(plan.relatedFiles);
    var goal, notes := Strip(plan.goal), if Strip(plan.notes) == "" then "No additional notes." else Strip(plan.notes);
    var author := if "AUTHOR" in fields then fields["AUTHOR"] else "planner:codex";
    var timestamp := if "TIMESTAMP" in fields then fields["TIMESTAMP"] else now;
    assert NoNewline("planner:codex");
    PacketParses(id, author, timestamp, files, goal, notes);
    InlineParses(files);
  }

  lemma ScaffoldOneLine(scaffold: string)
    ensures forall k :: k in ParseFields(scaffold) ==> NoNewline(ParseFields(scaffold)[k])
  {
    LinesHaveNone(scaffold);
    FieldValuesOneLine(Lines(scaffold));
  }

  lemma PacketParses(id: string, author: string, timestamp: string, files: seq<string>, goal: string, notes: string)
    requires NoNewline(id) && NoNewline(author) && NoNewline(timestamp)
    requires files != [] && forall i :: 0 <= i < |files| ==> IsToken(files[i])
    ensures var lines := PacketLines(id, author, timestamp, Inline(files), EscapedLines(goal), EscapedLines(notes));
            var fields := ParseFields(Joined(lines));
            RELATED in fields && fields[RELATED] == Inline(files)
  {
    InlineOneLine(files);
    PacketIsLines(id, author, timestamp, Inline(files), goal, notes);
    PacketSays(id, author, timestamp, files, goal, notes);
    LinesSay(PacketLines(id, author, timestamp, Inline(files), EscapedLines(goal), EscapedLines(notes)), Inline(files));
  }
}
