/** Everything a rendered task packet says when it is read back: all of its fields, its goal and its notes. */
module PacketMeaning {
  import opened Common
  import opened Texts
  import opened TaskPackets

  // ---- how text is read ----

  predicate AllSpace(s: string) {
    forall i :: 0 <= i < |s| ==> IsSpace(s[i])
  }

  lemma {:induction false} StripLeftMeans(s: string)
    ensures |StripLeft(s)| <= |s| && StripLeft(s) == s[|s| - |StripLeft(s)|..] && AllSpace(s[..|s| - |StripLeft(s)|])
  {
    if s != "" && IsSpace(s[0]) {
      StripLeftMeans(s[1..]);
      var n := |s[1..]| - |StripLeft(s)|;
      assert s[1..][n..] == s[n + 1..] && s[1..][..n] == s[..n + 1][1..];
    }
  }

  lemma {:induction false} StripRightMeans(s: string)
    ensures AllSpace(s[|StripRight(s)|..])
  {
    if s != "" && IsSpace(Last(s)) {
      StripRightMeans(Init(s));
      var n := |StripRight(s)|;
      assert s[n..] == Init(s)[n..] + [Last(s)];
    }
  }

  /** Stripping takes exactly the whitespace off both ends. */
  lemma StripMeans(s: string, r: string)
    ensures r == Strip(s) <==> StrippedFrom(s, r)
  {
    var t := StripLeft(s);
    StripLeftMeans(s);
    StripRightMeans(t);
    assert s == s[..|s| - |t|] + Strip(s) + t[|Strip(s)|..];
    assert Surrounds(s, s[..|s| - |t|], Strip(s), t[|Strip(s)|..]);
    if Strip(s) != "" {
      assert Strip(s)[0] == t[0];
    }
    if before, after :| Surrounds(s, before, r, after) && StrippedFrom(s, r) {
      StripOff(before, r, after);
    }
  }

  predicate Surrounds(s: string, before: string, r: string, after: string) {
    s == before + r + after && AllSpace(before) && AllSpace(after)
  }

  ghost predicate StrippedFrom(s: string, r: string) {
    (r == "" || (!IsSpace(r[0]) && !IsSpace(Last(r)))) && exists before, after :: Surrounds(s, before, r, after)
  }

  lemma {:induction false} StripOff(before: string, r: string, after: string)
    requires AllSpace(before) && AllSpace(after) && (r == "" || (!IsSpace(r[0]) && !IsSpace(Last(r))))
    ensures Strip(before + r + after) == r
  {
    if before != "" {
      StripOff(before[1..], r, after);
      assert (before + r + after)[1..] == before[1..] + r + after;
    } else if r == "" {
      assert before + r + after == after;
      SpaceOnly(after);
    } else {
      assert before + r + after == r + after;
      StripAfter(r, after);
    }
  }

  lemma {:induction false} SpaceOnly(s: string)
    requires AllSpace(s)
    ensures StripLeft(s) == ""
  {
    if s != "" {
      SpaceOnly(s[1..]);
    }
  }

  lemma {:induction false} StripAfter(r: string, after: string)
    requires AllSpace(after) && r != "" && !IsSpace(Last(r))
    ensures StripRight(r + after) == r
  {
    if after == "" {
      assert r + after == r;
    } else {
      StripAfter(r, Init(after));
      assert Init(r + after) == r + Init(after) && Last(r + after) == Last(after);
    }
  }

  predicate AllBlank(s: string) {
    forall i :: 0 <= i < |s| ==> IsBlank(s[i])
  }

  lemma {:induction false} SkipBlanksMeans(s: string)
    ensures SkipBlanks(s) == s[|s| - |SkipBlanks(s)|..] && AllBlank(s[..|s| - |SkipBlanks(s)|])
    ensures StripLeft(SkipBlanks(s)) == StripLeft(s)
  {
    if s != "" && IsBlank(s[0]) {
      SkipBlanksMeans(s[1..]);
      var n := |s[1..]| - |SkipBlanks(s)|;
      assert s[1..][n..] == s[n + 1..] && s[1..][..n] == s[..n + 1][1..];
    }
  }

  lemma {:induction false} SkipAll(blanks: string, rest: string)
    requires AllBlank(blanks) && (rest != "" ==> !IsBlank(rest[0]))
    ensures SkipBlanks(blanks + rest) == rest
  {
    if blanks == "" {
      assert blanks + rest == rest;
    } else {
      SkipAll(blanks[1..], rest);
      assert (blanks + rest)[1..] == blanks[1..] + rest;
    }
  }

  lemma {:induction false} KeyLengthMeans(s: string)
    ensures forall i :: 0 <= i < KeyLength(s) ==> IsKeyChar(s[i])
  {
    if s != "" && IsKeyChar(s[0]) {
      KeyLengthMeans(s[1..]);
    }
  }

  ghost predicate IsField(line: string, f: Field, blanks: string, rest: string) {
    && line == "-" + blanks + f.key + (":" + rest)
    && blanks != "" && AllBlank(blanks) && IsKey(f.key) && f.value == Strip(rest)
  }

  lemma FieldRead(line: string, f: Field, blanks: string, rest: string)
    requires IsField(line, f, blanks, rest)
    ensures FieldOf(line) == Some(f)
  {
    hide Strip;
    var more := f.key + (":" + rest);
    assert line[1..] == blanks + more;
    assert IsKeyChar(more[0]);
    SkipAll(blanks, more);
    KeyWhole(f.key, ":" + rest);
    assert more[..|f.key|] == f.key && more[|f.key| + 1..] == rest;
    StripSkips(rest);
  }

  lemma StripSkips(s: string)
    ensures Strip(SkipBlanks(s)) == Strip(s)
  {
    SkipBlanksMeans(s);
  }

  /** A field line is a dash, blanks, a key, a colon and the value between whitespace; nothing else is one. */
  lemma FieldIff(line: string, f: Field)
    ensures FieldOf(line) == Some(f) <==> exists blanks, rest :: IsField(line, f, blanks, rest)
  {
    if FieldOf(line) == Some(f) {
      FieldParts(line, f);
    }
    if blanks, rest :| IsField(line, f, blanks, rest) {
      FieldRead(line, f, blanks, rest);
    }
  }

  lemma FieldShape(line: string, f: Field)
    requires FieldOf(line) == Some(f)
    ensures line != "" && line[0] == '-'
    ensures var more := SkipBlanks(line[1..]); var n := KeyLength(more);
            && |more| < |line| - 1 && 0 < n < |more| && IsKeyStart(more[0]) && more[n] == ':'
            && f == Field(more[..n], Strip(SkipBlanks(more[n + 1..])))
  {
    hide Strip, SkipBlanks, KeyLength, IsKeyStart;
  }

  lemma FieldParts(line: string, f: Field)
    requires FieldOf(line) == Some(f)
    ensures exists blanks, rest :: IsField(line, f, blanks, rest)
  {
    hide FieldOf, Strip, KeyLength, SkipBlanks, IsBlank, IsKeyStart, IsKeyChar;
    FieldShape(line, f);
    var more := SkipBlanks(line[1..]);
    var n := KeyLength(more);
    var k := |line| - |more|;
    SkipBlanksMeans(line[1..]);
    KeyLengthMeans(more);
    KeyStartIsKey(more[0]);
    StripSkips(more[n + 1..]);
    Reassembled(line, k, k + n);
    assert IsField(line, f, line[1..k], more[n + 1..]);
  }

  lemma KeyStartIsKey(c: char)
    ensures IsKeyStart(c) ==> IsKeyChar(c)
  {
  }

  lemma Reassembled(line: string, k: nat, n: nat)
    requires 1 <= k <= n < |line| && line[0] == '-' && line[n] == ':'
    ensures line[k..] == line[1..][k - 1..] && line[1..k] == line[1..][..k - 1]
    ensures line == "-" + line[1..k] + line[k..][..n - k] + (":" + line[k..][n - k + 1..])
  {
    assert line[k..][..n - k] == line[k..n] && line[k..][n - k + 1..] == line[n + 1..];
    assert line == line[..1] + line[1..k] + line[k..n] + (line[n..n + 1] + line[n + 1..]);
  }

  predicate IsBreakText(s: string) {
    (|s| == 2 && s[0] == '\r' && s[1] == '\n') || (|s| == 1 && IsBreak(s[0]))
  }

  /** The text is these lines with these ends: no line holds a break, only the last may lack one, if it is not
      empty, and no carriage return stands before a newline that is an end of its own. */
  ghost predicate SplitUp(s: string, lines: seq<string>, ends: seq<string>)
    decreases |lines|
  {
    && |ends| == |lines|
    && if lines == [] then s == ""
       else
         var n := |lines[0]| + |ends[0]|;
         && n <= |s| && s[..n] == lines[0] + ends[0]
         && (forall c :: c in lines[0] ==> !IsBreak(c))
         && if ends[0] == "" then lines[0] != "" && |lines| == 1 && n == |s|
            else
              && IsBreakText(ends[0]) && SplitUp(s[n..], lines[1..], ends[1..])
              && (Last(ends[0]) == '\r' && n < |s| ==> s[n] != '\n')
  }

  lemma {:induction false} SplitLinesAre(s: string) returns (ends: seq<string>)
    ensures SplitUp(s, SplitLines(s), ends)
    decreases |s|
  {
    if s == "" {
      ends := [];
    } else {
      var n := UntilBreak(s);
      if n == |s| {
        ends := [""];
        assert s[..n] == s + "";
      } else {
        var after := if s[n] == '\r' && n + 1 < |s| && s[n + 1] == '\n' then n + 2 else n + 1;
        var more := SplitLinesAre(s[after..]);
        assert s[n] == s[n..after][0] && (after == n + 2 ==> s[n + 1] == s[n..after][1]);
        LineBefore(s, n, after, SplitLines(s[after..]), more);
        ends := [s[n..after]] + more;
      }
    }
  }

  lemma LineBefore(s: string, n: nat, after: nat, lines: seq<string>, ends: seq<string>)
    requires n < after <= |s| && (forall i :: 0 <= i < n ==> !IsBreak(s[i])) && IsBreakText(s[n..after])
    requires s[after - 1] == '\r' && after < |s| ==> s[after] != '\n'
    requires SplitUp(s[after..], lines, ends)
    ensures SplitUp(s, [s[..n]] + lines, [s[n..after]] + ends)
  {
    hide IsBreak, IsBreakText;
    assert ([s[..n]] + lines)[1..] == lines && ([s[n..after]] + ends)[1..] == ends;
    assert s[..after] == s[..n] + s[n..after];
    assert Last(s[n..after]) == s[after - 1];
  }

  lemma FirstBreakAt(s: string, k: nat)
    requires k <= |s| && (forall i :: 0 <= i < k ==> !IsBreak(s[i])) && (k < |s| ==> IsBreak(s[k]))
    ensures UntilBreak(s) == k
  {
    hide IsBreak;
  }

  lemma Unfolded(s: string, k: nat, n: nat)
    requires UntilBreak(s) == k < |s|
    requires n == if s[k] == '\r' && k + 1 < |s| && s[k + 1] == '\n' then k + 2 else k + 1
    ensures SplitLines(s) == [s[..k]] + SplitLines(s[n..])
  {
    hide UntilBreak;
  }

  /** The line before the first break. */
  lemma FirstSplit(s: string, k: nat, n: nat)
    requires k < n <= |s| && (forall i :: 0 <= i < k ==> !IsBreak(s[i]))
    requires (n == k + 2 && s[k] == '\r' && s[k + 1] == '\n') || (n == k + 1 && IsBreak(s[k]))
    requires s[n - 1] == '\r' && n < |s| ==> s[n] != '\n'
    ensures SplitLines(s) == [s[..k]] + SplitLines(s[n..])
  {
    hide UntilBreak, SplitLines;
    assert IsBreak('\r');
    hide IsBreak;
    FirstBreakAt(s, k);
    Unfolded(s, k, n);
  }

  lemma HeadParts(s: string, line: string, end: string)
    requires |line| + |end| <= |s| && s[..|line| + |end|] == line + end
    ensures s[..|line|] == line && s[|line|..|line| + |end|] == end
  {
    var h := s[..|line| + |end|];
    assert h[..|line|] == line && h[|line|..] == end;
    assert s[|line|..|line| + |end|] == h[|line|..] && s[..|line|] == h[..|line|];
  }

  lemma EndAt(s: string, k: nat, n: nat)
    requires k <= n <= |s| && IsBreakText(s[k..n])
    ensures (n == k + 2 && s[k] == '\r' && s[k + 1] == '\n') || (n == k + 1 && IsBreak(s[k]))
    ensures Last(s[k..n]) == s[n - 1]
  {
    hide IsBreak;
    assert s[k..n][0] == s[k] && s[k..n][n - k - 1] == s[n - 1];
  }

  lemma OnlyLine(s: string, line: string)
    requires s == line && line != "" && forall c :: c in line ==> !IsBreak(c)
    ensures SplitLines(s) == [line]
  {
    forall i | 0 <= i < |s| ensures !IsBreak(s[i]) {
      assert s[i] in line;
    }
    FirstBreakAt(s, |s|);
  }

  lemma {:induction false} OneSplit(s: string, lines: seq<string>, ends: seq<string>)
    requires SplitUp(s, lines, ends)
    ensures lines == SplitLines(s)
    decreases |lines|
  {
    hide IsBreak, IsBreakText, SplitLines;
    if lines == [] {
      NoLines(s);
    } else if ends[0] == "" {
      assert s[..|s|] == s && lines[0] + "" == lines[0];
      OnlyLine(s, lines[0]);
      assert lines == [lines[0]];
    } else {
      OneSplit(s[|lines[0]| + |ends[0]|..], lines[1..], ends[1..]);
      HeadParts(s, lines[0], ends[0]);
      forall i | 0 <= i < |lines[0]| ensures !IsBreak(s[i]) {
        assert s[..|lines[0]|][i] in lines[0];
      }
      EndAt(s, |lines[0]|, |lines[0]| + |ends[0]|);
      FirstSplit(s, |lines[0]|, |lines[0]| + |ends[0]|);
      assert lines == [lines[0]] + lines[1..];
    }
  }

  lemma NoLines(s: string)
    requires s == ""
    ensures SplitLines(s) == []
  {
  }

  /** Lines are cut at every break, a carriage return and the newline after it being one. */
  lemma SplitLinesMean(s: string, lines: seq<string>)
    ensures lines == SplitLines(s) <==> exists ends :: SplitUp(s, lines, ends)
  {
    hide SplitUp;
    var parts := SplitLinesAre(s);
    assert SplitUp(s, SplitLines(s), parts);
    if ends :| SplitUp(s, lines, ends) {
      OneSplit(s, lines, ends);
    }
  }

  // ---- values that survive a field line ----

  /** Reading the field line gives the value back. */
  predicate Tidy(value: string) {
    Strip(SkipBlanks(" " + value)) == value
  }

  lemma StripTwice(s: string)
    ensures Strip(Strip(s)) == Strip(s)
  {
    var r := Strip(s);
    if r != "" {
      assert r[0] == StripLeft(s)[0];
      StripTight(r);
    }
  }

  lemma {:induction false} StripLeftShorter(s: string)
    ensures |StripLeft(s)| <= |s|
  {
    if s != "" && IsSpace(s[0]) {
      StripLeftShorter(s[1..]);
    }
  }

  lemma TightStart(value: string)
    requires Strip(value) == value && value != ""
    ensures !IsSpace(value[0])
  {
    assert value <= StripLeft(value);
    StripLeftShorter(value);
    assert value == StripLeft(value);
  }

  lemma StrippedIsTidy(value: string)
    requires Strip(value) == value
    ensures Tidy(value)
  {
    if value == "" {
      assert (" " + value)[1..] == "";
    } else {
      TightStart(value);
      OneBlank(value);
    }
  }

  lemma FieldValueStripped(line: string)
    requires FieldOf(line).Some?
    ensures Strip(FieldOf(line).value.value) == FieldOf(line).value.value
  {
    var rest := SkipBlanks(line[1..]);
    StripTwice(SkipBlanks(rest[KeyLength(rest) + 1..]));
  }

  lemma {:induction false} FieldsStripped(lines: seq<string>)
    ensures forall k :: k in FieldsOf(lines) ==> Strip(FieldsOf(lines)[k]) == FieldsOf(lines)[k]
  {
    if lines != [] {
      FieldsStripped(Init(lines));
      if FieldOf(Last(lines)).Some? {
        FieldValueStripped(Last(lines));
      }
    }
  }

  // ---- fields of joined lines ----

  lemma {:induction false} FieldsJoin(xs: seq<string>, ys: seq<string>)
    ensures FieldsOf(xs + ys) == FieldsOf(xs) + FieldsOf(ys)
  {
    if ys == [] {
      assert xs + ys == xs;
    } else {
      FieldsJoin(xs, Init(ys));
      assert Init(xs + ys) == xs + Init(ys) && Last(xs + ys) == Last(ys);
    }
  }

  lemma {:induction false} NoFields(lines: seq<string>)
    requires forall i :: 0 <= i < |lines| ==> FieldOf(lines[i]).None?
    ensures FieldsOf(lines) == map[]
  {
    if lines != [] {
      NoFields(Init(lines));
    }
  }

  /** One more field line. */
  lemma FieldAdded(lines: seq<string>, key: string, value: string)
    requires IsKey(key) && Tidy(value)
    ensures FieldsOf(lines + [FieldText(key, value)]) == FieldsOf(lines)[key := value]
  {
    FieldLine(key, value);
    SnocParts(lines, FieldText(key, value));
  }

  /** Lines without fields around the others. */
  lemma FieldsBetween(top: seq<string>, lines: seq<string>, bottom: seq<string>)
    requires FieldsOf(top) == map[] && FieldsOf(bottom) == map[]
    ensures FieldsOf(top + lines + bottom) == FieldsOf(lines)
  {
    FieldsJoin(top, lines);
    FieldsJoin(top + lines, bottom);
  }

  lemma PacketKeys()
    ensures IsKey("DISPATCH_ID") && IsKey("AUTHOR") && IsKey("TIMESTAMP") && IsKey(RELATED) && IsKey("STATUS")
    ensures IsKey("HANDOFF_STATUS") && IsKey("NEXT_ROLE") && IsKey("EXIT_CODE")
  {
  }

  lemma FiveFields(id: string, author: string, timestamp: string, inline: string)
    requires Tidy(id) && Tidy(author) && Tidy(timestamp) && Tidy(inline)
    ensures FieldsOf([] + [FieldText("DISPATCH_ID", id)] + [FieldText("AUTHOR", author)]
                     + [FieldText("TIMESTAMP", timestamp)] + [FieldText(RELATED, inline)]
                     + [FieldText("STATUS", "ready")])
         == FieldsOf([])["DISPATCH_ID" := id]["AUTHOR" := author]["TIMESTAMP" := timestamp][RELATED := inline]
                    ["STATUS" := "ready"]
  {
    hide FieldText, Tidy, FieldsOf, IsKey;
    PacketKeys();
    ConstantsTidy();
    var f1, f2, f3 := FieldText("DISPATCH_ID", id), FieldText("AUTHOR", author), FieldText("TIMESTAMP", timestamp);
    var f4 := FieldText(RELATED, inline);
    FieldAdded([], "DISPATCH_ID", id);
    FieldAdded([] + [f1], "AUTHOR", author);
    FieldAdded([] + [f1] + [f2], "TIMESTAMP", timestamp);
    FieldAdded([] + [f1] + [f2] + [f3], RELATED, inline);
    FieldAdded([] + [f1] + [f2] + [f3] + [f4], "STATUS", "ready");
  }

  lemma FourFields(id: string)
    requires Tidy(id)
    ensures FieldsOf([] + [FieldText("HANDOFF_STATUS", "COMPLETE")] + [FieldText("DISPATCH_ID", id)]
                     + [FieldText("NEXT_ROLE", "EXECUTOR_AI")] + [FieldText("EXIT_CODE", "0")])
         == FieldsOf([])["HANDOFF_STATUS" := "COMPLETE"]["DISPATCH_ID" := id]["NEXT_ROLE" := "EXECUTOR_AI"]
                    ["EXIT_CODE" := "0"]
  {
    hide FieldText, Tidy, FieldsOf, IsKey;
    PacketKeys();
    ConstantsTidy();
    var f1, f2 := FieldText("HANDOFF_STATUS", "COMPLETE"), FieldText("DISPATCH_ID", id);
    var f3 := FieldText("NEXT_ROLE", "EXECUTOR_AI");
    FieldAdded([], "HANDOFF_STATUS", "COMPLETE");
    FieldAdded([] + [f1], "DISPATCH_ID", id);
    FieldAdded([] + [f1] + [f2], "NEXT_ROLE", "EXECUTOR_AI");
    FieldAdded([] + [f1] + [f2] + [f3], "EXIT_CODE", "0");
  }

  lemma ConstantsTidy()
    ensures Tidy("ready") && Tidy("COMPLETE") && Tidy("EXECUTOR_AI") && Tidy("0")
  {
    StripTight("ready");
    StripTight("COMPLETE");
    StripTight("EXECUTOR_AI");
    StripTight("0");
    StrippedIsTidy("ready");
    StrippedIsTidy("COMPLETE");
    StrippedIsTidy("EXECUTOR_AI");
    StrippedIsTidy("0");
  }

  lemma FramesSilent(id: string)
    ensures FieldsOf(["# TASK \U{2014} " + id, ""]) == map[] && FieldsOf(["", "## Goal", ""]) == map[]
    ensures FieldsOf(["", FOOTER_MARK]) == map[] && FieldsOf([""]) == map[]
  {
    var title := ["# TASK \U{2014} " + id, ""];
    assert title[0][0] == '#' && ["", "## Goal", ""][1][0] == '#' && ["", FOOTER_MARK][1][0] == '<';
    NoFields(title);
    NoFields(["", "## Goal", ""]);
    NoFields(["", FOOTER_MARK]);
    NoFields([""]);
  }

  lemma HeaderParts(id: string, author: string, timestamp: string, inline: string)
    ensures Header(id, author, timestamp, inline)
         == ["# TASK \U{2014} " + id, ""]
            + ([] + [FieldText("DISPATCH_ID", id)] + [FieldText("AUTHOR", author)]
               + [FieldText("TIMESTAMP", timestamp)] + [FieldText(RELATED, inline)] + [FieldText("STATUS", "ready")])
            + ["", "## Goal", ""]
  {
    hide FieldText;
  }

  lemma FooterParts(id: string)
    ensures Footer(id)
         == ["", FOOTER_MARK]
            + ([] + [FieldText("HANDOFF_STATUS", "COMPLETE")] + [FieldText("DISPATCH_ID", id)]
               + [FieldText("NEXT_ROLE", "EXECUTOR_AI")] + [FieldText("EXIT_CODE", "0")])
            + [""]
  {
    hide FieldText;
  }

  lemma ScopeFields(inline: string)
    ensures FieldsOf(ScopeSection(inline)) == map[]
  {
    var s := ScopeSection(inline);
    assert s[1][0] == '#' && s[3][0] == 'M' && s[4][0] == 'M' && s[6][0] == '#';
    forall i | 0 <= i < |s| ensures FieldOf(s[i]).None? {
      assert i == 0 || i == 1 || i == 2 || i == 3 || i == 4 || i == 5 || i == 6 || i == 7;
    }
    NoFields(s);
  }

  lemma EscapedFields(text: string)
    ensures FieldsOf(EscapedLines(text)) == map[]
  {
    EscapedLinesSafe(text);
    NoFields(EscapedLines(text));
  }

  /** The fields of a packet: those of its header, with those of its footer written over them. */
  lemma PacketFields(id: string, author: string, timestamp: string, inline: string, goal: string, notes: string)
    requires Tidy(id) && Tidy(author) && Tidy(timestamp) && Tidy(inline)
    ensures FieldsOf(PacketLines(id, author, timestamp, inline, EscapedLines(goal), EscapedLines(notes)))
         == (FieldsOf([])["DISPATCH_ID" := id]["AUTHOR" := author]["TIMESTAMP" := timestamp][RELATED := inline]
                         ["STATUS" := "ready"])
            + (FieldsOf([])["HANDOFF_STATUS" := "COMPLETE"]["DISPATCH_ID" := id]["NEXT_ROLE" := "EXECUTOR_AI"]
                           ["EXIT_CODE" := "0"])
  {
    hide FieldsOf, Header, Footer, ScopeSection, EscapedLines, FieldText, Tidy;
    FramesSilent(id);
    HeaderParts(id, author, timestamp, inline);
    FooterParts(id);
    FiveFields(id, author, timestamp, inline);
    FourFields(id);
    HeaderOnly(id, author, timestamp, inline);
    FooterOnly(id);
    SectionsJoin(Header(id, author, timestamp, inline), goal, inline, notes, Footer(id));
  }

  lemma HeaderOnly(id: string, author: string, timestamp: string, inline: string)
    ensures FieldsOf(Header(id, author, timestamp, inline))
         == FieldsOf([] + [FieldText("DISPATCH_ID", id)] + [FieldText("AUTHOR", author)]
                     + [FieldText("TIMESTAMP", timestamp)] + [FieldText(RELATED, inline)]
                     + [FieldText("STATUS", "ready")])
  {
    hide FieldsOf, Header, FieldText;
    FramesSilent(id);
    HeaderParts(id, author, timestamp, inline);
    FieldsBetween(["# TASK \U{2014} " + id, ""],
                  [] + [FieldText("DISPATCH_ID", id)] + [FieldText("AUTHOR", author)]
                  + [FieldText("TIMESTAMP", timestamp)] + [FieldText(RELATED, inline)] + [FieldText("STATUS", "ready")],
                  ["", "## Goal", ""]);
  }

  lemma FooterOnly(id: string)
    ensures FieldsOf(Footer(id))
         == FieldsOf([] + [FieldText("HANDOFF_STATUS", "COMPLETE")] + [FieldText("DISPATCH_ID", id)]
                     + [FieldText("NEXT_ROLE", "EXECUTOR_AI")] + [FieldText("EXIT_CODE", "0")])
  {
    hide FieldsOf, Footer, FieldText;
    FramesSilent(id);
    FooterParts(id);
    FieldsBetween(["", FOOTER_MARK],
                  [] + [FieldText("HANDOFF_STATUS", "COMPLETE")] + [FieldText("DISPATCH_ID", id)]
                  + [FieldText("NEXT_ROLE", "EXECUTOR_AI")] + [FieldText("EXIT_CODE", "0")],
                  [""]);
  }

  lemma SectionsJoin(h: seq<string>, goal: string, inline: string, notes: string, f: seq<string>)
    ensures FieldsOf(h + EscapedLines(goal) + ScopeSection(inline) + EscapedLines(notes) + f)
         == FieldsOf(h) + FieldsOf(f)
  {
    hide FieldsOf, ScopeSection, EscapedLines;
    var g, s, n := EscapedLines(goal), ScopeSection(inline), EscapedLines(notes);
    EscapedFields(goal);
    EscapedFields(notes);
    ScopeFields(inline);
    FieldsJoin(h, g);
    FieldsJoin(h + g, s);
    FieldsJoin(h + g + s, n);
    FieldsJoin(h + g + s + n, f);
  }

  // ---- what a rendered packet says ----

  lemma InlineTidy(files: seq<string>)
    requires files != []
    ensures Tidy(Inline(files))
  {
    var inline := Inline(files);
    InlineEnds(files);
    OneBlank(inline);
    StripTight(inline);
  }

  lemma ScaffoldTidy(scaffold: string)
    ensures forall k :: k in ParseFields(scaffold) ==> NoNewline(ParseFields(scaffold)[k])
    ensures forall k :: k in ParseFields(scaffold) ==> Tidy(ParseFields(scaffold)[k])
  {
    hide Tidy;
    ScaffoldOneLine(scaffold);
    FieldsStripped(Lines(scaffold));
    forall k | k in ParseFields(scaffold) ensures Tidy(ParseFields(scaffold)[k]) {
      StrippedIsTidy(ParseFields(scaffold)[k]);
    }
  }

  /** The scaffold's own field, or the default where it has none. */
  function FromScaffold(scaffold: string, key: string, default: string): string {
    if key in ParseFields(scaffold) then ParseFields(scaffold)[key] else default
  }

  /** Each line of the text stands as it is, or quoted when it would read as a field. No text is one empty line. */
  predicate Shows(section: seq<string>, text: string) {
    var lines := SplitLines(text);
    if lines == [] then section == [""]
    else
      && |section| == |lines|
      && forall i :: 0 <= i < |lines| ==> section[i] == (if FieldOf(lines[i]).Some? then "> " else "") + lines[i]
  }

  lemma EscapedShows(text: string)
    ensures Shows(EscapedLines(text), text)
  {
  }

  /** What the renderer accepts: the scaffold's dispatch, some files, each one token, and a goal. */
  lemma RendersIff(plan: Plan, scaffold: string, now: string)
    ensures RenderTaskPacket(plan, scaffold, now).Some?
       <==> && "DISPATCH_ID" in ParseFields(scaffold) && ParseFields(scaffold)["DISPATCH_ID"] == Strip(plan.dispatchId)
            && plan.relatedFiles != [] && Strip(plan.goal) != ""
            && forall f :: f in plan.relatedFiles ==>
                             Strip(f) != "" && forall c :: c in Strip(f) ==> c != '`' && c != ',' && !IsSpace(c)
  {
    hide FieldsOf, Strip, ParseFields, IsSpace;
    var files := Stripped(plan.relatedFiles);
    forall i | 0 <= i < |files|
      ensures IsToken(files[i]) <==> Strip(plan.relatedFiles[i]) != ""
                                     && forall c :: c in Strip(plan.relatedFiles[i]) ==> !IsDelimiter(c)
    {
      assert files[i] == Strip(plan.relatedFiles[i]);
    }
    if RenderTaskPacket(plan, scaffold, now).Some? {
      forall f | f in plan.relatedFiles
        ensures Strip(f) != "" && forall c :: c in Strip(f) ==> c != '`' && c != ',' && !IsSpace(c)
      {
        var i :| 0 <= i < |files| && plan.relatedFiles[i] == f;
        assert IsToken(files[i]);
      }
    }
  }

  /** The fields read out of a rendered packet, all of them. */
  predicate PacketSaysExactly(
    fields: map<string, string>, id: string, author: string, timestamp: string, files: seq<string>)
  {
    && fields.Keys == {"DISPATCH_ID", "AUTHOR", "TIMESTAMP", "RELATED_FILES", "STATUS",
                       "HANDOFF_STATUS", "NEXT_ROLE", "EXIT_CODE"}
    && fields["DISPATCH_ID"] == id && fields["AUTHOR"] == author && fields["TIMESTAMP"] == timestamp
    && ParseScopeGlobs(fields["RELATED_FILES"]) == files && fields["STATUS"] == "ready"
    && fields["HANDOFF_STATUS"] == "COMPLETE" && fields["NEXT_ROLE"] == "EXECUTOR_AI" && fields["EXIT_CODE"] == "0"
  }

  /** The goal follows the ten header lines, eight fixed lines separate it from the notes, and seven follow. */
  ghost predicate BodyShows(lines: seq<string>, goal: string, notes: string) {
    exists g, n :: 10 <= g && g + 8 <= n && n + 7 == |lines| && SplitAt(lines, g, n, goal, notes)
  }

  predicate SplitAt(lines: seq<string>, g: nat, n: nat, goal: string, notes: string) {
    10 <= g && g + 8 <= n && n <= |lines| && Shows(lines[10..g], goal) && Shows(lines[g + 8..n], notes)
  }

  lemma PartsShow(h: seq<string>, g: seq<string>, s: seq<string>, n: seq<string>, f: seq<string>,
                  goal: string, notes: string)
    requires |h| == 10 && |s| == 8 && |f| == 7 && Shows(g, goal) && Shows(n, notes)
    ensures BodyShows(h + g + s + n + f, goal, notes)
  {
    hide Shows;
    var lines := h + g + s + n + f;
    var a, b := 10 + |g|, 18 + |g| + |n|;
    assert lines[10..a] == g && lines[a + 8..b] == n;
    assert SplitAt(lines, a, b, goal, notes);
  }

  lemma SectionsShow(id: string, author: string, timestamp: string, inline: string, goal: string, notes: string)
    ensures BodyShows(
              PacketLines(id, author, timestamp, inline, EscapedLines(goal), EscapedLines(notes)), goal, notes)
  {
    hide Shows, EscapedLines, FieldText, BodyShows;
    EscapedShows(goal);
    EscapedShows(notes);
    PartsShow(Header(id, author, timestamp, inline), EscapedLines(goal), ScopeSection(inline), EscapedLines(notes),
              Footer(id), goal, notes);
  }

  lemma DefaultAuthor()
    ensures NoNewline("planner:codex") && Tidy("planner:codex")
  {
    StripTight("planner:codex");
    StrippedIsTidy("planner:codex");
  }

  /** The fields of the written lines, as the reader wants them. */
  lemma LinesSayExactly(id: string, author: string, timestamp: string, files: seq<string>, goal: string, notes: string)
    requires Tidy(id) && Tidy(author) && Tidy(timestamp)
    requires files != [] && forall i :: 0 <= i < |files| ==> IsToken(files[i])
    ensures PacketSaysExactly(
              FieldsOf(PacketLines(id, author, timestamp, Inline(files), EscapedLines(goal), EscapedLines(notes))),
              id, author, timestamp, files)
  {
    hide FieldsOf, Tidy, Inline, ParseScopeGlobs, EscapedLines, PacketLines, PacketSaysExactly;
    InlineTidy(files);
    InlineParses(files);
    PacketFields(id, author, timestamp, Inline(files), goal, notes);
    FieldsMerge(id, author, timestamp, files);
  }

  lemma FieldsMerge(id: string, author: string, timestamp: string, files: seq<string>)
    requires ParseScopeGlobs(Inline(files)) == files
    ensures PacketSaysExactly(
              (FieldsOf([])["DISPATCH_ID" := id]["AUTHOR" := author]["TIMESTAMP" := timestamp][RELATED := Inline(files)]
                           ["STATUS" := "ready"])
              + (FieldsOf([])["HANDOFF_STATUS" := "COMPLETE"]["DISPATCH_ID" := id]["NEXT_ROLE" := "EXECUTOR_AI"]
                             ["EXIT_CODE" := "0"]), id, author, timestamp, files)
  {
    hide ParseScopeGlobs, Inline;
  }

  /** A packet read back gives the plan's dispatch and files, the scaffold's author and time, and the fixed fields
      of a completed planning step, with no other field; its goal and notes are the plan's, line by line. */
  lemma PacketMeans(plan: Plan, scaffold: string, now: string)
    requires NoNewline(now) && Strip(now) == now && RenderTaskPacket(plan, scaffold, now).Some?
    ensures var packet := RenderTaskPacket(plan, scaffold, now).value;
            PacketSaysExactly(
              ParseFields(packet), Strip(plan.dispatchId), FromScaffold(scaffold, "AUTHOR", "planner:codex"),
              FromScaffold(scaffold, "TIMESTAMP", now), Stripped(plan.relatedFiles))
    ensures BodyShows(Lines(RenderTaskPacket(plan, scaffold, now).value), Strip(plan.goal),
                      if Strip(plan.notes) == "" then "No additional notes." else Strip(plan.notes))
  {
    hide FieldsOf, Lines, Joined, Strip, Tidy, PacketLines, EscapedLines, BodyShows, Inline, PacketSaysExactly;
    ScaffoldTidy(scaffold);
    var id, files := Strip(plan.dispatchId), Stripped(plan.relatedFiles);
    var author := FromScaffold(scaffold, "AUTHOR", "planner:codex");
    var timestamp := FromScaffold(scaffold, "TIMESTAMP", now);
    var goal, notes := Strip(plan.goal), if Strip(plan.notes) == "" then "No additional notes." else Strip(plan.notes);
    DefaultAuthor();
    StrippedIsTidy(now);
    InlineOneLine(files);
    PacketIsLines(id, author, timestamp, Inline(files), goal, notes);
    var lines := PacketLines(id, author, timestamp, Inline(files), EscapedLines(goal), EscapedLines(notes));
    JoinedLines(lines);
    LinesSayExactly(id, author, timestamp, files, goal, notes);
    SectionsShow(id, author, timestamp, Inline(files), goal, notes);
    assert RenderTaskPacket(plan, scaffold, now) == Some(Joined(lines));
  }
}
