/** Parsing If-None-Match and comparing entity tags weakly (sections 8.8.3 and 13.1.2 of RFC 9110). */
module EntityTags {
  import opened Common
  import opened Texts

  // ---- the grammar ----

  predicate IsEtagChar(c: char) {
    c == '!' || '#' <= c <= '~' || (0x80 as char) <= c <= (0xff as char)
  }

  predicate AllEtagChars(s: string) {
    forall i :: 0 <= i < |s| ==> IsEtagChar(s[i])
  }

  predicate AllBlank(s: string) {
    forall i :: 0 <= i < |s| ==> IsBlank(s[i])
  }

  /** An entity tag: an optional weakness flag and a quoted opaque text. */
  datatype Tag = Tag(weak: bool, body: string)

  predicate ValidTag(t: Tag) {
    AllEtagChars(t.body)
  }

  function Quoted(body: string): string {
    ['"'] + body + ['"']
  }

  function Text(t: Tag): string {
    (if t.weak then "W/" else "") + Quoted(t.body)
  }

  ghost predicate IsTagText(s: string) {
    exists t :: ValidTag(t) && Text(t) == s
  }

  /** The blanks around one comma. */
  datatype Gap = Gap(before: string, after: string)

  predicate ValidGap(g: Gap) {
    AllBlank(g.before) && AllBlank(g.after)
  }

  /** One printing of a nonempty tag list. */
  function Print(tags: seq<string>, gaps: seq<Gap>): string
    requires |tags| == |gaps| + 1
  {
    if gaps == [] then tags[0]
    else tags[0] + gaps[0].before + "," + gaps[0].after + Print(tags[1..], gaps[1..])
  }

  ghost predicate IsListing(s: string, tags: seq<string>, gaps: seq<Gap>) {
    && |tags| == |gaps| + 1
    && (forall i :: 0 <= i < |tags| ==> IsTagText(tags[i]))
    && (forall i :: 0 <= i < |gaps| ==> ValidGap(gaps[i]))
    && s == Print(tags, gaps)
  }

  // ---- the scanner ----

  function BodyLength(s: string): (n: nat)
    ensures n <= |s| && AllEtagChars(s[..n]) && (n < |s| ==> !IsEtagChar(s[n]))
  {
    if s != "" && IsEtagChar(s[0]) then 1 + BodyLength(s[1..]) else 0
  }

  function OpaqueLength(s: string): (n: nat)
    ensures n <= |s|
  {
    if s == "" || s[0] != '"' then 0
    else
      var n := BodyLength(s[1..]);
      if n + 1 < |s| && s[n + 1] == '"' then n + 2 else 0
  }

  /** The length of the tag that `s` starts with; zero when it starts with none. */
  function TagLength(s: string): (n: nat)
    ensures n <= |s|
  {
    if "W/" <= s then
      var n := OpaqueLength(s[2..]);
      if n == 0 then 0 else n + 2
    else OpaqueLength(s)
  }

  /** What the scanner finds at the front of a text: a last tag, or a tag, a comma and more. */
  datatype Front = Malformed | LastTag(tag: string) | Another(tag: string, rest: string)

  function ReadFront(s: string): (f: Front)
    ensures f.Another? ==> f.rest != "" && |f.rest| < |s|
  {
    var n := TagLength(s);
    if n == 0 then Malformed
    else
      var rest := SkipBlanks(s[n..]);
      if rest == "" then LastTag(s[..n])
      else if rest[0] != ',' then Malformed
      else
        var next := SkipBlanks(rest[1..]);
        if next == "" then Malformed else Another(s[..n], next)
  }

  function ParseList(s: string): Option<seq<string>>
    decreases |s|
  {
    match ReadFront(s)
    case Malformed => None
    case LastTag(tag) => Some([tag])
    case Another(tag, rest) => Prepend([tag], ParseList(rest))
  }

  function Parse(value: string): Option<seq<string>> {
    var text := Strip(value);
    if text == "*" then Some(["*"]) else if text == "" then None else ParseList(text)
  }

  /** The scanning loop: a position that only moves forward. */
  method ParseIfNoneMatch(value: string) returns (r: Option<seq<string>>)
    ensures r == Parse(value)
  {
    hide ParseList, ReadFront, Strip, Prepend;
    var text := Strip(value);
    if text == "*" {
      return Some(["*"]);
    }
    if text == "" {
      return None;
    }
    var tags: seq<string> := [];
    var position := 0;
    ghost var rest := text;
    PrependNothing(ParseList(text));
    while position < |text|
      invariant 0 <= position < |text| && rest == text[position..]
      invariant ParseList(text) == Prepend(tags, ParseList(rest))
      decreases |text| - position
    {
      var front, used := ReadTag(text[position..]);
      TurnRead(tags, rest, ParseList(text));
      if front.Malformed? {
        return None;
      }
      tags := tags + [front.tag];
      if front.LastTag? {
        break;
      }
      Slices(text, position, used);
      position := position + used;
      rest := front.rest;
    }
    return Some(tags);
  }

  /** What one turn settles about the whole list. */
  lemma TurnRead(tags: seq<string>, rest: string, whole: Option<seq<string>>)
    requires whole == Prepend(tags, ParseList(rest))
    ensures match ReadFront(rest)
            case Malformed => whole == None
            case LastTag(tag) => whole == Some(tags + [tag])
            case Another(tag, more) => whole == Prepend(tags + [tag], ParseList(more))
  {
    match ReadFront(rest) {
      case Another(tag, more) => PrependTwice(tags, tag, ParseList(more));
      case _ =>
    }
  }

  /** One turn from the current position: a tag, blanks, and either the end or a comma, blanks and
      something more. */
  method ReadTag(s: string) returns (front: Front, used: nat)
    ensures front == ReadFront(s)
    ensures front.Another? ==> 0 < used < |s| && front.rest == s[used..]
  {
    var n := TagLength(s);
    if n == 0 {
      return Malformed, 0;
    }
    var position := SkipFrom(s, n);
    FrontAfter(s, n, s[..n], s[position..]);
    if position == |s| {
      return LastTag(s[..n]), position;
    }
    if s[position] != ',' {
      return Malformed, position;
    }
    assert s[position..][1..] == s[position + 1..];
    used := SkipFrom(s, position + 1);
    front := if used == |s| then Malformed else Another(s[..n], s[used..]);
  }

  lemma Slices(text: string, start: nat, n: nat)
    requires start + n <= |text|
    ensures text[start..][..n] == text[start..start + n] && text[start..][n..] == text[start + n..]
    ensures 0 < n ==> text[start..][0] == text[start]
  {
  }

  lemma FrontAfter(s: string, n: nat, tag: string, rest: string)
    requires 0 < n == TagLength(s) && tag == s[..n] && rest == SkipBlanks(s[n..])
    ensures ReadFront(s)
         == if rest == "" then LastTag(tag)
            else if rest[0] != ',' || SkipBlanks(rest[1..]) == "" then Malformed
            else Another(tag, SkipBlanks(rest[1..]))
  {
  }

  method SkipFrom(text: string, start: nat) returns (position: nat)
    requires start <= |text|
    ensures start <= position <= |text| && text[position..] == SkipBlanks(text[start..])
  {
    position := start;
    while position < |text| && IsBlank(text[position])
      invariant start <= position <= |text|
      invariant SkipBlanks(text[start..]) == SkipBlanks(text[position..])
    {
      assert text[position..][1..] == text[position + 1..];
      position := position + 1;
    }
  }

  function Prepend(tags: seq<string>, rest: Option<seq<string>>): Option<seq<string>> {
    match rest
    case None => None
    case Some(more) => Some(tags + more)
  }

  lemma PrependNothing(rest: Option<seq<string>>)
    ensures Prepend([], rest) == rest
  {
    if rest.Some? {
      assert [] + rest.value == rest.value;
    }
  }

  lemma PrependTwice(tags: seq<string>, tag: string, rest: Option<seq<string>>)
    ensures Prepend(tags, Prepend([tag], rest)) == Prepend(tags + [tag], rest)
  {
    if rest.Some? {
      assert tags + ([tag] + rest.value) == tags + [tag] + rest.value;
    }
  }

  // ---- the scanner follows the grammar ----

  lemma {:induction false} BodyIsWhole(body: string, rest: string)
    requires AllEtagChars(body) && rest != "" && rest[0] == '"'
    ensures BodyLength(body + rest) == |body|
  {
    if body == "" {
      assert body + rest == rest;
    } else {
      assert (body + rest)[1..] == body[1..] + rest;
      BodyIsWhole(body[1..], rest);
    }
  }

  lemma OpaqueRecognised(body: string, rest: string)
    requires AllEtagChars(body)
    ensures OpaqueLength(Quoted(body) + rest) == |Quoted(body)|
  {
    var s := Quoted(body) + rest;
    assert s[1..] == body + (['"'] + rest);
    BodyIsWhole(body, ['"'] + rest);
  }

  /** A tag is recognised in full, whatever follows it. */
  lemma TagRecognised(t: Tag, rest: string)
    requires ValidTag(t)
    ensures TagLength(Text(t) + rest) == |Text(t)|
  {
    hide OpaqueLength;
    OpaqueRecognised(t.body, rest);
    if t.weak {
      FlagRead(Quoted(t.body), rest);
      assert Text(t) == "W/" + Quoted(t.body);
    } else {
      QuoteRead(t.body, rest);
      assert Text(t) == Quoted(t.body);
    }
  }

  lemma FlagRead(quoted: string, rest: string)
    ensures var s := "W/" + quoted + rest; "W/" <= s && s[2..] == quoted + rest
  {
  }

  lemma QuoteRead(body: string, rest: string)
    ensures !("W/" <= Quoted(body) + rest)
  {
    assert (Quoted(body) + rest)[0] == '"' && "W/"[0] == 'W';
  }

  lemma OpaqueFound(s: string) returns (body: string)
    requires OpaqueLength(s) > 0
    ensures AllEtagChars(body) && s[..OpaqueLength(s)] == Quoted(body)
  {
    var n := BodyLength(s[1..]);
    body := s[1..n + 1];
    assert s[1..][..n] == body;
    assert s[..n + 2] == ['"'] + body + ['"'];
  }

  /** And only tags are recognised. */
  lemma TagFound(s: string)
    requires TagLength(s) > 0
    ensures IsTagText(s[..TagLength(s)])
  {
    if "W/" <= s {
      var body := OpaqueFound(s[2..]);
      var n := OpaqueLength(s[2..]);
      assert s[..n + 2] == "W/" + s[2..][..n];
      assert Text(Tag(true, body)) == s[..TagLength(s)];
      assert ValidTag(Tag(true, body));
    } else {
      var body := OpaqueFound(s);
      assert Text(Tag(false, body)) == "" + Quoted(body) == s[..TagLength(s)];
      assert ValidTag(Tag(false, body));
    }
  }

  lemma {:induction false} BlanksSkipped(blanks: string, rest: string)
    requires AllBlank(blanks) && (rest != "" ==> !IsBlank(rest[0]))
    ensures SkipBlanks(blanks + rest) == rest
  {
    if blanks == "" {
      assert blanks + rest == rest;
    } else {
      BlanksSkipped(blanks[1..], rest);
      assert (blanks + rest)[1..] == blanks[1..] + rest;
    }
  }

  lemma {:induction false} BlanksFound(s: string) returns (blanks: string)
    ensures AllBlank(blanks) && s == blanks + SkipBlanks(s)
  {
    hide AllBlank, IsBlank;
    if s != "" && IsBlank(s[0]) {
      var more := BlanksFound(s[1..]);
      blanks := [s[0]] + more;
      BlankMore(s[0], more, SkipBlanks(s[1..]));
      assert s == [s[0]] + s[1..];
    } else {
      blanks := "";
      NothingBlank();
      assert s == blanks + s;
    }
  }

  lemma NothingBlank()
    ensures AllBlank("")
  {
  }

  lemma BlankMore(c: char, blanks: string, rest: string)
    requires IsBlank(c) && AllBlank(blanks)
    ensures AllBlank([c] + blanks) && [c] + (blanks + rest) == [c] + blanks + rest
  {
  }

  lemma TagStarts(s: string)
    requires IsTagText(s)
    ensures |s| >= 2 && (s[0] == '"' || s[0] == 'W') && Last(s) == '"'
  {
    var t :| ValidTag(t) && Text(t) == s;
  }

  lemma PrintStarts(tags: seq<string>, gaps: seq<Gap>)
    requires |tags| == |gaps| + 1 && IsTagText(tags[0])
    ensures Print(tags, gaps) != "" && Print(tags, gaps)[0] == tags[0][0]
  {
    TagStarts(tags[0]);
  }

  /** One tag and the rest of the list, read off the front. */
  lemma ParseFront(tag: string, gap: Gap, more: string)
    requires IsTagText(tag) && ValidGap(gap) && more != "" && !IsBlank(more[0])
    ensures ParseList(tag + gap.before + "," + gap.after + more) == Prepend([tag], ParseList(more))
  {
    var t :| ValidTag(t) && Text(t) == tag;
    var tail := gap.before + ("," + (gap.after + more));
    var s := tag + gap.before + "," + gap.after + more;
    assert s == tag + tail;
    TagRecognised(t, tail);
    TagStarts(tag);
    assert s[|tag|..] == tail && s[..|tag|] == tag;
    BlanksSkipped(gap.before, "," + (gap.after + more));
    assert ("," + (gap.after + more))[1..] == gap.after + more;
    BlanksSkipped(gap.after, more);
  }

  lemma ParseOne(tag: string)
    requires IsTagText(tag)
    ensures ParseList(tag) == Some([tag])
  {
    var t :| ValidTag(t) && Text(t) == tag;
    TagRecognised(t, "");
    TagStarts(tag);
    assert tag + "" == tag && tag[|tag|..] == "" && tag[..|tag|] == tag;
  }

  lemma ListingSplit(s: string, tags: seq<string>, gaps: seq<Gap>) returns (more: string)
    requires IsListing(s, tags, gaps) && gaps != []
    ensures IsListing(more, tags[1..], gaps[1..]) && more != "" && !IsBlank(more[0])
    ensures IsTagText(tags[0]) && ValidGap(gaps[0]) && s == tags[0] + gaps[0].before + "," + gaps[0].after + more
  {
    more := Print(tags[1..], gaps[1..]);
    PrintStarts(tags[1..], gaps[1..]);
    TagStarts(tags[1]);
  }

  /** Every printing parses back to its tags. */
  lemma {:induction false} PrintingParses(s: string, tags: seq<string>, gaps: seq<Gap>)
    requires IsListing(s, tags, gaps)
    ensures ParseList(s) == Some(tags)
    decreases |tags|
  {
    hide ParseList, IsTagText, ValidGap;
    if gaps == [] {
      ParseOne(tags[0]);
      assert tags == [tags[0]];
    } else {
      var tag, others, gap := tags[0], tags[1..], gaps[0];
      var more := ListingSplit(s, tags, gaps);
      PrintingParses(more, others, gaps[1..]);
      ParseFront(tag, gap, more);
      assert [tag] + others == tags;
    }
  }

  /** What a successful step of the scanner has read. */
  lemma FrontRead(s: string) returns (tag: string, gap: Gap, more: string)
    requires ParseList(s).Some? && s != "" && !IsBlank(Last(s))
    ensures IsTagText(tag)
    ensures more == "" ==> s == tag && ParseList(s) == Some([tag])
    ensures more != "" ==>
              && ValidGap(gap) && |more| < |s| && Last(more) == Last(s)
              && s == tag + gap.before + "," + gap.after + more && ParseList(s) == Prepend([tag], ParseList(more))
  {
    var n := TagLength(s);
    tag := s[..n];
    TagFound(s);
    assert s == tag + s[n..];
    var before := BlanksFound(s[n..]);
    var rest := SkipBlanks(s[n..]);
    if rest == "" {
      NoTrailingBlank(tag, before);
      gap, more := Gap("", ""), "";
    } else {
      var after := BlanksFound(rest[1..]);
      gap, more := Gap(before, after), SkipBlanks(rest[1..]);
      Assembled(s, tag, before, rest, after, more);
    }
  }

  lemma NoTrailingBlank(tag: string, blanks: string)
    requires AllBlank(blanks) && tag + blanks != "" && !IsBlank(Last(tag + blanks))
    ensures blanks == "" && tag + blanks == tag
  {
    if blanks != "" {
      LastOfJoin(tag, blanks);
      assert false;
    }
  }

  lemma LastOfJoin(s: string, t: string)
    requires t != ""
    ensures Last(s + t) == Last(t)
  {
  }

  lemma Assembled(s: string, tag: string, before: string, rest: string, after: string, more: string)
    requires s == tag + (before + rest) && rest != "" && rest[0] == ',' && rest[1..] == after + more && more != ""
    ensures s == tag + before + "," + after + more && |more| < |s| && Last(more) == Last(s)
  {
    assert rest == "," + (after + more);
  }

  /** A tag and a gap put before a printing. */
  lemma PrintsMore(tag: string, gap: Gap, more: string, tags: seq<string>, gaps: seq<Gap>)
    requires IsTagText(tag) && ValidGap(gap) && IsListing(more, tags, gaps)
    ensures IsListing(tag + gap.before + "," + gap.after + more, [tag] + tags, [gap] + gaps)
  {
    hide IsTagText, ValidGap;
    var allTags, allGaps := [tag] + tags, [gap] + gaps;
    assert allTags[1..] == tags && allGaps[1..] == gaps;
  }

  lemma PrintsOne(tag: string)
    requires IsTagText(tag)
    ensures IsListing(tag, [tag], [])
  {
  }

  /** Whatever parses, and does not end in a blank, is a printing of the tags returned. */
  lemma {:induction false} ParsedIsPrinting(s: string) returns (gaps: seq<Gap>)
    requires ParseList(s).Some? && s != "" && !IsBlank(Last(s))
    ensures IsListing(s, ParseList(s).value, gaps)
    decreases |s|
  {
    hide ParseList, IsListing, IsTagText, ValidGap;
    var tag, gap, more := FrontRead(s);
    if more == "" {
      PrintsOne(tag);
      gaps := [];
    } else {
      var others := ParsedIsPrinting(more);
      PrintsMore(tag, gap, more, ParseList(more).value, others);
      gaps := [gap] + others;
    }
  }

  lemma BlankIsSpace()
    ensures forall c :: IsBlank(c) ==> IsSpace(c)
  {
  }

  /** The parser returns a tag list exactly for its printings with optional blanks around the commas,
      the star exactly for a star, and nothing for any other value. */
  lemma ParseMeans(value: string, r: seq<string>)
    ensures Parse(value) == Some(r) <==>
              || (Strip(value) == "*" && r == ["*"])
              || exists gaps :: IsListing(Strip(value), r, gaps)
  {
    var s := Strip(value);
    if Parse(value) == Some(r) && s != "*" {
      BlankIsSpace();
      var gaps := ParsedIsPrinting(s);
    }
    if gaps :| IsListing(s, r, gaps) {
      PrintingParses(s, r, gaps);
      PrintStarts(r, gaps);
      TagStarts(r[0]);
    }
  }

  // ---- comparison ----

  function WithoutWeakPrefix(tag: string): string {
    var value := Strip(tag);
    if "W/" <= value then StripLeft(value[2..]) else value
  }

  method IfNoneMatchMatches(value: Option<string>, current: string) returns (matched: bool)
    ensures matched == Matches(value, current)
  {
    if value.None? {
      return false;
    }
    var candidates := ParseIfNoneMatch(value.value);
    if candidates.None? {
      return false;
    }
    var wanted := WithoutWeakPrefix(current);
    return exists i :: 0 <= i < |candidates.value| &&
             (candidates.value[i] == "*" || WithoutWeakPrefix(candidates.value[i]) == wanted);
  }

  predicate Matches(value: Option<string>, current: string) {
    && value.Some? && Parse(value.value).Some?
    && var candidates := Parse(value.value).value;
       exists i :: 0 <= i < |candidates| &&
         (candidates[i] == "*" || WithoutWeakPrefix(candidates[i]) == WithoutWeakPrefix(current))
  }

  /** Weak comparison: the opaque texts are the same, whatever the weakness flags. */
  ghost predicate WeaklyEqual(a: string, b: string) {
    exists s, t :: ValidTag(s) && ValidTag(t) && Text(s) == a && Text(t) == b && s.body == t.body
  }

  lemma WithoutWeakOfTag(t: Tag)
    requires ValidTag(t)
    ensures WithoutWeakPrefix(Text(t)) == Quoted(t.body)
  {
    StripTight(Text(t));
    StripTight(Quoted(t.body));
    assert t.weak ==> Text(t)[..2] == "W/" && Text(t)[2..] == Quoted(t.body);
    assert !t.weak ==> Text(t) == Quoted(t.body);
  }

  lemma QuotedInjective(a: string, b: string)
    requires Quoted(a) == Quoted(b)
    ensures a == b
  {
    assert Quoted(a)[1..|a| + 1] == a;
    assert Quoted(b)[1..|b| + 1] == b;
  }

  lemma TextInjective(s: Tag, t: Tag)
    requires Text(s) == Text(t)
    ensures s == t
  {
    assert Text(s)[0] == (if s.weak then 'W' else '"');
    assert Text(t)[0] == (if t.weak then 'W' else '"');
    if s.weak {
      assert Text(s)[2..] == Quoted(s.body) && Text(t)[2..] == Quoted(t.body);
    } else {
      assert Text(s) == Quoted(s.body) && Text(t) == Quoted(t.body);
    }
    QuotedInjective(s.body, t.body);
  }

  lemma SameWithoutWeak(a: string, b: string)
    requires IsTagText(a) && IsTagText(b)
    ensures WithoutWeakPrefix(a) == WithoutWeakPrefix(b) <==> WeaklyEqual(a, b)
  {
    var s :| ValidTag(s) && Text(s) == a;
    var t :| ValidTag(t) && Text(t) == b;
    WithoutWeakOfTag(s);
    WithoutWeakOfTag(t);
    if WithoutWeakPrefix(a) == WithoutWeakPrefix(b) {
      QuotedInjective(s.body, t.body);
    }
    if s', t' :| ValidTag(s') && ValidTag(t') && Text(s') == a && Text(t') == b && s'.body == t'.body {
      TextInjective(s, s');
      TextInjective(t, t');
    }
  }

  /** A request matches exactly when its header is a star, or prints a tag list one of whose tags is
      weakly equal to the current one. */
  lemma MatchesMeans(value: Option<string>, current: string)
    requires IsTagText(current)
    ensures Matches(value, current) <==>
              value.Some? &&
              (|| Strip(value.value) == "*"
               || exists tags, gaps, i :: IsListing(Strip(value.value), tags, gaps)
                                          && 0 <= i < |tags| && WeaklyEqual(tags[i], current))
  {
    if value.Some? {
      var s := Strip(value.value);
      if Matches(value, current) && s != "*" {
        var tags := Parse(value.value).value;
        ParseMeans(value.value, tags);
        var gaps :| IsListing(s, tags, gaps);
        var i :| 0 <= i < |tags| && (tags[i] == "*" || WithoutWeakPrefix(tags[i]) == WithoutWeakPrefix(current));
        TagStarts(tags[i]);
        SameWithoutWeak(tags[i], current);
        assert IsListing(s, tags, gaps) && WeaklyEqual(tags[i], current);
      }
      if tags, gaps, i :| IsListing(s, tags, gaps) && 0 <= i < |tags| && WeaklyEqual(tags[i], current) {
        ParseMeans(value.value, tags);
        SameWithoutWeak(tags[i], current);
        assert Parse(value.value).value[i] == tags[i];
      }
      if s == "*" {
        assert Parse(value.value).value[0] == "*";
      }
    }
  }
}
