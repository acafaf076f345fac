/** Which paths a glob matches, without the matcher: a path is cut into one piece for every item of the glob. */
module GlobMeaning {
  import opened Common
  import opened ScopeGuard

  // ---- the items of a glob ----

  /** How an item is written. */
  function Spelling(item: Item): string {
    match item
    case Star(slashes) => if slashes then "**" else "*"
    case One => "?"
    case Exactly(c) => [c]
  }

  function Spelled(items: seq<Item>): string {
    if items == [] then "" else Spelling(items[0]) + Spelled(items[1..])
  }

  /** Wildcards are not literals, and two stars in a row are read as one double star. */
  ghost predicate Reading(items: seq<Item>) {
    && (forall i :: 0 <= i < |items| && items[i].Exactly? ==> items[i].c != '*' && items[i].c != '?')
    && (forall i :: 0 <= i < |items| - 1 && items[i] == Star(false) ==> !items[i + 1].Star?)
  }

  lemma ReadingTail(items: seq<Item>)
    requires items != [] && Reading(items)
    ensures Reading(items[1..])
  {
  }

  /** A glob without a leading star is not read with one. */
  lemma LeadingStar(items: seq<Item>)
    requires Reading(items)
    ensures Spelled(items) != "" && Spelled(items)[0] == '*' <==> items != [] && items[0].Star?
  {
    if items != [] {
      assert Spelled(items)[0] == Spelling(items[0])[0];
    }
  }

  /** How long the first item is written. */
  function FirstLength(s: string): (n: nat)
    requires s != ""
    ensures 0 < n <= |s|
  {
    if |s| >= 2 && s[0] == '*' && s[1] == '*' then 2 else 1
  }

  lemma FirstItem(s: string) returns (item: Item)
    requires s != ""
    ensures Items(s) == [item] + Items(s[FirstLength(s)..]) && Spelling(item) == s[..FirstLength(s)]
    ensures item.Exactly? ==> item.c != '*' && item.c != '?'
    ensures item == Star(false) ==> |s| == 1 || s[1] != '*'
  {
    item := if FirstLength(s) == 2 then Star(true)
            else if s[0] == '*' then Star(false) else if s[0] == '?' then One else Exactly(s[0]);
  }

  lemma {:induction false} ItemsRead(s: string)
    ensures Reading(Items(s)) && Spelled(Items(s)) == s
    decreases |s|
  {
    if s != "" {
      hide Items, Spelling;
      var n := FirstLength(s);
      var rest := Items(s[n..]);
      var item := FirstItem(s);
      ItemsRead(s[n..]);
      LeadingStar(rest);
      assert ([item] + rest)[1..] == rest;
      assert s == s[..n] + s[n..];
    }
  }

  /** The items of a glob are its one reading. */
  lemma {:induction false} OneReading(items: seq<Item>, s: string)
    requires Reading(items) && Spelled(items) == s
    ensures items == Items(s)
    decreases |items|
  {
    if items != [] {
      var rest := items[1..];
      ReadingTail(items);
      LeadingStar(rest);
      OneReading(rest, Spelled(rest));
      var n := |Spelling(items[0])|;
      assert s[..n] == Spelling(items[0]) && s[n..] == Spelled(rest);
      assert items == [items[0]] + rest;
    }
  }

  // ---- the pieces of a path ----

  /** What one item takes: a double star any stretch, a star any stretch inside a directory, a question mark one
      character inside a directory, anything else itself. No wildcard takes a newline. */
  ghost predicate Takes(item: Item, piece: string) {
    match item
    case Exactly(c) => piece == [c]
    case One => |piece| == 1 && piece[0] != '/' && piece[0] != '\n'
    case Star(slashes) => forall c :: c in piece ==> c != '\n' && (c == '/' ==> slashes)
  }

  function Concatenated(pieces: seq<string>): string {
    if pieces == [] then "" else pieces[0] + Concatenated(pieces[1..])
  }

  ghost predicate Cut(path: string, items: seq<Item>, pieces: seq<string>) {
    |pieces| == |items| && Concatenated(pieces) == path && forall i :: 0 <= i < |items| ==> Takes(items[i], pieces[i])
  }

  lemma CutHead(path: string, items: seq<Item>, piece: string, rest: seq<string>)
    requires items != [] && Takes(items[0], piece) && piece <= path && Cut(path[|piece|..], items[1..], rest)
    ensures Cut(path, items, [piece] + rest)
  {
    var pieces := [piece] + rest;
    assert pieces[1..] == rest;
    assert path == piece + path[|piece|..];
    forall i | 0 <= i < |items| ensures Takes(items[i], pieces[i]) {
      assert i > 0 ==> items[i] == items[1..][i - 1];
    }
  }

  lemma CutTail(path: string, items: seq<Item>, pieces: seq<string>)
    requires items != [] && Cut(path, items, pieces)
    ensures pieces[0] <= path && Takes(items[0], pieces[0]) && Cut(path[|pieces[0]|..], items[1..], pieces[1..])
  {
    assert path[|pieces[0]|..] == Concatenated(pieces[1..]);
  }

  lemma {:induction false} MatchCuts(items: seq<Item>, path: string) returns (pieces: seq<string>)
    requires Match(items, path)
    ensures Cut(path, items, pieces)
    decreases |items|, |path|
  {
    if items == [] {
      pieces := [];
    } else if !items[0].Star? {
      pieces := MatchCuts(items[1..], path[1..]);
      CutHead(path, items, path[..1], pieces);
      pieces := [path[..1]] + pieces;
    } else if Match(items[1..], path) {
      pieces := MatchCuts(items[1..], path);
      assert path[0..] == path;
      CutHead(path, items, "", pieces);
      pieces := [""] + pieces;
    } else {
      pieces := MatchCuts(items, path[1..]);
      CutTail(path[1..], items, pieces);
      var piece := [path[0]] + pieces[0];
      assert path[|piece|..] == path[1..][|pieces[0]|..];
      assert path == [path[0]] + path[1..];
      CutHead(path, items, piece, pieces[1..]);
      pieces := [piece] + pieces[1..];
    }
  }

  lemma {:induction false} CutMatches(items: seq<Item>, path: string, pieces: seq<string>)
    requires Cut(path, items, pieces)
    ensures Match(items, path)
    decreases |items|, |path|
  {
    if items != [] {
      CutTail(path, items, pieces);
      var piece := pieces[0];
      if !items[0].Star? {
        CutMatches(items[1..], path[1..], pieces[1..]);
      } else if piece == "" {
        assert path[0..] == path;
        CutMatches(items[1..], path, pieces[1..]);
      } else {
        assert path[0] == piece[0] && piece[0] in piece;
        assert path[1..][|piece| - 1..] == path[|piece|..];
        assert piece[1..] <= path[1..] && forall c :: c in piece[1..] ==> c in piece;
        CutHead(path[1..], items, piece[1..], pieces[1..]);
        CutMatches(items, path[1..], [piece[1..]] + pieces[1..]);
      }
    }
  }

  ghost predicate Fits(path: string, glob: string, items: seq<Item>, pieces: seq<string>) {
    Reading(items) && Spelled(items) == glob && Cut(path, items, pieces)
  }

  /** A glob matches exactly the paths that can be cut into one piece for each of its items in turn, with
      backslashes read as slashes in both. */
  lemma GlobMeans(path: string, glob: string)
    ensures MatchesGlob(path, glob) <==> exists items, pieces :: Fits(Slashes(path), Slashes(glob), items, pieces)
  {
    var p, g := Slashes(path), Slashes(glob);
    ItemsRead(g);
    if MatchesGlob(path, glob) {
      var pieces := MatchCuts(Items(g), p);
      assert Fits(p, g, Items(g), pieces);
    }
    if items, pieces :| Fits(p, g, items, pieces) {
      OneReading(items, g);
      CutMatches(items, p, pieces);
    }
  }
}
