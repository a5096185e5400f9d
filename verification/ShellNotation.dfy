/**
 Scripts as they are written, character by character: words bare or in double quotes, blanks and
 tabs between them, semicolons, comments and newlines. What is written so is read as the words it
 was written with, whatever the layout.
 */
module ShellNotation {
  import opened ShellParser
  import opened ShellText
  import opened ShellMachine
  import opened ShellFile

  // ----- Finding one word -----

  /** Where the scan goes on after a word and its terminator. */
  function Beyond(s: string, end: nat): (next: nat)
    requires end <= |s|
  {
    if end < |s| then end + 1 else end
  }

  lemma {:induction false} BlanksIs(s: string, from: nat, b: nat)
    requires from <= b <= |s| && Gap(s[from..b]) && (b < |s| ==> s[b] !in {' ', '\t', '\n'})
    ensures NotBlank(s, from) == b
    decreases b - from
  {
    if from < b {
      assert s[from] == s[from..b][0];
      assert s[from + 1..b] == s[from..b][1..];
      BlanksIs(s, from + 1, b);
    }
  }

  /** Backquotes come in pairs, and outside them there is none of some characters. */
  predicate Unbroken(w: string, stops: set<char>, inside: bool)
    decreases |w|
  {
    if w == "" then !inside
    else if w[0] == '`' then Unbroken(w[1..], stops, !inside)
    else (inside || w[0] !in stops) && Unbroken(w[1..], stops, inside)
  }

  lemma {:induction false} UnbrokenPlain(w: string, stops: set<char>)
    requires forall k :: 0 <= k < |w| ==> w[k] !in stops && w[k] != '`'
    ensures Unbroken(w, stops, false)
    decreases |w|
  {
    if w != "" {
      UnbrokenPlain(w[1..], stops);
    }
  }

  lemma {:induction false} ArgEndOver(s: string, from: nat, k: nat, term: set<char>, inside: bool)
    requires from <= k <= |s| && Unbroken(s[from..k], term, inside) && (k < |s| ==> s[k] in term && s[k] != '`')
    ensures ArgEnd(s, from, term, inside) == k
    decreases k - from
  {
    if from < k {
      assert s[from..k][1..] == s[from + 1..k];
      ArgEndOver(s, from + 1, k, term, if s[from] == '`' then !inside else inside);
    }
  }

  /** Blanks, tabs and newlines. */
  predicate Gap(s: string) {
    forall k :: 0 <= k < |s| ==> s[k] == ' ' || s[k] == '\t' || s[k] == '\n'
  }

  predicate GapChar(c: char) {
    c == ' ' || c == '\t' || c == '\n'
  }

  /** A word that is read as it is: no space outside backquotes, and no sign of its own at its beginning. */
  predicate BareWord(w: string) {
    w != "" && w[0] !in {'"', '#', '>'} && Unbroken(w, {' ', '\t', '\n'}, false)
  }

  predicate QuotedWord(w: string) {
    (forall k :: 0 <= k < |w| ==> w[k] != '"') && Unbroken(w, {'"'}, false)
  }

  lemma PlainIsBare(w: string)
    requires w != "" && w[0] !in {'"', '#', '>'} && forall k :: 0 <= k < |w| ==> !GapChar(w[k]) && w[k] != '`'
    ensures BareWord(w)
  {
    UnbrokenPlain(w, {' ', '\t', '\n'});
  }

  lemma PlainIsQuoted(w: string)
    requires forall k :: 0 <= k < |w| ==> w[k] != '"' && w[k] != '`'
    ensures QuotedWord(w)
  {
    UnbrokenPlain(w, {'"'});
  }

  lemma BareIs(s: string, from: nat, b: nat, word: string)
    requires from <= b && b + |word| <= |s| && Gap(s[from..b]) && s[b..b + |word|] == word && BareWord(word)
    requires b + |word| == |s| || GapChar(s[b + |word|])
    ensures WordsFrom(s, from) == [word] + WordsFrom(s, Beyond(s, b + |word|))
  {
    hide NotBlank, ArgEnd, Unbroken;
    SliceAt(s, b, b + |word|, word);
    assert s[b] != ' ' && s[b] != '\t' && s[b] != '\n' by { NoGapFirst(word); }
    BlanksIs(s, from, b);
    ArgEndOver(s, b, b + |word|, BLANKS, false);
    assert Argument(s, from) == Arg(s[b..b + |word|], Beyond(s, b + |word|));
  }

  lemma NoGapFirst(word: string)
    requires BareWord(word)
    ensures !GapChar(word[0])
  {
  }

  lemma QuotedIs(s: string, from: nat, b: nat, word: string)
    requires from <= b && b + 1 + |word| < |s| && Gap(s[from..b]) && s[b] == '"' && s[b + 1..b + 1 + |word|] == word
    requires s[b + 1 + |word|] == '"' && QuotedWord(word)
    ensures WordsFrom(s, from) == [word] + WordsFrom(s, b + 2 + |word|)
  {
    hide NotBlank, ArgEnd, Unbroken;
    BlanksIs(s, from, b);
    ArgEndOver(s, b + 1, b + 1 + |word|, {'"'}, false);
  }

  /** The signs of a redirection are words of their own. */
  lemma SignIs(s: string, from: nat, b: nat, word: string)
    requires from <= b && b + |word| <= |s| && Gap(s[from..b]) && s[b..b + |word|] == word && word in {">", ">>"}
    requires b + |word| == |s| || s[b + |word|] != '>'
    ensures WordsFrom(s, from) == [word] + WordsFrom(s, b + |word|)
  {
    hide NotBlank, ArgEnd;
    SliceAt(s, b, b + |word|, word);
    BlanksIs(s, from, b);
    assert Argument(s, from) == Arg(word, b + |word|);
  }

  /** A comment, or nothing at all. */
  lemma NoMoreWords(s: string, from: nat, b: nat)
    requires from <= b <= |s| && Gap(s[from..b]) && (b == |s| || s[b] == '#')
    ensures WordsFrom(s, from) == []
  {
    hide NotBlank, ArgEnd;
    BlanksIs(s, from, b);
  }

  // ----- Any layout of a command -----

  /** A word as it is written, after some space. */
  datatype Item = Item(gap: string, word: string, quoted: bool) {
    predicate Valid() {
      Gap(gap) && if quoted then QuotedWord(word) else BareWord(word) || word == ">" || word == ">>"
    }

    function Text(): (text: string) {
      gap + if quoted then "\"" + word + "\"" else word
    }
  }

  function ItemsText(items: seq<Item>): (text: string) {
    if items == [] then "" else items[0].Text() + ItemsText(items[1..])
  }

  function WordsIn(items: seq<Item>): (words: Words) {
    if items == [] then [] else [items[0].word] + WordsIn(items[1..])
  }

  /** Words with some space between them. */
  predicate Spaced(items: seq<Item>) {
    && (forall k :: 0 <= k < |items| ==> items[k].Valid())
    && (forall k :: 0 < k < |items| ==> items[k].gap != "")
  }

  /** After the words: some space, and perhaps a comment, which needs space before it. */
  predicate Ending(items: seq<Item>, gap: string, comment: string) {
    Gap(gap) && (comment != "" ==> comment[0] == '#' && (items == [] || gap != ""))
  }

  /** What follows an item begins with space, if there is anything. */
  lemma Follows(items: seq<Item>, gap: string, comment: string)
    requires items != [] && Spaced(items) && Ending(items, gap, comment)
    ensures var rest := ItemsText(items[1..]) + (gap + comment); rest != "" ==> GapChar(rest[0])
    ensures Spaced(items[1..])
  {
    var rest := ItemsText(items[1..]) + (gap + comment);
    if |items| > 1 {
      assert items[1..][0] == items[1];
      assert items[1].gap != "" && rest[0] == items[1].gap[0];
    } else {
      assert rest == gap + comment;
      if rest != "" {
        assert gap != "" && rest[0] == gap[0];
      }
    }
  }

  lemma TailIs(s: string, i: nat, a: string, b: string)
    requires i <= |s| && s[i..] == a + b
    ensures i + |a| <= |s| && s[i..i + |a|] == a && s[i + |a|..] == b
    ensures b != "" ==> i + |a| < |s| && s[i + |a|] == b[0]
    ensures b == "" ==> i + |a| == |s|
  {
    var t := s[i..];
    assert t[..|a|] == a && t[|a|..] == b;
    assert s[i..i + |a|] == t[..|a|] && s[i + |a|..] == t[|a|..];
  }

  lemma ReadQuotedItem(s: string, i: nat, gap: string, word: string, rest: string)
    requires i <= |s| && Gap(gap) && QuotedWord(word) && s[i..] == gap + ("\"" + word + "\"" + rest)
    ensures var next := i + |gap| + |word| + 2;
            next <= |s| && s[next..] == rest && WordsFrom(s, i) == [word] + WordsFrom(s, next)
  {
    hide WordsFrom, NotBlank, ArgEnd;
    var b := i + |gap|;
    var body := "\"" + word + "\"";
    TailIs(s, i, gap, body + rest);
    TailIs(s, b, body, rest);
    QuotedAt(s, b, word);
    QuotedIs(s, i, b, word);
  }

  lemma ReadBareItem(s: string, i: nat, gap: string, word: string, rest: string)
    requires i <= |s| && Gap(gap) && (BareWord(word) || word in {">", ">>"}) && s[i..] == gap + (word + rest)
    requires rest != "" ==> GapChar(rest[0])
    ensures var next := i + |gap| + |word|;
            next <= |s| && s[next..] == rest && WordsFrom(s, i) == [word] + WordsFrom(s, next)
  {
    hide WordsFrom, NotBlank, ArgEnd;
    var b := i + |gap|;
    TailIs(s, i, gap, word + rest);
    TailIs(s, b, word, rest);
    if BareWord(word) {
      BareIs(s, i, b, word);
      if b + |word| < |s| {
        BlankSkipped(s, b + |word|);
      }
    } else {
      SignIs(s, i, b, word);
    }
  }

  /** One item is read as its word, and the scan may go on right behind it. */
  lemma ReadItem(s: string, i: nat, item: Item, rest: string)
    requires i <= |s| && item.Valid() && s[i..] == item.Text() + rest && (rest != "" ==> GapChar(rest[0]))
    ensures var next := i + |item.Text()|;
            next <= |s| && s[next..] == rest && WordsFrom(s, i) == [item.word] + WordsFrom(s, next)
  {
    hide WordsFrom, Gap, QuotedWord, BareWord;
    if item.quoted {
      assert item.Text() + rest == item.gap + ("\"" + item.word + "\"" + rest);
      ReadQuotedItem(s, i, item.gap, item.word, rest);
    } else {
      assert item.Text() + rest == item.gap + (item.word + rest);
      ReadBareItem(s, i, item.gap, item.word, rest);
    }
  }

  /**
   Reading back, for any layout: words written bare or in quotes, with any non-empty run of blanks,
   tabs and newlines between them, any such run before and after them, and perhaps a comment at the
   end, are read as exactly these words.
   */
  lemma {:induction false} AnyLayout(s: string, i: nat, items: seq<Item>, gap: string, comment: string)
    requires i <= |s| && s[i..] == ItemsText(items) + (gap + comment) && Spaced(items) && Ending(items, gap, comment)
    ensures WordsFrom(s, i) == WordsIn(items)
    decreases items
  {
    hide WordsFrom;
    if items == [] {
      assert s[i..] == gap + comment;
      TailIs(s, i, gap, comment);
      NoMoreWords(s, i, i + |gap|);
    } else {
      Follows(items, gap, comment);
      var rest := ItemsText(items[1..]) + (gap + comment);
      assert s[i..] == items[0].Text() + rest;
      ReadItem(s, i, items[0], rest);
      AnyLayout(s, i + |items[0].Text()|, items[1..], gap, comment);
    }
  }

  // ----- Any layout of a line -----

  /** A command as it is written, with the space after it. */
  datatype Command = Command(items: seq<Item>, gap: string) {
    /** On a line: no newline in it, and outside quotes nothing that would end it. */
    predicate Valid() {
      && Spaced(items) && Gap(gap) && '\n' !in gap
      && forall k :: 0 <= k < |items| ==> Inline(items[k])
    }

    function Text(): (text: string) {
      ItemsText(items) + gap
    }

    predicate Bare() {
      forall k :: 0 <= k < |items| ==> !items[k].quoted
    }
  }

  predicate Inline(item: Item) {
    && '\n' !in item.gap && '\n' !in item.word
    && (!item.quoted ==> '"' !in item.word && '#' !in item.word && ';' !in item.word)
  }

  /** Commands with semicolons between them, perhaps a comment, and perhaps a newline. */
  datatype Line = Line(cmds: seq<Command>, comment: string, newline: bool) {
    predicate Valid() {
      && cmds != [] && (forall k :: 0 <= k < |cmds| ==> cmds[k].Valid())
      && '\n' !in comment
      && (comment != "" ==> comment[0] == '#' && (cmds[|cmds| - 1].items == [] || cmds[|cmds| - 1].gap != ""))
    }

    function End(): (end: string) {
      comment + if newline then "\n" else ""
    }

    function Text(): (text: string) {
      Joined(cmds) + End()
    }
  }

  function Joined(cmds: seq<Command>): (text: string) {
    if cmds == [] then "" else if |cmds| == 1 then cmds[0].Text() else cmds[0].Text() + (";" + Joined(cmds[1..]))
  }

  /** Nothing in it stops the scan of a line. */
  predicate Passable(text: string) {
    forall k :: 0 <= k < |text| ==> text[k] != '"' && text[k] != '#' && text[k] != ';' && text[k] != '\n'
  }

  lemma ClearOn(line: string, working: nat, pos: nat, text: string, rest: string)
    requires Clear(line, working, pos) && line[pos..] == text + rest && Passable(text)
    ensures pos + |text| <= |line| && Clear(line, working, pos + |text|) && line[pos + |text|..] == rest
  {
    TailIs(line, pos, text, rest);
    SliceAt(line, pos, pos + |text|, text);
  }

  lemma GapPasses(gap: string)
    requires Gap(gap) && '\n' !in gap
    ensures Passable(gap)
  {
  }

  lemma BarePasses(item: Item)
    requires item.Valid() && Inline(item) && !item.quoted
    ensures Passable(item.Text())
  {
    GapPasses(item.gap);
  }

  /** A quoted string is stepped over. */
  lemma ScanQuoted(line: string, start: nat, working: nat, pos: nat, word: string, rest: string)
    requires start <= working && Clear(line, working, pos) && QuotedWord(word)
    requires line[pos..] == "\"" + word + "\"" + rest
    ensures pos + |word| + 2 <= |line| && line[pos + |word| + 2..] == rest
    ensures SplitFrom(line, start, pos + |word| + 2) == SplitFrom(line, start, working)
  {
    hide SplitFrom, Span;
    var body := "\"" + word + "\"";
    TailIs(line, pos, body, rest);
    QuotedAt(line, pos, word);
    SliceAt(line, pos + 1, pos + |word| + 1, word);
    SpanIs(line, working, LINE_STOPS, pos);
    SpanIs(line, pos + 1, {'"'}, pos + |word| + 1);
    SplitQuote(line, start, working);
  }

  /** The line scan steps over an item: only a quoted one moves it. */
  lemma ScanItem(line: string, start: nat, working: nat, pos: nat, item: Item, rest: string) returns (w: nat)
    requires start <= working && Clear(line, working, pos) && item.Valid() && Inline(item)
    requires line[pos..] == item.Text() + rest
    ensures pos + |item.Text()| <= |line| && line[pos + |item.Text()|..] == rest
    ensures start <= w && Clear(line, w, pos + |item.Text()|) && (!item.quoted ==> w == working)
    ensures SplitFrom(line, start, w) == SplitFrom(line, start, working)
  {
    hide SplitFrom, Gap, QuotedWord, BareWord, Passable;
    w := working;
    if item.quoted {
      var more := "\"" + item.word + "\"" + rest;
      assert item.Text() + rest == item.gap + more;
      GapPasses(item.gap);
      ClearOn(line, working, pos, item.gap, more);
      ScanQuoted(line, start, working, pos + |item.gap|, item.word, rest);
      w := pos + |item.gap| + |item.word| + 2;
    } else {
      BarePasses(item);
      ClearOn(line, working, pos, item.Text(), rest);
    }
  }

  lemma {:induction false} ScanItems(line: string, start: nat, working: nat, pos: nat, items: seq<Item>, rest: string)
    returns (w: nat)
    requires start <= working && Clear(line, working, pos)
    requires forall k :: 0 <= k < |items| ==> items[k].Valid() && Inline(items[k])
    requires line[pos..] == ItemsText(items) + rest
    ensures pos + |ItemsText(items)| <= |line| && line[pos + |ItemsText(items)|..] == rest
    ensures start <= w && Clear(line, w, pos + |ItemsText(items)|)
    ensures SplitFrom(line, start, w) == SplitFrom(line, start, working)
    ensures (forall k :: 0 <= k < |items| ==> !items[k].quoted) ==> w == working
    decreases items
  {
    hide SplitFrom, Inline, Item.Text, Item.Valid;
    if items == [] {
      w := working;
      assert ItemsText(items) + rest == rest;
    } else {
      var more := ItemsText(items[1..]) + rest;
      ItemsFirst(items, rest);
      w := ScanItem(line, start, working, pos, items[0], more);
      var v := ScanItems(line, start, w, pos + |items[0].Text()|, items[1..], rest);
      w := v;
    }
  }

  lemma ItemsFirst(items: seq<Item>, rest: string)
    requires items != []
    ensures ItemsText(items) + rest == items[0].Text() + (ItemsText(items[1..]) + rest)
    ensures |ItemsText(items)| == |items[0].Text()| + |ItemsText(items[1..])|
  {
    hide Item.Text;
  }

  /** The command of a line that begins at `start`, and where the scan is at its end. */
  lemma ScanCommand(line: string, start: nat, cmd: Command, rest: string) returns (w: nat)
    requires start <= |line| && cmd.Valid() && line[start..] == cmd.Text() + rest
    ensures var end := start + |cmd.Text()|;
            && end <= |line| && line[end..] == rest && line[start..end] == cmd.Text()
            && start <= w && Clear(line, w, end) && SplitFrom(line, start, w) == SplitFrom(line, start, start)
    ensures cmd.Bare() ==> w == start
  {
    hide SplitFrom, Gap, Inline, ItemsText, Passable;
    assert cmd.Text() + rest == ItemsText(cmd.items) + (cmd.gap + rest);
    w := ScanItems(line, start, start, start, cmd.items, cmd.gap + rest);
    var pos := start + |ItemsText(cmd.items)|;
    GapPasses(cmd.gap);
    ClearOn(line, w, pos, cmd.gap, rest);
    TailIs(line, start, cmd.Text(), rest);
  }

  /** The commands that were written are the commands that are cut off, where they were written. */
  ghost predicate ReadAs(split: Split, cmds: seq<Command>) {
    && split.closed && |split.segs| == |cmds|
    && forall k :: 0 <= k < |cmds| ==>
         && WordsOf(split.segs[k].text) == WordsIn(cmds[k].items)
         && (cmds[k].Bare() ==> split.segs[k].loffs == split.segs[k].start)
  }

  /** The last command of a line, with the comment and the newline after it. */
  lemma ReadLast(line: string, start: nat, cmd: Command, end: Line)
    requires start <= |line| && end.Valid() && end.cmds == [cmd] && line[start..] == end.Text()
    ensures ReadAs(SplitFrom(line, start, start), [cmd])
  {
    hide SplitFrom, Span, WordsFrom, Command.Text;
    var w := ScanCommand(line, start, cmd, end.End());
    var stop := start + |cmd.Text()|;
    SpanIs(line, w, LINE_STOPS, stop);
    SplitLast(line, start, w);
    var newline := if end.newline then "\n" else "";
    if end.comment == "" {
      LastWords(line[start..], cmd, newline, "");
    } else {
      LastWords(line[start..], cmd, "", end.comment + newline);
    }
  }

  lemma LastWords(text: string, cmd: Command, newline: string, comment: string)
    requires cmd.Valid() && Gap(newline) && text == cmd.Text() + (newline + comment)
    requires comment != "" ==> newline == "" && comment[0] == '#' && (cmd.items == [] || cmd.gap != "")
    ensures WordsOf(text) == WordsIn(cmd.items)
  {
    hide WordsFrom;
    assert text[0..] == ItemsText(cmd.items) + ((cmd.gap + newline) + comment);
    AnyLayout(text, 0, cmd.items, cmd.gap + newline, comment);
  }

  /**
   A line, whatever its layout, is cut into the commands that were written on it, each with its
   words, and the offset recorded for a command without quotes is where it begins.
   */
  lemma {:induction false} LineReads(line: string, start: nat, written: Line)
    requires start <= |line| && written.Valid() && line[start..] == written.Text()
    ensures ReadAs(SplitFrom(line, start, start), written.cmds)
    decreases written.cmds
  {
    hide SplitFrom, Span, WordsFrom, ReadAs, Joined, ItemsText, Command.Valid, Command.Text, Command.Bare, Line.Text;
    var cmds := written.cmds;
    if |cmds| == 1 {
      assert cmds == [cmds[0]];
      ReadLast(line, start, cmds[0], written);
    } else {
      var rest := written.(cmds := cmds[1..]);
      LineMore(written);
      var w := ScanCommand(line, start, cmds[0], ";" + rest.Text());
      var ptr := start + |cmds[0].Text()|;
      TailIs(line, ptr, ";", rest.Text());
      LineReads(line, ptr + 1, rest);
      ReadMore(line, start, w, ptr, cmds);
    }
  }

  lemma LineMore(written: Line)
    requires written.Valid() && |written.cmds| > 1
    ensures var rest := written.(cmds := written.cmds[1..]);
            rest.Valid() && written.Text() == written.cmds[0].Text() + (";" + rest.Text())
  {
    hide Command.Valid, Command.Text;
    var cmds := written.cmds;
    assert cmds[1..][|cmds| - 2] == cmds[|cmds| - 1];
  }

  lemma ReadMore(line: string, start: nat, w: nat, ptr: nat, cmds: seq<Command>)
    requires |cmds| > 1 && cmds[0].Valid() && start <= w && Clear(line, w, ptr) && ptr < |line| && line[ptr] == ';'
    requires start <= ptr && line[start..ptr] == cmds[0].Text() && (cmds[0].Bare() ==> w == start)
    requires SplitFrom(line, start, w) == SplitFrom(line, start, start)
    requires ReadAs(SplitFrom(line, ptr + 1, ptr + 1), cmds[1..])
    ensures ReadAs(SplitFrom(line, start, start), cmds)
  {
    hide SplitFrom, WordsFrom;
    MoreSegments(line, start, w, ptr);
    assert line[start..ptr] == cmds[0].Text() + ("" + "");
    LastWords(line[start..ptr], cmds[0], "", "");
    var all := SplitFrom(line, start, start);
    assert forall k :: 0 < k < |cmds| ==> all.segs[k] == all.segs[1..][k - 1] && cmds[k] == cmds[1..][k - 1];
  }

  // ----- Any layout of a file -----

  lemma {:induction false} ItemsInline(items: seq<Item>)
    requires forall k :: 0 <= k < |items| ==> Inline(items[k])
    ensures '\n' !in ItemsText(items)
  {
    if items != [] {
      ItemsInline(items[1..]);
      assert '\n' !in items[0].Text();
    }
  }

  lemma {:induction false} JoinedInline(cmds: seq<Command>)
    requires forall k :: 0 <= k < |cmds| ==> cmds[k].Valid()
    ensures '\n' !in Joined(cmds)
  {
    hide Inline, Spaced, ItemsText;
    if cmds != [] {
      ItemsInline(cmds[0].items);
      JoinedInline(cmds[1..]);
    }
  }

  function FileText(lines: seq<Line>): (text: string) {
    if lines == [] then "" else lines[0].Text() + FileText(lines[1..])
  }

  /** Lines that fit a buffer, each but perhaps the last with its newline. */
  predicate Fitting(lines: seq<Line>, lineLength: nat) {
    && (forall k :: 0 <= k < |lines| ==> lines[k].Valid() && 0 < |lines[k].Text()| < lineLength)
    && (forall k :: 0 <= k < |lines| - 1 ==> lines[k].newline)
  }

  /** A line that was written is a line that is read. */
  lemma LineFound(s: Script, pos: nat, line: Line, rest: string)
    requires s.Valid() && pos <= |s.file| && line.Valid() && 0 < |line.Text()| < s.lineLength
    requires s.file[pos..] == line.Text() + rest && (rest != "" ==> line.newline)
    ensures pos < |s.file| && s.LineEnd(pos) == pos + |line.Text()| && s.LineAt(pos) == line.Text()
    ensures Whole(s, pos)
  {
    hide Span, Line.Text, Line.Valid, Script.LineEnd;
    var end := pos + |line.Text()|;
    TailIs(s.file, pos, line.Text(), rest);
    OnlyNewline(line);
    ButLast(s.file, pos, line.Text());
    LineIsRead(s, pos, end);
  }

  lemma ButLast(s: string, pos: nat, text: string)
    requires text != "" && pos + |text| <= |s| && s[pos..pos + |text|] == text
    ensures s[pos..pos + |text| - 1] == text[..|text| - 1] && s[pos + |text| - 1] == text[|text| - 1]
  {
    assert s[pos..pos + |text|][..|text| - 1] == s[pos..pos + |text| - 1];
  }

  /** If there is a newline in a line at all, it is at its end. */
  lemma OnlyNewline(line: Line)
    requires line.Valid() && line.Text() != ""
    ensures '\n' !in line.Text()[..|line.Text()| - 1] && (line.newline ==> line.Text()[|line.Text()| - 1] == '\n')
  {
    hide Joined;
    JoinedInline(line.cmds);
    var body := Joined(line.cmds) + line.comment;
    assert '\n' !in body;
    assert line.Text() == body + if line.newline then "\n" else "";
    assert line.Text()[..|line.Text()| - 1] <= body;
  }

  /** The commands of a line that are not blank. */
  function Spoken(cmds: seq<Command>): (all: seq<Words>) {
    if cmds == [] then [] else
      (if cmds[0].items == [] then [] else [WordsIn(cmds[0].items)]) + Spoken(cmds[1..])
  }

  function AllSpoken(lines: seq<Line>): (all: seq<Words>) {
    if lines == [] then [] else Spoken(lines[0].cmds) + AllSpoken(lines[1..])
  }

  function WordsAt(code: seq<Located>): (all: seq<Words>) {
    seq(|code|, k requires 0 <= k < |code| => code[k].words)
  }

  /** The code of a line has the words that were written. */
  lemma {:induction false} CodeReads(segs: seq<Segment>, cmds: seq<Command>, pos: nat)
    requires ReadAs(Split(segs, true), cmds)
    ensures WordsAt(CodeOf(segs, pos)) == Spoken(cmds)
    decreases |segs|
  {
    hide WordsOf, Command.Bare;
    if segs != [] {
      assert ReadAs(Split(segs[1..], true), cmds[1..]) by {
        assert forall k :: 0 <= k < |cmds| - 1 ==> segs[1..][k] == segs[k + 1] && cmds[1..][k] == cmds[k + 1];
      }
      CodeReads(segs[1..], cmds[1..], pos);
      assert segs == [segs[0]] + segs[1..];
      CodeOfCons(segs[0], segs[1..], pos);
      assert WordsOf(segs[0].text) == WordsIn(cmds[0].items);
      WordsIfAny(cmds[0].items);
    }
  }

  lemma WordsIfAny(items: seq<Item>)
    ensures WordsIn(items) == [] <==> items == []
  {
  }

  /** The first word of a loop command. */
  predicate LoopWord(words: Words) {
    words != [] && (words[0] == "while" || words[0] == "until")
  }

  /** Loop commands are written without quotes. */
  predicate LoopsBare(lines: seq<Line>) {
    forall j, k :: 0 <= j < |lines| && 0 <= k < |lines[j].cmds| && LoopWord(WordsIn(lines[j].cmds[k].items)) ==>
      lines[j].cmds[k].Bare()
  }

  /** The first word is none that the shell knows. */
  predicate Ordinary(words: Words) {
    words != [] && words[0] !in {"while", "until", "do", "done", "if", "then", "else", "fi", "break"}
  }

  /** On no line is a command of this kind followed by another command. */
  predicate OrdinariesLast(lines: seq<Line>) {
    forall j, k :: 0 <= j < |lines| && 0 <= k < |Spoken(lines[j].cmds)| - 1 ==> !Ordinary(Spoken(lines[j].cmds)[k])
  }

  /** What the nine words mean to the parser. */
  lemma HeadsAre(words: Words)
    requires words != []
    ensures (Head(words) == While <==> words[0] == "while") && (Head(words) == Until <==> words[0] == "until")
    ensures (Head(words) == Do <==> words[0] == "do") && (Head(words) == Done <==> words[0] == "done")
    ensures (Head(words) == If <==> words[0] == "if") && (Head(words) == Then <==> words[0] == "then")
    ensures (Head(words) == Else <==> words[0] == "else") && (Head(words) == Fi <==> words[0] == "fi")
    ensures (Head(words) == Break <==> words[0] == "break") && (Head(words) == Other <==> Ordinary(words))
  {
  }

  /**
   A file, whatever its layout, has the commands that were written in it, in order; seeks in it
   land if its loop commands are written without quotes, and no command is lost with the rest of
   its line if only the last of a line can fail.
   */
  lemma {:induction false} FileReads(s: Script, pos: nat, lines: seq<Line>)
    requires s.Valid() && pos <= |s.file| && s.file[pos..] == FileText(lines) && Fitting(lines, s.lineLength)
    ensures WordsAt(s.Code(pos)) == AllSpoken(lines)
    ensures LoopsBare(lines) ==> Tidy(s, pos)
    ensures OrdinariesLast(lines) ==> Spread(s, pos)
    decreases lines
  {
    hide SplitFrom, Span, CodeOf, WordsOf, Script.LineEnd, Script.LineAt, Line.Valid, Line.Text, Spoken, LoopsBare,
         OrdinariesLast, Fitting, HeadsBare, Apart;
    if lines == [] {
      assert pos == |s.file|;
    } else {
      FirstLine(s, pos, lines);
      FittingRest(lines, s.lineLength);
      var end := pos + |lines[0].Text()|;
      FileReads(s, end, lines[1..]);
      LinePart(s, pos, lines[0]);
      var here := CodeOf(SplitFrom(s.LineAt(pos), 0, 0).segs, pos);
      assert s.Code(pos) == here + s.Code(end);
      PartsOf(lines);
    }
  }

  lemma FittingRest(lines: seq<Line>, lineLength: nat)
    requires lines != [] && Fitting(lines, lineLength)
    ensures Fitting(lines[1..], lineLength) && lines[0].Valid() && 0 < |lines[0].Text()| < lineLength
    ensures FileText(lines[1..]) != "" ==> lines[0].newline
  {
    hide Line.Valid, Line.Text;
  }

  lemma FirstLine(s: Script, pos: nat, lines: seq<Line>)
    requires s.Valid() && pos <= |s.file| && s.file[pos..] == FileText(lines) && Fitting(lines, s.lineLength) && lines != []
    ensures var end := pos + |lines[0].Text()|;
            && pos < end <= |s.file| && s.LineEnd(pos) == end && s.LineAt(pos) == lines[0].Text() && Whole(s, pos)
            && s.file[end..] == FileText(lines[1..]) && Fitting(lines[1..], s.lineLength)
  {
    hide Span, Script.LineEnd, Line.Valid, Line.Text, Fitting, Whole;
    var rest := FileText(lines[1..]);
    TailIs(s.file, pos, lines[0].Text(), rest);
    FittingRest(lines, s.lineLength);
    LineFound(s, pos, lines[0], rest);
  }

  /** The part of the conditions that one line has to meet. */
  lemma LinePart(s: Script, pos: nat, line: Line)
    requires s.Valid() && pos < |s.file| && line.Valid() && s.LineAt(pos) == line.Text()
    ensures SplitFrom(s.LineAt(pos), 0, 0).closed
    ensures var segs := SplitFrom(s.LineAt(pos), 0, 0).segs;
            && WordsAt(CodeOf(segs, pos)) == Spoken(line.cmds)
            && (LoopsBare([line]) ==> HeadsBare(segs)) && (OrdinariesLast([line]) ==> Apart(CodeOf(segs, pos)))
  {
    hide SplitFrom, CodeOf, WordsOf, Script.LineAt, Line.Valid, Line.Text, Spoken, Command.Bare;
    var text := s.LineAt(pos);
    assert text[0..] == text;
    LineReads(text, 0, line);
    var split := SplitFrom(text, 0, 0);
    var segs := split.segs;
    assert split == Split(segs, true);
    CodeReads(segs, line.cmds, pos);
    var code := CodeOf(segs, pos);
    forall k | 0 <= k < |segs| && LoopHead(WordsOf(segs[k].text)) && LoopsBare([line]) ensures segs[k].loffs == segs[k].start {
      HeadsAre(WordsOf(segs[k].text));
      assert [line][0].cmds[k] == line.cmds[k];
    }
    forall k | 0 <= k < |code| - 1 && OrdinariesLast([line]) ensures Head(code[k].words) != Other {
      assert code[k].words == WordsAt(code)[k] == Spoken([line][0].cmds)[k];
      SpokenSome(line.cmds, k);
      HeadsAre(code[k].words);
    }
  }

  lemma {:induction false} SpokenSome(cmds: seq<Command>, k: nat)
    requires k < |Spoken(cmds)|
    ensures Spoken(cmds)[k] != []
  {
    WordsIfAny(cmds[0].items);
    var first := if cmds[0].items == [] then [] else [WordsIn(cmds[0].items)];
    if k >= |first| {
      SpokenSome(cmds[1..], k - |first|);
    }
  }

  lemma PartsOf(lines: seq<Line>)
    requires lines != []
    ensures LoopsBare(lines) ==> LoopsBare([lines[0]]) && LoopsBare(lines[1..])
    ensures OrdinariesLast(lines) ==> OrdinariesLast([lines[0]]) && OrdinariesLast(lines[1..])
  {
    hide WordsIn, Spoken, Command.Bare;
    if LoopsBare(lines) {
      forall j, k | 0 <= j < |lines| - 1 && 0 <= k < |lines[1..][j].cmds| && LoopWord(WordsIn(lines[1..][j].cmds[k].items))
        ensures lines[1..][j].cmds[k].Bare()
      {
        assert lines[1..][j] == lines[j + 1];
      }
    }
    if OrdinariesLast(lines) {
      forall j, k | 0 <= j < |lines| - 1 && 0 <= k < |Spoken(lines[1..][j].cmds)| - 1
        ensures !Ordinary(Spoken(lines[1..][j].cmds)[k])
      {
        assert lines[1..][j] == lines[j + 1];
      }
    }
  }
}
