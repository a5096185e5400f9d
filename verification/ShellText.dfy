/**
 The text side of the shell: how a line is cut into commands at semicolons, and a command
 into words, with double quotes, comments and backquotes.
 */
module ShellText {
  import opened ShellParser

  /** strcspn: the first index from `from` on whose character is in `stops`, or the end. */
  function Span(s: string, from: nat, stops: set<char>): (k: nat)
    requires from <= |s|
    ensures from <= k <= |s|
    ensures forall j :: from <= j < k ==> s[j] !in stops
    ensures k < |s| ==> s[k] in stops
    decreases |s| - from
  {
    if from == |s| || s[from] in stops then from else Span(s, from + 1, stops)
  }

  const LINE_STOPS: set<char> := {'"', '#', ';', '\n'}
  const BLANKS: set<char> := {' ', '\t', '\n'}

  // ----- Lines into commands -----

  /**
   One command of a line: where its text starts, the offset that the parser records for it,
   and the text itself.
   */
  datatype Segment = Segment(start: nat, loffs: nat, text: string)

  /** The commands of a line; `closed` is false when a quote is left open after them. */
  datatype Split = Split(segs: seq<Segment>, closed: bool)

  /** Cuts the rest of a line; the current command starts at `start`, the scan is at `working`. */
  function SplitFrom(line: string, start: nat, working: nat): (r: Split)
    requires start <= working <= |line|
    ensures r.segs != [] ==> r.segs[0].start == start && working <= r.segs[0].loffs
    ensures forall k :: 0 <= k < |r.segs| ==>
              start <= r.segs[k].start <= r.segs[k].loffs <= |line| && r.segs[k].start + |r.segs[k].text| <= |line|
    decreases |line| - working
  {
    var ptr := Span(line, working, LINE_STOPS);
    if ptr == |line| || line[ptr] == '\n' || line[ptr] == '#' then
      Split([Segment(start, working, line[start..])], true)
    else if line[ptr] == ';' then
      var rest := SplitFrom(line, ptr + 1, ptr + 1);
      Split([Segment(start, working, line[start..ptr])] + rest.segs, rest.closed)
    else
      var close := Span(line, ptr + 1, {'"'});
      if close == |line| then Split([], false) else SplitFrom(line, start, close + 1)
  }

  lemma SplitLast(line: string, start: nat, working: nat)
    requires start <= working <= |line|
    requires var ptr := Span(line, working, LINE_STOPS); ptr == |line| || line[ptr] == '\n' || line[ptr] == '#'
    ensures SplitFrom(line, start, working) == Split([Segment(start, working, line[start..])], true)
  {
  }

  lemma SplitMore(line: string, start: nat, working: nat)
    requires start <= working <= |line|
    requires var ptr := Span(line, working, LINE_STOPS); ptr < |line| && line[ptr] == ';'
    ensures var ptr := Span(line, working, LINE_STOPS);
            var rest := SplitFrom(line, ptr + 1, ptr + 1);
            SplitFrom(line, start, working)
            == Split([Segment(start, working, line[start..ptr])] + rest.segs, rest.closed)
  {
  }

  lemma SplitQuote(line: string, start: nat, working: nat)
    requires start <= working <= |line|
    requires var ptr := Span(line, working, LINE_STOPS); ptr < |line| && line[ptr] == '"'
    ensures var close := Span(line, Span(line, working, LINE_STOPS) + 1, {'"'});
            SplitFrom(line, start, working)
            == if close == |line| then Split([], false) else SplitFrom(line, start, close + 1)
  {
  }

  // ----- Commands into words -----

  /** A word and where the scan goes on, or the end of the words. */
  datatype Arg = NoArg | Arg(word: string, next: nat)

  /** The end of an argument: the first terminator outside backquotes. */
  function ArgEnd(s: string, from: nat, term: set<char>, backquote: bool): (k: nat)
    requires from <= |s|
    ensures from <= k <= |s|
    decreases |s| - from
  {
    if from == |s| then from
    else if s[from] == '`' then ArgEnd(s, from + 1, term, !backquote)
    else if !backquote && s[from] in term then from
    else ArgEnd(s, from + 1, term, backquote)
  }

  function NotBlank(s: string, from: nat): (k: nat)
    requires from <= |s|
    ensures from <= k <= |s|
    ensures forall j :: from <= j < k ==> s[j] in BLANKS
    ensures k < |s| ==> s[k] !in BLANKS
    decreases |s| - from
  {
    if from < |s| && s[from] in BLANKS then NotBlank(s, from + 1) else from
  }

  function Argument(s: string, from: nat): (r: Arg)
    requires from <= |s|
    ensures r.Arg? ==> from < r.next <= |s|
  {
    var b := NotBlank(s, from);
    if b == |s| || s[b] == '#' then
      NoArg
    else if s[b] == '>' then
      if b + 1 < |s| && s[b + 1] == '>' then Arg(">>", b + 2) else Arg(">", b + 1)
    else
      var begin := if s[b] == '"' then b + 1 else b;
      var end := ArgEnd(s, begin, if s[b] == '"' then {'"'} else BLANKS, false);
      assert s[b] != '"' ==> begin < end;
      Arg(s[begin..end], if end < |s| then end + 1 else end)
  }

  function WordsFrom(s: string, from: nat): (words: Words)
    requires from <= |s|
    decreases |s| - from
  {
    var a := Argument(s, from);
    if a.NoArg? then [] else [a.word] + WordsFrom(s, a.next)
  }

  function WordsOf(s: string): (words: Words) {
    WordsFrom(s, 0)
  }

  // ----- Printing, and reading back -----

  /** A word without the characters that no quoting protects. */
  predicate Printable(word: string) {
    '"' !in word && '`' !in word
  }

  predicate NeedsQuotes(word: string) {
    word == "" || word[0] == '>' || exists k :: 0 <= k < |word| && word[k] in BLANKS + {';', '#'}
  }

  function PrintWord(word: string): (s: string) {
    if NeedsQuotes(word) then "\"" + word + "\"" else word
  }

  function PrintWords(words: Words): (s: string) {
    if words == [] then "" else PrintWord(words[0]) + " " + PrintWords(words[1..])
  }

  function PrintLine(cmds: seq<Words>): (s: string)
    requires cmds != []
  {
    if |cmds| == 1 then PrintWords(cmds[0]) else PrintWords(cmds[0]) + ";" + PrintLine(cmds[1..])
  }

  lemma {:induction false} SpanIs(s: string, from: nat, stops: set<char>, k: nat)
    requires from <= k <= |s| && (k < |s| ==> s[k] in stops)
    requires forall j :: from <= j < k ==> s[j] !in stops
    ensures Span(s, from, stops) == k
    decreases k - from
  {
    if from < k {
      SpanIs(s, from + 1, stops, k);
    }
  }

  lemma {:induction false} ArgEndIs(s: string, from: nat, term: set<char>, k: nat)
    requires from <= k < |s| && s[k] in term && s[k] != '`'
    requires forall j :: from <= j < k ==> s[j] !in term && s[j] != '`'
    ensures ArgEnd(s, from, term, false) == k
    decreases k - from
  {
    if from < k {
      ArgEndIs(s, from + 1, term, k);
    }
  }

  lemma BlankSkipped(s: string, from: nat)
    requires from < |s| && s[from] in BLANKS
    ensures WordsFrom(s, from) == WordsFrom(s, from + 1)
  {
    assert Argument(s, from) == Argument(s, from + 1);
  }

  lemma SliceAt(s: string, i: nat, j: nat, t: string)
    requires i <= j <= |s| && s[i..j] == t
    ensures forall k :: i <= k < j ==> s[k] == t[k - i]
  {
  }

  lemma QuotedAt(s: string, i: nat, word: string)
    requires i + |word| + 2 <= |s| && s[i..i + |word| + 2] == "\"" + word + "\""
    ensures s[i] == '"' && s[i + 1..i + |word| + 1] == word && s[i + |word| + 1] == '"'
  {
    var t := "\"" + word + "\"";
    SliceAt(s, i, i + |word| + 2, t);
    assert forall k :: i + 1 <= k < i + |word| + 1 ==> s[k] == t[k - i] == word[k - i - 1];
  }

  lemma QuotedArgument(s: string, i: nat, word: string)
    requires Printable(word) && i + |word| + 2 < |s|
    requires s[i] == '"' && s[i + 1..i + |word| + 1] == word && s[i + |word| + 1] == '"'
    ensures Argument(s, i) == Arg(word, i + |word| + 2)
  {
    hide ArgEnd;
    SliceAt(s, i + 1, i + |word| + 1, word);
    ArgEndIs(s, i + 1, {'"'}, i + |word| + 1);
    assert NotBlank(s, i) == i;
  }

  lemma WordsFirst(s: string, from: nat)
    requires from <= |s| && Argument(s, from).Arg?
    ensures WordsFrom(s, from) == [Argument(s, from).word] + WordsFrom(s, Argument(s, from).next)
  {
    hide Argument;
  }

  lemma ReadQuoted(s: string, i: nat, word: string)
    requires Printable(word) && i + |word| + 2 < |s|
    requires s[i..i + |word| + 2] == "\"" + word + "\"" && s[i + |word| + 2] == ' '
    ensures WordsFrom(s, i) == [word] + WordsFrom(s, i + |word| + 3)
  {
    hide WordsFrom, Argument;
    QuotedAt(s, i, word);
    QuotedArgument(s, i, word);
    WordsFirst(s, i);
    BlankSkipped(s, i + |word| + 2);
  }

  lemma ReadBare(s: string, i: nat, word: string)
    requires Printable(word) && !NeedsQuotes(word) && i + |word| < |s|
    requires s[i..i + |word|] == word && s[i + |word|] == ' '
    ensures WordsFrom(s, i) == [word] + WordsFrom(s, i + |word| + 1)
  {
    hide Span;
    SliceAt(s, i, i + |word|, word);
    ArgEndIs(s, i, BLANKS, i + |word|);
  }

  lemma ReadWord(s: string, i: nat, word: string)
    requires Printable(word) && i + |PrintWord(word)| < |s|
    requires s[i..i + |PrintWord(word)|] == PrintWord(word) && s[i + |PrintWord(word)|] == ' '
    ensures WordsFrom(s, i) == [word] + WordsFrom(s, i + |PrintWord(word)| + 1)
  {
    hide WordsFrom, NeedsQuotes;
    if NeedsQuotes(word) {
      ReadQuoted(s, i, word);
    } else {
      ReadBare(s, i, word);
    }
  }

  lemma FirstPrinted(s: string, i: nat, end: nat, words: Words)
    requires words != [] && i <= end <= |s| && s[i..end] == PrintWords(words)
    ensures var n := |PrintWord(words[0])|;
            && i + n < end && s[i..i + n] == PrintWord(words[0]) && s[i + n] == ' '
            && s[i + n + 1..end] == PrintWords(words[1..])
  {
    hide PrintWord;
    var n, all := |PrintWord(words[0])|, s[i..end];
    assert all == PrintWord(words[0]) + (" " + PrintWords(words[1..]));
    assert s[i..i + n] == all[..n];
    assert s[i + n] == all[n];
    assert s[i + n + 1..end] == all[n + 1..];
  }

  lemma WordsEnd(s: string)
    ensures WordsFrom(s, |s|) == []
  {
  }

  /** The words of a printed command are the words it was printed from. */
  lemma {:induction false} ReadWords(s: string, i: nat, words: Words)
    requires i <= |s| && s[i..] == PrintWords(words)
    requires forall k :: 0 <= k < |words| ==> Printable(words[k])
    ensures WordsFrom(s, i) == words
    decreases words
  {
    hide WordsFrom, Printable, PrintWord, NeedsQuotes;
    WordsEnd(s);
    if words != [] {
      var n := |PrintWord(words[0])|;
      FirstPrinted(s, i, |s|, words);
      ReadWord(s, i, words[0]);
      ReadWords(s, i + n + 1, words[1..]);
    }
  }

  /** From `working` up to `pos` the line scan meets nothing. */
  ghost predicate Clear(line: string, working: nat, pos: nat) {
    working <= pos <= |line| && forall j :: working <= j < pos ==> line[j] !in LINE_STOPS
  }

  /** The line scan steps over a printed word. */
  lemma ScanWord(line: string, start: nat, working: nat, pos: nat, word: string) returns (w: nat)
    requires start <= working && Clear(line, working, pos) && Printable(word)
    requires pos + |PrintWord(word)| <= |line| && line[pos..pos + |PrintWord(word)|] == PrintWord(word)
    ensures start <= w && Clear(line, w, pos + |PrintWord(word)|)
    ensures SplitFrom(line, start, w) == SplitFrom(line, start, working)
  {
    hide SplitFrom, Span;
    if NeedsQuotes(word) {
      QuotedAt(line, pos, word);
      SliceAt(line, pos + 1, pos + |word| + 1, word);
      SpanIs(line, working, LINE_STOPS, pos);
      SpanIs(line, pos + 1, {'"'}, pos + |word| + 1);
      SplitQuote(line, start, working);
      w := pos + |word| + 2;
    } else {
      SliceAt(line, pos, pos + |word|, word);
      w := working;
    }
  }

  lemma {:induction false} ScanWords(line: string, start: nat, working: nat, pos: nat, words: Words) returns (w: nat)
    requires start <= working && Clear(line, working, pos)
    requires forall k :: 0 <= k < |words| ==> Printable(words[k])
    requires pos + |PrintWords(words)| <= |line| && line[pos..pos + |PrintWords(words)|] == PrintWords(words)
    ensures start <= w && Clear(line, w, pos + |PrintWords(words)|)
    ensures SplitFrom(line, start, w) == SplitFrom(line, start, working)
    decreases words
  {
    hide SplitFrom, PrintWord, Printable;
    if words == [] {
      w := working;
    } else {
      var n := |PrintWord(words[0])|;
      FirstPrinted(line, pos, pos + |PrintWords(words)|, words);
      w := ScanWord(line, start, working, pos, words[0]);
      w := ScanWords(line, start, w, pos + n + 1, words[1..]);
    }
  }

  /** The word lists of a split line. */
  function AllWords(segs: seq<Segment>): (cmds: seq<Words>) {
    if segs == [] then [] else [WordsOf(segs[0].text)] + AllWords(segs[1..])
  }

  lemma {:induction false} RoundTripFrom(line: string, i: nat, cmds: seq<Words>)
    requires cmds != [] && i <= |line| && line[i..] == PrintLine(cmds)
    requires forall c, k :: 0 <= c < |cmds| && 0 <= k < |cmds[c]| ==> Printable(cmds[c][k])
    ensures SplitFrom(line, i, i).closed && AllWords(SplitFrom(line, i, i).segs) == cmds
    decreases cmds
  {
    hide WordsFrom, Printable, PrintWords, SplitFrom;
    var n := |PrintWords(cmds[0])|;
    var tail := line[i..];
    var rest := if |cmds| == 1 then "" else ";" + PrintLine(cmds[1..]);
    assert tail == PrintWords(cmds[0]) + rest;
    assert line[i..i + n] == tail[..n] == PrintWords(cmds[0]);
    var w := ScanWords(line, i, i, i, cmds[0]);
    ReadWords(line[i..i + n], 0, cmds[0]);
    if |cmds| == 1 {
      assert line[i..] == line[i..i + n];
      LastSegment(line, i, w);
      assert AllWords([]) == [];
    } else {
      assert line[i + n] == tail[n] == ';';
      assert line[i + n + 1..] == tail[n + 1..] == PrintLine(cmds[1..]);
      RoundTripFrom(line, i + n + 1, cmds[1..]);
      MoreSegments(line, i, w, i + n);
    }
  }

  lemma LastSegment(line: string, start: nat, working: nat)
    requires start <= working && Clear(line, working, |line|)
    ensures SplitFrom(line, start, working) == Split([Segment(start, working, line[start..])], true)
  {
    hide SplitFrom, Span;
    SpanIs(line, working, LINE_STOPS, |line|);
    SplitLast(line, start, working);
  }

  lemma MoreSegments(line: string, start: nat, working: nat, ptr: nat)
    requires start <= working && Clear(line, working, ptr) && ptr < |line| && line[ptr] == ';'
    ensures var rest := SplitFrom(line, ptr + 1, ptr + 1);
            var all := SplitFrom(line, start, working);
            && all.closed == rest.closed && |all.segs| == 1 + |rest.segs|
            && all.segs[0] == Segment(start, working, line[start..ptr]) && all.segs[1..] == rest.segs
  {
    hide SplitFrom, Span;
    SpanIs(line, working, LINE_STOPS, ptr);
    SplitMore(line, start, working);
  }

  /** Printing a list of commands on one line and reading the line back gives the list. */
  lemma RoundTrip(cmds: seq<Words>)
    requires cmds != []
    requires forall c, k :: 0 <= c < |cmds| && 0 <= k < |cmds[c]| ==> Printable(cmds[c][k])
    ensures SplitFrom(PrintLine(cmds), 0, 0).closed
    ensures AllWords(SplitFrom(PrintLine(cmds), 0, 0).segs) == cmds
  {
    assert PrintLine(cmds)[0..] == PrintLine(cmds);
    RoundTripFrom(PrintLine(cmds), 0, cmds);
  }
}
