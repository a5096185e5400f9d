/**
 Where `done` seeks to. The offset recorded for a loop command lies after the last quoted
 string of the command, so reading from there gives the command again exactly when it holds no
 quoted string, unless a quoted string holds a comment sign.
 */
module ShellSeek {
  import opened ShellParser
  import opened ShellText
  import opened ShellMachine
  import opened ShellFile
  import opened ShellNotation

  const MARKS: set<char> := {'"', '#'}

  /** From `from` to `d`, quotes come in pairs and the last one ends at `d`. */
  predicate Paired(s: string, from: nat, d: nat)
    requires from <= d <= |s|
    decreases d - from
  {
    from == d ||
    (var ptr := Span(s, from, {'"'});
     ptr < d && (var close := Span(s, ptr + 1, {'"'}); close < d && Paired(s, close + 1, d)))
  }

  function Letters(words: Words): (t: string) {
    if words == [] then "" else words[0] + Letters(words[1..])
  }

  /** The first quote or comment sign is a quote. */
  predicate QuoteFirst(t: string) {
    var k := Span(t, 0, MARKS);
    k < |t| && t[k] == '"'
  }

  lemma QuoteInFirst(word: string, rest: string, q: nat)
    requires q < |word| && word[q] in MARKS && forall j :: 0 <= j < q ==> word[j] !in MARKS
    ensures QuoteFirst(word + rest) <==> word[q] == '"'
  {
    hide Span;
    SpanIs(word + rest, 0, MARKS, q);
  }

  lemma QuoteInRest(word: string, rest: string)
    requires forall j :: 0 <= j < |word| ==> word[j] !in MARKS
    ensures QuoteFirst(word + rest) <==> QuoteFirst(rest)
  {
    hide Span;
    var k := Span(rest, 0, MARKS);
    assert forall j :: |word| <= j < |word| + k ==> (word + rest)[j] == rest[j - |word|];
    SpanIs(word + rest, 0, MARKS, |word| + k);
  }

  // ----- One word at a time -----

  lemma {:induction false} ArgEndStops(s: string, from: nat, term: set<char>, backquote: bool)
    requires from <= |s|
    ensures var k := ArgEnd(s, from, term, backquote); k < |s| ==> s[k] in term
    decreases |s| - from
  {
    if from < |s| {
      if s[from] == '`' {
        ArgEndStops(s, from + 1, term, !backquote);
      } else if backquote || s[from] !in term {
        ArgEndStops(s, from + 1, term, backquote);
      }
    }
  }

  lemma NothingRead(s: string, from: nat)
    requires from <= |s|
    requires var b := NotBlank(s, from); b == |s| || s[b] == '#'
    ensures WordsFrom(s, from) == []
  {
    hide NotBlank, ArgEnd;
  }

  /** Where the words go on after a redirection sign. */
  lemma SignRead(s: string, from: nat) returns (next: nat)
    requires from <= |s|
    requires var b := NotBlank(s, from); b < |s| && s[b] == '>'
    ensures var b := NotBlank(s, from);
            && b < next <= |s| && (forall k :: b <= k < next ==> s[k] == '>')
            && WordsFrom(s, from) == [s[b..next]] + WordsFrom(s, next)
  {
    hide NotBlank, ArgEnd;
    var a := Argument(s, from);
    next := a.next;
    assert s[NotBlank(s, from)..next] == a.word;
  }

  lemma QuotedRead(s: string, from: nat) returns (end: nat)
    requires from <= |s|
    requires var b := NotBlank(s, from); b < |s| && s[b] == '"'
    ensures var b := NotBlank(s, from);
            && b < end <= |s| && (end < |s| ==> s[end] == '"')
            && WordsFrom(s, from) == [s[b + 1..end]] + WordsFrom(s, Beyond(s, end))
  {
    hide NotBlank, ArgEnd;
    var b := NotBlank(s, from);
    end := ArgEnd(s, b + 1, {'"'}, false);
    ArgEndStops(s, b + 1, {'"'}, false);
    assert Argument(s, from) == Arg(s[b + 1..end], Beyond(s, end));
  }

  lemma BareRead(s: string, from: nat) returns (end: nat)
    requires from <= |s|
    requires var b := NotBlank(s, from); b < |s| && s[b] !in {'"', '#', '>'}
    ensures var b := NotBlank(s, from);
            && b < end <= |s| && (end < |s| ==> s[end] in BLANKS)
            && WordsFrom(s, from) == [s[b..end]] + WordsFrom(s, Beyond(s, end))
  {
    hide NotBlank, ArgEnd;
    var b := NotBlank(s, from);
    end := ArgEnd(s, b, BLANKS, false);
    ArgEndStops(s, b, BLANKS, false);
    BareEnds(s, b);
    assert Argument(s, from) == Arg(s[b..end], Beyond(s, end));
  }

  lemma BareEnds(s: string, b: nat)
    requires b < |s| && s[b] !in BLANKS
    ensures b < ArgEnd(s, b, BLANKS, false)
  {
  }

  lemma LettersOf(word: string, words: Words)
    ensures Letters([word] + words) == word + Letters(words)
  {
    assert ([word] + words)[1..] == words;
  }

  // ----- After the recorded offset -----

  /** Where no quote comes before a comment sign, none does in the words either. */
  lemma {:induction false} TailWords(s: string, from: nat)
    requires from <= |s|
    requires var h := Span(s, from, MARKS); h == |s| || s[h] == '#'
    ensures !QuoteFirst(Letters(WordsFrom(s, from)))
    decreases |s| - from
  {
    hide Span, NotBlank, WordsFrom, QuoteFirst, Letters;
    var h, b := Span(s, from, MARKS), NotBlank(s, from);
    if b == |s| || s[b] == '#' {
      NothingRead(s, from);
      NoLetters();
    } else if s[b] == '>' {
      var next := SignRead(s, from);
      TailOn(s, from, b, next, next);
    } else {
      assert s[b] != '"';
      var end := BareRead(s, from);
      if h < end {
        LettersOf(s[b..end], WordsFrom(s, Beyond(s, end)));
        QuoteInFirst(s[b..end], Letters(WordsFrom(s, Beyond(s, end))), h - b);
      } else {
        TailOn(s, from, b, end, Beyond(s, end));
      }
    }
  }

  lemma NoLetters()
    ensures !QuoteFirst(Letters([]))
  {
  }

  /** A word without quotes and comment signs changes nothing. */
  lemma {:induction false} TailOn(s: string, from: nat, b: nat, end: nat, next: nat)
    requires from <= b < end <= next <= |s| && (forall k :: from <= k < next ==> s[k] !in MARKS)
    requires var h := Span(s, from, MARKS); h == |s| || s[h] == '#'
    requires WordsFrom(s, from) == [s[b..end]] + WordsFrom(s, next)
    ensures !QuoteFirst(Letters(WordsFrom(s, from)))
    decreases |s| - from, 0
  {
    hide Span, NotBlank, WordsFrom, QuoteFirst, Letters;
    var h := Span(s, from, MARKS);
    SpanIs(s, next, MARKS, h);
    TailWords(s, next);
    LettersOf(s[b..end], WordsFrom(s, next));
    QuoteInRest(s[b..end], Letters(WordsFrom(s, next)));
  }

  // ----- Before the recorded offset -----

  /**
   Up to the recorded offset the words either keep step with the quotes, so that at least one
   word is left behind, or a word swallows a quote.
   */
  lemma {:induction false} HeadWords(s: string, from: nat, d: nat)
    requires from <= d <= |s| && Paired(s, from, d) && forall k :: from <= k < d ==> s[k] != '#'
    ensures QuoteFirst(Letters(WordsFrom(s, from)))
         || |WordsFrom(s, from)| >= |WordsFrom(s, d)| + (if from < d then 1 else 0)
    decreases |s| - from
  {
    hide Span, NotBlank, WordsFrom, QuoteFirst, Letters;
    if from < d {
      var ptr, b := Span(s, from, {'"'}), NotBlank(s, from);
      if s[b] == '>' {
        var next := SignRead(s, from);
        HeadOn(s, from, d, b, next, next);
      } else if s[b] == '"' {
        HeadQuoted(s, from, d, b);
      } else {
        HeadBare(s, from, d, b);
      }
    }
  }

  lemma {:induction false} HeadQuoted(s: string, from: nat, d: nat, b: nat)
    requires from < d <= |s| && Paired(s, from, d) && forall k :: from <= k < d ==> s[k] != '#'
    requires b == NotBlank(s, from) < |s| && s[b] == '"'
    ensures QuoteFirst(Letters(WordsFrom(s, from))) || |WordsFrom(s, from)| >= |WordsFrom(s, d)| + 1
    decreases |s| - from, 1
  {
    hide Span, NotBlank, WordsFrom, QuoteFirst, Letters;
    SpanIs(s, from, {'"'}, b);
    var close := Span(s, b + 1, {'"'});
    var end := QuotedRead(s, from);
    if close < end {
      LettersOf(s[b + 1..end], WordsFrom(s, Beyond(s, end)));
      QuoteInFirst(s[b + 1..end], Letters(WordsFrom(s, Beyond(s, end))), close - b - 1);
    } else {
      HeadOn(s, from, d, b + 1, end, close + 1);
    }
  }

  lemma {:induction false} HeadBare(s: string, from: nat, d: nat, b: nat)
    requires from < d <= |s| && Paired(s, from, d) && forall k :: from <= k < d ==> s[k] != '#'
    requires b == NotBlank(s, from) < |s| && s[b] !in {'"', '#', '>'}
    ensures QuoteFirst(Letters(WordsFrom(s, from))) || |WordsFrom(s, from)| >= |WordsFrom(s, d)| + 1
    decreases |s| - from, 1
  {
    hide Span, NotBlank, WordsFrom, QuoteFirst, Letters;
    var ptr := Span(s, from, {'"'});
    var end := BareRead(s, from);
    if ptr < end {
      LettersOf(s[b..end], WordsFrom(s, Beyond(s, end)));
      QuoteInFirst(s[b..end], Letters(WordsFrom(s, Beyond(s, end))), ptr - b);
    } else {
      HeadOn(s, from, d, b, end, Beyond(s, end));
    }
  }

  lemma {:induction false} HeadOn(s: string, from: nat, d: nat, b: nat, end: nat, next: nat)
    requires from <= b <= end <= next <= d <= |s| && from < next && Paired(s, from, d)
    requires forall k :: from <= k < d ==> s[k] != '#'
    requires forall k :: b <= k < end ==> s[k] !in MARKS
    requires var ptr := Span(s, from, {'"'}); next <= ptr || next == Span(s, ptr + 1, {'"'}) + 1
    requires WordsFrom(s, from) == [s[b..end]] + WordsFrom(s, next)
    ensures QuoteFirst(Letters(WordsFrom(s, from))) || |WordsFrom(s, from)| >= |WordsFrom(s, d)| + 1
    decreases |s| - from, 0
  {
    hide Span, NotBlank, WordsFrom, QuoteFirst, Letters;
    PairedOn(s, from, d, next);
    HeadWords(s, next, d);
    LettersOf(s[b..end], WordsFrom(s, next));
    QuoteInRest(s[b..end], Letters(WordsFrom(s, next)));
  }

  lemma PairedOn(s: string, from: nat, d: nat, next: nat)
    requires from < next <= d <= |s| && Paired(s, from, d)
    requires var ptr := Span(s, from, {'"'}); next <= ptr || next == Span(s, ptr + 1, {'"'}) + 1
    ensures Paired(s, next, d)
  {
    hide Span;
    var ptr := Span(s, from, {'"'});
    if next <= ptr {
      SpanIs(s, next, {'"'}, ptr);
    }
  }

  /** A quoted string without a comment sign always costs words. */
  lemma WordsLost(s: string, d: nat)
    requires 0 < d <= |s| && Paired(s, 0, d) && '#' !in s[..d]
    requires var h := Span(s, d, MARKS); h == |s| || s[h] == '#'
    ensures WordsOf(s) != WordsFrom(s, d)
  {
    hide Span, WordsFrom, QuoteFirst, Letters;
    assert forall k :: 0 <= k < d ==> s[k] == s[..d][k];
    HeadWords(s, 0, d);
    TailWords(s, d);
  }

  // ----- The words of a part of the text -----

  lemma {:induction false} NotBlankShift(s: string, d: nat, from: nat)
    requires d + from <= |s|
    ensures NotBlank(s[d..], from) == NotBlank(s, d + from) - d
    decreases |s| - from
  {
    if d + from < |s| && s[d + from] in BLANKS {
      NotBlankShift(s, d, from + 1);
    }
  }

  lemma {:induction false} ArgEndShift(s: string, d: nat, from: nat, term: set<char>, backquote: bool)
    requires d + from <= |s|
    ensures ArgEnd(s[d..], from, term, backquote) == ArgEnd(s, d + from, term, backquote) - d
    decreases |s| - from
  {
    if d + from < |s| {
      if s[d + from] == '`' {
        ArgEndShift(s, d, from + 1, term, !backquote);
      } else if backquote || s[d + from] !in term {
        ArgEndShift(s, d, from + 1, term, backquote);
      }
    }
  }

  lemma ArgumentQuoted(s: string, from: nat, b: nat, end: nat)
    requires from <= b < |s| && b == NotBlank(s, from) && s[b] == '"' && end == ArgEnd(s, b + 1, {'"'}, false)
    ensures Argument(s, from) == Arg(s[b + 1..end], Beyond(s, end))
  {
    hide NotBlank, ArgEnd;
  }

  lemma ArgumentBare(s: string, from: nat, b: nat, end: nat)
    requires from <= b < |s| && b == NotBlank(s, from) && s[b] !in {'"', '#', '>'} && end == ArgEnd(s, b, BLANKS, false)
    ensures Argument(s, from) == Arg(s[b..end], Beyond(s, end))
  {
    hide NotBlank, ArgEnd;
  }

  lemma ArgumentOther(s: string, from: nat, b: nat)
    requires from <= b <= |s| && b == NotBlank(s, from) && (b == |s| || s[b] == '#' || s[b] == '>')
    ensures Argument(s, from) ==
              if b == |s| || s[b] == '#' then NoArg
              else if b + 1 < |s| && s[b + 1] == '>' then Arg(">>", b + 2) else Arg(">", b + 1)
  {
    hide NotBlank, ArgEnd;
  }

  /** The argument read from a part of the text, with its end moved. */
  ghost predicate SameArgument(s: string, d: nat, from: nat)
    requires d + from <= |s|
  {
    var a := Argument(s, d + from);
    Argument(s[d..], from) == if a.NoArg? then NoArg else Arg(a.word, a.next - d)
  }

  lemma ShiftQuoted(s: string, d: nat, from: nat, b: nat)
    requires d + from <= b < |s| && b == NotBlank(s, d + from) && s[b] == '"'
    ensures SameArgument(s, d, from)
  {
    hide NotBlank, ArgEnd, Argument;
    NotBlankShift(s, d, from);
    var end := ArgEnd(s, b + 1, {'"'}, false);
    ArgEndShift(s, d, b + 1 - d, {'"'}, false);
    ArgumentQuoted(s, d + from, b, end);
    ArgumentQuoted(s[d..], from, b - d, end - d);
    SliceOfTail(s, d, b + 1, end);
  }

  lemma ShiftBare(s: string, d: nat, from: nat, b: nat)
    requires d + from <= b < |s| && b == NotBlank(s, d + from) && s[b] !in {'"', '#', '>'}
    ensures SameArgument(s, d, from)
  {
    hide NotBlank, ArgEnd, Argument;
    NotBlankShift(s, d, from);
    var end := ArgEnd(s, b, BLANKS, false);
    ArgEndShift(s, d, b - d, BLANKS, false);
    ArgumentBare(s, d + from, b, end);
    ArgumentBare(s[d..], from, b - d, end - d);
    SliceOfTail(s, d, b, end);
  }

  lemma ArgumentShift(s: string, d: nat, from: nat)
    requires d + from <= |s|
    ensures SameArgument(s, d, from)
  {
    hide NotBlank, ArgEnd, Argument;
    var b := NotBlank(s, d + from);
    if b == |s| || s[b] == '#' || s[b] == '>' {
      NotBlankShift(s, d, from);
      ArgumentOther(s, d + from, b);
      ArgumentOther(s[d..], from, b - d);
    } else if s[b] == '"' {
      ShiftQuoted(s, d, from, b);
    } else {
      ShiftBare(s, d, from, b);
    }
  }

  lemma {:induction false} WordsShift(s: string, d: nat, from: nat)
    requires d + from <= |s|
    ensures WordsFrom(s[d..], from) == WordsFrom(s, d + from)
    decreases |s| - from
  {
    hide Argument;
    ArgumentShift(s, d, from);
    if Argument(s, d + from).Arg? {
      WordsShift(s, d, Argument(s, d + from).next - d);
    }
  }

  // ----- The commands of a line -----

  lemma SpanPart(line: string, start: nat, end: nat, from: nat, stops: set<char>)
    requires start <= from <= end <= |line| && Span(line, from, stops) < end
    ensures Span(line[start..end], from - start, stops) == Span(line, from, stops) - start
  {
    hide Span;
    SpanIs(line[start..end], from - start, stops, Span(line, from, stops) - start);
  }

  lemma {:induction false} PairedShift(line: string, start: nat, end: nat, from: nat, d: nat)
    requires start <= from <= d <= end <= |line| && Paired(line, from, d)
    ensures Paired(line[start..end], from - start, d - start)
    decreases d - from
  {
    hide Span, Paired;
    if from == d {
      PairedNone(line[start..end], d - start);
    } else {
      var ptr, close := PairedParts(line, from, d);
      SpanPart(line, start, end, from, {'"'});
      SpanPart(line, start, end, ptr + 1, {'"'});
      PairedShift(line, start, end, close + 1, d);
      PairedMore(line[start..end], from - start, d - start, ptr - start, close - start);
    }
  }

  lemma PairedNone(s: string, d: nat)
    requires d <= |s|
    ensures Paired(s, d, d)
  {
  }

  lemma PairedParts(s: string, from: nat, d: nat) returns (ptr: nat, close: nat)
    requires from < d <= |s| && Paired(s, from, d)
    ensures from <= ptr < close < d && ptr == Span(s, from, {'"'}) && close == Span(s, ptr + 1, {'"'})
    ensures Paired(s, close + 1, d)
  {
    hide Span;
    ptr := Span(s, from, {'"'});
    close := Span(s, ptr + 1, {'"'});
  }

  lemma PairedMore(s: string, from: nat, d: nat, ptr: nat, close: nat)
    requires from <= ptr < close < d <= |s| && ptr == Span(s, from, {'"'}) && close == Span(s, ptr + 1, {'"'})
    requires Paired(s, close + 1, d)
    ensures Paired(s, from, d)
  {
    hide Span;
  }

  /** The cut of the rest of a line, from `start` with the scan at `d`: one command up to `end`, and more. */
  ghost predicate Cut(line: string, start: nat, d: nat, end: nat)
    requires start <= d <= |line|
  {
    var r := SplitFrom(line, start, d);
    && r.segs != [] && r.segs[0].loffs == d <= end <= |line| && r.segs[0].text == line[start..end]
    && SplitFrom(line, d, d) == Split([Segment(d, d, line[d..end])] + r.segs[1..], r.closed)
    && (var h := Span(line, d, MARKS); h >= end || line[h] == '#')
  }

  lemma CutLast(line: string, start: nat, d: nat)
    requires start <= d <= |line|
    requires forall k :: 0 <= k < |line| && line[k] == '\n' ==> k == |line| - 1
    requires var ptr := Span(line, d, LINE_STOPS); ptr == |line| || line[ptr] == '\n' || line[ptr] == '#'
    ensures Cut(line, start, d, |line|)
  {
    hide SplitFrom, Span;
    SplitLast(line, start, d);
    SplitLast(line, d, d);
    var ptr := Span(line, d, LINE_STOPS);
    SpanIs(line, d, MARKS, if ptr < |line| && line[ptr] == '\n' then |line| else ptr);
    assert line[d..] == line[d..|line|] && line[start..] == line[start..|line|];
    assert SplitFrom(line, d, d).segs == [Segment(d, d, line[d..])] + [];
  }

  lemma CutMore(line: string, start: nat, d: nat)
    requires start <= d <= |line|
    requires var ptr := Span(line, d, LINE_STOPS); ptr < |line| && line[ptr] == ';'
    ensures Cut(line, start, d, Span(line, d, LINE_STOPS))
  {
    hide SplitFrom, Span;
    SplitMore(line, start, d);
    SplitMore(line, d, d);
  }

  /** The first command that is cut off: quotes are paired up to the offset recorded for it. */
  lemma {:induction false} FirstCut(line: string, start: nat, working: nat) returns (d: nat, end: nat)
    requires start <= working <= |line| && SplitFrom(line, start, working).segs != []
    requires forall k :: 0 <= k < |line| && line[k] == '\n' ==> k == |line| - 1
    ensures working <= d <= |line| && Paired(line, working, d) && Cut(line, start, d, end)
    ensures SplitFrom(line, start, working) == SplitFrom(line, start, d)
    decreases |line| - working
  {
    hide SplitFrom, Span, Cut;
    var ptr := Span(line, working, LINE_STOPS);
    if ptr == |line| || line[ptr] == '\n' || line[ptr] == '#' {
      d, end := working, |line|;
      CutLast(line, start, working);
    } else if line[ptr] == ';' {
      d, end := working, ptr;
      CutMore(line, start, working);
    } else {
      var close := Span(line, ptr + 1, {'"'});
      SplitQuote(line, start, working);
      d, end := FirstCut(line, start, close + 1);
      SpanIs(line, working, {'"'}, ptr);
      PairedMore(line, working, d, ptr, close);
    }
  }

  /** Each command of a line is cut off the same way when the cut starts with it. */
  lemma {:induction false} SegsAt(line: string, start: nat, working: nat, k: nat)
    requires start <= working <= |line| && k < |SplitFrom(line, start, working).segs|
    requires k == 0 ==> start == working
    ensures CutFrom(line, SplitFrom(line, start, working), k)
    decreases |line| - working
  {
    hide SplitFrom, Span, CutFrom;
    if k == 0 {
      FirstFrom(line, start);
    } else {
      var ptr := Span(line, working, LINE_STOPS);
      if ptr == |line| || line[ptr] == '\n' || line[ptr] == '#' {
        SplitLast(line, start, working);
      } else if line[ptr] == ';' {
        SplitMore(line, start, working);
        SegsAt(line, ptr + 1, ptr + 1, k - 1);
        NextFrom(line, Segment(start, working, line[start..ptr]), SplitFrom(line, ptr + 1, ptr + 1), k - 1);
      } else {
        SplitQuote(line, start, working);
        SegsAt(line, start, Span(line, ptr + 1, {'"'}) + 1, k);
      }
    }
  }

  /** Cut from the start of its `k`-th command, the line gives that command and those after it. */
  ghost predicate CutFrom(line: string, r: Split, k: nat) {
    && k < |r.segs| && r.segs[k].start <= |line|
    && SplitFrom(line, r.segs[k].start, r.segs[k].start) == Split(r.segs[k..], r.closed)
  }

  lemma FirstFrom(line: string, start: nat)
    requires start <= |line| && SplitFrom(line, start, start).segs != []
    ensures CutFrom(line, SplitFrom(line, start, start), 0)
  {
    hide SplitFrom;
    assert SplitFrom(line, start, start).segs[0..] == SplitFrom(line, start, start).segs;
  }

  lemma NextFrom(line: string, seg: Segment, r: Split, k: nat)
    requires CutFrom(line, r, k)
    ensures CutFrom(line, Split([seg] + r.segs, r.closed), k + 1)
  {
    hide SplitFrom;
    assert ([seg] + r.segs)[k + 1..] == r.segs[k..];
  }

  // ----- Seeking -----

  lemma LineOnce(s: Script, pos: nat)
    requires s.Valid() && pos < |s.file|
    ensures var line := s.LineAt(pos); forall k :: 0 <= k < |line| && line[k] == '\n' ==> k == |line| - 1
  {
    hide Span;
  }

  /** The words differ, so the code differs. */
  lemma CodeDiffers(a: Segment, b: Segment, segs: seq<Segment>, pos: nat, rest: seq<Located>)
    requires WordsOf(a.text) != [] && WordsOf(a.text) != WordsOf(b.text)
    ensures CodeOf([a] + segs, pos) + rest != CodeOf([b] + segs, pos) + rest
  {
    hide WordsOf, CodeOf;
    CodeOfCons(a, segs, pos);
    CodeOfCons(b, segs, pos);
    var x, y := CodeOf([a] + segs, pos) + rest, CodeOf([b] + segs, pos) + rest;
    if WordsOf(b.text) == [] {
      assert |x| > |y|;
    } else {
      assert x[0].words != y[0].words;
    }
  }

  /** Reading from the offset recorded for the first of these commands. */
  lemma SeekCut(s: Script, pos: nat, start: nat, d: nat, end: nat)
    requires s.Valid() && Whole(s, pos) && start <= d <= |s.LineAt(pos)|
    requires var line := s.LineAt(pos);
             && Paired(line, start, d) && Cut(line, start, d, end) && '#' !in line[start..d]
             && WordsOf(SplitFrom(line, start, d).segs[0].text) != []
    ensures s.Code(pos + d) == CodeOf(SplitFrom(s.LineAt(pos), start, d).segs, pos) + s.Code(s.LineEnd(pos)) <==> d == start
  {
    hide Span, SplitFrom, CodeOf, WordsOf, WordsFrom, Script.Code, Paired;
    var line := s.LineAt(pos);
    var segs := SplitFrom(line, start, d).segs;
    var text := line[start..end];
    NoWords(text);
    if d == |line| {
      CodeOfCons(segs[0], segs[1..], pos);
      assert segs == [segs[0]] + segs[1..];
    } else {
      CodeFromMiddle(s, pos, d);
      if start < d {
        WordsCut(line, start, d, end);
        CodeDiffers(segs[0], Segment(d, d, line[d..end]), segs[1..], pos, s.Code(s.LineEnd(pos)));
        assert segs == [segs[0]] + segs[1..];
      }
    }
  }

  lemma WordsCut(line: string, start: nat, d: nat, end: nat)
    requires start < d <= |line| && Paired(line, start, d) && Cut(line, start, d, end) && '#' !in line[start..d]
    ensures WordsOf(line[start..end]) != WordsOf(line[d..end])
  {
    hide Span, SplitFrom, WordsFrom, Paired;
    var text := line[start..end];
    PairedShift(line, start, end, start, d);
    assert text[..d - start] == line[start..d];
    assert text[d - start..] == line[d..end];
    WordsShift(text, d - start, 0);
    var h := Span(line, d, MARKS);
    SpanIs(text, d - start, MARKS, if h < end then h - start else |text|);
    WordsLost(text, d - start);
  }

  lemma CodeBegins(s: Script, pos: nat)
    requires s.Valid() && pos < |s.file|
    ensures |CodeOf(SplitFrom(s.LineAt(pos), 0, 0).segs, pos)| <= |s.Code(pos)|
  {
    hide SplitFrom, CodeOf, Script.LineEnd, Script.LineAt;
  }

  lemma SeekAt(s: Script, pos: nat, k: nat)
    requires s.Valid() && Whole(s, pos) && k < |SplitFrom(s.LineAt(pos), 0, 0).segs|
    requires var seg := SplitFrom(s.LineAt(pos), 0, 0).segs[k];
             WordsOf(seg.text) != [] && '#' !in s.LineAt(pos)[seg.start..seg.loffs]
    ensures var segs := SplitFrom(s.LineAt(pos), 0, 0).segs;
            s.Code(pos + segs[k].loffs) == CodeOf(segs[k..], pos) + s.Code(s.LineEnd(pos))
            <==> !QuotedFrom(s.LineAt(pos), segs[k].start)
  {
    hide Span, SplitFrom, CodeOf, WordsOf, Paired, QuotedFrom, Whole, Script.Code;
    var line := s.LineAt(pos);
    SegsAt(line, 0, 0, k);
    var start := SplitFrom(line, 0, 0).segs[k].start;
    LineOnce(s, pos);
    var d, end := FirstCut(line, start, start);
    OffsetExact(line, start);
    SeekCut(s, pos, start, d, end);
  }

  /**
   For each command of a line that fits the buffer: reading from the offset recorded for it gives
   that command and all that follow it, if and only if no quoted string comes before its end,
   provided that no quoted string holds a comment sign.
   */
  lemma SeekExactly(s: Script, pos: nat, j: nat) returns (k: nat)
    requires s.Valid() && Whole(s, pos)
    requires j < |CodeOf(SplitFrom(s.LineAt(pos), 0, 0).segs, pos)|
    ensures k < |SplitFrom(s.LineAt(pos), 0, 0).segs|
    ensures var seg := SplitFrom(s.LineAt(pos), 0, 0).segs[k];
            && j < |s.Code(pos)| && s.Code(pos)[j] == Located(pos + seg.loffs, WordsOf(seg.text))
            && ('#' !in s.LineAt(pos)[seg.start..seg.loffs] ==>
                 (s.Code(pos + seg.loffs) == s.Code(pos)[j..] <==> !QuotedFrom(s.LineAt(pos), seg.start)))
  {
    hide Span, SplitFrom, CodeOf, WordsOf, QuotedFrom, Script.Code;
    k := CodeOfEntry(SplitFrom(s.LineAt(pos), 0, 0).segs, pos, j);
    CodeBegins(s, pos);
    CodeHere(s, pos, j);
    var seg := SplitFrom(s.LineAt(pos), 0, 0).segs[k];
    if '#' !in s.LineAt(pos)[seg.start..seg.loffs] {
      SeekAt(s, pos, k);
    }
  }

  // ----- With a comment sign in a quoted string -----

  const QUOTED_PART: string := "while \"a#\" b\" #\""
  const BARE_PART: string := " while a# b\""
  const BY_CHANCE: string := QUOTED_PART + BARE_PART

  /** The words of the text, quoted, bare, and after the comment sign. */
  ghost predicate Pieces(t: string) {
    && |t| == 28
    && t[0..5] == "while" && t[5] == ' ' && t[6] == '"' && t[7..9] == "a#" && t[9] == '"' && t[10] == ' '
    && t[11..13] == "b\"" && t[13] == ' ' && t[14] == '#' && t[15] == '"' && t[16] == ' '
    && t[17..22] == "while" && t[22] == ' ' && t[23..25] == "a#" && t[25] == ' ' && t[26..28] == "b\""
  }

  lemma ByChancePieces()
    ensures Pieces(BY_CHANCE)
  {
    var t, a, b := BY_CHANCE, QUOTED_PART, BARE_PART;
    assert t[0..5] == a[0..5] && t[7..9] == a[7..9] && t[11..13] == a[11..13];
    assert t[17..22] == b[1..6] && t[23..25] == b[7..9] && t[26..28] == b[10..12];
  }

  lemma ByChanceWords(t: string)
    requires Pieces(t)
    ensures WordsFrom(t, 0) == WordsFrom(t, 16) == ["while", "a#", "b\""]
  {
    hide WordsFrom, NotBlank;
    BareIs(t, 0, 0, "while");
    QuotedIs(t, 6, 6, "a#");
    BareIs(t, 10, 11, "b\"");
    BlanksIs(t, 14, 14);
    NothingRead(t, 14);
    BareIs(t, 16, 17, "while");
    BareIs(t, 23, 23, "a#");
    BareIs(t, 26, 26, "b\"");
    WordsEnd(t);
  }

  lemma ByChanceSplit(t: string)
    requires Pieces(t)
    ensures QuotedFrom(t, 0)
    ensures SplitFrom(t, 0, 0) == Split([Segment(0, 16, t)], true)
    ensures SplitFrom(t, 16, 16) == Split([Segment(16, 16, t[16..])], true)
  {
    hide SplitFrom, Span;
    ByChanceStops(t);
    SplitQuote(t, 0, 0);
    SplitQuote(t, 0, 10);
    SplitLast(t, 0, 16);
    SplitLast(t, 16, 16);
  }

  lemma ByChanceStops(t: string)
    requires Pieces(t)
    ensures Span(t, 0, LINE_STOPS) == 6 && Span(t, 7, {'"'}) == 9 && Span(t, 10, LINE_STOPS) == 12
    ensures Span(t, 13, {'"'}) == 15 && Span(t, 16, LINE_STOPS) == 24 && t[12] == '"' && t[24] == '#'
  {
    hide Span;
    SliceAt(t, 0, 5, "while");
    SliceAt(t, 7, 9, "a#");
    SliceAt(t, 11, 13, "b\"");
    SliceAt(t, 17, 22, "while");
    SliceAt(t, 23, 25, "a#");
    SpanIs(t, 0, LINE_STOPS, 6);
    SpanIs(t, 7, {'"'}, 9);
    SpanIs(t, 10, LINE_STOPS, 12);
    SpanIs(t, 13, {'"'}, 15);
    SpanIs(t, 16, LINE_STOPS, 24);
  }

  lemma ByChanceLine(t: string)
    requires Pieces(t)
    ensures Span(t, 0, {'\n'}) == 28
  {
    hide Span;
    ByChanceStops(t);
    SliceAt(t, 7, 9, "a#");
    SliceAt(t, 26, 28, "b\"");
    SpanIs(t, 0, {'\n'}, 28);
  }

  lemma CodeOfOne(seg: Segment, pos: nat)
    requires WordsOf(seg.text) != []
    ensures CodeOf([seg], pos) == [Located(pos + seg.loffs, WordsOf(seg.text))]
  {
    hide WordsOf;
    assert [seg][1..] == [];
  }

  lemma ByChanceCode(s: Script)
    requires s.Valid() && Pieces(s.file) && 28 < s.lineLength
    ensures Whole(s, 0) && s.LineAt(0) == s.file
    ensures s.Code(0) == s.Code(16) == [Located(16, ["while", "a#", "b\""])]
  {
    hide SplitFrom, Span, WordsFrom, CodeOf;
    var t := s.file;
    ByChanceLine(t);
    ByChanceSplit(t);
    ByChanceWords(t);
    WordsShift(t, 16, 0);
    CodeFromMiddle(s, 0, 16);
    CodeOfOne(Segment(0, 16, t), 0);
    CodeOfOne(Segment(16, 16, t[16..]), 0);
    assert s.LineAt(0) == t && s.Code(28) == [];
  }

  /**
   The proviso is needed: this loop command holds two quoted strings, one of them with a comment
   sign, and yet the text from the offset recorded for it has the words of the whole.
   */
  lemma SeekByChance(s: Script)
    requires s.file == BY_CHANCE && 28 < s.lineLength
    ensures s.LineAt(0) == BY_CHANCE && Whole(s, 0) && QuotedFrom(BY_CHANCE, 0)
    ensures s.Code(0) == s.Code(16) == [Located(16, ["while", "a#", "b\""])]
  {
    hide SplitFrom, Span, QuotedFrom, Pieces;
    ByChancePieces();
    ByChanceCode(s);
    ByChanceSplit(s.file);
  }
}
