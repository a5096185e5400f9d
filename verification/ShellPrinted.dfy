/**
 From the letters of a script to its meaning: a tree is written down with the words of the shell,
 and the file means what the tree says.
 */
module ShellPrinted {
  import opened ShellParser
  import opened ShellText
  import opened ShellTree
  import opened ShellMachine
  import opened ShellFile
  import opened ShellRefinement
  import opened ShellScriptMeaning
  import opened ShellPlain
  import opened ShellLayout
  import opened ShellNotation

  // ----- A tree in the words of the shell -----

  /** The commands of a script, in words. */
  function Notation(s: Stmt): (cmds: seq<Words>) {
    match s
    case Skip => []
    case Cmd(argv) => [argv]
    case BreakOut => [["break"]]
    case Seq(a, b) => Notation(a) + Notation(b)
    case Cond(cond, t, e) =>
      [["if"] + cond, ["then"]] + Notation(t) + (if e.Skip? then [] else [["else"]] + Notation(e)) + [["fi"]]
    case Loop(until, cond, b) =>
      [[if until then "until" else "while"] + cond, ["do"]] + Notation(b) + [["done"]]
  }

  /** Commands and conditions do not begin with one of these words. */
  predicate Sensible(s: Stmt) {
    match s
    case Cmd(argv) => Ordinary(argv)
    case Seq(a, b) => Sensible(a) && Sensible(b)
    case Cond(cond, t, e) => Ordinary(cond) && Sensible(t) && Sensible(e)
    case Loop(_, cond, b) => Ordinary(cond) && Sensible(b)
    case _ => true
  }

  lemma Keywords()
    ensures Word(While) == ["while"] && Word(Until) == ["until"] && Word(Do) == ["do"] && Word(Done) == ["done"]
    ensures Word(If) == ["if"] && Word(Then) == ["then"] && Word(Else) == ["else"] && Word(Fi) == ["fi"]
    ensures Word(Break) == ["break"]
  {
  }

  /** These words are what the parser sees. */
  lemma {:induction false} NotationIsFlat(s: Stmt)
    ensures Notation(s) == Flat(s)
  {
    hide Word;
    Keywords();
    match s
    case Seq(a, b) =>
      NotationIsFlat(a);
      NotationIsFlat(b);
    case Cond(cond, t, e) =>
      NotationIsFlat(t);
      NotationIsFlat(e);
    case Loop(until, cond, b) =>
      NotationIsFlat(b);
    case _ =>
  }

  lemma {:induction false} SensibleIsWellFormed(s: Stmt)
    ensures Sensible(s) <==> WellFormed(s)
  {
    hide Head, Ordinary;
    match s
    case Cmd(argv) =>
      OrdinaryIsPlain(argv);
    case Seq(a, b) =>
      SensibleIsWellFormed(a);
      SensibleIsWellFormed(b);
    case Cond(cond, t, e) =>
      OrdinaryIsPlain(cond);
      SensibleIsWellFormed(t);
      SensibleIsWellFormed(e);
    case Loop(_, cond, b) =>
      OrdinaryIsPlain(cond);
      SensibleIsWellFormed(b);
    case _ =>
  }

  lemma OrdinaryIsPlain(words: Words)
    ensures Ordinary(words) <==> Plain(words)
  {
    hide Head;
    if words != [] {
      HeadsAre(words);
    }
  }

  // ----- Any layout of a script -----

  /** The file holds these lines, and their commands are those of the tree. */
  ghost predicate WrittenAs(s: Script, lines: seq<Line>, t: Stmt) {
    && s.Valid() && s.file == FileText(lines) && Fitting(lines, s.lineLength) && LoopsBare(lines)
    && AllSpoken(lines) == Notation(t)
    && (s.ignore ==> OrdinariesLast(lines))
  }

  /** A tree that fits the parser's stacks, with `break`s and loops where they are safe. */
  predicate Safe(t: Stmt, depth: nat) {
    Sensible(t) && IfDepth(t) < depth && LoopDepth(t) < depth && BreaksPlaced(t, Top) && LoopsSeparated(t, Top)
  }

  lemma WrittenIsSound(s: Script, lines: seq<Line>, t: Stmt, depth: nat)
    requires WrittenAs(s, lines, t) && Safe(t, depth)
    ensures Sound(s, t, depth)
  {
    hide FileText, Fitting, LoopsBare, AllSpoken, OrdinariesLast, Notation, Flat, Sensible, WellFormed, Tidy, Spread,
         Script.Code, IfDepth, LoopDepth, BreaksPlaced, LoopsSeparated;
    assert s.file[0..] == s.file;
    FileReads(s, 0, lines);
    NotationIsFlat(t);
    SensibleIsWellFormed(t);
    var code := s.Code(0);
    assert forall k :: 0 <= k < |code| ==> WordsAt(code)[k] == code[k].words;
  }

  /**
   A script that is written down, in any layout of blanks, tabs, newlines, semicolons, quotes and
   comments, ends in a way if and only if its tree does, and runs the same commands.
   */
  lemma WrittenMeans(s: Script, lines: seq<Line>, t: Stmt, depth: nat)
    requires WrittenAs(s, lines, t) && Safe(t, depth)
    ensures Sound(s, t, depth)
    ensures forall end :: TextEnds(s, depth, end) <==> TreeEnds(MachineOf(s), t, end)
    ensures forall log :: TextRuns(s, depth, log) <==> TreeRuns(MachineOf(s), t, log)
  {
    hide WrittenAs, TextEnds, TreeEnds, TextRuns, TreeRuns, MachineOf, Sound;
    WrittenIsSound(s, lines, t, depth);
    SoundIs(s, t, depth);
    TextMeansTree(s, t, depth);
  }

  lemma SoundIs(s: Script, t: Stmt, depth: nat)
    requires Sound(s, t, depth)
    ensures s.Valid() && 0 < depth && |MachineOf(s).code| == Size(t)
  {
  }

  // ----- One layout: a line for each command, and the body of a loop or an `if` indented -----

  /** A word that needs no quotes on a line. */
  predicate BareInline(w: string) {
    BareWord(w) && '"' !in w && '#' !in w && ';' !in w
  }

  /** A word that can be written at all. */
  predicate Writable(w: string) {
    QuotedWord(w) && '\n' !in w
  }

  function ItemOf(gap: string, w: string): (item: Item) {
    Item(gap, w, !BareInline(w))
  }

  /** The words of a command after a margin, with a blank between them. */
  function Items(words: Words, gap: string): (items: seq<Item>)
    ensures |items| == |words|
  {
    if words == [] then [] else [ItemOf(gap, words[0])] + Items(words[1..], " ")
  }

  function Solo(words: Words, margin: string): (line: Line) {
    Line([Command(Items(words, margin), "")], "", true)
  }

  /** A condition and the keyword after it, on one line. */
  function Opener(words: Words, keyword: string, margin: string): (line: Line) {
    Line([Command(Items(words, margin), ""), Command([Item(" ", keyword, false)], "")], "", true)
  }

  function PrintTree(s: Stmt, margin: string): (lines: seq<Line>) {
    match s
    case Skip => []
    case Cmd(argv) => [Solo(argv, margin)]
    case BreakOut => [Solo(["break"], margin)]
    case Seq(a, b) => PrintTree(a, margin) + PrintTree(b, margin)
    case Cond(cond, t, e) =>
      [Opener(["if"] + cond, "then", margin)] + PrintTree(t, margin + "\t") +
      (if e.Skip? then [] else [Solo(["else"], margin)] + PrintTree(e, margin + "\t")) + [Solo(["fi"], margin)]
    case Loop(until, cond, b) =>
      [Opener([if until then "until" else "while"] + cond, "do", margin)] + PrintTree(b, margin + "\t") +
      [Solo(["done"], margin)]
  }

  /** All words can be written, and those of loop conditions without quotes. */
  predicate CanPrint(s: Stmt) {
    match s
    case Cmd(argv) => forall k :: 0 <= k < |argv| ==> Writable(argv[k])
    case Seq(a, b) => CanPrint(a) && CanPrint(b)
    case Cond(cond, t, e) => (forall k :: 0 <= k < |cond| ==> Writable(cond[k])) && CanPrint(t) && CanPrint(e)
    case Loop(_, cond, b) => (forall k :: 0 <= k < |cond| ==> BareInline(cond[k]) && Writable(cond[k])) && CanPrint(b)
    case _ => true
  }

  /** Space at the beginning of a line. */
  predicate Margin(gap: string) {
    forall k :: 0 <= k < |gap| ==> gap[k] == ' ' || gap[k] == '\t'
  }

  lemma ItemsOk(words: Words, gap: string)
    requires Margin(gap) && forall k :: 0 <= k < |words| ==> Writable(words[k])
    ensures Spaced(Items(words, gap)) && WordsIn(Items(words, gap)) == words
    ensures forall k :: 0 <= k < |words| ==> Inline(Items(words, gap)[k])
    ensures (forall k :: 0 <= k < |words| ==> BareInline(words[k])) ==> Command(Items(words, gap), "").Bare()
  {
    hide Items, WordsIn, Writable, BareInline, Inline, Item.Valid;
    var items := Items(words, gap);
    ItemsWords(words, gap);
    forall k | 0 <= k < |words|
      ensures items[k].Valid() && Inline(items[k]) && (k > 0 ==> items[k].gap == " ") && items[k].quoted == !BareInline(words[k])
    {
      ItemAt(words, gap, k);
      ItemOk(if k == 0 then gap else " ", words[k]);
    }
  }

  lemma {:induction false} ItemsWords(words: Words, gap: string)
    ensures WordsIn(Items(words, gap)) == words
    decreases words
  {
    if words != [] {
      ItemsWords(words[1..], " ");
      assert Items(words, gap)[1..] == Items(words[1..], " ");
    }
  }

  lemma ItemOk(gap: string, w: string)
    requires Margin(gap) && Writable(w)
    ensures ItemOf(gap, w).Valid() && Inline(ItemOf(gap, w))
  {
  }

  lemma {:induction false} ItemAt(words: Words, gap: string, k: nat)
    requires k < |words|
    ensures Items(words, gap)[k] == ItemOf(if k == 0 then gap else " ", words[k])
    decreases words
  {
    if k > 0 {
      ItemAt(words[1..], " ", k - 1);
    }
  }

  /** A line of the printed tree: valid, with its newline, and speaking these commands. */
  ghost predicate Speaks(line: Line, cmds: seq<Words>) {
    line.Valid() && line.newline && Spoken(line.cmds) == cmds && LoopsBare([line]) && OrdinariesLast([line])
  }

  lemma SoloSpeaks(words: Words, margin: string)
    requires Margin(margin) && words != [] && !LoopWord(words) && forall k :: 0 <= k < |words| ==> Writable(words[k])
    ensures Speaks(Solo(words, margin), [words])
  {
    hide Spaced, Inline, WordsIn, Items, Gap, Ordinary;
    ItemsOk(words, margin);
    WordsIfAny(Items(words, margin));
    var cmds := Solo(words, margin).cmds;
    assert cmds[1..] == [];
    assert Spoken(cmds) == [words] + [];
    assert Gap("") by { NoGap(); }
  }

  lemma NoGap()
    ensures Gap("")
  {
  }

  lemma OpenerSpeaks(words: Words, keyword: string, margin: string)
    requires Margin(margin) && words != [] && !Ordinary(words) && forall k :: 0 <= k < |words| ==> Writable(words[k])
    requires LoopWord(words) ==> forall k :: 0 <= k < |words| ==> BareInline(words[k])
    requires keyword in {"then", "do"}
    ensures Speaks(Opener(words, keyword, margin), [words, [keyword]])
  {
    hide Spaced, Inline, Items, Gap, Ordinary;
    ItemsOk(words, margin);
    WordsIfAny(Items(words, margin));
    KeywordOk(keyword);
    var cmds := Opener(words, keyword, margin).cmds;
    assert cmds[1..] == [Command([Item(" ", keyword, false)], "")] && cmds[1..][1..] == [];
    assert [Item(" ", keyword, false)][1..] == [];
    assert WordsIn([Item(" ", keyword, false)]) == [keyword];
    assert Spoken(cmds[1..]) == [[keyword]] + [];
    assert Spoken(cmds) == [words] + [[keyword]];
  }

  lemma KeywordOk(keyword: string)
    requires keyword in {"then", "do"}
    ensures Command([Item(" ", keyword, false)], "").Valid() && Gap("")
  {
    hide BareWord, QuotedWord;
    KeywordIsPlain(keyword);
  }

  lemma KeywordIsPlain(w: string)
    requires w in {"while", "until", "do", "done", "if", "then", "else", "fi", "break"}
    ensures BareInline(w) && Writable(w)
  {
    hide BareWord, QuotedWord;
    PlainIsBare(w);
    PlainIsQuoted(w);
  }

  /** Lines that speak these commands. */
  ghost predicate Tells(lines: seq<Line>, cmds: seq<Words>) {
    && (forall k :: 0 <= k < |lines| ==> lines[k].Valid() && lines[k].newline)
    && AllSpoken(lines) == cmds && LoopsBare(lines) && OrdinariesLast(lines)
  }

  lemma TellsOne(line: Line, cmds: seq<Words>)
    requires Speaks(line, cmds)
    ensures Tells([line], cmds)
  {
    hide Spoken, LoopsBare, OrdinariesLast, Line.Valid;
    assert [line][1..] == [];
    assert AllSpoken([line]) == Spoken(line.cmds) + [];
  }

  lemma {:induction false} SpokenJoin(a: seq<Line>, b: seq<Line>)
    ensures AllSpoken(a + b) == AllSpoken(a) + AllSpoken(b)
  {
    hide Spoken;
    if a == [] {
      assert a + b == b;
    } else {
      assert (a + b)[0] == a[0] && (a + b)[1..] == a[1..] + b;
      SpokenJoin(a[1..], b);
    }
  }

  lemma TellsJoin(a: seq<Line>, b: seq<Line>, x: seq<Words>, y: seq<Words>)
    requires Tells(a, x) && Tells(b, y)
    ensures Tells(a + b, x + y)
  {
    hide Spoken, Line.Valid, WordsIn, Command.Bare;
    SpokenJoin(a, b);
    assert forall j :: 0 <= j < |a + b| ==> (a + b)[j] == if j < |a| then a[j] else b[j - |a|];
  }

  lemma TellsNone()
    ensures Tells([], [])
  {
  }

  /** A printed tree tells its commands. */
  lemma {:induction false} PrintTells(s: Stmt, margin: string)
    requires CanPrint(s) && Sensible(s) && Margin(margin)
    ensures Tells(PrintTree(s, margin), Notation(s))
    decreases s, 1
  {
    hide Tells, Solo, Opener, Ordinary, Writable, BareInline, Margin;
    match s
    case Skip =>
      TellsNone();
    case Cmd(argv) =>
      OrdinarySpeaks(argv, margin);
      TellsOne(Solo(argv, margin), [argv]);
    case BreakOut =>
      KeywordSpeaks("break", margin);
      TellsOne(Solo(["break"], margin), [["break"]]);
    case Seq(a, b) =>
      PrintTells(a, margin);
      PrintTells(b, margin);
      TellsJoin(PrintTree(a, margin), PrintTree(b, margin), Notation(a), Notation(b));
    case Cond(_, _, _) =>
      PrintTellsIf(s, margin);
    case Loop(_, _, _) =>
      PrintTellsLoop(s, margin);
  }

  lemma OrdinarySpeaks(words: Words, margin: string)
    requires Margin(margin) && Ordinary(words) && forall k :: 0 <= k < |words| ==> Writable(words[k])
    ensures Speaks(Solo(words, margin), [words])
  {
    hide Speaks, Solo, Margin, Writable;
    SoloSpeaks(words, margin);
  }

  lemma KeywordSpeaks(keyword: string, margin: string)
    requires Margin(margin) && keyword in {"break", "else", "fi", "done"}
    ensures Speaks(Solo([keyword], margin), [[keyword]])
  {
    hide Speaks, Solo, Margin, Writable;
    KeywordIsPlain(keyword);
    SoloSpeaks([keyword], margin);
  }

  lemma MarginMore(margin: string)
    requires Margin(margin)
    ensures Margin(margin + "\t")
  {
  }

  lemma ConditionSpeaks(first: string, cond: Words, keyword: string, margin: string)
    requires Margin(margin) && first in {"if", "while", "until"} && keyword in {"then", "do"}
    requires forall k :: 0 <= k < |cond| ==> Writable(cond[k])
    requires first != "if" ==> forall k :: 0 <= k < |cond| ==> BareInline(cond[k])
    ensures Speaks(Opener([first] + cond, keyword, margin), [[first] + cond, [keyword]])
  {
    hide Speaks, Opener, Margin, Writable, BareInline;
    KeywordIsPlain(first);
    OpenerSpeaks([first] + cond, keyword, margin);
  }

  lemma {:induction false} PrintTellsIf(s: Stmt, margin: string)
    requires s.Cond? && CanPrint(s) && Sensible(s) && Margin(margin)
    ensures Tells(PrintTree(s, margin), Notation(s))
    decreases s, 0
  {
    hide Tells, Solo, Opener, Ordinary, Writable, BareInline, Margin, Speaks;
    var inner := margin + "\t";
    MarginMore(margin);
    ConditionSpeaks("if", s.cond, "then", margin);
    TellsOne(Opener(["if"] + s.cond, "then", margin), [["if"] + s.cond, ["then"]]);
    PrintTells(s.thn, inner);
    KeywordSpeaks("else", margin);
    TellsOne(Solo(["else"], margin), [["else"]]);
    PrintTells(s.els, inner);
    KeywordSpeaks("fi", margin);
    TellsOne(Solo(["fi"], margin), [["fi"]]);
    TellsNone();
    var head, headWords := [Opener(["if"] + s.cond, "then", margin)], [["if"] + s.cond, ["then"]];
    TellsJoin(head, PrintTree(s.thn, inner), headWords, Notation(s.thn));
    TellsJoin([Solo(["else"], margin)], PrintTree(s.els, inner), [["else"]], Notation(s.els));
    var e := if s.els.Skip? then [] else [Solo(["else"], margin)] + PrintTree(s.els, inner);
    var eWords := if s.els.Skip? then [] else [["else"]] + Notation(s.els);
    TellsJoin(head + PrintTree(s.thn, inner), e, headWords + Notation(s.thn), eWords);
    TellsJoin(head + PrintTree(s.thn, inner) + e, [Solo(["fi"], margin)], headWords + Notation(s.thn) + eWords, [["fi"]]);
  }

  lemma {:induction false} PrintTellsLoop(s: Stmt, margin: string)
    requires s.Loop? && CanPrint(s) && Sensible(s) && Margin(margin)
    ensures Tells(PrintTree(s, margin), Notation(s))
    decreases s, 0
  {
    hide Tells, Solo, Opener, Ordinary, Writable, BareInline, Margin, Speaks;
    var inner := margin + "\t";
    var first := if s.until then "until" else "while";
    MarginMore(margin);
    ConditionSpeaks(first, s.cond, "do", margin);
    var head, headWords := [Opener([first] + s.cond, "do", margin)], [[first] + s.cond, ["do"]];
    TellsOne(head[0], headWords);
    PrintTells(s.body, inner);
    KeywordSpeaks("done", margin);
    TellsOne(Solo(["done"], margin), [["done"]]);
    TellsJoin(head, PrintTree(s.body, inner), headWords, Notation(s.body));
    TellsJoin(head + PrintTree(s.body, inner), [Solo(["done"], margin)], headWords + Notation(s.body), [["done"]]);
  }

  /** The file is the printed tree, and its lines fit the buffer. */
  ghost predicate PrintedIn(s: Script, t: Stmt) {
    && s.Valid() && s.file == FileText(PrintTree(t, "")) && CanPrint(t)
    && forall k :: 0 <= k < |PrintTree(t, "")| ==> |PrintTree(t, "")[k].Text()| < s.lineLength
  }

  lemma PrintedIsWritten(s: Script, t: Stmt, depth: nat)
    requires PrintedIn(s, t) && Safe(t, depth)
    ensures WrittenAs(s, PrintTree(t, ""), t) && Sound(s, t, depth)
  {
    hide PrintTree, Notation, CanPrint, Sensible, AllSpoken, LoopsBare, OrdinariesLast, Sound, FileText, IfDepth, LoopDepth,
         BreaksPlaced, LoopsSeparated, Joined;
    PrintTells(t, "");
    var lines := PrintTree(t, "");
    assert forall k :: 0 <= k < |lines| ==> |lines[k].Text()| > 0;
    WrittenIsSound(s, lines, t, depth);
  }
}
