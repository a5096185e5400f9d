/**
 Expansion of an argument: `command` in backquotes, ${name} and $name are replaced by what
 the outside world answers for them, in one pass over the argument. A command in backquotes is
 run, and later answers, such as that for `$?`, may depend on it.
 */
module ShellExpand {
  import opened ShellParser
  import opened ShellText

  /** The commands in backquotes that have been run. */
  type History = seq<string>

  /** What commands in backquotes print and what variables hold, after the commands run so far. */
  datatype Outside = Outside(output: (History, string) -> string, variable: (History, string) -> string)

  const SPECIALS: set<char> := {'`', '$'}

  /** An expansion, or the report of a quote or brace without its partner, and the commands run. */
  datatype Expansion = Text(s: string, ran: History) | Unmatched(ran: History)

  function Prepend(prefix: string, e: Expansion): Expansion {
    if e.Text? then e.(s := prefix + e.s) else e
  }

  /** What the argument from index `i` on expands to. */
  function ExpandFrom(w: string, i: nat, ran: History, out: Outside): (e: Expansion)
    requires i <= |w|
    decreases |w| - i
  {
    var p := Span(w, i, SPECIALS);
    var prefix := w[i..p];
    if p == |w| then
      Text(prefix, ran)
    else if w[p] == '`' then
      var q := Span(w, p + 1, {'`'});
      if q == |w| then
        Unmatched(ran)
      else
        var command := w[p + 1..q];
        Prepend(prefix + out.output(ran, command), ExpandFrom(w, q + 1, ran + [command], out))
    else if p + 1 < |w| && w[p + 1] == '{' then
      var q := Span(w, p + 2, {'}'});
      if q == |w| then Unmatched(ran)
      else Prepend(prefix + out.variable(ran, w[p + 2..q]), ExpandFrom(w, q + 1, ran, out))
    else
      Text(prefix + out.variable(ran, w[p + 1..]), ran)
  }

  function Expand(w: string, ran: History, out: Outside): (e: Expansion) {
    ExpandFrom(w, 0, ran, out)
  }

  /** The argument that the command is given. */
  function Shown(e: Expansion): string {
    if e.Text? then e.s else ""
  }

  // ----- Arguments as they are meant -----

  datatype Piece =
    | Literal(s: string)
    | Command(s: string)
    | Braced(s: string)
    | Last(s: string)

  function Print(p: Piece): string {
    match p
    case Literal(s) => s
    case Command(s) => "`" + s + "`"
    case Braced(s) => "${" + s + "}"
    case Last(s) => "$" + s
  }

  function Value(p: Piece, ran: History, out: Outside): string {
    match p
    case Literal(s) => s
    case Command(s) => out.output(ran, s)
    case Braced(s) => out.variable(ran, s)
    case Last(s) => out.variable(ran, s)
  }

  /** The commands that a piece runs. */
  function Runs(p: Piece): History {
    if p.Command? then [p.s] else []
  }

  function PrintAll(ps: seq<Piece>): (w: string) {
    if ps == [] then "" else Print(ps[0]) + PrintAll(ps[1..])
  }

  function RunsAll(ps: seq<Piece>): (commands: History) {
    if ps == [] then [] else Runs(ps[0]) + RunsAll(ps[1..])
  }

  /** The values in a row, each after the commands of the pieces before it. */
  function ValueAll(ps: seq<Piece>, ran: History, out: Outside): (w: string) {
    if ps == [] then "" else Value(ps[0], ran, out) + ValueAll(ps[1..], ran + Runs(ps[0]), out)
  }

  predicate Free(s: string, chars: set<char>) {
    forall k :: 0 <= k < |s| ==> s[k] !in chars
  }

  /** A piece that can be told apart in print. */
  predicate ReadablePiece(p: Piece) {
    match p
    case Literal(s) => Free(s, SPECIALS)
    case Command(s) => Free(s, {'`'})
    case Braced(s) => Free(s, {'}'})
    case Last(s) => s == "" || s[0] != '{'
  }

  /** Pieces that can be told apart in print: a bare $ takes all the rest. */
  predicate Readable(ps: seq<Piece>) {
    ps != [] ==> Readable(ps[1..]) && ReadablePiece(ps[0]) && (ps[0].Last? ==> |ps| == 1)
  }

  /** The tail of `w` from `i` is `a`, then `b`. */
  lemma TailParts(w: string, i: nat, a: string, b: string)
    requires i <= |w| && w[i..] == a + b
    ensures i + |a| <= |w| && w[i..i + |a|] == a && w[i + |a|..] == b
    ensures forall k :: i <= k < i + |a| ==> w[k] == a[k - i]
  {
    assert w[i..][..|a|] == a && w[i..][|a|..] == b;
    assert w[i..][..|a|] == w[i..i + |a|] && w[i..][|a|..] == w[i + |a|..];
    SliceAt(w, i, i + |a|, a);
  }

  lemma ExpandLiteral(w: string, i: nat, ran: History, out: Outside)
    requires i <= |w| && Free(w[i..], SPECIALS)
    ensures ExpandFrom(w, i, ran, out) == Text(w[i..], ran)
  {
    SliceAt(w, i, |w|, w[i..]);
    SpanIs(w, i, SPECIALS, |w|);
  }

  lemma UnfoldCommand(w: string, i: nat, p: nat, q: nat, ran: History, out: Outside)
    requires i <= |w| && p == Span(w, i, SPECIALS) < |w| && w[p] == '`' && q == Span(w, p + 1, {'`'}) < |w|
    ensures var command := w[p + 1..q];
            ExpandFrom(w, i, ran, out)
            == Prepend(w[i..p] + out.output(ran, command), ExpandFrom(w, q + 1, ran + [command], out))
  {
    hide Span, Prepend;
  }

  lemma UnfoldBraced(w: string, i: nat, p: nat, q: nat, ran: History, out: Outside)
    requires i <= |w| && p == Span(w, i, SPECIALS) < |w| - 1 && w[p] == '$' && w[p + 1] == '{'
    requires q == Span(w, p + 2, {'}'}) < |w|
    ensures ExpandFrom(w, i, ran, out)
         == Prepend(w[i..p] + out.variable(ran, w[p + 2..q]), ExpandFrom(w, q + 1, ran, out))
  {
    hide Span, Prepend;
  }

  lemma UnfoldUnmatched(w: string, i: nat, p: nat, ran: History, out: Outside)
    requires i <= |w| && p == Span(w, i, SPECIALS) < |w| && !Closed(w, p)
    ensures ExpandFrom(w, i, ran, out) == Unmatched(ran)
  {
    hide Span, Prepend;
  }

  /** The construct at `p` has its closing quote or brace, if it needs one. */
  predicate Closed(w: string, p: nat)
    requires p < |w|
  {
    && (w[p] == '`' ==> Span(w, p + 1, {'`'}) < |w|)
    && (w[p] == '$' && p + 1 < |w| && w[p + 1] == '{' ==> Span(w, p + 2, {'}'}) < |w|)
  }

  lemma QuotedParts(w: string, i: nat, open: string, s: string, close: string, rest: string)
    requires i <= |w| && w[i..] == open + s + close + rest && |close| == 1
    ensures var j := i + |open|;
            && j + |s| + 1 <= |w| && w[i..j] == open && w[j..j + |s|] == s
            && w[j + |s|] == close[0] && w[j + |s| + 1..] == rest
  {
    assert open + s + close + rest == open + (s + (close + rest));
    TailParts(w, i, open, s + (close + rest));
    TailParts(w, i + |open|, s, close + rest);
    TailParts(w, i + |open| + |s|, close, rest);
  }

  lemma SpanFree(w: string, i: nat, j: nat, stops: set<char>)
    requires i <= j <= |w| && Free(w[i..j], stops) && (j < |w| ==> w[j] in stops)
    ensures Span(w, i, stops) == j
  {
    SliceAt(w, i, j, w[i..j]);
    SpanIs(w, i, stops, j);
  }

  lemma ExpandCommand(w: string, i: nat, lit: string, s: string, rest: string, ran: History, out: Outside)
    requires i <= |w| && w[i..] == lit + ("`" + s + "`" + rest) && Free(lit, SPECIALS) && Free(s, {'`'})
    ensures var next := i + |lit| + |s| + 2;
            && next <= |w| && w[next..] == rest
            && ExpandFrom(w, i, ran, out) == Prepend(lit + out.output(ran, s), ExpandFrom(w, next, ran + [s], out))
  {
    hide Span, ExpandFrom, Free, Prepend;
    var p := i + |lit|;
    TailParts(w, i, lit, "`" + s + "`" + rest);
    QuotedParts(w, p, "`", s, "`", rest);
    assert w[p] == w[p..p + 1][0];
    SpanFree(w, i, p, SPECIALS);
    SpanFree(w, p + 1, p + 1 + |s|, {'`'});
    UnfoldCommand(w, i, p, p + 1 + |s|, ran, out);
  }

  lemma ExpandBraced(w: string, i: nat, lit: string, s: string, rest: string, ran: History, out: Outside)
    requires i <= |w| && w[i..] == lit + ("${" + s + "}" + rest) && Free(lit, SPECIALS) && Free(s, {'}'})
    ensures var next := i + |lit| + |s| + 3;
            && next <= |w| && w[next..] == rest
            && ExpandFrom(w, i, ran, out) == Prepend(lit + out.variable(ran, s), ExpandFrom(w, next, ran, out))
  {
    hide Span, ExpandFrom, Free, Prepend;
    var p := i + |lit|;
    TailParts(w, i, lit, "${" + s + "}" + rest);
    QuotedParts(w, p, "${", s, "}", rest);
    assert w[p] == w[p..p + 2][0] && w[p + 1] == w[p..p + 2][1];
    SpanFree(w, i, p, SPECIALS);
    SpanFree(w, p + 2, p + 2 + |s|, {'}'});
    UnfoldBraced(w, i, p, p + 2 + |s|, ran, out);
  }

  lemma ExpandLast(w: string, i: nat, lit: string, s: string, ran: History, out: Outside)
    requires i <= |w| && w[i..] == lit + ("$" + s) && Free(lit, SPECIALS) && (s == "" || s[0] != '{')
    ensures ExpandFrom(w, i, ran, out) == Text(lit + out.variable(ran, s), ran)
  {
    hide Span, Free, Prepend;
    var p := i + |lit|;
    TailParts(w, i, lit, "$" + s);
    TailParts(w, p, "$", s);
    SpanFree(w, i, p, SPECIALS);
  }

  lemma Assoc<T>(a: seq<T>, b: seq<T>, c: seq<T>)
    ensures a + (b + c) == (a + b) + c
  {
  }

  /** What the pieces still to come expand to, after a literal that has been read. */
  ghost function Meant(lit: string, ps: seq<Piece>, ran: History, out: Outside): Expansion {
    Text(lit + ValueAll(ps, ran, out), ran + RunsAll(ps))
  }

  /** The argument from `i` on is this literal, and then these pieces. */
  ghost predicate Reads(w: string, i: nat, lit: string, ps: seq<Piece>) {
    i <= |w| && w[i..] == lit + PrintAll(ps) && Free(lit, SPECIALS) && Readable(ps)
  }

  lemma {:induction false} ExpandPieces(w: string, i: nat, lit: string, ps: seq<Piece>, ran: History, out: Outside)
    requires Reads(w, i, lit, ps)
    ensures ExpandFrom(w, i, ran, out) == Meant(lit, ps, ran, out)
    decreases |ps|, 1
  {
    hide ExpandFrom, Meant, Reads;
    if ps == [] {
      ExpandNone(w, i, lit, ran, out);
    } else {
      match ps[0]
      case Literal(s) =>
        LiteralFirst(w, i, lit, ps, ran, out);
        ExpandPieces(w, i, lit + s, ps[1..], ran, out);
      case Command(s) =>
        var next := CommandFirst(w, i, lit, ps, ran, out);
        ExpandPieces(w, next, "", ps[1..], ran + [s], out);
        MeantFirst(lit, ps, ran, out);
      case Braced(s) =>
        var next := BracedFirst(w, i, lit, ps, ran, out);
        ExpandPieces(w, next, "", ps[1..], ran, out);
        MeantFirst(lit, ps, ran, out);
      case Last(s) =>
        LastFirst(w, i, lit, ps, ran, out);
    }
  }

  lemma ExpandNone(w: string, i: nat, lit: string, ran: History, out: Outside)
    requires Reads(w, i, lit, [])
    ensures ExpandFrom(w, i, ran, out) == Meant(lit, [], ran, out)
  {
    hide ExpandFrom, Free;
    assert lit + "" == lit && ran + [] == ran;
    ExpandLiteral(w, i, ran, out);
  }

  lemma LiteralFirst(w: string, i: nat, lit: string, ps: seq<Piece>, ran: History, out: Outside)
    requires Reads(w, i, lit, ps) && ps != [] && ps[0].Literal?
    ensures Reads(w, i, lit + ps[0].s, ps[1..]) && Meant(lit + ps[0].s, ps[1..], ran, out) == Meant(lit, ps, ran, out)
  {
    var s := ps[0].s;
    Assoc(lit, s, PrintAll(ps[1..]));
    Assoc(lit, s, ValueAll(ps[1..], ran, out));
    assert ran + Runs(ps[0]) == ran && RunsAll(ps) == RunsAll(ps[1..]);
  }

  lemma CommandFirst(w: string, i: nat, lit: string, ps: seq<Piece>, ran: History, out: Outside) returns (next: nat)
    requires Reads(w, i, lit, ps) && ps != [] && ps[0].Command?
    ensures Reads(w, next, "", ps[1..])
    ensures ExpandFrom(w, i, ran, out)
         == Prepend(lit + Value(ps[0], ran, out), ExpandFrom(w, next, ran + [ps[0].s], out))
  {
    hide ExpandFrom, Prepend, Free, Span;
    ExpandCommand(w, i, lit, ps[0].s, PrintAll(ps[1..]), ran, out);
    next := i + |lit| + |ps[0].s| + 2;
    NothingBefore(PrintAll(ps[1..]));
  }

  lemma BracedFirst(w: string, i: nat, lit: string, ps: seq<Piece>, ran: History, out: Outside) returns (next: nat)
    requires Reads(w, i, lit, ps) && ps != [] && ps[0].Braced?
    ensures Reads(w, next, "", ps[1..])
    ensures ExpandFrom(w, i, ran, out) == Prepend(lit + Value(ps[0], ran, out), ExpandFrom(w, next, ran, out))
  {
    hide ExpandFrom, Prepend, Free, Span, PrintAll, ReadablePiece;
    PrintBraced(ps);
    ExpandBraced(w, i, lit, ps[0].s, PrintAll(ps[1..]), ran, out);
    next := i + |lit| + |ps[0].s| + 3;
    NothingBefore(PrintAll(ps[1..]));
  }

  lemma PrintBraced(ps: seq<Piece>)
    requires ps != [] && ps[0].Braced?
    ensures PrintAll(ps) == "${" + ps[0].s + "}" + PrintAll(ps[1..])
    ensures ReadablePiece(ps[0]) <==> Free(ps[0].s, {'}'})
  {
    hide Free;
  }

  lemma NothingBefore(s: string)
    ensures "" + s == s && Free("", SPECIALS)
  {
  }

  lemma LastFirst(w: string, i: nat, lit: string, ps: seq<Piece>, ran: History, out: Outside)
    requires Reads(w, i, lit, ps) && ps != [] && ps[0].Last?
    ensures ExpandFrom(w, i, ran, out) == Meant(lit, ps, ran, out)
  {
    hide ExpandFrom, Free;
    var s := ps[0].s;
    assert ps[1..] == [];
    assert PrintAll(ps) == "$" + s && ValueAll(ps, ran, out) == out.variable(ran, s) && ran + RunsAll(ps) == ran;
    ExpandLast(w, i, lit, s, ran, out);
  }

  lemma MeantFirst(lit: string, ps: seq<Piece>, ran: History, out: Outside)
    requires ps != []
    ensures Prepend(lit + Value(ps[0], ran, out), Meant("", ps[1..], ran + Runs(ps[0]), out)) == Meant(lit, ps, ran, out)
    ensures ps[0].Braced? ==> ran + Runs(ps[0]) == ran
  {
    var first, rest := Value(ps[0], ran, out), ValueAll(ps[1..], ran + Runs(ps[0]), out);
    NothingBefore(rest);
    Assoc(lit, first, rest);
    Assoc(ran, Runs(ps[0]), RunsAll(ps[1..]));
  }

  /**
   An argument made of literal text, commands and variables expands to their values in a
   row. Each command is run once, from left to right, and each value is the one after the
   commands before it. Values are taken as they are: nothing in them is expanded again.
   */
  lemma ExpandMeans(ps: seq<Piece>, ran: History, out: Outside)
    requires Readable(ps)
    ensures Expand(PrintAll(ps), ran, out) == Text(ValueAll(ps, ran, out), ran + RunsAll(ps))
  {
    hide ExpandFrom;
    var w := PrintAll(ps);
    assert w[0..] == "" + w;
    ExpandPieces(w, 0, "", ps, ran, out);
    NothingBefore(ValueAll(ps, ran, out));
  }

  /** A word without a backquote and a dollar sign stands for itself. */
  lemma ExpandFree(w: string, ran: History, out: Outside)
    requires Free(w, SPECIALS)
    ensures Expand(w, ran, out) == Text(w, ran)
  {
    hide ExpandFrom;
    assert w[0..] == w;
    ExpandLiteral(w, 0, ran, out);
  }

  /**
   Printing a list of commands on one line, reading the line back and expanding each word gives
   the list again, when no word holds a double quote, a backquote or a dollar sign.
   */
  lemma PlainRoundTrip(cmds: seq<Words>, ran: History, out: Outside)
    requires cmds != []
    requires forall c, k :: 0 <= c < |cmds| && 0 <= k < |cmds[c]| ==> Free(cmds[c][k], {'"', '`', '$'})
    ensures SplitFrom(PrintLine(cmds), 0, 0).closed
    ensures AllWords(SplitFrom(PrintLine(cmds), 0, 0).segs) == cmds
    ensures forall c, k :: 0 <= c < |cmds| && 0 <= k < |cmds[c]| ==> Expand(cmds[c][k], ran, out) == Text(cmds[c][k], ran)
  {
    hide Expand, PrintLine, AllWords, SplitFrom;
    RoundTrip(cmds);
    forall c, k | 0 <= c < |cmds| && 0 <= k < |cmds[c]| ensures Expand(cmds[c][k], ran, out) == Text(cmds[c][k], ran) {
      ExpandFree(cmds[c][k], ran, out);
    }
  }

  // ----- Every argument is a row of pieces -----

  /** The text from `i` on: plain text up to `p`, then the piece that ends at `q`, then the rest. */
  lemma PieceOf(w: string, i: nat, p: nat, q: nat, open: string)
    requires i <= p && p + |open| <= q < |w| && w[p..p + |open|] == open
    ensures w[i..] == w[i..p] + ((open + w[p + |open|..q] + [w[q]]) + w[q + 1..])
  {
    var j := p + |open|;
    assert w[q..] == [w[q]] + w[q + 1..];
    assert w[j..] == w[j..q] + w[q..];
    assert w[p..] == w[p..j] + w[j..];
    assert w[i..] == w[i..p] + w[p..];
    assert open + (w[j..q] + ([w[q]] + w[q + 1..])) == (open + w[j..q] + [w[q]]) + w[q + 1..];
  }

  lemma ReadableCons(p: Piece, lit: string, ps: seq<Piece>)
    requires Free(lit, SPECIALS) && Readable(ps) && ReadablePiece(p) && (p.Last? ==> ps == [])
    ensures var all := [Literal(lit), p] + ps;
            Readable(all) && PrintAll(all) == lit + (Print(p) + PrintAll(ps)) && RunsAll(all) == Runs(p) + RunsAll(ps)
  {
    hide Free, Print;
    var all := [Literal(lit), p] + ps;
    assert all[1..] == [p] + ps;
    assert ([p] + ps)[1..] == ps;
    assert Readable([p] + ps) && PrintAll([p] + ps) == Print(p) + PrintAll(ps);
    assert Print(Literal(lit)) == lit by { PrintLiteral(lit); }
  }

  lemma PrintLiteral(lit: string)
    ensures Print(Literal(lit)) == lit
  {
  }

  /** The argument from `i` on begins with these pieces, and their commands are run. */
  ghost predicate Begins(w: string, i: nat, ps: seq<Piece>, ran: History, e: Expansion) {
    && i <= |w| && Readable(ps) && PrintAll(ps) <= w[i..] && e.ran == ran + RunsAll(ps)
    && (e.Text? ==> PrintAll(ps) == w[i..])
  }

  /**
   Every argument begins with readable pieces whose commands are the ones that are run, and it
   is the print of them unless it has an unmatched quote or brace.
   */
  lemma {:induction false} ReadPieces(w: string, i: nat, ran: History, out: Outside) returns (ps: seq<Piece>)
    requires i <= |w|
    ensures Begins(w, i, ps, ran, ExpandFrom(w, i, ran, out))
    decreases |w| - i
  {
    hide Span, ExpandFrom, Begins, Closed;
    var p := Span(w, i, SPECIALS);
    if p == |w| {
      ps := ReadLiteral(w, i, ran, out);
    } else if !Closed(w, p) {
      ps := ReadOpen(w, i, p, ran, out);
    } else {
      var q, piece, text := NextPiece(w, i, p, ran, out);
      if piece.Last? {
        ps := ReadLast(w, i, p, piece, ran, out);
      } else {
        var rest := ReadPieces(w, q, ran + Runs(piece), out);
        ps := ReadOn(w, i, p, q, piece, text, rest, ran, out);
      }
    }
  }

  lemma ReadLiteral(w: string, i: nat, ran: History, out: Outside) returns (ps: seq<Piece>)
    requires i <= |w| == Span(w, i, SPECIALS)
    ensures Begins(w, i, ps, ran, ExpandFrom(w, i, ran, out))
  {
    hide Span, ExpandFrom;
    ps := [Literal(w[i..])];
    assert Free(w[i..], SPECIALS);
    ExpandLiteral(w, i, ran, out);
    assert ps[1..] == [];
    assert PrintAll(ps) == w[i..] + "" == w[i..];
    assert Readable(ps[1..]) && ran + RunsAll(ps) == ran;
  }

  lemma ReadOpen(w: string, i: nat, p: nat, ran: History, out: Outside) returns (ps: seq<Piece>)
    requires i <= |w| && p == Span(w, i, SPECIALS) < |w| && !Closed(w, p)
    ensures Begins(w, i, ps, ran, ExpandFrom(w, i, ran, out))
  {
    hide Span, ExpandFrom, Closed;
    UnfoldUnmatched(w, i, p, ran, out);
    ps := [];
    assert ran + RunsAll(ps) == ran;
  }

  /** `piece` is printed at `p`, after plain text from `i` on, and ends before `q`. */
  ghost predicate PieceAt(w: string, i: nat, p: nat, q: nat, piece: Piece) {
    i <= p < q <= |w| && ReadablePiece(piece) && w[i..] == w[i..p] + (Print(piece) + w[q..])
  }

  lemma CommandPiece(w: string, i: nat, p: nat, k: nat)
    requires i <= p < |w| && w[p] == '`' && k == Span(w, p + 1, {'`'}) < |w|
    ensures PieceAt(w, i, p, k + 1, Command(w[p + 1..k]))
  {
    hide Span;
    PieceOf(w, i, p, k, "`");
    assert [w[k]] == "`";
  }

  lemma BracedPiece(w: string, i: nat, p: nat, k: nat)
    requires i <= p < |w| - 1 && w[p] == '$' && w[p + 1] == '{' && k == Span(w, p + 2, {'}'}) < |w|
    ensures PieceAt(w, i, p, k + 1, Braced(w[p + 2..k]))
  {
    hide Span;
    var open := "${";
    OpenAt(w, p);
    PieceOf(w, i, p, k, open);
    assert [w[k]] == "}";
  }

  lemma OpenAt(w: string, p: nat)
    requires p < |w| - 1 && w[p] == '$' && w[p + 1] == '{'
    ensures w[p..p + 2] == "${"
  {
  }

  lemma LastPiece(w: string, i: nat, p: nat)
    requires i <= p < |w| && w[p] == '$' && (p + 1 < |w| ==> w[p + 1] != '{')
    ensures PieceAt(w, i, p, |w|, Last(w[p + 1..]))
  {
    assert w[p..] == "$" + w[p + 1..];
    assert w[i..] == w[i..p] + (("$" + w[p + 1..]) + w[|w|..]);
  }

  /** The piece that starts at the special character at `p`, and where it ends. */
  lemma NextPiece(w: string, i: nat, p: nat, ran: History, out: Outside) returns (q: nat, piece: Piece, text: string)
    requires i <= |w| && p == Span(w, i, SPECIALS) < |w| && Closed(w, p)
    ensures PieceAt(w, i, p, q, piece)
    ensures piece.Last? ==> q == |w| && ExpandFrom(w, i, ran, out).Text? && ExpandFrom(w, i, ran, out).ran == ran
    ensures !piece.Last? ==> ExpandFrom(w, i, ran, out) == Prepend(text, ExpandFrom(w, q, ran + Runs(piece), out))
  {
    hide Span, ExpandFrom, PieceAt, Prepend;
    text := "";
    if w[p] == '`' {
      var k := Span(w, p + 1, {'`'});
      UnfoldCommand(w, i, p, k, ran, out);
      CommandPiece(w, i, p, k);
      q, piece := k + 1, Command(w[p + 1..k]);
      text := w[i..p] + out.output(ran, w[p + 1..k]);
    } else if p + 1 < |w| && w[p + 1] == '{' {
      var k := Span(w, p + 2, {'}'});
      UnfoldBraced(w, i, p, k, ran, out);
      BracedPiece(w, i, p, k);
      q, piece := k + 1, Braced(w[p + 2..k]);
      text := w[i..p] + out.variable(ran, w[p + 2..k]);
      assert ran + Runs(piece) == ran;
    } else {
      LastPiece(w, i, p);
      q, piece := |w|, Last(w[p + 1..]);
      UnfoldName(w, i, p, ran, out);
    }
  }

  lemma UnfoldName(w: string, i: nat, p: nat, ran: History, out: Outside)
    requires i <= |w| && p == Span(w, i, SPECIALS) < |w| && w[p] == '$' && (p + 1 < |w| ==> w[p + 1] != '{')
    ensures ExpandFrom(w, i, ran, out) == Text(w[i..p] + out.variable(ran, w[p + 1..]), ran)
  {
    hide Span, Prepend;
  }

  lemma ReadLast(w: string, i: nat, p: nat, piece: Piece, ran: History, out: Outside) returns (ps: seq<Piece>)
    requires i <= |w| && p == Span(w, i, SPECIALS) && PieceAt(w, i, p, |w|, piece) && piece.Last?
    requires ExpandFrom(w, i, ran, out).ran == ran
    ensures Begins(w, i, ps, ran, ExpandFrom(w, i, ran, out))
  {
    hide Span, ExpandFrom, Print;
    ReadableCons(piece, w[i..p], []);
    ps := [Literal(w[i..p]), piece] + [];
    assert PrintAll([]) == "" && w[|w|..] == "";
    assert ran + RunsAll(ps) == ran;
  }

  lemma ReadOn(w: string, i: nat, p: nat, q: nat, piece: Piece, text: string, rest: seq<Piece>, ran: History,
               out: Outside)
    returns (ps: seq<Piece>)
    requires i <= |w| && p == Span(w, i, SPECIALS) && PieceAt(w, i, p, q, piece) && !piece.Last?
    requires ExpandFrom(w, i, ran, out) == Prepend(text, ExpandFrom(w, q, ran + Runs(piece), out))
    requires Begins(w, q, rest, ran + Runs(piece), ExpandFrom(w, q, ran + Runs(piece), out))
    ensures Begins(w, i, ps, ran, ExpandFrom(w, i, ran, out))
  {
    hide Span, ExpandFrom, Print, Readable, PrintAll, RunsAll;
    ReadableCons(piece, w[i..p], rest);
    ps := [Literal(w[i..p]), piece] + rest;
    Assoc(ran, Runs(piece), RunsAll(rest));
    PrefixJoin(w[i..p], Print(piece), PrintAll(rest), w[q..]);
  }

  lemma PrefixJoin(a: string, b: string, c: string, d: string)
    requires c <= d
    ensures a + (b + c) <= a + (b + d)
  {
    assert d == c + d[|c|..];
    assert a + (b + d) == (a + (b + c)) + d[|c|..];
  }

  /** An argument expands to nothing with a report exactly when no pieces print to it. */
  lemma UnmatchedExactly(w: string, ran: History, out: Outside)
    ensures Expand(w, ran, out).Unmatched? <==> !exists ps :: Readable(ps) && PrintAll(ps) == w
    ensures Expand(w, ran, out).Unmatched? ==> Shown(Expand(w, ran, out)) == ""
  {
    hide ExpandFrom, Readable, PrintAll, RunsAll, ValueAll;
    var ps := ReadPieces(w, 0, ran, out);
    assert w[0..] == w;
    if Expand(w, ran, out).Text? {
      assert Readable(ps) && PrintAll(ps) == w;
    }
    if qs :| Readable(qs) && PrintAll(qs) == w {
      ExpandMeans(qs, ran, out);
    }
  }

  // ----- In the line buffer -----

  /** strcspn on a NUL-terminated string that ends at `end`. */
  method FindIn(buf: array<char>, from: nat, stops: set<char>, ghost end: nat) returns (j: nat)
    requires from <= end < buf.Length && buf[end] == '\0' && '\0' in stops
    ensures from <= j <= end && buf[j] in stops
    ensures forall k :: from <= k < j ==> buf[k] !in stops
  {
    j := from;
    while buf[j] !in stops
      invariant from <= j <= end
      invariant forall k :: from <= k < j ==> buf[k] !in stops
      decreases end - j
    {
      j := j + 1;
    }
  }

  /** The string that starts at `from`. */
  method StringAt(buf: array<char>, from: nat, ghost end: nat) returns (s: string)
    requires from <= end < buf.Length && buf[end] == '\0'
    requires forall k :: from <= k < end ==> buf[k] != '\0'
    ensures s == buf[from..end]
  {
    var j := FindIn(buf, from, {'\0'}, end);
    s := buf[from..j];
  }

  /** The rest of the buffer from `from` on is the rest of the argument. */
  ghost predicate Rest(buf: array<char>, w: string, start: nat, from: nat)
    reads buf
  {
    && start <= from <= start + |w| < buf.Length && buf[start + |w|] == '\0'
    && (forall k :: from <= k < start + |w| ==> buf[k] == w[k - start])
    && (forall k :: 0 <= k < |w| ==> w[k] != '\0')
  }

  lemma SpanInBuffer(buf: array<char>, w: string, start: nat, from: nat, stops: set<char>, j: nat)
    requires Rest(buf, w, start, from) && from <= j <= start + |w| && '\0' !in stops
    requires buf[j] in stops + {'\0'} && forall k :: from <= k < j ==> buf[k] !in stops
    ensures Span(w, from - start, stops) == j - start
  {
    assert forall k :: from - start <= k < j - start ==> w[k] == buf[k + start];
    SpanIs(w, from - start, stops, j - start);
  }

  lemma PrependTwice(a: string, b: string, e: Expansion)
    ensures Prepend(a, Prepend(b, e)) == Prepend(a + b, e)
  {
    if e.Text? {
      Assoc(a, b, e.s);
    }
  }

  /** Replaces the special character at `ptr` by a NUL, and returns the text before it. */
  method CutAt(buf: array<char>, from: nat, ptr: nat, ghost w: string, ghost start: nat) returns (text: string)
    requires Rest(buf, w, start, from) && from <= ptr < start + |w|
    modifies buf
    ensures text == w[from - start..ptr - start]
    ensures Rest(buf, w, start, ptr + 1)
    ensures forall k :: 0 <= k < buf.Length && !(start <= k < start + |w|) ==> buf[k] == old(buf[k])
  {
    buf[ptr] := '\0';
    text := StringAt(buf, from, ptr);
  }

  /** A command in backquotes: it is run, its output, and where to go on, or no closing quote. */
  method TakeCommand(buf: array<char>, ptr: nat, ran: History, out: Outside, ghost w: string, ghost start: nat)
    returns (closed: bool, text: string, next: nat, now: History)
    requires Rest(buf, w, start, ptr)
    modifies buf
    ensures var q := Span(w, ptr - start, {'`'});
            && closed == (q < |w|)
            && (closed ==> text == out.output(ran, w[ptr - start..q]) && next == start + q + 1)
            && now == if closed then ran + [w[ptr - start..q]] else ran
    ensures closed ==> Rest(buf, w, start, next)
    ensures forall k :: 0 <= k < buf.Length && !(start <= k < start + |w|) ==> buf[k] == old(buf[k])
  {
    var rptr := FindIn(buf, ptr, {'`', '\0'}, start + |w|);
    SpanInBuffer(buf, w, start, ptr, {'`'}, rptr);
    closed, text, next, now := buf[rptr] == '`', "", ptr, ran;
    if closed {
      var cmd := CutAt(buf, ptr, rptr, w, start);
      text, next, now := out.output(ran, cmd), rptr + 1, ran + [cmd];
    }
  }

  /** A variable after a dollar sign at `ptr - 1`. */
  method TakeVariable(buf: array<char>, ptr: nat, ran: History, out: Outside, ghost w: string, ghost start: nat)
    returns (closed: bool, text: string, next: nat)
    requires Rest(buf, w, start, ptr)
    modifies buf
    ensures var i := ptr - start;
            if i < |w| && w[i] == '{' then
              var q := Span(w, i + 1, {'}'});
              && closed == (q < |w|)
              && (closed ==> text == out.variable(ran, w[i + 1..q]) && next == start + q + 1)
            else closed && text == out.variable(ran, w[i..]) && next == start + |w|
    ensures closed ==> Rest(buf, w, start, next)
    ensures forall k :: 0 <= k < buf.Length && !(start <= k < start + |w|) ==> buf[k] == old(buf[k])
  {
    closed, text, next := true, "", ptr;
    if buf[ptr] == '{' {
      var rptr := FindIn(buf, ptr + 1, {'}', '\0'}, start + |w|);
      SpanInBuffer(buf, w, start, ptr + 1, {'}'}, rptr);
      closed := buf[rptr] == '}';
      if closed {
        var name := CutAt(buf, ptr + 1, rptr, w, start);
        text, next := out.variable(ran, name), rptr + 1;
      }
    } else {
      var name := StringAt(buf, ptr, start + |w|);
      assert name == w[ptr - start..];
      var len := FindIn(buf, ptr, {'\0'}, start + |w|);
      text, next := out.variable(ran, name), len;
    }
  }

  /** What a construct at index `p` of the argument must give: its value, where it ends, and what has been run. */
  ghost predicate Gives(w: string, p: nat, ran: History, out: Outside, closed: bool, value: string, next: nat, now: History)
    requires p < |w|
  {
    if w[p] == '`' then
      var q := Span(w, p + 1, {'`'});
      && closed == (q < |w|) && (closed ==> value == out.output(ran, w[p + 1..q]) && next == q + 1)
      && now == if closed then ran + [w[p + 1..q]] else ran
    else if p + 1 < |w| && w[p + 1] == '{' then
      var q := Span(w, p + 2, {'}'});
      && closed == (q < |w|) && (closed ==> value == out.variable(ran, w[p + 2..q]) && next == q + 1)
      && now == ran
    else closed && value == out.variable(ran, w[p + 1..]) && next == |w| && now == ran
  }

  /** Takes the text before the special character at `ptr` and the construct that starts there. */
  method TakeConstruct(buf: array<char>, working: nat, ptr: nat, ran: History, out: Outside, ghost w: string,
                       ghost start: nat)
    returns (closed: bool, text: string, value: string, next: nat, now: History)
    requires Rest(buf, w, start, working) && working <= ptr < start + |w|
    requires w[ptr - start] in SPECIALS
    modifies buf
    ensures text == w[working - start..ptr - start]
    ensures closed ==> ptr < next <= start + |w| && Rest(buf, w, start, next)
    ensures Gives(w, ptr - start, ran, out, closed, value, if closed then next - start else 0, now)
    ensures forall k :: 0 <= k < buf.Length && !(start <= k < start + |w|) ==> buf[k] == old(buf[k])
  {
    hide Span;
    var quote := buf[ptr] == '`';
    text := CutAt(buf, working, ptr, w, start);
    if quote {
      closed, value, next, now := TakeCommand(buf, ptr + 1, ran, out, w, start);
    } else {
      closed, value, next := TakeVariable(buf, ptr + 1, ran, out, w, start);
      now := ran;
    }
  }

  method FindSpecial(buf: array<char>, from: nat, ghost w: string, ghost start: nat) returns (ptr: nat)
    requires Rest(buf, w, start, from)
    ensures from <= ptr <= start + |w| && ptr - start == Span(w, from - start, SPECIALS)
    ensures buf[ptr] == '\0' <==> ptr == start + |w|
    ensures ptr < start + |w| ==> w[ptr - start] in SPECIALS
  {
    ptr := FindIn(buf, from, {'`', '$', '\0'}, start + |w|);
    SpanInBuffer(buf, w, start, from, SPECIALS, ptr);
  }

  method LastText(buf: array<char>, from: nat, ghost w: string, ghost start: nat) returns (last: string)
    requires Rest(buf, w, start, from)
    ensures last == w[from - start..]
  {
    last := StringAt(buf, from, start + |w|);
  }

  /** nsh_argexpand: expands the argument in `buf[start..end]`, writing NULs into it on the way. */
  method ExpandArgument(buf: array<char>, start: nat, ran: History, out: Outside, ghost end: nat)
    returns (r: string, now: History)
    requires start <= end < buf.Length && buf[end] == '\0'
    requires forall k :: start <= k < end ==> buf[k] != '\0'
    modifies buf
    ensures var e := Expand(old(buf[start..end]), ran, out); r == Shown(e) && now == e.ran
    ensures forall k :: 0 <= k < buf.Length && !(start <= k < end) ==> buf[k] == old(buf[k])
  {
    hide Span, ExpandFrom, Prepend, Gives;
    ghost var w := buf[start..end];
    var working, argument := start, "";
    now := ran;
    PrependNothing(ExpandFrom(w, 0, ran, out));
    while true
      invariant Rest(buf, w, start, working)
      invariant ExpandFrom(w, 0, ran, out) == Prepend(argument, ExpandFrom(w, working - start, now, out))
      invariant forall k :: 0 <= k < buf.Length && !(start <= k < end) ==> buf[k] == old(buf[k])
      decreases end - working
    {
      var ptr := FindSpecial(buf, working, w, start);
      ghost var i, p := working - start, ptr - start;
      if buf[ptr] == '\0' {
        var last := LastText(buf, working, w, start);
        UnfoldPlain(w, i, argument, now, out);
        return argument + last, now;
      }
      var text := "";
      var closed, value, next, later;
      closed, text, value, next, later := TakeConstruct(buf, working, ptr, now, out, w, start);
      if !closed {
        UnfoldOpen(w, i, p, argument, now, out);
        return "", now;
      }
      UnfoldStep(w, i, p, next - start, value, argument, now, later, out);
      argument, working, now := argument + (text + value), next, later;
    }
  }

  /** One special construct taken: its text and value move to the result so far. */
  lemma UnfoldStep(w: string, i: nat, p: nat, next: nat, value: string, before: string, ran: History, now: History,
                   out: Outside)
    requires i <= |w| && p == Span(w, i, SPECIALS) < |w| && next <= |w|
    requires Gives(w, p, ran, out, true, value, next, now)
    ensures Prepend(before, ExpandFrom(w, i, ran, out)) == Prepend(before + (w[i..p] + value), ExpandFrom(w, next, now, out))
  {
    hide Span, Prepend, ExpandFrom;
    var text := w[i..p];
    if w[p] == '`' {
      UnfoldCommand(w, i, p, Span(w, p + 1, {'`'}), ran, out);
    } else if p + 1 < |w| && w[p + 1] == '{' {
      UnfoldBraced(w, i, p, Span(w, p + 2, {'}'}), ran, out);
    } else {
      UnfoldLast(w, i, p, ran, out);
    }
    PrependTwice(before, text + value, ExpandFrom(w, next, now, out));
  }

  lemma UnfoldLast(w: string, i: nat, p: nat, ran: History, out: Outside)
    requires i <= |w| && p == Span(w, i, SPECIALS) < |w| && w[p] == '$' && (p + 1 < |w| ==> w[p + 1] != '{')
    ensures ExpandFrom(w, i, ran, out)
         == Prepend(w[i..p] + out.variable(ran, w[p + 1..]), ExpandFrom(w, |w|, ran, out))
  {
    hide Span;
    var text := w[i..p] + out.variable(ran, w[p + 1..]);
    assert w[|w|..|w|] == "" && text + "" == text;
  }

  lemma PrependNothing(e: Expansion)
    ensures Prepend("", e) == e
  {
    if e.Text? {
      assert "" + e.s == e.s;
    }
  }

  lemma UnfoldPlain(w: string, i: nat, before: string, ran: History, out: Outside)
    requires i <= |w| && Span(w, i, SPECIALS) == |w|
    ensures Prepend(before, ExpandFrom(w, i, ran, out)) == Text(before + w[i..], ran)
  {
    hide Span;
  }

  lemma UnfoldOpen(w: string, i: nat, p: nat, before: string, ran: History, out: Outside)
    requires i <= |w| && p == Span(w, i, SPECIALS) < |w|
    requires exists value, next, now :: Gives(w, p, ran, out, false, value, next, now)
    ensures Prepend(before, ExpandFrom(w, i, ran, out)) == Unmatched(ran)
  {
    hide Span;
  }
}
