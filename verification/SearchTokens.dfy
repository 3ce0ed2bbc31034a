/**
 * How the advanced search syntax is cut into tokens, and what tokens the printed pieces are.
 *
 * Outside quotes, blanks separate words, each bracket is a token of its own, and the word OR is an operator.
 * Inside quotes a backslash takes away the meaning of the character behind it.
 */
module SearchTokens {
  import opened Wrappers
  import opened Strings
  import opened SearchQueries

  datatype Token = Term(text: string) | Open | Close | Or

  datatype Mode = Bare | Quoted | Backslash

  /** Where a scan has got to: the finished tokens, and the word under way. */
  datatype Scan = Scan(tokens: seq<Token>, word: string, mode: Mode)

  const START := Scan([], "", Bare)

  predicate IsBlank(c: char) {
    c in {' ', '\t', '\r', '\n'}
  }

  predicate IsBracket(c: char) {
    c == '(' || c == ')'
  }

  function TokenOf(word: string): seq<Token> {
    if word == "" then [] else if word == "OR" then [Or] else [Term(word)]
  }

  /** The token that a character ending a word is itself. */
  function Mark(c: char): seq<Token> {
    if c == '(' then [Open] else if c == ')' then [Close] else []
  }

  function Step(s: Scan, c: char): Scan {
    match s.mode
    case Bare =>
      if IsBlank(c) || IsBracket(c) then Scan(s.tokens + TokenOf(s.word) + Mark(c), "", Bare)
      else Scan(s.tokens, s.word + [c], if c == '"' then Quoted else Bare)
    case Quoted =>
      Scan(s.tokens, s.word + [c], if c == '"' then Bare else if c == '\\' then Backslash else Quoted)
    case Backslash =>
      Scan(s.tokens, s.word + [c], Quoted)
  }

  function Run(s: Scan, t: string): Scan
    decreases |t|
  {
    if t == "" then s else Run(Step(s, t[0]), t[1..])
  }

  function Ended(s: Scan): Option<seq<Token>> {
    if s.mode == Bare then Some(s.tokens + TokenOf(s.word)) else None
  }

  /** The tokens of a text; None when a quote stays open. */
  function Lex(t: string): Option<seq<Token>> {
    Ended(Run(START, t))
  }

  function Lexed(t: string): seq<Token> {
    if Lex(t).Some? then Lex(t).value else []
  }

  // ---------------------------------------------------------------- texts one after the other

  lemma {:induction false} RunOn(s: Scan, a: string, b: string)
    ensures Run(s, a + b) == Run(Run(s, a), b)
    decreases |a|
  {
    if a == "" {
      assert a + b == b;
    } else {
      assert (a + b)[1..] == a[1..] + b;
      RunOn(Step(s, a[0]), a[1..], b);
    }
  }

  /** `more` in front of the tokens of a scan. */
  function Behind(more: seq<Token>, s: Scan): Scan {
    Scan(more + s.tokens, s.word, s.mode)
  }

  lemma StepBehind(more: seq<Token>, s: Scan, c: char)
    ensures Step(Behind(more, s), c) == Behind(more, Step(s, c))
  {
    assert more + s.tokens + TokenOf(s.word) + Mark(c) == more + (s.tokens + TokenOf(s.word) + Mark(c));
  }

  lemma {:induction false} RunBehind(more: seq<Token>, s: Scan, t: string)
    ensures Run(Behind(more, s), t) == Behind(more, Run(s, t))
    decreases |t|
  {
    if t != "" {
      StepBehind(more, s, t[0]);
      RunBehind(more, Step(s, t[0]), t[1..]);
    }
  }

  lemma RunOne(s: Scan, c: char)
    ensures Run(s, [c]) == Step(s, c)
  {
    assert [c][1..] == "";
    assert Run(Step(s, c), "") == Step(s, c);
  }

  lemma EndBehind(more: seq<Token>, s: Scan)
    requires Ended(s).Some?
    ensures Ended(Behind(more, s)) == Some(more + Ended(s).value)
  {
    assert more + s.tokens + TokenOf(s.word) == more + (s.tokens + TokenOf(s.word));
  }

  lemma RunBreak(a: string, c: char)
    requires Lex(a).Some? && (IsBlank(c) || IsBracket(c))
    ensures Run(START, a + [c]) == Behind(Lex(a).value + Mark(c), START)
  {
    RunOn(START, a, [c]);
    RunOne(Run(START, a), c);
    assert Lex(a).value + Mark(c) + START.tokens == Lex(a).value + Mark(c);
  }

  /** A blank or bracket ends whatever was before it. */
  lemma LexAround(a: string, c: char, b: string)
    requires Lex(a).Some? && Lex(b).Some? && (IsBlank(c) || IsBracket(c))
    ensures Lex(a + [c] + b) == Some(Lex(a).value + Mark(c) + Lex(b).value)
  {
    var before := Lex(a).value + Mark(c);
    RunBreak(a, c);
    RunOn(START, a + [c], b);
    RunBehind(before, START, b);
    EndBehind(before, Run(START, b));
  }

  lemma LexSpaced(a: string, b: string)
    requires Lex(a).Some? && Lex(b).Some?
    ensures Lex(a + " " + b) == Some(Lexed(a) + Lexed(b))
  {
    LexAround(a, ' ', b);
    assert Lexed(a) + [] + Lexed(b) == Lexed(a) + Lexed(b);
  }

  lemma LexNothing()
    ensures Lex("") == Some([])
  {
    assert Run(START, "") == START && [] + TokenOf("") == [];
  }

  // ---------------------------------------------------------------- a printed word is one token

  predicate Plain(c: char) {
    !IsBlank(c) && !IsBracket(c) && c != '"'
  }

  predicate PlainText(t: string) {
    forall i :: 0 <= i < |t| ==> Plain(t[i])
  }

  function Grown(s: Scan, t: string, mode: Mode): Scan {
    Scan(s.tokens, s.word + t, mode)
  }

  lemma {:induction false} RunPlain(s: Scan, t: string)
    requires s.mode == Bare && PlainText(t)
    ensures Run(s, t) == Grown(s, t, Bare)
    decreases |t|
  {
    if t == "" {
      assert s.word + t == s.word;
    } else {
      assert Plain(t[0]);
      RunPlain(Step(s, t[0]), t[1..]);
      assert s.word + [t[0]] + t[1..] == s.word + t;
    }
  }

  lemma RunEscape(s: Scan, c: char)
    requires s.mode == Quoted
    ensures Run(s, EscapedChar(c)) == Grown(s, EscapedChar(c), Quoted)
  {
    var e := EscapedChar(c);
    if |e| == 1 {
      assert e == [c];
      RunOne(s, c);
    } else {
      assert e == [e[0]] + [e[1]] && s.word + e == s.word + [e[0]] + [e[1]];
      RunOn(s, [e[0]], [e[1]]);
      RunOne(s, e[0]);
      RunOne(Step(s, e[0]), e[1]);
    }
  }

  lemma RunBoth(s: Scan, a: string, b: string, mode: Mode, end: Mode)
    requires Run(s, a) == Grown(s, a, mode) && Run(Grown(s, a, mode), b) == Grown(Grown(s, a, mode), b, end)
    ensures Run(s, a + b) == Grown(s, a + b, end)
  {
    RunOn(s, a, b);
    Reassociated(s.word, a, b);
  }

  lemma {:induction false} RunEscaped(s: Scan, v: string)
    requires s.mode == Quoted
    ensures Run(s, Escaped(v)) == Grown(s, Escaped(v), Quoted)
    decreases |v|
  {
    if v == "" {
      assert s.word + "" == s.word;
    } else {
      var e := EscapedChar(v[0]);
      RunEscape(s, v[0]);
      RunEscaped(Grown(s, e, Quoted), v[1..]);
      RunBoth(s, e, Escaped(v[1..]), Quoted, Quoted);
    }
  }

  lemma RunQuotes(s: Scan, q: string, v: string)
    requires s.mode == Bare && q == ['"']
    ensures Run(s, q + Escaped(v) + q) == Grown(s, q + Escaped(v) + q, Bare)
  {
    var e := Escaped(v);
    RunOne(s, '"');
    RunEscaped(Grown(s, q, Quoted), v);
    RunBoth(s, q, e, Quoted, Quoted);
    RunOne(Grown(s, q + e, Quoted), '"');
    RunBoth(s, q + e, q, Quoted, Bare);
  }

  /** Without quotes around it, every bracket in a value is a token. */
  function BracketsIn(t: string): nat {
    if t == "" then 0 else (if IsBracket(t[0]) then 1 else 0) + BracketsIn(t[1..])
  }

  predicate HasBracket(t: string) {
    exists i :: 0 <= i < |t| && IsBracket(t[i])
  }

  lemma {:induction false} BracketsCount(t: string)
    ensures BracketsIn(t) > 0 <==> HasBracket(t)
  {
    if t != "" {
      BracketsCount(t[1..]);
      if HasBracket(t) && !IsBracket(t[0]) {
        var i :| 0 <= i < |t| && IsBracket(t[i]);
        assert t[1..][i - 1] == t[i];
      }
      if HasBracket(t[1..]) {
        var i :| 0 <= i < |t[1..]| && IsBracket(t[1..][i]);
        assert t[i + 1] == t[1..][i];
      }
    }
  }

  function Brackets(tokens: seq<Token>): nat {
    if tokens == [] then 0 else (if tokens[0].Open? || tokens[0].Close? then 1 else 0) + Brackets(tokens[1..])
  }

  lemma {:induction false} BracketsAppend(a: seq<Token>, b: seq<Token>)
    ensures Brackets(a + b) == Brackets(a) + Brackets(b)
  {
    if a == [] {
      assert a + b == b;
    } else {
      assert (a + b)[1..] == a[1..] + b;
      BracketsAppend(a[1..], b);
    }
  }

  lemma BracketsStep(s: Scan, c: char)
    requires s.mode == Bare && c != '"'
    ensures Brackets(Step(s, c).tokens) == Brackets(s.tokens) + if IsBracket(c) then 1 else 0
  {
    BracketsAppend(s.tokens + TokenOf(s.word), Mark(c));
    BracketsAppend(s.tokens, TokenOf(s.word));
    assert Brackets([]) == 0;
  }

  lemma {:induction false} RunUnquoted(s: Scan, t: string)
    requires s.mode == Bare && '"' !in t
    ensures Run(s, t).mode == Bare && Brackets(Run(s, t).tokens) == Brackets(s.tokens) + BracketsIn(t)
    decreases |t|
  {
    if t != "" {
      assert t[0] in t;
      BracketsStep(s, t[0]);
      RunUnquoted(Step(s, t[0]), t[1..]);
    }
  }

  lemma EndBrackets(s: Scan)
    requires s.mode == Bare
    ensures Brackets(Ended(s).value) == Brackets(s.tokens)
  {
    BracketsAppend(s.tokens, TokenOf(s.word));
  }

  /** Whether a value survives printing: it is put in quotes, or needs none. */
  predicate Unbroken(v: string) {
    NeedsQuotes(v) || !HasBracket(v)
  }

  predicate OneToken(w: string) {
    Lex(w) == Some([Term(w)])
  }

  /** A text that is one token, or is torn at a bracket. */
  predicate Printed(w: string) {
    w != "" && Lex(w).Some? && (OneToken(w) || Brackets(Lex(w).value) > 0)
  }

  lemma EndOfWord(w: string)
    requires ':' in w
    ensures Ended(Grown(START, w, Bare)) == Some([Term(w)])
  {
    assert ':' !in "OR";
    assert "" + w == w && [] + TokenOf(w) == TokenOf(w);
  }

  lemma RunKey(k: string)
    requires PlainText(k)
    ensures Run(START, k + ":") == Grown(START, k + ":", Bare)
  {
    RunPlain(START, k + ":");
  }

  lemma UnquotedIsPlain(v: string)
    requires !NeedsQuotes(v) && !HasBracket(v)
    ensures PlainText(v)
  {
    forall i | 0 <= i < |v|
      ensures Plain(v[i])
    {
      assert v[i] !in {' ', '"', '\t', '\r', '\n'};
    }
  }

  lemma RunUnbroken(s: Scan, v: string)
    requires s.mode == Bare && Unbroken(v)
    ensures Run(s, Quote(v)) == Grown(s, Quote(v), Bare)
  {
    if NeedsQuotes(v) {
      RunQuotes(s, "\"", v);
    } else {
      UnquotedIsPlain(v);
      RunPlain(s, v);
    }
  }

  lemma UnbrokenIsOneToken(k: string, v: string)
    requires PlainText(k) && Unbroken(v)
    ensures OneToken(Word(k)(v))
  {
    var front, t := k + ":", Quote(v);
    RunKey(k);
    RunUnbroken(Grown(START, front, Bare), v);
    RunBoth(START, front, t, Bare, Bare);
    assert (front + t)[|k|] == ':';
    EndOfWord(front + t);
  }

  lemma BrokenIsTorn(k: string, v: string)
    requires PlainText(k) && !Unbroken(v)
    ensures Lex(Word(k)(v)).Some? && Brackets(Lex(Word(k)(v)).value) > 0
  {
    var s := Grown(START, k + ":", Bare);
    RunKey(k);
    RunOn(START, k + ":", Quote(v));
    assert '"' !in v;
    RunUnquoted(s, v);
    BracketsCount(v);
    EndBrackets(Run(s, v));
  }

  lemma OneTokenHasNoBrackets(w: string)
    requires OneToken(w)
    ensures Brackets(Lex(w).value) == 0
  {
    assert [Term(w)][1..] == [];
  }

  lemma WordIsPrinted(k: string, v: string)
    requires PlainText(k)
    ensures Printed(Word(k)(v))
  {
    assert |Word(k)(v)| > |k|;
    if Unbroken(v) { UnbrokenIsOneToken(k, v); } else { BrokenIsTorn(k, v); }
  }

  /** The word of a value is one token if and only if the value is put in quotes or has no bracket. */
  lemma WordIsOneTokenIff(k: string, v: string)
    requires PlainText(k)
    ensures OneToken(Word(k)(v)) <==> Unbroken(v)
  {
    if Unbroken(v) {
      UnbrokenIsOneToken(k, v);
    } else {
      BrokenIsTorn(k, v);
      if OneToken(Word(k)(v)) { OneTokenHasNoBrackets(Word(k)(v)); }
    }
  }

  // ---------------------------------------------------------------- the tokens of a query

  function Alternatives(p: Piece): seq<Token>
    requires p != []
  {
    if |p| == 1 then [Term(p[0])] else [Term(p[0]), Or] + Alternatives(p[1..])
  }

  function PieceTokens(p: Piece): seq<Token>
    requires p != []
  {
    if |p| == 1 then [Term(p[0])] else [Open] + Alternatives(p) + [Close]
  }

  predicate Solid(ps: seq<Piece>) {
    forall i :: 0 <= i < |ps| ==> ps[i] != []
  }

  function PiecesTokens(ps: seq<Piece>): seq<Token>
    requires Solid(ps)
  {
    if ps == [] then [] else PieceTokens(ps[0]) + PiecesTokens(ps[1..])
  }

  /** The tokens of a query with these keywords, if it has any, and these tokens of its qualifiers. */
  function Framed(keywords: Option<seq<Token>>, qualifiers: Option<seq<Token>>): seq<Token> {
    if keywords.Some? && qualifiers.Some? then [Open] + keywords.value + [Close] + qualifiers.value
    else if keywords.Some? then keywords.value
    else if qualifiers.Some? then qualifiers.value
    else []
  }

  /** Keywords go in brackets of their own when there are qualifiers as well. */
  function QueryTokens(keywords: Option<seq<Token>>, ps: seq<Piece>): seq<Token>
    requires Solid(ps)
  {
    Framed(keywords, if ps == [] then None else Some(PiecesTokens(ps)))
  }

  /** Every term replaced by the tokens its text is read as. */
  function Reread(tokens: seq<Token>): seq<Token> {
    if tokens == [] then [] else RereadOne(tokens[0]) + Reread(tokens[1..])
  }

  function RereadOne(t: Token): seq<Token> {
    if t.Term? then Lexed(t.text) else [t]
  }

  lemma {:induction false} RereadAppend(a: seq<Token>, b: seq<Token>)
    ensures Reread(a + b) == Reread(a) + Reread(b)
  {
    if a == [] {
      assert a + b == b;
    } else {
      assert (a + b)[1..] == a[1..] + b;
      RereadAppend(a[1..], b);
    }
  }

  lemma RereadSingle(t: Token)
    ensures Reread([t]) == RereadOne(t)
  {
    assert [t][1..] == [];
    assert RereadOne(t) + [] == RereadOne(t);
  }

  ghost predicate EveryTerm(tokens: seq<Token>, good: string -> bool) {
    forall t :: t in tokens && t.Term? ==> good(t.text)
  }

  lemma TermsTail(tokens: seq<Token>, good: string -> bool)
    requires tokens != []
    ensures EveryTerm(tokens, good) <==>
            (tokens[0].Term? ==> good(tokens[0].text)) && EveryTerm(tokens[1..], good)
  {
    assert forall t :: t in tokens <==> t == tokens[0] || t in tokens[1..];
  }

  /** Rereading finds more brackets unless every term is one token. */
  lemma {:induction false} RereadCounts(tokens: seq<Token>)
    requires EveryTerm(tokens, Printed)
    ensures Brackets(Reread(tokens)) >= Brackets(tokens)
    ensures !EveryTerm(tokens, OneToken) ==> Brackets(Reread(tokens)) > Brackets(tokens)
  {
    if tokens != [] {
      TermsTail(tokens, Printed);
      TermsTail(tokens, OneToken);
      RereadCounts(tokens[1..]);
      BracketsAppend(RereadOne(tokens[0]), Reread(tokens[1..]));
      OneReread(tokens[0]);
    }
  }

  lemma OneReread(t: Token)
    requires t.Term? ==> Printed(t.text)
    ensures var n := if t.Term? then 0 else Brackets([t]);
            Brackets(RereadOne(t)) >= n && (t.Term? && !OneToken(t.text) ==> Brackets(RereadOne(t)) > n)
  {
  }

  lemma {:induction false} WholeIsReread(tokens: seq<Token>)
    requires EveryTerm(tokens, OneToken)
    ensures Reread(tokens) == tokens
  {
    if tokens != [] {
      TermsTail(tokens, OneToken);
      WholeIsReread(tokens[1..]);
      assert RereadOne(tokens[0]) == [tokens[0]];
      assert [tokens[0]] + tokens[1..] == tokens;
    }
  }

  lemma RereadIff(tokens: seq<Token>)
    requires EveryTerm(tokens, Printed)
    ensures Reread(tokens) == tokens <==> EveryTerm(tokens, OneToken)
  {
    RereadCounts(tokens);
    if EveryTerm(tokens, OneToken) { WholeIsReread(tokens); }
  }

  // ---------------------------------------------------------------- the tokens of the printed pieces

  ghost predicate EveryWord(words: seq<string>, good: string -> bool) {
    forall w :: w in words ==> good(w)
  }

  lemma {:induction false} LexAlternatives(p: Piece)
    requires p != [] && EveryWord(p, Printed)
    ensures Lex(Join(p, " OR ")) == Some(Reread(Alternatives(p)))
    decreases |p|
  {
    assert p[0] in p;
    if |p| == 1 {
      RereadSingle(Term(p[0]));
    } else {
      var rest := Join(p[1..], " OR ");
      LexAlternatives(p[1..]);
      LexOr(p[0], rest);
      RereadAppend([Term(p[0]), Or], Alternatives(p[1..]));
      RereadPair(p[0]);
      assert p[0] + " OR " + rest == p[0] + " OR " + Join(p[1..], " OR ");
    }
  }

  lemma RereadPair(w: string)
    ensures Reread([Term(w), Or]) == Lexed(w) + [Or]
  {
    RereadAppend([Term(w)], [Or]);
    RereadSingle(Term(w));
    RereadSingle(Or);
    assert [Term(w)] + [Or] == [Term(w), Or];
  }

  lemma LexOrAlone()
    ensures Lex("OR") == Some([Or])
  {
    RunPlain(START, "OR");
    assert "" + "OR" == "OR" && [] + [Or] == [Or];
  }

  lemma LexOr(w: string, rest: string)
    requires Lex(w).Some? && Lex(rest).Some?
    ensures Lex(w + " OR " + rest) == Some(Lexed(w) + [Or] + Lexed(rest))
  {
    LexOrAlone();
    LexSpaced("OR", rest);
    LexSpaced(w, "OR" + " " + rest);
    SplitOr(w, rest);
    Reassociated(Lexed(w), [Or], Lexed(rest));
  }

  lemma SplitOr(w: string, rest: string)
    ensures w + " " + ("OR" + " " + rest) == w + " OR " + rest
  {
  }

  lemma Reassociated<T>(a: seq<T>, b: seq<T>, c: seq<T>)
    ensures a + (b + c) == a + b + c
  {
  }

  lemma LexBracketed(t: string)
    requires Lex(t).Some?
    ensures Lex("(" + t + ")") == Some([Open] + Lexed(t) + [Close])
  {
    LexNothing();
    LexAround(t, ')', "");
    LexAround("", '(', t + [')'] + "");
    assert "" + ['('] + (t + [')'] + "") == "(" + t + ")";
    assert [] + [Open] + (Lexed(t) + [Close] + []) == [Open] + Lexed(t) + [Close];
  }

  lemma LexPiece(p: Piece)
    requires p != [] && EveryWord(p, Printed)
    ensures Text(p) != "" && Lex(Text(p)) == Some(Reread(PieceTokens(p)))
  {
    if |p| == 1 {
      assert p[0] in p;
      RereadSingle(Term(p[0]));
    } else {
      LexAlternatives(p);
      LexBracketed(Join(p, " OR "));
      RereadAppend([Open] + Alternatives(p), [Close]);
      RereadAppend([Open], Alternatives(p));
      RereadSingle(Open);
      RereadSingle(Close);
    }
  }

  ghost predicate PiecesPrinted(ps: seq<Piece>) {
    forall p :: p in ps ==> EveryWord(p, Printed)
  }

  lemma {:induction false} LexPieces(ps: seq<Piece>)
    requires Solid(ps) && PiecesPrinted(ps)
    ensures Lex(Join(Map(Text, ps), " ")) == Some(Reread(PiecesTokens(ps)))
    ensures Join(Map(Text, ps), " ") == "" <==> ps == []
    decreases |ps|
  {
    if ps == [] {
      LexNothing();
    } else {
      assert ps[0] in ps;
      LexPiece(ps[0]);
      MapAt(Text, ps);
      RereadAppend(PieceTokens(ps[0]), PiecesTokens(ps[1..]));
      if |ps| == 1 {
        assert PiecesTokens(ps[1..]) == [];
        assert Reread(PieceTokens(ps[0])) + [] == Reread(PieceTokens(ps[0]));
      } else {
        LexPieces(ps[1..]);
        assert Map(Text, ps)[1..] == Map(Text, ps[1..]);
        LexSpaced(Text(ps[0]), Join(Map(Text, ps[1..]), " "));
      }
    }
  }

  lemma LexClosed(pieces: string)
    requires Lex(pieces).Some?
    ensures Lex(")" + " " + pieces) == Some([Close] + Lexed(pieces))
  {
    LexBracket(')');
    LexSpaced(")", pieces);
  }

  lemma LexBracket(c: char)
    requires IsBracket(c)
    ensures Lex([c]) == Some(Mark(c))
  {
    RunOne(START, c);
    assert [] + TokenOf("") + Mark(c) == Mark(c) && Mark(c) + TokenOf("") == Mark(c);
  }

  lemma LexOpened(t: string)
    requires Lex(t).Some?
    ensures Lex("(" + " " + t) == Some([Open] + Lexed(t))
  {
    LexBracket('(');
    LexSpaced("(", t);
  }

  /** Keywords in brackets before the pieces. */
  lemma LexFramed(words: string, pieces: string)
    requires Lex(words).Some? && Lex(pieces).Some?
    ensures Lex("( " + words + " ) " + pieces) == Some([Open] + Lexed(words) + [Close] + Lexed(pieces))
  {
    LexClosed(pieces);
    LexSpaced(words, ")" + " " + pieces);
    LexOpened(words + " " + (")" + " " + pieces));
    SplitFrame(words, pieces);
    Reassociated([Open], Lexed(words), [Close] + Lexed(pieces));
    Reassociated([Open] + Lexed(words), [Close], Lexed(pieces));
  }

  lemma SplitFrame(words: string, pieces: string)
    ensures "(" + " " + (words + " " + (")" + " " + pieces)) == "( " + words + " ) " + pieces
  {
  }

  // ---------------------------------------------------------------- the words of all the values

  lemma EveryAppended(a: seq<string>, b: seq<string>, good: string -> bool)
    ensures EveryWord(a + b, good) <==> EveryWord(a, good) && EveryWord(b, good)
  {
    assert forall w :: w in a + b <==> w in a || w in b;
  }

  lemma TermsAppended(a: seq<Token>, b: seq<Token>, good: string -> bool)
    ensures EveryTerm(a + b, good) <==> EveryTerm(a, good) && EveryTerm(b, good)
  {
    assert forall t :: t in a + b <==> t in a || t in b;
  }

  lemma {:induction false} AlternativeTerms(p: Piece, good: string -> bool)
    requires p != []
    ensures EveryTerm(Alternatives(p), good) <==> EveryWord(p, good)
  {
    if |p| > 1 {
      AlternativeTerms(p[1..], good);
      TermsAppended([Term(p[0]), Or], Alternatives(p[1..]), good);
      EveryAppended([p[0]], p[1..], good);
      assert [p[0]] + p[1..] == p;
      assert Term(p[0]) in [Term(p[0]), Or];
    } else {
      assert Term(p[0]) in Alternatives(p);
    }
  }

  lemma PieceTerms(p: Piece, good: string -> bool)
    requires p != []
    ensures EveryTerm(PieceTokens(p), good) <==> EveryWord(p, good)
  {
    AlternativeTerms(p, good);
    TermsAppended([Open], Alternatives(p), good);
    TermsAppended([Open] + Alternatives(p), [Close], good);
  }

  lemma {:induction false} PiecesTerms(ps: seq<Piece>, good: string -> bool)
    requires Solid(ps)
    ensures EveryTerm(PiecesTokens(ps), good) <==> EveryWord(Concat(ps), good)
  {
    if ps != [] {
      PieceTerms(ps[0], good);
      PiecesTerms(ps[1..], good);
      TermsAppended(PieceTokens(ps[0]), PiecesTokens(ps[1..]), good);
      EveryAppended(ps[0], Concat(ps[1..]), good);
    }
  }

  lemma SameWords(a: seq<string>, b: seq<string>, good: string -> bool)
    requires multiset(a) == multiset(b)
    ensures EveryWord(a, good) <==> EveryWord(b, good)
  {
    forall w
      ensures w in a <==> w in b
    {
      assert w in a <==> w in multiset(a);
      assert w in b <==> w in multiset(b);
    }
  }

  lemma {:induction false} ConcatWords(a: seq<Piece>, good: string -> bool)
    ensures EveryWord(Concat(a), good) <==> forall p :: p in a ==> EveryWord(p, good)
  {
    if a != [] {
      ConcatWords(a[1..], good);
      EveryAppended(a[0], Concat(a[1..]), good);
      assert forall p :: p in a <==> p == a[0] || p in a[1..];
    }
  }

  ghost predicate EveryValue(k: string, vs: seq<string>, good: string -> bool) {
    forall v :: v in vs ==> good(Word(k)(v))
  }

  ghost predicate EveryValueOf(keys: seq<string>, q: Qualifiers, good: string -> bool)
    requires forall k :: k in keys ==> k in q
  {
    forall k :: k in keys ==> EveryValue(k, q[k], good)
  }

  lemma {:induction false} MappedWords(k: string, vs: seq<string>, good: string -> bool)
    ensures EveryWord(Map(Word(k), vs), good) <==> EveryValue(k, vs, good)
  {
    if vs != [] {
      var w, rest := Word(k)(vs[0]), Map(Word(k), vs[1..]);
      MappedWords(k, vs[1..], good);
      EveryAppended([w], rest, good);
      assert EveryWord([w], good) <==> good(w) by { assert w in [w]; }
      assert forall v :: v in vs <==> v == vs[0] || v in vs[1..];
    }
  }

  /** What holds of the words in the pieces of a qualifier holds of those of its values. */
  lemma QualifierWords(k: string, vs: seq<string>, ps: seq<Piece>, good: string -> bool)
    requires multiset(ps) == multiset(Pieces(k, vs))
    ensures EveryWord(Concat(ps), good) <==> EveryValue(k, vs, good)
  {
    ValuesOccurOnce(k, vs);
    SameWords(Concat(Pieces(k, vs)), Map(Word(k), vs), good);
    MappedWords(k, vs, good);
    ConcatWords(ps, good);
    ConcatWords(Pieces(k, vs), good);
    forall p
      ensures p in ps <==> p in Pieces(k, vs)
    {
      assert p in ps <==> p in multiset(ps);
      assert p in Pieces(k, vs) <==> p in multiset(Pieces(k, vs));
    }
  }

  lemma {:induction false} ListedWords(ps: seq<seq<Piece>>, keys: seq<string>, q: Qualifiers, good: string -> bool)
    requires (forall k :: k in keys ==> k in q) && Lists(ps, keys, q)
    ensures EveryWord(Concat(Concat(ps)), good) <==> EveryValueOf(keys, q, good)
    decreases |ps|
  {
    if ps != [] {
      QualifierWords(keys[0], q[keys[0]], ps[0], good);
      ListedWords(ps[1..], keys[1..], q, good);
      ConcatAppend(ps[0], Concat(ps[1..]));
      EveryAppended(Concat(ps[0]), Concat(Concat(ps[1..])), good);
      assert forall k :: k in keys <==> k == keys[0] || k in keys[1..];
    }
  }

  // ---------------------------------------------------------------- the tokens of the whole query

  ghost predicate PlainKeys(q: Qualifiers) {
    forall k :: k in q ==> PlainText(k)
  }

  /** No value has a bracket without being put in quotes. */
  ghost predicate AllUnbroken(q: Qualifiers) {
    forall k :: k in q ==> forall v :: v in q[k] ==> Unbroken(v)
  }

  lemma ValuesOfKey(k: string, vs: seq<string>)
    requires PlainText(k)
    ensures EveryValue(k, vs, Printed)
    ensures EveryValue(k, vs, OneToken) <==> forall v :: v in vs ==> Unbroken(v)
  {
    forall v | v in vs
      ensures Printed(Word(k)(v)) && (OneToken(Word(k)(v)) <==> Unbroken(v))
    {
      WordIsPrinted(k, v);
      WordIsOneTokenIff(k, v);
    }
  }

  lemma ValuesArePrinted(keys: seq<string>, q: Qualifiers)
    requires (forall k :: k in keys <==> k in q) && PlainKeys(q)
    ensures EveryValueOf(keys, q, Printed)
    ensures EveryValueOf(keys, q, OneToken) <==> AllUnbroken(q)
  {
    forall k | k in keys
      ensures EveryValue(k, q[k], Printed)
      ensures EveryValue(k, q[k], OneToken) <==> forall v :: v in q[k] ==> Unbroken(v)
    {
      ValuesOfKey(k, q[k]);
    }
  }

  lemma WordsOfPieces(ps: seq<Piece>)
    requires EveryWord(Concat(ps), Printed)
    ensures PiecesPrinted(ps)
  {
    ConcatWords(ps, Printed);
  }

  /** The printed pieces are cut into their own tokens if and only if no value is broken. */
  lemma ListedLex(ps: seq<seq<Piece>>, keys: seq<string>, q: Qualifiers)
    requires (forall k :: k in keys <==> k in q) && Lists(ps, keys, q) && PlainKeys(q) && Solid(Concat(ps))
    ensures var tokens := PiecesTokens(Concat(ps));
            && Lex(Join(Map(Text, Concat(ps)), " ")) == Some(Reread(tokens))
            && (Reread(tokens) == tokens <==> AllUnbroken(q))
    ensures Join(Map(Text, Concat(ps)), " ") == "" <==> Concat(ps) == []
  {
    var all := Concat(ps);
    ValuesArePrinted(keys, q);
    ListedWords(ps, keys, q, Printed);
    ListedWords(ps, keys, q, OneToken);
    WordsOfPieces(all);
    LexPieces(all);
    PiecesTerms(all, Printed);
    PiecesTerms(all, OneToken);
    RereadIff(PiecesTokens(all));
  }

  lemma LexFraming(words: string, pieces: string)
    requires Lex(words).Some? && Lex(pieces).Some?
    ensures Lex(Framing(words, pieces)) ==
            Some(Framed(if words == "" then None else Lex(words), if pieces == "" then None else Lex(pieces)))
  {
    if words != "" && pieces != "" {
      LexFramed(words, pieces);
    } else {
      LexNothing();
      assert words + "" == words && "" + pieces == pieces;
    }
  }

  lemma FramedTellsApart(keywords: Option<seq<Token>>, a: seq<Token>, b: seq<Token>)
    ensures Framed(keywords, Some(a)) == Framed(keywords, Some(b)) <==> a == b
  {
    var front := if keywords.Some? then [Open] + keywords.value + [Close] else [];
    assert Framed(keywords, Some(a)) == front + a && Framed(keywords, Some(b)) == front + b;
    assert (front + a)[|front|..] == a && (front + b)[|front|..] == b;
  }

  // ---------------------------------------------------------------- what is read once is read the same again

  /** The finished words are one token each, and the word under way is still one. */
  ghost predicate Stable(s: Scan) {
    EveryTerm(s.tokens, OneToken) && Run(START, s.word) == Scan([], s.word, s.mode)
  }

  lemma WordIsWhole(word: string)
    requires Run(START, word) == Scan([], word, Bare)
    ensures EveryTerm(TokenOf(word), OneToken)
  {
    if word != "" && word != "OR" { OwnEnd(word); }
  }

  lemma OwnEnd(word: string)
    requires Run(START, word) == Scan([], word, Bare)
    ensures Lex(word) == Some(TokenOf(word))
  {
    assert [] + TokenOf(word) == TokenOf(word);
  }

  lemma StepIsStable(s: Scan, c: char)
    requires Stable(s)
    ensures Stable(Step(s, c))
  {
    RunOn(START, s.word, [c]);
    RunOne(Scan([], s.word, s.mode), c);
    if s.mode == Bare && (IsBlank(c) || IsBracket(c)) {
      WordIsWhole(s.word);
      TermsAppended(s.tokens, TokenOf(s.word), OneToken);
      TermsAppended(s.tokens + TokenOf(s.word), Mark(c), OneToken);
      assert Run(START, "") == START;
    }
  }

  lemma {:induction false} RunIsStable(s: Scan, t: string)
    requires Stable(s)
    ensures Stable(Run(s, t))
    decreases |t|
  {
    if t != "" {
      StepIsStable(s, t[0]);
      RunIsStable(Step(s, t[0]), t[1..]);
    }
  }

  /** Each term of a text is one token by itself. */
  lemma LexIsStable(t: string)
    requires Lex(t).Some?
    ensures EveryTerm(Lex(t).value, OneToken)
  {
    assert Stable(START) by { assert Run(START, "") == START; }
    RunIsStable(START, t);
    var end := Run(START, t);
    WordIsWhole(end.word);
    TermsAppended(end.tokens, TokenOf(end.word), OneToken);
  }
}
