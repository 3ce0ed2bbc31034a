/**
 * Turning search qualifiers into the advanced issue search syntax, in which words next to each other
 * are and-ed, "OR" binds loosest, and brackets group.
 */
module SearchQueries {
  import opened Wrappers
  import opened Strings
  import opened Ordering

  // ---------------------------------------------------------------- lists

  function Map<T, U>(f: T -> U, s: seq<T>): seq<U> {
    if s == [] then [] else [f(s[0])] + Map(f, s[1..])
  }

  function Filter<T>(p: T -> bool, s: seq<T>): seq<T> {
    if s == [] then [] else if p(s[0]) then [s[0]] + Filter(p, s[1..]) else Filter(p, s[1..])
  }

  function Concat<T>(s: seq<seq<T>>): seq<T> {
    if s == [] then [] else s[0] + Concat(s[1..])
  }

  lemma {:induction false} MapAppend<T, U>(f: T -> U, a: seq<T>, b: seq<T>)
    ensures Map(f, a + b) == Map(f, a) + Map(f, b)
  {
    if a == [] {
      assert a + b == b;
    } else {
      assert (a + b)[1..] == a[1..] + b;
      MapAppend(f, a[1..], b);
    }
  }

  lemma {:induction false} MapAt<T, U>(f: T -> U, s: seq<T>)
    ensures |Map(f, s)| == |s| && forall i :: 0 <= i < |s| ==> Map(f, s)[i] == f(s[i])
  {
    if s != [] { MapAt(f, s[1..]); }
  }

  lemma MapOne<T, U>(f: T -> U, x: T)
    ensures Map(f, [x]) == [f(x)]
  {
    assert [x][1..] == [];
  }

  lemma CancelOne<T>(m: multiset<T>, n: multiset<T>, x: T)
    requires m + multiset{x} == n + multiset{x}
    ensures m == n
  {
    assert (m + multiset{x}) - multiset{x} == m && (n + multiset{x}) - multiset{x} == n;
  }

  lemma Removed<T>(s: seq<T>, i: nat)
    requires i < |s|
    ensures multiset(s) == multiset(s[..i] + s[i + 1..]) + multiset{s[i]}
  {
    assert s == s[..i] + [s[i]] + s[i + 1..];
  }

  lemma FirstRemoved<T>(s: seq<T>, rest: multiset<T>)
    requires s != [] && multiset(s) == rest + multiset{s[0]}
    ensures multiset(s[1..]) == rest
  {
    Removed(s, 0);
    assert s[..0] + s[0 + 1..] == s[1..];
    CancelOne(multiset(s[1..]), rest, s[0]);
  }

  lemma MapAround<T, U>(f: T -> U, front: seq<T>, x: T, back: seq<T>)
    ensures Map(f, front + ([x] + back)) == Map(f, front) + ([f(x)] + Map(f, back))
  {
    MapAppend(f, front, [x] + back);
    assert ([x] + back)[1..] == back;
  }

  lemma OneOut<T>(front: seq<T>, x: T, back: seq<T>)
    ensures multiset(front + ([x] + back)) == multiset(front + back) + multiset{x}
  {
  }

  lemma SplitAround<T>(s: seq<T>, i: nat)
    requires i < |s|
    ensures s == s[..i] + ([s[i]] + s[i + 1..])
  {
  }

  lemma MapRemoved<T, U>(f: T -> U, s: seq<T>, i: nat)
    requires i < |s|
    ensures multiset(Map(f, s)) == multiset(Map(f, s[..i] + s[i + 1..])) + multiset{f(s[i])}
  {
    var front, back := s[..i], s[i + 1..];
    SplitAround(s, i);
    MapAround(f, front, s[i], back);
    MapAppend(f, front, back);
    OneOut(Map(f, front), f(s[i]), Map(f, back));
  }

  lemma MapFirstOut<T, U>(f: T -> U, s: seq<T>)
    requires s != []
    ensures multiset(Map(f, s)) == multiset(Map(f, s[1..])) + multiset{f(s[0])}
  {
    MapRemoved(f, s, 0);
    assert s[..0] + s[0 + 1..] == s[1..];
  }

  /** Mapping permutes as its argument does. */
  lemma {:induction false} MapPermutes<T, U>(f: T -> U, a: seq<T>, b: seq<T>)
    requires multiset(a) == multiset(b)
    ensures multiset(Map(f, a)) == multiset(Map(f, b))
  {
    assert |multiset(a)| == |a| && |multiset(b)| == |b|;
    if a != [] {
      assert a[0] in multiset(b);
      var i :| 0 <= i < |b| && b[i] == a[0];
      var rest := b[..i] + b[i + 1..];
      Removed(b, i);
      FirstRemoved(a, multiset(rest));
      MapPermutes(f, a[1..], rest);
      MapRemoved(f, b, i);
      MapFirstOut(f, a);
    }
  }

  lemma {:induction false} FilterCounts(p: string -> bool, s: seq<string>, x: string)
    ensures multiset(Filter(p, s))[x] == if p(x) then multiset(s)[x] else 0
  {
    if s != [] {
      FilterCounts(p, s[1..], x);
      assert s == [s[0]] + s[1..];
    }
  }

  lemma FilterPermutes(p: string -> bool, a: seq<string>, b: seq<string>)
    requires multiset(a) == multiset(b)
    ensures multiset(Filter(p, a)) == multiset(Filter(p, b))
  {
    var c, d := multiset(Filter(p, a)), multiset(Filter(p, b));
    forall x: string
      ensures c[x] == d[x]
    {
      FilterCounts(p, a, x);
      FilterCounts(p, b, x);
    }
    assert c == d;
  }

  // ---------------------------------------------------------------- words and pieces

  predicate NeedsQuotes(s: string) {
    exists i :: 0 <= i < |s| && s[i] in {' ', '"', '\t', '\r', '\n'}
  }

  function EscapedChar(c: char): string {
    match c
    case '"' => "\\\""
    case '\\' => "\\\\"
    case '\t' => "\\t"
    case '\r' => "\\r"
    case '\n' => "\\n"
    case _ => [c]
  }

  function Escaped(s: string): string {
    if s == "" then "" else EscapedChar(s[0]) + Escaped(s[1..])
  }

  function Quote(s: string): string {
    if NeedsQuotes(s) then "\"" + Escaped(s) + "\"" else s
  }

  function Word(k: string): string -> string {
    (v: string) => k + ":" + Quote(v)
  }

  function Unescaped(t: string): string {
    if t == "" then ""
    else if t[0] == '\\' && |t| >= 2 then
      [match t[1]
       case 't' => '\t'
       case 'r' => '\r'
       case 'n' => '\n'
       case c => c] + Unescaped(t[2..])
    else [t[0]] + Unescaped(t[1..])
  }

  lemma CharReadsBack(c: char, rest: string)
    ensures Unescaped(EscapedChar(c) + rest) == [c] + Unescaped(rest)
  {
    var t := EscapedChar(c) + rest;
    assert t[|EscapedChar(c)|..] == rest;
  }

  lemma {:induction false} EscapesReadBack(s: string)
    ensures Unescaped(Escaped(s)) == s
  {
    if s != "" {
      EscapesReadBack(s[1..]);
      CharReadsBack(s[0], Escaped(s[1..]));
      assert s == [s[0]] + s[1..];
    }
  }

  lemma QuotedNeedsQuotes(s: string)
    requires NeedsQuotes(s)
    ensures NeedsQuotes(Quote(s)) && Quote(s)[1..|Quote(s)| - 1] == Escaped(s)
  {
    assert Quote(s)[0] == '"';
  }

  /** No two values print as the same word, quoted or not. */
  lemma WordsTellValuesApart(k: string, a: string, b: string)
    ensures Word(k)(a) == Word(k)(b) <==> a == b
  {
    if Word(k)(a) == Word(k)(b) {
      var n := |k| + 1;
      assert (k + ":" + Quote(a))[n..] == Quote(a) && (k + ":" + Quote(b))[n..] == Quote(b);
      if NeedsQuotes(a) { QuotedNeedsQuotes(a); }
      if NeedsQuotes(b) { QuotedNeedsQuotes(b); }
      EscapesReadBack(a);
      EscapesReadBack(b);
    }
  }

  /** Words of which one must hold; alone, or in brackets with "OR" between them. */
  type Piece = seq<string>

  const IN_GROUPS: seq<set<string>> := [{"title", "body", "comments"}]
  const IS_GROUPS: seq<set<string>> :=
    [{"blocked", "blocking"}, {"closed", "open"}, {"issue", "pr"}, {"locked", "unlocked"}, {"merged", "unmerged"},
     {"private", "public"}]

  /** The number of the first group with the value; past the last when there is none. */
  function GroupOf(groups: seq<set<string>>, v: string): (i: nat)
    ensures i <= |groups| && (i < |groups| ==> v in groups[i]) && forall j :: 0 <= j < i ==> v !in groups[j]
  {
    if groups == [] || v in groups[0] then 0 else 1 + GroupOf(groups[1..], v)
  }

  function InGroup(groups: seq<set<string>>, i: nat): string -> bool {
    (v: string) => GroupOf(groups, v) == i
  }

  function Members(groups: seq<set<string>>, vs: seq<string>, i: nat): seq<string> {
    Filter(InGroup(groups, i), vs)
  }

  function GroupPiece(k: string, vs: seq<string>): Piece {
    Sort(Map(Word(k), vs))
  }

  function Singles(k: string, vs: seq<string>): seq<Piece> {
    Map(Alone, Map(Word(k), vs))
  }

  function Alone(w: string): Piece {
    [w]
  }

  /** f(0), f(1) and so on up to n, one after the other. */
  function Collected<T>(f: nat -> seq<T>, n: nat): seq<T> {
    if n == 0 then [] else Collected(f, n - 1) + f(n - 1)
  }

  /** The piece of a group, if the group has a value. */
  function PieceAt(k: string, vs: seq<string>, groups: seq<set<string>>): nat -> seq<Piece> {
    (i: nat) => GroupPiecesOf(k, Members(groups, vs, i))
  }

  /** One piece for each group with a value in it. */
  function GroupPieces(k: string, vs: seq<string>, groups: seq<set<string>>): seq<Piece> {
    Collected(PieceAt(k, vs, groups), |groups|)
  }

  function GroupPiecesOf(k: string, members: seq<string>): seq<Piece> {
    if members == [] then [] else [GroupPiece(k, members)]
  }

  function SpecialPieces(k: string, vs: seq<string>, groups: seq<set<string>>): seq<Piece> {
    GroupPieces(k, vs, groups) + Singles(k, Members(groups, vs, |groups|))
  }

  function Pieces(k: string, vs: seq<string>): seq<Piece> {
    if k == "in" then SpecialPieces(k, vs, IN_GROUPS)
    else if k == "is" then SpecialPieces(k, vs, IS_GROUPS)
    else if k == "user" || k == "repo" then GroupPiecesOf(k, vs)
    else Singles(k, vs)
  }

  function Text(p: Piece): string {
    if |p| == 1 then p[0] else "(" + Join(p, " OR ") + ")"
  }

  /** The texts of one qualifier, in ascending order. */
  function Formatted(k: string, vs: seq<string>): seq<string> {
    Sort(Map(Text, Pieces(k, vs)))
  }

  // ---------------------------------------------------------------- the loops

  method GroupWithOR(k: string, vs: seq<string>) returns (text: string)
    ensures text == if vs == [] then "" else Text(GroupPiece(k, vs))
  {
    if |vs| == 0 { return ""; }
    var all := [];
    for i := 0 to |vs|
      invariant all == Map(Word(k), vs[..i])
    {
      assert vs[..i + 1] == vs[..i] + [vs[i]];
      MapAppend(Word(k), vs[..i], [vs[i]]);
      all := all + [k + ":" + Quote(vs[i])];
    }
    assert vs[..|vs|] == vs;
    MapAt(Word(k), vs);
    if |all| == 1 {
      assert Sort(all[1..]) == [];
      return all[0];
    }
    text := "(" + Join(Sort(all), " OR ") + ")";
  }

  /** Values are sorted into the groups, and what is in none is kept aside. */
  method SortIntoGroups(vs: seq<string>, groups: seq<set<string>>) returns (members: seq<seq<string>>)
    ensures |members| == |groups| + 1 && forall i :: 0 <= i <= |groups| ==> members[i] == Members(groups, vs, i)
  {
    members := seq(|groups| + 1, _ => []);
    for n := 0 to |vs|
      invariant |members| == |groups| + 1
      invariant forall i :: 0 <= i <= |groups| ==> members[i] == Members(groups, vs[..n], i)
    {
      var v := vs[n];
      var g := GroupOf(groups, v);
      assert vs[..n + 1] == vs[..n] + [v];
      forall i | 0 <= i <= |groups|
        ensures Members(groups, vs[..n + 1], i) == Members(groups, vs[..n], i) + (if i == g then [v] else [])
      {
        FilterAppend(InGroup(groups, i), vs[..n], v);
      }
      members := members[g := members[g] + [v]];
    }
    assert vs[..|vs|] == vs;
  }

  method FormatGroups(
      k: string, ghost pieces: nat -> seq<Piece>, members: seq<seq<string>>, n: nat) returns (all: seq<string>)
    requires n <= |members| && forall i :: 0 <= i < n ==> pieces(i) == GroupPiecesOf(k, members[i])
    ensures all == Map(Text, Collected(pieces, n))
  {
    all := [];
    for i := 0 to n
      invariant all == Map(Text, Collected(pieces, i))
    {
      all := AddGroup(k, members[i], pieces, i, all);
    }
  }

  method AddGroup(k: string, members: seq<string>, ghost pieces: nat -> seq<Piece>, ghost i: nat, all: seq<string>)
    returns (more: seq<string>)
    requires pieces(i) == GroupPiecesOf(k, members) && all == Map(Text, Collected(pieces, i))
    ensures more == Map(Text, Collected(pieces, i + 1))
  {
    CollectedStep(pieces, i, pieces(i));
    if |members| == 0 { return all; }
    var text := GroupWithOR(k, members);
    more := all + [text];
  }

  lemma CollectedStep(pieces: nat -> seq<Piece>, i: nat, last: seq<Piece>)
    requires pieces(i) == last && |last| <= 1
    ensures Map(Text, Collected(pieces, i + 1)) ==
            if last == [] then Map(Text, Collected(pieces, i)) else Map(Text, Collected(pieces, i)) + [Text(last[0])]
  {
    MapAppend(Text, Collected(pieces, i), last);
    if last != [] {
      assert last == [last[0]];
      MapOne(Text, last[0]);
    }
  }

  method FormatSpecialQualifiers(k: string, vs: seq<string>, groups: seq<set<string>>) returns (texts: seq<string>)
    ensures texts == Sort(Map(Text, SpecialPieces(k, vs, groups)))
  {
    var members := SortIntoGroups(vs, groups);
    var all := FormatGroups(k, PieceAt(k, vs, groups), members, |groups|);
    var rest := members[|groups|];
    var singles := FormatSingles(k, rest);
    var list := all + singles;
    SpecialTexts(k, vs, groups, rest, list);
    texts := Sort(list);
  }

  lemma SpecialTexts(k: string, vs: seq<string>, groups: seq<set<string>>, rest: seq<string>, list: seq<string>)
    requires rest == Members(groups, vs, |groups|)
    requires list == Map(Text, GroupPieces(k, vs, groups)) + Map(Text, Singles(k, rest))
    ensures list == Map(Text, SpecialPieces(k, vs, groups))
  {
    MapAppend(Text, GroupPieces(k, vs, groups), Singles(k, rest));
  }

  method FormatSingles(k: string, vs: seq<string>) returns (texts: seq<string>)
    ensures texts == Map(Text, Singles(k, vs))
  {
    texts := [];
    for n := 0 to |vs|
      invariant texts == Map(Text, Singles(k, vs[..n]))
    {
      SinglesStep(k, vs[..n], vs[n]);
      assert vs[..n + 1] == vs[..n] + [vs[n]];
      texts := texts + [k + ":" + Quote(vs[n])];
    }
    assert vs[..|vs|] == vs;
  }

  lemma {:induction false} FilterAppend<T>(p: T -> bool, s: seq<T>, x: T)
    ensures Filter(p, s + [x]) == Filter(p, s) + (if p(x) then [x] else [])
  {
    if s == [] {
      assert s + [x] == [x] && [x][1..] == [];
    } else {
      assert (s + [x])[1..] == s[1..] + [x];
      FilterAppend(p, s[1..], x);
    }
  }

  lemma SinglesStep(k: string, vs: seq<string>, v: string)
    ensures Singles(k, vs + [v]) == Singles(k, vs) + [[Word(k)(v)]]
    ensures Map(Text, Singles(k, vs + [v])) == Map(Text, Singles(k, vs)) + [Word(k)(v)]
  {
    MapAppend(Word(k), vs, [v]);
    MapOne(Word(k), v);
    MapOne(Alone, Word(k)(v));
    MapOne(Text, [Word(k)(v)]);
    MapAppend(Alone, Map(Word(k), vs), [Word(k)(v)]);
    MapAppend(Text, Singles(k, vs), [[Word(k)(v)]]);
  }

  // ---------------------------------------------------------------- order does not matter

  lemma SortedGroupIsOrderFree(k: string, a: seq<string>, b: seq<string>)
    requires multiset(a) == multiset(b)
    ensures GroupPiecesOf(k, a) == GroupPiecesOf(k, b)
  {
    assert |multiset(a)| == |a| && |multiset(b)| == |b|;
    MapPermutes(Word(k), a, b);
    SortIsOrderFree(Map(Word(k), a), Map(Word(k), b));
  }

  lemma MembersAreOrderFree(k: string, a: seq<string>, b: seq<string>, groups: seq<set<string>>, i: nat)
    requires multiset(a) == multiset(b)
    ensures GroupPiecesOf(k, Members(groups, a, i)) == GroupPiecesOf(k, Members(groups, b, i))
  {
    FilterPermutes(InGroup(groups, i), a, b);
    SortedGroupIsOrderFree(k, Members(groups, a, i), Members(groups, b, i));
  }

  lemma {:induction false} SameCollected<T>(f: nat -> seq<T>, g: nat -> seq<T>, n: nat)
    requires forall i :: 0 <= i < n ==> f(i) == g(i)
    ensures Collected(f, n) == Collected(g, n)
  {
    if n > 0 { SameCollected(f, g, n - 1); }
  }

  lemma GroupPiecesAreOrderFree(k: string, a: seq<string>, b: seq<string>, groups: seq<set<string>>)
    requires multiset(a) == multiset(b)
    ensures GroupPieces(k, a, groups) == GroupPieces(k, b, groups)
  {
    forall i: nat
      ensures PieceAt(k, a, groups)(i) == PieceAt(k, b, groups)(i)
    {
      MembersAreOrderFree(k, a, b, groups, i);
    }
    SameCollected(PieceAt(k, a, groups), PieceAt(k, b, groups), |groups|);
  }

  lemma SinglesPermute(k: string, a: seq<string>, b: seq<string>)
    requires multiset(a) == multiset(b)
    ensures multiset(Singles(k, a)) == multiset(Singles(k, b))
  {
    MapPermutes(Word(k), a, b);
    MapPermutes(Alone, Map(Word(k), a), Map(Word(k), b));
  }

  lemma SpecialPiecesPermute(k: string, a: seq<string>, b: seq<string>, groups: seq<set<string>>)
    requires multiset(a) == multiset(b)
    ensures multiset(SpecialPieces(k, a, groups)) == multiset(SpecialPieces(k, b, groups))
  {
    GroupPiecesAreOrderFree(k, a, b, groups);
    FilterPermutes(InGroup(groups, |groups|), a, b);
    SinglesPermute(k, Members(groups, a, |groups|), Members(groups, b, |groups|));
  }

  lemma PiecesPermute(k: string, a: seq<string>, b: seq<string>)
    requires multiset(a) == multiset(b)
    ensures multiset(Pieces(k, a)) == multiset(Pieces(k, b))
  {
    if k == "in" {
      SpecialPiecesPermute(k, a, b, IN_GROUPS);
    } else if k == "is" {
      SpecialPiecesPermute(k, a, b, IS_GROUPS);
    } else if k == "user" || k == "repo" {
      SortedGroupIsOrderFree(k, a, b);
    } else {
      SinglesPermute(k, a, b);
    }
  }

  /** The texts of a qualifier do not depend on the order of its values. */
  lemma FormattedIsOrderFree(k: string, a: seq<string>, b: seq<string>)
    requires multiset(a) == multiset(b)
    ensures Formatted(k, a) == Formatted(k, b)
  {
    PiecesPermute(k, a, b);
    MapPermutes(Text, Pieces(k, a), Pieces(k, b));
    SortIsOrderFree(Map(Text, Pieces(k, a)), Map(Text, Pieces(k, b)));
  }

  // ---------------------------------------------------------------- every value once

  lemma {:induction false} ConcatAppend<T>(a: seq<seq<T>>, b: seq<seq<T>>)
    ensures Concat(a + b) == Concat(a) + Concat(b)
  {
    if a == [] {
      assert a + b == b;
    } else {
      assert (a + b)[1..] == a[1..] + b;
      ConcatAppend(a[1..], b);
    }
  }

  lemma {:induction false} ConcatAlone(words: seq<string>)
    ensures Concat(Map(Alone, words)) == words
  {
    if words != [] {
      ConcatAlone(words[1..]);
      assert Map(Alone, words)[1..] == Map(Alone, words[1..]);
      assert [words[0]] + words[1..] == words;
    }
  }

  function Before(groups: seq<set<string>>, n: nat): string -> bool {
    (v: string) => GroupOf(groups, v) < n
  }

  lemma SplitFilter(p: string -> bool, q: string -> bool, r: string -> bool, vs: seq<string>)
    requires forall v :: r(v) <==> p(v) || q(v)
    requires forall v :: !(p(v) && q(v))
    ensures multiset(Filter(r, vs)) == multiset(Filter(p, vs) + Filter(q, vs))
  {
    var c, d := multiset(Filter(r, vs)), multiset(Filter(p, vs) + Filter(q, vs));
    forall x: string
      ensures c[x] == d[x]
    {
      FilterCounts(p, vs, x);
      FilterCounts(q, vs, x);
      FilterCounts(r, vs, x);
    }
    assert c == d;
  }

  lemma GroupWords(k: string, vs: seq<string>)
    ensures multiset(Concat(GroupPiecesOf(k, vs))) == multiset(Map(Word(k), vs))
  {
    if vs != [] {
      var p := GroupPiece(k, vs);
      assert [p][1..] == [] && Concat([p]) == p + [] == p;
    }
  }

  lemma FilterStep(k: string, vs: seq<string>, groups: seq<set<string>>, n: nat)
    ensures multiset(Map(Word(k), Filter(Before(groups, n + 1), vs))) ==
            multiset(Map(Word(k), Filter(Before(groups, n), vs))) + multiset(Map(Word(k), Members(groups, vs, n)))
  {
    var sofar, members := Filter(Before(groups, n), vs), Members(groups, vs, n);
    SplitFilter(Before(groups, n), InGroup(groups, n), Before(groups, n + 1), vs);
    MapPermutes(Word(k), Filter(Before(groups, n + 1), vs), sofar + members);
    MapAppend(Word(k), sofar, members);
  }

  lemma PieceStep(k: string, vs: seq<string>, groups: seq<set<string>>, n: nat)
    ensures var pieces := PieceAt(k, vs, groups);
            multiset(Concat(Collected(pieces, n + 1))) ==
            multiset(Concat(Collected(pieces, n))) + multiset(Map(Word(k), Members(groups, vs, n)))
  {
    var pieces := PieceAt(k, vs, groups);
    ConcatAppend(Collected(pieces, n), pieces(n));
    GroupWords(k, Members(groups, vs, n));
  }

  function WordsOfGroups(k: string, vs: seq<string>, groups: seq<set<string>>): nat -> multiset<string> {
    (i: nat) => multiset(Concat(Collected(PieceAt(k, vs, groups), i)))
  }

  function WordsBefore(k: string, vs: seq<string>, groups: seq<set<string>>): nat -> multiset<string> {
    (i: nat) => multiset(Map(Word(k), Filter(Before(groups, i), vs)))
  }

  function WordsOfMembers(k: string, vs: seq<string>, groups: seq<set<string>>): nat -> multiset<string> {
    (i: nat) => multiset(Map(Word(k), Members(groups, vs, i)))
  }

  lemma WordsStep(k: string, vs: seq<string>, groups: seq<set<string>>, i: nat)
    ensures Adds(WordsOfGroups(k, vs, groups), WordsOfMembers(k, vs, groups), i)
    ensures Adds(WordsBefore(k, vs, groups), WordsOfMembers(k, vs, groups), i)
  {
    PieceStep(k, vs, groups, i);
    FilterStep(k, vs, groups, i);
  }

  predicate Adds(sum: nat -> multiset<string>, step: nat -> multiset<string>, i: nat) {
    sum(i + 1) == sum(i) + step(i)
  }

  lemma {:induction false} SameSums(
      a: nat -> multiset<string>, b: nat -> multiset<string>, step: nat -> multiset<string>, n: nat)
    requires a(0) == b(0) && forall i: nat :: Adds(a, step, i) && Adds(b, step, i)
    ensures a(n) == b(n)
  {
    if n > 0 {
      SameSums(a, b, step, n - 1);
      assert Adds(a, step, n - 1) && Adds(b, step, n - 1);
    }
  }

  lemma WordsStart(k: string, vs: seq<string>, groups: seq<set<string>>)
    ensures WordsOfGroups(k, vs, groups)(0) == WordsBefore(k, vs, groups)(0)
  {
    NothingPasses(Before(groups, 0), vs);
  }

  lemma CollectedWords(k: string, vs: seq<string>, groups: seq<set<string>>, n: nat)
    ensures WordsOfGroups(k, vs, groups)(n) == WordsBefore(k, vs, groups)(n)
  {
    WordsStart(k, vs, groups);
    forall i: nat
      ensures Adds(WordsOfGroups(k, vs, groups), WordsOfMembers(k, vs, groups), i)
      ensures Adds(WordsBefore(k, vs, groups), WordsOfMembers(k, vs, groups), i)
    {
      WordsStep(k, vs, groups, i);
    }
    SameSums(WordsOfGroups(k, vs, groups), WordsBefore(k, vs, groups), WordsOfMembers(k, vs, groups), n);
  }

  lemma {:induction false} NothingPasses(p: string -> bool, vs: seq<string>)
    requires forall v :: !p(v)
    ensures Filter(p, vs) == []
  {
    if vs != [] { NothingPasses(p, vs[1..]); }
  }

  lemma {:induction false} AllPass(p: string -> bool, vs: seq<string>)
    requires forall v :: p(v)
    ensures Filter(p, vs) == vs
  {
    if vs != [] {
      AllPass(p, vs[1..]);
      assert [vs[0]] + vs[1..] == vs;
    }
  }

  lemma SpecialWords(k: string, vs: seq<string>, groups: seq<set<string>>)
    ensures multiset(Concat(SpecialPieces(k, vs, groups))) == multiset(Map(Word(k), vs))
  {
    var n := |groups|;
    var rest := Members(groups, vs, n);
    CollectedWords(k, vs, groups, n);
    assert multiset(Concat(GroupPieces(k, vs, groups))) == multiset(Map(Word(k), Filter(Before(groups, n), vs)));
    ConcatAppend(GroupPieces(k, vs, groups), Singles(k, rest));
    ConcatAlone(Map(Word(k), rest));
    FilterStep(k, vs, groups, n);
    AllPass(Before(groups, n + 1), vs);
  }

  /** Every value of a qualifier is in exactly one piece, as often as it was given, and nothing else is. */
  lemma ValuesOccurOnce(k: string, vs: seq<string>)
    ensures multiset(Concat(Pieces(k, vs))) == multiset(Map(Word(k), vs))
  {
    if k == "in" {
      SpecialWords(k, vs, IN_GROUPS);
    } else if k == "is" {
      SpecialWords(k, vs, IS_GROUPS);
    } else if k == "user" || k == "repo" {
      GroupWords(k, vs);
    } else {
      ConcatAlone(Map(Word(k), vs));
    }
  }

  // ---------------------------------------------------------------- the whole query

  type Qualifiers = map<string, seq<string>>

  /** The keys of the map, each once, as an iteration may come upon them. */
  ghost predicate Iterates(keys: seq<string>, q: Qualifiers) {
    (forall k :: k in keys <==> k in q) && forall i, j :: 0 <= i < j < |keys| ==> keys[i] != keys[j]
  }

  function TextsOf(keys: seq<string>, q: Qualifiers): seq<string>
    requires forall k :: k in keys ==> k in q
  {
    if keys == [] then [] else Formatted(keys[0], q[keys[0]]) + TextsOf(keys[1..], q)
  }

  lemma SortKeeps(keys: seq<string>, q: Qualifiers)
    requires forall k :: k in keys ==> k in q
    ensures forall k :: k in Sort(keys) ==> k in q
  {
    forall k | k in Sort(keys)
      ensures k in q
    {
      assert k in multiset(Sort(keys));
    }
  }

  /** Sorted by key, and within a key by text. */
  function QualifierTexts(keys: seq<string>, q: Qualifiers): seq<string>
    requires forall k :: k in keys ==> k in q
  {
    SortKeeps(keys, q);
    TextsOf(Sort(keys), q)
  }

  function KeywordText(keyword: string): string {
    if ':' in keyword then keyword[..Colon(keyword)] + ":" + Quote(keyword[Colon(keyword) + 1..]) else Quote(keyword)
  }

  function Colon(s: string): (i: nat)
    requires ':' in s
    ensures i < |s| && s[i] == ':' && ':' !in s[..i]
  {
    if s[0] == ':' then 0 else 1 + Colon(s[1..])
  }

  /** Keywords given as one string are taken as they are. */
  function KeywordsText(immutable: string, keywords: seq<string>): string {
    if immutable != "" then immutable else Join(Map(KeywordText, keywords), " ")
  }

  function AdvancedString(immutable: string, keywords: seq<string>, keys: seq<string>, q: Qualifiers): string
    requires forall k :: k in keys ==> k in q
  {
    var qualifiers := Join(QualifierTexts(keys, q), " ");
    var words := KeywordsText(immutable, keywords);
    if qualifiers != "" && words != "" then "( " + words + " ) " + qualifiers
    else if words != "" then words else qualifiers
  }

  /** One qualifier, by the formatting its name calls for. */
  method FormatQualifier(k: string, vs: seq<string>) returns (texts: seq<string>)
    requires vs != []
    ensures texts == Formatted(k, vs)
  {
    if k == "in" {
      texts := FormatSpecialQualifiers("in", vs, IN_GROUPS);
    } else if k == "is" {
      texts := FormatSpecialQualifiers("is", vs, IS_GROUPS);
    } else if k == "user" || k == "repo" {
      var text := GroupWithOR(k, vs);
      MapOne(Text, GroupPiece(k, vs));
      texts := Sort([text]);
    } else {
      var singles := FormatSingles(k, vs);
      texts := Sort(singles);
    }
  }

  /** The entries of a map come in any order; the query has them by key. */
  method FormatQualifiers(keys: seq<string>, q: Qualifiers) returns (texts: seq<string>)
    requires forall k :: k in keys ==> k in q && q[k] != []
    ensures texts == QualifierTexts(keys, q)
  {
    var sorted := Sort(keys);
    SortKeeps(keys, q);
    forall k | k in sorted
      ensures k in q && q[k] != []
    {
      assert k in multiset(sorted);
      assert k in keys;
    }
    texts := [];
    assert sorted[0..] == sorted;
    for i := 0 to |sorted|
      invariant texts + TextsOf(sorted[i..], q) == TextsOf(sorted, q)
    {
      var more := FormatQualifier(sorted[i], q[sorted[i]]);
      assert sorted[i..][1..] == sorted[i + 1..];
      Reassociate(texts, more, TextsOf(sorted[i + 1..], q));
      texts := texts + more;
    }
    assert texts + [] == texts;
  }

  lemma Reassociate(a: seq<string>, b: seq<string>, c: seq<string>)
    ensures a + (b + c) == a + b + c
  {
  }

  lemma IterationsPermute(a: seq<string>, b: seq<string>, q: Qualifiers)
    requires Iterates(a, q) && Iterates(b, q)
    ensures multiset(a) == multiset(b)
  {
    forall x: string
      ensures multiset(a)[x] == multiset(b)[x]
    {
      OnceInDistinct(a, x);
      OnceInDistinct(b, x);
    }
  }

  lemma {:induction false} OnceInDistinct(s: seq<string>, x: string)
    requires forall i, j :: 0 <= i < j < |s| ==> s[i] != s[j]
    ensures multiset(s)[x] == if x in s then 1 else 0
  {
    if s != [] {
      OnceInDistinct(s[1..], x);
      assert s == [s[0]] + s[1..];
      assert s[0] !in s[1..];
    }
  }

  lemma {:induction false} TextsAreOrderFree(keys: seq<string>, q: Qualifiers, r: Qualifiers)
    requires q.Keys == r.Keys && forall k :: k in keys ==> k in q
    requires forall k :: k in q ==> multiset(q[k]) == multiset(r[k])
    ensures TextsOf(keys, q) == TextsOf(keys, r)
  {
    if keys != [] {
      FormattedIsOrderFree(keys[0], q[keys[0]], r[keys[0]]);
      TextsAreOrderFree(keys[1..], q, r);
    }
  }

  // ---------------------------------------------------------------- the text is that of the pieces

  /** The pieces of the qualifiers one after the other; within each they may come in any order. */
  ghost predicate Lists(ps: seq<seq<Piece>>, keys: seq<string>, q: Qualifiers)
    requires forall k :: k in keys ==> k in q
  {
    |ps| == |keys| && forall i :: 0 <= i < |keys| ==> multiset(ps[i]) == multiset(Pieces(keys[i], q[keys[i]]))
  }

  /** The first of some permuted images is that of an element, and the others are those of the rest. */
  lemma FirstImage<T, U>(f: T -> U, s: seq<T>, images: seq<U>) returns (i: nat)
    requires multiset(images) == multiset(Map(f, s)) && images != []
    ensures i < |s| && f(s[i]) == images[0] && multiset(images[1..]) == multiset(Map(f, s[..i] + s[i + 1..]))
  {
    MapAt(f, s);
    assert images[0] in multiset(images);
    assert images[0] in Map(f, s);
    i :| 0 <= i < |Map(f, s)| && Map(f, s)[i] == images[0];
    MapRemoved(f, s, i);
    FirstRemoved(images, multiset(Map(f, s[..i] + s[i + 1..])));
  }

  /** A permutation of images is the image of a permutation. */
  lemma {:induction false} Rearranged<T, U>(f: T -> U, s: seq<T>, images: seq<U>) returns (r: seq<T>)
    requires multiset(images) == multiset(Map(f, s))
    ensures multiset(r) == multiset(s) && Map(f, r) == images
    decreases |images|
  {
    AsManyImages(f, s, images);
    if images == [] { return []; }
    var i := FirstImage(f, s, images);
    var rest := s[..i] + s[i + 1..];
    var more := Rearranged(f, rest, images[1..]);
    r := [s[i]] + more;
    PutFirst(f, s, i, more, images);
  }

  lemma PutFirst<T, U>(f: T -> U, s: seq<T>, i: nat, more: seq<T>, images: seq<U>)
    requires i < |s| && images != [] && f(s[i]) == images[0]
    requires multiset(more) == multiset(s[..i] + s[i + 1..]) && Map(f, more) == images[1..]
    ensures multiset([s[i]] + more) == multiset(s) && Map(f, [s[i]] + more) == images
  {
    Removed(s, i);
    MapFirst(f, s[i], more);
    assert [images[0]] + images[1..] == images;
  }

  lemma AsManyImages<T, U>(f: T -> U, s: seq<T>, images: seq<U>)
    requires multiset(images) == multiset(Map(f, s))
    ensures |images| == |s|
  {
    MapAt(f, s);
    assert |multiset(images)| == |images| && |multiset(Map(f, s))| == |Map(f, s)|;
  }

  lemma MapFirst<T, U>(f: T -> U, x: T, s: seq<T>)
    ensures Map(f, [x] + s) == [f(x)] + Map(f, s)
    ensures multiset([x] + s) == multiset(s) + multiset{x}
  {
    assert ([x] + s)[1..] == s;
  }

  lemma {:induction false} TextsArePieces(keys: seq<string>, q: Qualifiers) returns (ps: seq<seq<Piece>>)
    requires forall k :: k in keys ==> k in q
    ensures Lists(ps, keys, q) && TextsOf(keys, q) == Map(Text, Concat(ps))
  {
    if keys == [] { return []; }
    var pieces := Pieces(keys[0], q[keys[0]]);
    var first := Rearranged(Text, pieces, Formatted(keys[0], q[keys[0]]));
    var rest := TextsArePieces(keys[1..], q);
    ps := [first] + rest;
    assert ps[1..] == rest;
    MapAppend(Text, first, Concat(rest));
  }

  /** Keywords in brackets, so that their operators stay among themselves. */
  function Framing(words: string, pieces: string): string {
    if words != "" && pieces != "" then "( " + words + " ) " + pieces else words + pieces
  }

  lemma StringIsFraming(immutable: string, keywords: seq<string>, keys: seq<string>, q: Qualifiers)
    requires forall k :: k in keys ==> k in q
    ensures AdvancedString(immutable, keywords, keys, q) ==
            Framing(KeywordsText(immutable, keywords), Join(QualifierTexts(keys, q), " "))
  {
    var words := KeywordsText(immutable, keywords);
    assert words + "" == words;
  }

  /** The query string is the text of the keywords and of all the qualifiers' pieces: the keywords in
      brackets when there is both. */
  lemma QueryStringIsOfPieces(immutable: string, keywords: seq<string>, keys: seq<string>, q: Qualifiers)
    returns (ps: seq<seq<Piece>>)
    requires Iterates(keys, q)
    ensures Iterates(Sort(keys), q) && Lists(ps, Sort(keys), q)
    ensures AdvancedString(immutable, keywords, keys, q) ==
            Framing(KeywordsText(immutable, keywords), Join(Map(Text, Concat(ps)), " "))
  {
    SortKeeps(keys, q);
    SortIterates(keys, q);
    StringIsFraming(immutable, keywords, keys, q);
    ps := TextsArePieces(Sort(keys), q);
  }

  lemma SortIterates(keys: seq<string>, q: Qualifiers)
    requires Iterates(keys, q)
    ensures Iterates(Sort(keys), q)
  {
    var sorted := Sort(keys);
    forall k
      ensures k in sorted <==> k in keys
    {
      assert k in sorted <==> k in multiset(sorted);
      assert k in keys <==> k in multiset(keys);
    }
    forall i, j | 0 <= i < j < |sorted|
      ensures sorted[i] != sorted[j]
    {
      OnceInDistinct(keys, sorted[i]);
      TwiceInMultiset(sorted, i, j);
    }
  }

  lemma TwiceInMultiset(s: seq<string>, i: nat, j: nat)
    requires i < j < |s|
    ensures s[i] == s[j] ==> multiset(s)[s[i]] >= 2
  {
    assert s == s[..i] + [s[i]] + s[i + 1..j] + [s[j]] + s[j + 1..];
  }

  lemma QualifierTextsAreOrderFree(a: seq<string>, b: seq<string>, q: Qualifiers, r: Qualifiers)
    requires q.Keys == r.Keys && Iterates(a, q) && Iterates(b, r)
    requires forall k :: k in q ==> multiset(q[k]) == multiset(r[k])
    ensures QualifierTexts(a, q) == QualifierTexts(b, r)
  {
    IterationsPermute(a, b, q);
    SortIsOrderFree(a, b);
    SortKeeps(a, q);
    TextsAreOrderFree(Sort(a), q, r);
  }

  /** Neither the iteration order of the map nor the order of any qualifier's values shows in the query. */
  lemma AdvancedStringIsOrderFree(
      immutable: string, keywords: seq<string>, a: seq<string>, b: seq<string>, q: Qualifiers, r: Qualifiers)
    requires q.Keys == r.Keys && Iterates(a, q) && Iterates(b, r)
    requires forall k :: k in q ==> multiset(q[k]) == multiset(r[k])
    ensures AdvancedString(immutable, keywords, a, q) == AdvancedString(immutable, keywords, b, r)
  {
    QualifierTextsAreOrderFree(a, b, q, r);
    StringIsFraming(immutable, keywords, a, q);
    StringIsFraming(immutable, keywords, b, r);
  }
}
