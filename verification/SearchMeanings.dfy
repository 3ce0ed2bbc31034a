/**
 * What an advanced search query means, read from the string that is sent.
 *
 * The grammar: a query is one or more conjunctions separated by "OR", a conjunction is a row of words and
 * bracketed queries.
 */
module SearchMeanings {
  import opened Wrappers
  import opened Strings
  import opened Ordering
  import opened SearchQueries
  import opened SearchTokens

  /** Which words hold of an item. */
  type Holds = string -> bool

  /** A value read, and the tokens behind it. */
  datatype Reading = Reading(value: bool, rest: seq<Token>)

  /** Reading on, with the alternatives `earlier` already closed and the conjunction `now` under way, up to
      the end or a closing bracket; None when a bracket stays open. */
  function Read(tokens: seq<Token>, earlier: bool, now: bool, holds: Holds): (r: Option<Reading>)
    ensures r.Some? ==> |r.value.rest| <= |tokens| && (r.value.rest == [] || r.value.rest[0].Close?)
    decreases |tokens|
  {
    if tokens == [] || tokens[0].Close? then Some(Reading(earlier || now, tokens))
    else if tokens[0].Term? then Read(tokens[1..], earlier, now && holds(tokens[0].text), holds)
    else if tokens[0].Or? then Read(tokens[1..], earlier || now, true, holds)
    else
      var inner := Read(tokens[1..], false, true, holds);
      if inner.None? || inner.value.rest == [] then None
      else Read(inner.value.rest[1..], earlier, now && inner.value.value, holds)
  }

  /** The value of a whole query; None when its brackets do not match. */
  function Meaning(tokens: seq<Token>, holds: Holds): Option<bool> {
    var r := Read(tokens, false, true, holds);
    if r.Some? && r.value.rest == [] then Some(r.value.value) else None
  }

  /** Whether the brackets match, with `depth` of them open before. */
  predicate Closes(tokens: seq<Token>, depth: nat) {
    if tokens == [] then depth == 0
    else if tokens[0].Open? then Closes(tokens[1..], depth + 1)
    else if tokens[0].Close? then depth > 0 && Closes(tokens[1..], depth - 1)
    else Closes(tokens[1..], depth)
  }

  predicate Balanced(tokens: seq<Token>) {
    Closes(tokens, 0)
  }

  /** Whether the brackets match in what a reading leaves, at the depth it was read at. */
  predicate LeavesClosing(r: Option<Reading>, depth: nat) {
    && r.Some?
    && if r.value.rest == [] then depth == 0 else depth > 0 && Closes(r.value.rest[1..], depth - 1)
  }

  lemma {:induction false} ReadingCloses(tokens: seq<Token>, earlier: bool, now: bool, holds: Holds, depth: nat)
    ensures Closes(tokens, depth) <==> LeavesClosing(Read(tokens, earlier, now, holds), depth)
    decreases |tokens|
  {
    if tokens != [] && !tokens[0].Close? {
      var behind := tokens[1..];
      if tokens[0].Term? {
        ReadingCloses(behind, earlier, now && holds(tokens[0].text), holds, depth);
      } else if tokens[0].Or? {
        ReadingCloses(behind, earlier || now, true, holds, depth);
      } else {
        var inner := Read(behind, false, true, holds);
        ReadingCloses(behind, false, true, holds, depth + 1);
        if inner.Some? && inner.value.rest != [] {
          ReadingCloses(inner.value.rest[1..], earlier, now && inner.value.value, holds, depth);
        }
      }
    }
  }

  /** A query has a meaning if and only if its brackets match. */
  lemma MeaningIffBalanced(tokens: seq<Token>, holds: Holds)
    ensures Meaning(tokens, holds).Some? <==> Balanced(tokens)
  {
    ReadingCloses(tokens, false, true, holds, 0);
  }

  // ---------------------------------------------------------------- pieces mean disjunctions

  ghost predicate Either(p: Piece, holds: Holds) {
    exists w :: w in p && holds(w)
  }

  ghost predicate All(ps: seq<Piece>, holds: Holds) {
    forall p :: p in ps ==> Either(p, holds)
  }

  /** Reading stops at a closing bracket, so what is read before it may be read in front of anything. */
  lemma {:induction false} ReadBefore(tokens: seq<Token>, earlier: bool, now: bool, holds: Holds, more: seq<Token>)
    requires Read(tokens, earlier, now, holds).Some? && (more == [] || more[0].Close?)
    ensures var r := Read(tokens, earlier, now, holds).value;
            Read(tokens + more, earlier, now, holds) == Some(Reading(r.value, r.rest + more))
    decreases |tokens|, 1
  {
    if tokens == [] {
      assert tokens + more == more && [] + more == more;
    } else if !tokens[0].Close? {
      var behind := tokens[1..];
      assert (tokens + more)[1..] == behind + more && (tokens + more)[0] == tokens[0];
      if tokens[0].Term? {
        ReadBefore(behind, earlier, now && holds(tokens[0].text), holds, more);
      } else if tokens[0].Or? {
        ReadBefore(behind, earlier || now, true, holds, more);
      } else {
        ReadBefore(behind, false, true, holds, more);
        BracketBefore(behind, earlier, now, holds, more);
      }
    }
  }

  /** The step of `ReadBefore` over a bracketed query. */
  lemma {:induction false} BracketBefore(behind: seq<Token>, earlier: bool, now: bool, holds: Holds, more: seq<Token>)
    requires var inner := Read(behind, false, true, holds);
             && inner.Some? && inner.value.rest != []
             && Read(inner.value.rest[1..], earlier, now && inner.value.value, holds).Some?
             && Read(behind + more, false, true, holds) == Some(Reading(inner.value.value, inner.value.rest + more))
    requires more == [] || more[0].Close?
    ensures var inner := Read(behind, false, true, holds).value;
            var r := Read(inner.rest[1..], earlier, now && inner.value, holds).value;
            && inner.rest + more != [] && (inner.rest + more)[1..] == inner.rest[1..] + more
            && Read(inner.rest[1..] + more, earlier, now && inner.value, holds) == Some(Reading(r.value, r.rest + more))
    decreases |behind|, 0
  {
    var inner := Read(behind, false, true, holds).value;
    assert (inner.rest + more)[1..] == inner.rest[1..] + more;
    ReadBefore(inner.rest[1..], earlier, now && inner.value, holds, more);
  }

  /** A bracketed balanced query stands for its value. */
  lemma ReadBracketed(inner: seq<Token>, rest: seq<Token>, earlier: bool, now: bool, holds: Holds)
    requires Meaning(inner, holds).Some?
    ensures Read([Open] + inner + [Close] + rest, earlier, now, holds) ==
            Read(rest, earlier, now && Meaning(inner, holds).value, holds)
  {
    var tokens := [Open] + inner + [Close] + rest;
    assert tokens[1..] == inner + ([Close] + rest);
    ReadBefore(inner, false, true, holds, [Close] + rest);
    assert [] + ([Close] + rest) == [Close] + rest && ([Close] + rest)[1..] == rest;
  }

  lemma {:induction false} ReadAlternatives(p: Piece, earlier: bool, holds: Holds)
    requires p != []
    ensures Read(Alternatives(p), earlier, true, holds) == Some(Reading(earlier || Either(p, holds), []))
    decreases |p|
  {
    var tokens := Alternatives(p);
    if |p| == 1 {
      assert tokens[1..] == [];
      assert Either(p, holds) <==> holds(p[0]);
    } else {
      assert tokens[1..][1..] == Alternatives(p[1..]) && tokens[1..][0] == Or;
      ReadAlternatives(p[1..], earlier || holds(p[0]), holds);
      assert Either(p, holds) <==> holds(p[0]) || Either(p[1..], holds);
    }
  }

  lemma ReadPiece(p: Piece, rest: seq<Token>, earlier: bool, now: bool, holds: Holds)
    requires p != []
    ensures Read(PieceTokens(p) + rest, earlier, now, holds) == Read(rest, earlier, now && Either(p, holds), holds)
  {
    if |p| == 1 {
      assert (PieceTokens(p) + rest)[1..] == rest;
      assert Either(p, holds) <==> holds(p[0]);
    } else {
      ReadAlternatives(p, false, holds);
      ReadBracketed(Alternatives(p), rest, earlier, now, holds);
    }
  }

  lemma {:induction false} ReadPieces(ps: seq<Piece>, earlier: bool, now: bool, holds: Holds)
    requires Solid(ps)
    ensures Read(PiecesTokens(ps), earlier, now, holds) == Some(Reading(earlier || (now && All(ps, holds)), []))
    decreases |ps|
  {
    if ps != [] {
      ReadPiece(ps[0], PiecesTokens(ps[1..]), earlier, now, holds);
      ReadPieces(ps[1..], earlier, now && Either(ps[0], holds), holds);
      assert forall p :: p in ps <==> p == ps[0] || p in ps[1..];
    }
  }

  /** What the keywords mean; nothing is asked for without any. */
  function KeywordsMeaning(keywords: Option<seq<Token>>, holds: Holds): Option<bool> {
    if keywords.None? then Some(true) else Meaning(keywords.value, holds)
  }

  /** The keywords, whatever "OR"s are in them, and all the pieces. */
  lemma QueryMeans(keywords: Option<seq<Token>>, ps: seq<Piece>, holds: Holds)
    requires Solid(ps) && KeywordsMeaning(keywords, holds).Some?
    ensures Meaning(QueryTokens(keywords, ps), holds) == Some(KeywordsMeaning(keywords, holds).value && All(ps, holds))
  {
    ReadPieces(ps, false, true, holds);
    if keywords.Some? && ps != [] {
      ReadBracketed(keywords.value, PiecesTokens(ps), false, true, holds);
      ReadPieces(ps, false, Meaning(keywords.value, holds).value, holds);
    }
  }

  /** Without the brackets an "OR" among the keywords would leak: this query and the bracketed one differ. */
  lemma BracketsMatter() returns (keywords: seq<Token>, ps: seq<Piece>, holds: Holds)
    ensures ps == [["q"]] && Balanced(keywords)
    ensures Meaning(keywords + PiecesTokens(ps), holds) != Meaning(QueryTokens(Some(keywords), ps), holds)
  {
    keywords, ps := [Term("a"), Or, Term("b")], [["q"]];
    holds := (w: string) => w == "a";
    assert holds("a") && !holds("b") && !holds("q");
    var tail := [Term("b"), Term("q")];
    var flat := keywords + PiecesTokens(ps);
    assert PiecesTokens(ps) == [Term("q")];
    assert flat[1..][1..] == tail && tail[1..] == [Term("q")] && [Term("q")][1..] == [];
    assert Read(tail, true, true, holds) == Read([Term("q")], true, false, holds) == Some(Reading(true, []));
    assert flat[0] == Term("a") && flat[1..][0] == Or;
    assert Read(flat, false, true, holds) == Read(flat[1..], false, true, holds) == Read(tail, true, true, holds);
    assert Meaning(flat, holds) == Some(true);
    assert keywords[1..][1..] == [Term("b")] && [Term("b")][1..] == [];
    assert Read([Term("b")], true, true, holds) == Some(Reading(true, []));
    MeaningIffBalanced(keywords, holds);
    QueryMeans(Some(keywords), ps, holds);
    assert ["q"] in ps && !Either(["q"], holds);
  }

  // ---------------------------------------------------------------- what the qualifiers mean

  ghost predicate AnyOf(k: string, vs: seq<string>, holds: Holds) {
    exists v :: v in vs && holds(Word(k)(v))
  }

  ghost predicate AllOf(k: string, vs: seq<string>, holds: Holds) {
    forall v :: v in vs ==> holds(Word(k)(v))
  }

  ghost predicate HasMember(groups: seq<set<string>>, vs: seq<string>, i: nat) {
    exists v :: v in vs && GroupOf(groups, v) == i
  }

  ghost predicate MemberHolds(k: string, groups: seq<set<string>>, vs: seq<string>, i: nat, holds: Holds) {
    exists v :: v in vs && GroupOf(groups, v) == i && holds(Word(k)(v))
  }

  ghost predicate GroupHolds(k: string, groups: seq<set<string>>, vs: seq<string>, i: nat, holds: Holds) {
    HasMember(groups, vs, i) ==> MemberHolds(k, groups, vs, i, holds)
  }

  ghost predicate GroupsHold(k: string, groups: seq<set<string>>, vs: seq<string>, n: nat, holds: Holds) {
    forall i :: 0 <= i < n ==> GroupHolds(k, groups, vs, i, holds)
  }

  ghost predicate OthersHold(k: string, groups: seq<set<string>>, vs: seq<string>, holds: Holds) {
    forall v :: v in vs && GroupOf(groups, v) == |groups| ==> holds(Word(k)(v))
  }

  /** Of the values in a group one is enough; those in none must all hold. */
  ghost predicate SpecialHolds(k: string, vs: seq<string>, groups: seq<set<string>>, holds: Holds) {
    GroupsHold(k, groups, vs, |groups|, holds) && OthersHold(k, groups, vs, holds)
  }

  /** "user" and "repo" ask for one of their values, "in" and "is" for one of each group and all others,
      every other qualifier for all its values. */
  ghost predicate QualifierHolds(k: string, vs: seq<string>, holds: Holds) {
    if k == "in" then SpecialHolds(k, vs, IN_GROUPS, holds)
    else if k == "is" then SpecialHolds(k, vs, IS_GROUPS, holds)
    else if k == "user" || k == "repo" then vs == [] || AnyOf(k, vs, holds)
    else AllOf(k, vs, holds)
  }

  lemma {:induction false} InMap<T, U>(f: T -> U, s: seq<T>, y: U)
    ensures y in Map(f, s) <==> exists x :: x in s && f(x) == y
  {
    if s != [] {
      InMap(f, s[1..], y);
      assert forall x :: x in s <==> x == s[0] || x in s[1..];
    }
  }

  lemma {:induction false} InFilter(p: string -> bool, s: seq<string>, x: string)
    ensures x in Filter(p, s) <==> x in s && p(x)
  {
    if s != [] { InFilter(p, s[1..], x); }
  }

  lemma GroupPieceMeans(k: string, vs: seq<string>, holds: Holds)
    requires vs != []
    ensures Either(GroupPiece(k, vs), holds) <==> AnyOf(k, vs, holds)
    ensures GroupPiece(k, vs) != []
  {
    var words := Map(Word(k), vs);
    MapAt(Word(k), vs);
    assert forall w :: w in words <==> w in multiset(words);
    assert forall w :: w in Sort(words) <==> w in multiset(Sort(words));
    forall v | v in vs
      ensures Word(k)(v) in words
    {
      InMap(Word(k), vs, Word(k)(v));
    }
    if Either(GroupPiece(k, vs), holds) {
      var w :| w in words && holds(w);
      InMap(Word(k), vs, w);
    }
  }

  lemma AllFirst(p: Piece, ps: seq<Piece>, holds: Holds)
    ensures All([p] + ps, holds) <==> Either(p, holds) && All(ps, holds)
    ensures Solid([p] + ps) <==> p != [] && Solid(ps)
  {
    assert forall x :: x in [p] + ps <==> x == p || x in ps;
    assert ([p] + ps)[0] == p && forall i :: 0 <= i < |ps| ==> ([p] + ps)[i + 1] == ps[i];
  }

  lemma {:induction false} SinglesMean(k: string, vs: seq<string>, holds: Holds)
    ensures All(Singles(k, vs), holds) <==> AllOf(k, vs, holds)
    ensures Solid(Singles(k, vs))
  {
    if vs != [] {
      var w := Word(k)(vs[0]);
      SinglesMean(k, vs[1..], holds);
      AllFirst([w], Singles(k, vs[1..]), holds);
      SinglesFirst(k, vs);
      assert Either([w], holds) <==> holds(w) by { assert forall x :: x in [w] <==> x == w; }
      AllOfFirst(k, vs, holds);
    }
  }

  lemma SinglesFirst(k: string, vs: seq<string>)
    requires vs != []
    ensures Singles(k, vs) == [[Word(k)(vs[0])]] + Singles(k, vs[1..])
  {
    var words := Map(Word(k), vs);
    assert words[1..] == Map(Word(k), vs[1..]);
  }

  lemma AllOfFirst(k: string, vs: seq<string>, holds: Holds)
    requires vs != []
    ensures AllOf(k, vs, holds) <==> holds(Word(k)(vs[0])) && AllOf(k, vs[1..], holds)
  {
    assert forall v :: v in vs <==> v == vs[0] || v in vs[1..];
  }

  lemma InMembers(groups: seq<set<string>>, vs: seq<string>, i: nat)
    ensures forall v :: v in Members(groups, vs, i) <==> v in vs && GroupOf(groups, v) == i
  {
    forall v
      ensures v in Members(groups, vs, i) <==> v in vs && GroupOf(groups, v) == i
    {
      InFilter(InGroup(groups, i), vs, v);
    }
  }

  lemma GroupMeans(k: string, groups: seq<set<string>>, vs: seq<string>, i: nat, holds: Holds)
    ensures All(GroupPiecesOf(k, Members(groups, vs, i)), holds) <==> GroupHolds(k, groups, vs, i, holds)
    ensures Solid(GroupPiecesOf(k, Members(groups, vs, i)))
  {
    var members := Members(groups, vs, i);
    InMembers(groups, vs, i);
    if members == [] {
      assert forall v :: v !in members;
    } else {
      assert members[0] in members;
      GroupPieceMeans(k, members, holds);
      assert GroupPiece(k, members) in GroupPiecesOf(k, members);
    }
  }

  lemma AllAppend(a: seq<Piece>, b: seq<Piece>, holds: Holds)
    ensures All(a + b, holds) <==> All(a, holds) && All(b, holds)
    ensures Solid(a + b) <==> Solid(a) && Solid(b)
  {
    InAppended(a, b);
    SolidMeans(a);
    SolidMeans(b);
    SolidMeans(a + b);
  }

  lemma InAppended(a: seq<Piece>, b: seq<Piece>)
    ensures forall p :: p in a + b <==> p in a || p in b
  {
  }

  lemma SolidMeans(ps: seq<Piece>)
    ensures Solid(ps) <==> [] !in ps
  {
  }

  lemma {:induction false} CollectedMeans(pieces: nat -> seq<Piece>, good: nat -> bool, n: nat, holds: Holds)
    requires forall i :: 0 <= i < n ==> Solid(pieces(i)) && (All(pieces(i), holds) <==> good(i))
    ensures All(Collected(pieces, n), holds) <==> forall i :: 0 <= i < n ==> good(i)
    ensures Solid(Collected(pieces, n))
  {
    if n > 0 {
      CollectedMeans(pieces, good, n - 1, holds);
      AllAppend(Collected(pieces, n - 1), pieces(n - 1), holds);
    }
  }

  lemma GroupsMean(k: string, groups: seq<set<string>>, vs: seq<string>, holds: Holds)
    ensures All(GroupPieces(k, vs, groups), holds) <==> GroupsHold(k, groups, vs, |groups|, holds)
    ensures Solid(GroupPieces(k, vs, groups))
  {
    ghost var good := (i: nat) => GroupHolds(k, groups, vs, i, holds);
    var pieces := PieceAt(k, vs, groups);
    forall i: nat
      ensures Solid(pieces(i)) && (All(pieces(i), holds) <==> good(i))
    {
      GroupMeans(k, groups, vs, i, holds);
    }
    CollectedMeans(pieces, good, |groups|, holds);
    GoodGroups(k, groups, vs, holds, good);
  }

  lemma GoodGroups(k: string, groups: seq<set<string>>, vs: seq<string>, holds: Holds, good: nat -> bool)
    requires forall i: nat :: good(i) <==> GroupHolds(k, groups, vs, i, holds)
    ensures GroupsHold(k, groups, vs, |groups|, holds) <==> forall i :: 0 <= i < |groups| ==> good(i)
  {
    forall i | 0 <= i < |groups|
      ensures good(i) <==> GroupHolds(k, groups, vs, i, holds)
    {
    }
  }

  lemma SpecialMeans(k: string, vs: seq<string>, groups: seq<set<string>>, holds: Holds)
    ensures All(SpecialPieces(k, vs, groups), holds) <==> SpecialHolds(k, vs, groups, holds)
    ensures Solid(SpecialPieces(k, vs, groups))
  {
    var rest := Members(groups, vs, |groups|);
    GroupsMean(k, groups, vs, holds);
    SinglesMean(k, rest, holds);
    AllAppend(GroupPieces(k, vs, groups), Singles(k, rest), holds);
    OthersMean(k, groups, vs, rest, holds);
  }

  lemma OthersMean(k: string, groups: seq<set<string>>, vs: seq<string>, rest: seq<string>, holds: Holds)
    requires rest == Members(groups, vs, |groups|)
    ensures AllOf(k, rest, holds) <==> OthersHold(k, groups, vs, holds)
  {
    InMembers(groups, vs, |groups|);
  }

  /** The pieces of a qualifier mean what the qualifier asks for. */
  lemma PiecesMean(k: string, vs: seq<string>, holds: Holds)
    ensures All(Pieces(k, vs), holds) <==> QualifierHolds(k, vs, holds)
    ensures Solid(Pieces(k, vs))
  {
    if k == "in" {
      SpecialMeans(k, vs, IN_GROUPS, holds);
    } else if k == "is" {
      SpecialMeans(k, vs, IS_GROUPS, holds);
    } else if k == "user" || k == "repo" {
      if vs != [] {
        GroupPieceMeans(k, vs, holds);
        assert GroupPiece(k, vs) in GroupPiecesOf(k, vs);
      }
    } else {
      SinglesMean(k, vs, holds);
    }
  }

  // ---------------------------------------------------------------- main result

  ghost predicate AllHold(keys: seq<string>, q: Qualifiers, holds: Holds)
    requires forall k :: k in keys ==> k in q
  {
    forall k :: k in keys ==> QualifierHolds(k, q[k], holds)
  }

  lemma {:induction false} ListedMean(ps: seq<seq<Piece>>, keys: seq<string>, q: Qualifiers, holds: Holds)
    requires (forall k :: k in keys ==> k in q) && Lists(ps, keys, q)
    ensures All(Concat(ps), holds) <==> AllHold(keys, q, holds)
    ensures Solid(Concat(ps))
    decreases |ps|
  {
    if ps != [] {
      var k := keys[0];
      PiecesMean(k, q[k], holds);
      SameAll(ps[0], Pieces(k, q[k]), holds);
      ListedMean(ps[1..], keys[1..], q, holds);
      AllAppend(ps[0], Concat(ps[1..]), holds);
      AllHoldStep(keys, q, holds);
    }
  }

  lemma AllHoldStep(keys: seq<string>, q: Qualifiers, holds: Holds)
    requires keys != [] && forall k :: k in keys ==> k in q
    ensures AllHold(keys, q, holds) <==> QualifierHolds(keys[0], q[keys[0]], holds) && AllHold(keys[1..], q, holds)
  {
    assert forall j :: j in keys <==> j == keys[0] || j in keys[1..];
  }

  lemma SameAll(a: seq<Piece>, b: seq<Piece>, holds: Holds)
    requires multiset(a) == multiset(b)
    ensures All(a, holds) <==> All(b, holds)
    ensures Solid(a) <==> Solid(b)
  {
    forall p
      ensures p in a <==> p in b
    {
      assert p in a <==> p in multiset(a);
      assert p in b <==> p in multiset(b);
    }
    SolidMeans(a);
    SolidMeans(b);
  }

  /** The query holds of an item exactly when its keywords do, whatever "OR"s they contain, and every
      qualifier does. */
  lemma AdvancedQueryMeans(
      keywords: Option<seq<Token>>, ps: seq<seq<Piece>>, keys: seq<string>, q: Qualifiers, holds: Holds)
    requires Iterates(keys, q) && Lists(ps, keys, q) && KeywordsMeaning(keywords, holds).Some?
    ensures Solid(Concat(ps))
    ensures Meaning(QueryTokens(keywords, Concat(ps)), holds) ==
            Some(KeywordsMeaning(keywords, holds).value && forall k :: k in q ==> QualifierHolds(k, q[k], holds))
  {
    ListedMean(ps, keys, q, holds);
    QueryMeans(keywords, Concat(ps), holds);
    assert AllHold(keys, q, holds) <==> forall k :: k in q ==> QualifierHolds(k, q[k], holds);
  }

  /** The tokens of the keywords' text, if there is any text. */
  function KeywordTokens(immutable: string, keywords: seq<string>): Option<seq<Token>> {
    var words := KeywordsText(immutable, keywords);
    if words == "" then None else Lex(words)
  }

  /** The string that is sent is cut into the keywords' own tokens and those of all the qualifiers' pieces
      if and only if no value has a bracket without being put in quotes. */
  lemma AdvancedStringLexes(immutable: string, keywords: seq<string>, keys: seq<string>, q: Qualifiers)
    returns (ps: seq<seq<Piece>>)
    requires Iterates(keys, q) && PlainKeys(q) && Lex(KeywordsText(immutable, keywords)).Some?
    ensures Iterates(Sort(keys), q) && Lists(ps, Sort(keys), q) && Solid(Concat(ps))
    ensures Lex(AdvancedString(immutable, keywords, keys, q)).Some?
    ensures AllUnbroken(q) <==>
            Lex(AdvancedString(immutable, keywords, keys, q)) ==
            Some(QueryTokens(KeywordTokens(immutable, keywords), Concat(ps)))
  {
    ps := QueryStringIsOfPieces(immutable, keywords, keys, q);
    ListedMean(ps, Sort(keys), q, (w: string) => true);
    ListedLex(ps, Sort(keys), q);
    LexFraming(KeywordsText(immutable, keywords), Join(Map(Text, Concat(ps)), " "));
    var tokens := PiecesTokens(Concat(ps));
    FramedTellsApart(KeywordTokens(immutable, keywords), Reread(tokens), tokens);
  }

  /** What a query asks for: what its keywords do, and every qualifier. */
  ghost predicate Wanted(immutable: string, keywords: seq<string>, q: Qualifiers, holds: Holds)
    requires KeywordsMeaning(KeywordTokens(immutable, keywords), holds).Some?
  {
    && KeywordsMeaning(KeywordTokens(immutable, keywords), holds).value
    && forall k :: k in q ==> QualifierHolds(k, q[k], holds)
  }

  ghost predicate BalancedKeywords(immutable: string, keywords: seq<string>) {
    var tokens := Lex(KeywordsText(immutable, keywords));
    tokens.Some? && Balanced(tokens.value)
  }

  lemma KeywordsHaveMeaning(immutable: string, keywords: seq<string>, holds: Holds)
    requires BalancedKeywords(immutable, keywords)
    ensures KeywordsMeaning(KeywordTokens(immutable, keywords), holds).Some?
  {
    MeaningIffBalanced(Lexed(KeywordsText(immutable, keywords)), holds);
  }

  /** What the string that is sent means. */
  lemma AdvancedStringMeans(immutable: string, keywords: seq<string>, keys: seq<string>, q: Qualifiers, holds: Holds)
    requires Iterates(keys, q) && PlainKeys(q) && BalancedKeywords(immutable, keywords) && AllUnbroken(q)
    ensures Lex(AdvancedString(immutable, keywords, keys, q)).Some?
    ensures KeywordsMeaning(KeywordTokens(immutable, keywords), holds).Some?
    ensures Meaning(Lex(AdvancedString(immutable, keywords, keys, q)).value, holds) ==
            Some(Wanted(immutable, keywords, q, holds))
  {
    KeywordsHaveMeaning(immutable, keywords, holds);
    var ps := AdvancedStringLexes(immutable, keywords, keys, q);
    AdvancedQueryMeans(KeywordTokens(immutable, keywords), ps, Sort(keys), q, holds);
  }

  // ---------------------------------------------------------------- keywords given one by one

  /** A keyword with a colon is printed as the word of a qualifier. */
  lemma KeywordIsWord(k: string, v: string)
    requires ':' !in k
    ensures KeywordText(k + ":" + v) == Word(k)(v)
  {
    var keyword := k + ":" + v;
    var c := Colon(keyword);
    assert keyword[|k|] == ':';
    assert forall i :: 0 <= i < |k| ==> keyword[i] == k[i] && keyword[i] in k;
    assert forall i :: 0 <= i < c ==> keyword[i] == keyword[..c][i];
    assert keyword[..c] == k && keyword[c + 1..] == v;
  }

  lemma EndOfQuote(v: string)
    requires v != "" && v != "OR"
    ensures Ended(Grown(START, Quote(v), Bare)) == Some([Term(Quote(v))])
  {
    var w := Quote(v);
    if NeedsQuotes(v) { assert w[0] == '"' && "OR"[0] == 'O'; }
    assert "" + w == w && [] + TokenOf(w) == TokenOf(w);
  }

  /** A keyword without one is one token if and only if it is put in quotes or has no bracket, and is neither
      empty nor the operator. */
  lemma KeywordIsOneTokenIff(v: string)
    requires ':' !in v
    ensures OneToken(KeywordText(v)) <==> Unbroken(v) && v != "" && v != "OR"
  {
    if v == "" {
      LexNothing();
    } else if v == "OR" {
      LexOrAlone();
    } else if Unbroken(v) {
      RunUnbroken(START, v);
      EndOfQuote(v);
    } else {
      assert '"' !in v;
      RunUnquoted(START, v);
      BracketsCount(v);
      EndBrackets(Run(START, v));
      if OneToken(v) { OneTokenHasNoBrackets(v); }
    }
  }

  function KeywordTerm(keyword: string): Token {
    Term(KeywordText(keyword))
  }

  /** Keywords that are one token each are cut apart again as they were given. */
  lemma {:induction false} KeywordsLex(keywords: seq<string>)
    requires forall k :: k in keywords ==> OneToken(KeywordText(k))
    ensures Lex(KeywordsText("", keywords)) == Some(Map(KeywordTerm, keywords))
    decreases |keywords|
  {
    if keywords == [] {
      LexNothing();
    } else {
      assert keywords[0] in keywords;
      KeywordsLex(keywords[1..]);
      KeywordsJoin(keywords);
      if |keywords| > 1 { LexSpaced(KeywordText(keywords[0]), KeywordsText("", keywords[1..])); }
    }
  }

  lemma KeywordsJoin(keywords: seq<string>)
    requires keywords != []
    ensures KeywordsText("", keywords) ==
            if |keywords| == 1 then KeywordText(keywords[0])
            else KeywordText(keywords[0]) + " " + KeywordsText("", keywords[1..])
    ensures |keywords| == 1 ==> Map(KeywordTerm, keywords) == [KeywordTerm(keywords[0])]
  {
    MapAt(KeywordText, keywords);
    MapAt(KeywordTerm, keywords);
    assert Map(KeywordText, keywords)[1..] == Map(KeywordText, keywords[1..]);
  }

  lemma {:induction false} ReadTerms(keywords: seq<string>, now: bool, holds: Holds)
    ensures Read(Map(KeywordTerm, keywords), false, now, holds) ==
            Some(Reading(now && forall k :: k in keywords ==> holds(KeywordText(k)), []))
    decreases |keywords|
  {
    if keywords != [] {
      var tokens := Map(KeywordTerm, keywords);
      assert tokens[1..] == Map(KeywordTerm, keywords[1..]);
      ReadTerms(keywords[1..], now && holds(KeywordText(keywords[0])), holds);
      assert forall k :: k in keywords <==> k == keywords[0] || k in keywords[1..];
    }
  }

  /** Such keywords, given one by one, are all asked for. */
  lemma KeywordsMean(keywords: seq<string>, holds: Holds)
    requires forall k :: k in keywords ==> OneToken(KeywordText(k))
    ensures BalancedKeywords("", keywords)
    ensures KeywordsMeaning(KeywordTokens("", keywords), holds) ==
            Some(forall k :: k in keywords ==> holds(KeywordText(k)))
  {
    KeywordsLex(keywords);
    ReadTerms(keywords, true, holds);
    MeaningIffBalanced(Map(KeywordTerm, keywords), holds);
    if KeywordsText("", keywords) == "" && keywords != [] { NoEmptyText(keywords); }
  }

  lemma NoEmptyText(keywords: seq<string>)
    requires keywords != [] && forall k :: k in keywords ==> OneToken(KeywordText(k))
    ensures KeywordsText("", keywords) != ""
  {
    KeywordsLex(keywords);
    MapAt(KeywordTerm, keywords);
    LexNothing();
  }

  // ---------------------------------------------------------------- broken values and keywords

  /** When every term holds, so does whatever has a meaning. */
  lemma {:induction false} ReadAllTrue(tokens: seq<Token>, earlier: bool, now: bool, holds: Holds)
    requires EveryTerm(tokens, holds) && Read(tokens, earlier, now, holds).Some?
    ensures EveryTerm(Read(tokens, earlier, now, holds).value.rest, holds)
    ensures now ==> Read(tokens, earlier, now, holds).value.value
    decreases |tokens|
  {
    if tokens != [] && !tokens[0].Close? {
      var behind := tokens[1..];
      if tokens[0].Term? {
        assert tokens[0] in tokens;
        ReadAllTrue(behind, earlier, now && holds(tokens[0].text), holds);
      } else if tokens[0].Or? {
        ReadAllTrue(behind, earlier || now, true, holds);
      } else {
        var inner := Read(behind, false, true, holds).value;
        ReadAllTrue(behind, false, true, holds);
        ReadAllTrue(inner.rest[1..], earlier, now && inner.value, holds);
      }
    }
  }

  /** Everything but one word. */
  function AllBut(w: string): Holds {
    (t: string) => t != w
  }

  /** A torn word is no term of any text. */
  lemma NeverATerm(t: string, w: string)
    requires Lex(t).Some? && !OneToken(w)
    ensures EveryTerm(Lex(t).value, AllBut(w))
  {
    LexIsStable(t);
  }

  predicate Lower(v: string) {
    forall i :: 0 <= i < |v| ==> 'a' <= v[i] <= 'z'
  }

  lemma GroupNamesAreLower()
    ensures Lower("title") && Lower("body") && Lower("comments")
    ensures Lower("blocked") && Lower("blocking") && Lower("closed") && Lower("open") && Lower("issue") && Lower("pr")
    ensures Lower("locked") && Lower("unlocked") && Lower("merged") && Lower("unmerged")
    ensures Lower("private") && Lower("public")
  {
  }

  lemma GroupedIsLower(v: string)
    ensures GroupOf(IN_GROUPS, v) < |IN_GROUPS| ==> Lower(v)
    ensures GroupOf(IS_GROUPS, v) < |IS_GROUPS| ==> Lower(v)
  {
    GroupNamesAreLower();
    var i, j := GroupOf(IN_GROUPS, v), GroupOf(IS_GROUPS, v);
    assert i < |IN_GROUPS| ==> v in IN_GROUPS[i];
    assert j < |IS_GROUPS| ==> v in IS_GROUPS[j];
  }

  lemma LowerIsUnbroken(v: string)
    requires Lower(v)
    ensures Unbroken(v)
  {
  }

  /** A qualifier asks for each value that a bracket breaks, unless there are others to choose from. */
  lemma BrokenIsAskedFor(k: string, vs: seq<string>, v: string)
    requires v in vs && !Unbroken(v) && (k == "user" || k == "repo" ==> |vs| == 1)
    ensures !QualifierHolds(k, vs, AllBut(Word(k)(v)))
  {
    if k == "in" || k == "is" {
      GroupedIsLower(v);
      if Lower(v) { LowerIsUnbroken(v); }
    }
    assert !AllBut(Word(k)(v))(Word(k)(v));
  }

  /** Whether the string means what is asked for, whatever the words stand for. */
  ghost predicate MeansWanted(immutable: string, keywords: seq<string>, keys: seq<string>, q: Qualifiers)
    requires Iterates(keys, q)
  {
    var tokens := Lex(AdvancedString(immutable, keywords, keys, q));
    && tokens.Some?
    && forall holds: Holds ::
         && KeywordsMeaning(KeywordTokens(immutable, keywords), holds).Some?
         && Meaning(tokens.value, holds) == Some(Wanted(immutable, keywords, q, holds))
  }

  lemma BrokenValueShows(
      immutable: string, keywords: seq<string>, keys: seq<string>, q: Qualifiers, k: string, v: string)
    requires Iterates(keys, q) && k in q && v in q[k] && PlainText(k) && !Unbroken(v)
    requires k == "user" || k == "repo" ==> |q[k]| == 1
    ensures !MeansWanted(immutable, keywords, keys, q)
  {
    var holds, tokens := AllBut(Word(k)(v)), Lex(AdvancedString(immutable, keywords, keys, q));
    if MeansWanted(immutable, keywords, keys, q) {
      WordIsOneTokenIff(k, v);
      NeverATerm(AdvancedString(immutable, keywords, keys, q), Word(k)(v));
      BrokenIsAskedFor(k, q[k], v);
      assert Meaning(tokens.value, holds) == Some(Wanted(immutable, keywords, q, holds));
      ReadAllTrue(tokens.value, false, true, holds);
      assert false;
    }
  }

  /** With balanced keywords and no choice between broken users or repositories, the string means what is
      asked for if and only if no value has a bracket without being put in quotes. */
  lemma MeansWantedIff(immutable: string, keywords: seq<string>, keys: seq<string>, q: Qualifiers)
    requires Iterates(keys, q) && PlainKeys(q) && BalancedKeywords(immutable, keywords)
    requires forall k :: k in q && (k == "user" || k == "repo") && |q[k]| > 1 ==> forall v :: v in q[k] ==> Unbroken(v)
    ensures MeansWanted(immutable, keywords, keys, q) <==> AllUnbroken(q)
  {
    if AllUnbroken(q) {
      var ps := AdvancedStringLexes(immutable, keywords, keys, q);
      forall holds: Holds
        ensures KeywordsMeaning(KeywordTokens(immutable, keywords), holds).Some?
        ensures Meaning(Lex(AdvancedString(immutable, keywords, keys, q)).value, holds) ==
                Some(Wanted(immutable, keywords, q, holds))
      {
        AdvancedStringMeans(immutable, keywords, keys, q, holds);
      }
    } else {
      var k :| k in q && !forall v :: v in q[k] ==> Unbroken(v);
      var v :| v in q[k] && !Unbroken(v);
      BrokenValueShows(immutable, keywords, keys, q, k, v);
    }
  }

  /** The label "x)" is printed without quotes, and its bracket is read as one that closes. */
  lemma BracketBreaksLabel(holds: Holds)
    ensures !Unbroken("x)") && Lex(Word("label")("x)")) == Some([Term("label:x"), Close])
    ensures Meaning([Term("label:x"), Close], holds) == None
  {
    assert "x)"[1] == ')' && !NeedsQuotes("x)");
    TornAtTheEnd("label:x");
    assert Word("label")("x)") == "label:x" + [')'];
    assert [Term("label:x"), Close][1..] == [Close];
  }

  predicate IsWord(t: string) {
    PlainText(t) && t != "" && t != "OR"
  }

  lemma TornAtTheEnd(t: string)
    requires IsWord(t)
    ensures Lex(t + [')']) == Some([Term(t), Close])
  {
    LexNothing();
    LexWord(t);
    LexAround(t, ')', "");
    assert t + [')'] + "" == t + [')'] && [Term(t)] + [Close] + [] == [Term(t), Close];
  }

  /** Keywords with brackets that do not match can get out of those around them: with these, `a` alone is
      enough, whatever the qualifier's word `c`. */
  lemma UnbalancedKeywordsLeak(a: string, b: string, c: string, words: string, holds: Holds)
    requires IsWord(a) && IsWord(b) && IsWord(c) && words == a + " ) OR ( " + b && holds(a)
    ensures !BalancedKeywords(words, []) && Lex(Framing(words, c)).Some?
    ensures Meaning(Lex(Framing(words, c)).value, holds) == Some(true)
  {
    SplitLeak(a, b);
    LexLeak(a, b);
    LexWord(c);
    LeakIsUnbalanced(a, b);
    LexFraming(words, c);
    LeakMeans(a, b, c, holds);
  }

  lemma SplitLeak(a: string, b: string)
    ensures a + " ) OR ( " + b == a + " " + (")" + " " + ("OR" + " " + ("(" + " " + b)))
  {
  }

  lemma LexLeak(a: string, b: string)
    requires IsWord(a) && IsWord(b)
    ensures Lex(a + " " + (")" + " " + ("OR" + " " + ("(" + " " + b)))) == Some([Term(a), Close, Or, Open, Term(b)])
  {
    LexWord(a);
    LexWord(b);
    LexOpened(b);
    LexOrAlone();
    LexSpaced("OR", "(" + " " + b);
    LexClosed("OR" + " " + ("(" + " " + b));
    LexSpaced(a, ")" + " " + ("OR" + " " + ("(" + " " + b)));
    assert [Term(a)] + ([Close] + ([Or] + ([Open] + [Term(b)]))) == [Term(a), Close, Or, Open, Term(b)];
  }

  lemma LeakIsUnbalanced(a: string, b: string)
    ensures !Balanced([Term(a), Close, Or, Open, Term(b)])
  {
    var tokens := [Term(a), Close, Or, Open, Term(b)];
    assert tokens[0].Term? && tokens[1..][0] == Close;
    assert !Closes(tokens[1..], 0);
  }

  lemma LeakMeans(a: string, b: string, c: string, holds: Holds)
    requires holds(a)
    ensures Meaning([Open] + [Term(a), Close, Or, Open, Term(b)] + [Close] + [Term(c)], holds) == Some(true)
  {
    var tail := [Open] + [Term(b)] + [Close] + [Term(c)];
    MeansOneTerm(a, holds);
    MeansOneTerm(b, holds);
    ReadBracketed([Term(a)], [Or] + tail, false, true, holds);
    assert ([Or] + tail)[1..] == tail;
    ReadBracketed([Term(b)], [Term(c)], true, true, holds);
    ReadOneTerm(c, true, holds(b), holds);
    assert [Open] + [Term(a), Close, Or, Open, Term(b)] + [Close] + [Term(c)] ==
           [Open] + [Term(a)] + [Close] + ([Or] + tail);
  }

  lemma ReadOneTerm(w: string, earlier: bool, now: bool, holds: Holds)
    ensures Read([Term(w)], earlier, now, holds) == Some(Reading(earlier || (now && holds(w)), []))
  {
    assert [Term(w)][1..] == [];
    assert Read([], earlier, now && holds(w), holds) == Some(Reading(earlier || (now && holds(w)), []));
  }

  lemma MeansOneTerm(w: string, holds: Holds)
    ensures Meaning([Term(w)], holds) == Some(holds(w))
  {
    ReadOneTerm(w, false, true, holds);
  }

  lemma LexWord(t: string)
    requires IsWord(t)
    ensures Lex(t) == Some([Term(t)])
  {
    RunPlain(START, t);
    assert "" + t == t;
    OwnEnd(t);
  }
}
