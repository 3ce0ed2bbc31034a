/**
 * The selection checker of the Broker's GraphQL gate: a recursive walk over selections and
 * named fragments that threads one mutable `visiting` set and a sticky identity scope.
 *
 * The walk is proved to agree with a reference that knows nothing about either: inline every
 * fragment, list every root-to-field path of the resulting tree, and look each path up.
 */
module GraphQLSelections {
  import opened Wrappers

  datatype Value = Variable(raw: string) | StringValue(raw: string) | OtherValue(raw: string)

  datatype Argument = Argument(name: string, value: Option<Value>)

  datatype Selection =
    | Field(alias: string, name: string, arguments: seq<Argument>, directives: nat, selections: seq<Selection>)
    | InlineFragment(selections: seq<Selection>)
    | FragmentSpread(name: string)

  datatype Fragment = Fragment(name: string, selections: seq<Selection>)

  /** The reviewed field names; every result below holds for any choice of the three tables. */
  datatype FieldTables = FieldTables(repository: set<string>, boundaries: set<string>, identity: set<string>)

  // ---------------------------------------------------------------- document lookup

  /** The first fragment of that name, as a list lookup returns it. */
  function ForName(fragments: seq<Fragment>, name: string): (r: Option<Fragment>)
    ensures r.Some? ==> r.value in fragments && r.value.name == name
    ensures r.None? ==> forall f :: f in fragments ==> f.name != name
  {
    if fragments == [] then None
    else if fragments[0].name == name then Some(fragments[0])
    else ForName(fragments[1..], name)
  }

  function Key(name: string, identityScope: bool): string {
    if identityScope then name + ":identity" else name
  }

  /** No fragment name contains a colon: a GraphQL Name (section 2.1.9) cannot. */
  ghost predicate WellNamed(doc: seq<Fragment>) {
    forall f :: f in doc ==> ':' !in f.name
  }

  ghost function AllKeys(doc: seq<Fragment>): set<string> {
    (set f | f in doc :: Key(f.name, false)) + (set f | f in doc :: Key(f.name, true))
  }

  /** The walk never nests more than two spreads per fragment, whatever the document. */
  lemma {:induction false} NestingIsBounded(doc: seq<Fragment>)
    ensures |AllKeys(doc)| <= 2 * |doc|
  {
    if doc == [] {
      assert AllKeys(doc) == {};
    } else {
      NestingIsBounded(doc[1..]);
      KeysOfFirst(doc);
      AtMostTwoMore(AllKeys(doc[1..]), Key(doc[0].name, false), Key(doc[0].name, true));
    }
  }

  lemma KeysOfFirst(doc: seq<Fragment>)
    requires doc != []
    ensures AllKeys(doc) == AllKeys(doc[1..]) + {Key(doc[0].name, false), Key(doc[0].name, true)}
  {
    assert forall f :: f in doc <==> f == doc[0] || f in doc[1..];
  }

  lemma AtMostTwoMore(keys: set<string>, a: string, b: string)
    ensures |keys + {a, b}| <= |keys| + 2
  {
    assert keys + {a, b} == (keys + {a}) + {b};
  }

  lemma IdentityKeyHasColon(name: string)
    ensures ':' in Key(name, true)
  {
    assert Key(name, true)[|name|] == ':';
  }

  lemma KeyIsInjective(a: string, s: bool, b: string, t: bool)
    requires ':' !in a && ':' !in b
    requires Key(a, s) == Key(b, t)
    ensures a == b && s == t
  {
    IdentityKeyHasColon(a);
    IdentityKeyHasColon(b);
    if s == t {
      assert a == Key(a, s)[..|a|] && b == Key(b, t)[..|a|];
    }
  }

  // ---------------------------------------------------------------- the walk

  /** What the walk returns, with the visiting set passed as a value. */
  ghost function Accepts(doc: seq<Fragment>, tables: FieldTables, selections: seq<Selection>, identityScope: bool,
                         visiting: set<string>): bool
    decreases AllKeys(doc) - visiting, selections
  {
    if selections == [] then true
    else
      (match selections[0]
       case Field(_, name, _, _, children) =>
         && name in tables.repository
         && (identityScope ==> name in tables.identity)
         && Accepts(doc, tables, children, identityScope || name in tables.boundaries, visiting)
       case InlineFragment(children) =>
         Accepts(doc, tables, children, identityScope, visiting)
       case FragmentSpread(name) =>
         (match ForName(doc, name)
          case None => false
          case Some(fragment) =>
            var key := Key(fragment.name, identityScope);
            && key !in visiting
            && Accepts(doc, tables, fragment.selections, identityScope, visiting + {key})))
      && Accepts(doc, tables, selections[1..], identityScope, visiting)
  }

  lemma {:induction false} AcceptsAppend(doc: seq<Fragment>, tables: FieldTables, a: seq<Selection>, b: seq<Selection>,
                                         scope: bool, visiting: set<string>)
    ensures Accepts(doc, tables, a + b, scope, visiting)
         == (Accepts(doc, tables, a, scope, visiting) && Accepts(doc, tables, b, scope, visiting))
    decreases |a|
  {
    if a == [] {
      assert a + b == b;
    } else {
      assert (a + b)[0] == a[0] && (a + b)[1..] == a[1..] + b;
      AcceptsAppend(doc, tables, a[1..], b, scope, visiting);
    }
  }

  class SelectionChecker {
    var visiting: set<string>

    constructor ()
      ensures visiting == {}
    {
      visiting := {};
    }

    /** Terminates on every document, cyclic ones included, and hands `visiting` back unchanged
        on every return, rejecting ones included. */
    method ValidSelections(doc: seq<Fragment>, tables: FieldTables, selections: seq<Selection>, identityScope: bool)
      returns (valid: bool)
      modifies this
      ensures visiting == old(visiting)
      ensures valid == Accepts(doc, tables, selections, identityScope, visiting)
      decreases AllKeys(doc) - visiting, selections
    {
      var i := 0;
      while i < |selections|
        invariant 0 <= i <= |selections|
        invariant visiting == old(visiting)
        invariant Accepts(doc, tables, selections[..i], identityScope, visiting)
      {
        var selection := selections[i];
        AcceptsAppend(doc, tables, selections[..i], selections[i..], identityScope, visiting);
        assert selections == selections[..i] + selections[i..];
        match selection {
          case Field(_, name, _, _, children) =>
            if name !in tables.repository { return false; }
            if identityScope && name !in tables.identity { return false; }
            var nextIdentityScope := identityScope || name in tables.boundaries;
            valid := ValidSelections(doc, tables, children, nextIdentityScope);
            if !valid { return; }
          case InlineFragment(children) =>
            valid := ValidSelections(doc, tables, children, identityScope);
            if !valid { return; }
          case FragmentSpread(name) =>
            match ForName(doc, name) {
              case None => return false;
              case Some(fragment) =>
                var key := Key(fragment.name, identityScope);
                if key in visiting { return false; }
                assert key in AllKeys(doc);
                visiting := visiting + {key};
                valid := ValidSelections(doc, tables, fragment.selections, identityScope);
                visiting := visiting - {key};
                if !valid { return; }
            }
        }
        AcceptsAppend(doc, tables, selections[..i], [selection], identityScope, visiting);
        assert selections[..i + 1] == selections[..i] + [selection];
        i := i + 1;
      }
      assert selections[..i] == selections;
      return true;
    }
  }

  // ---------------------------------------------------------------- the reference: inline, then list paths

  datatype Tree = Node(name: string, children: seq<Tree>)

  /** The selection set with every fragment replaced by its body, nesting spreads at most `depth`
      deep; None when a spread is undefined or nested deeper. */
  function Inlined(doc: seq<Fragment>, selections: seq<Selection>, depth: nat): Option<seq<Tree>>
    decreases depth, selections
  {
    if selections == [] then Some([])
    else
      var first :=
        match selections[0]
        case Field(_, name, _, _, children) =>
          (match Inlined(doc, children, depth)
           case None => None
           case Some(trees) => Some([Node(name, trees)]))
        case InlineFragment(children) => Inlined(doc, children, depth)
        case FragmentSpread(name) =>
          (match ForName(doc, name)
           case None => None
           case Some(fragment) => if depth == 0 then None else Inlined(doc, fragment.selections, depth - 1));
      var rest := Inlined(doc, selections[1..], depth);
      if first.Some? && rest.Some? then Some(first.value + rest.value) else None
  }

  ghost predicate FiniteExpansion(doc: seq<Fragment>, selections: seq<Selection>) {
    exists depth: nat :: Inlined(doc, selections, depth).Some?
  }

  /** `path` names the fields from a root of the forest down to one of its nodes. */
  ghost predicate Occurs(trees: seq<Tree>, path: seq<string>)
    decreases |path|
  {
    path != [] &&
    exists i :: 0 <= i < |trees| && trees[i].name == path[0] && (|path| == 1 || Occurs(trees[i].children, path[1..]))
  }

  ghost predicate BelowBoundary(tables: FieldTables, path: seq<string>) {
    exists i :: 0 <= i < |path| - 1 && path[i] in tables.boundaries
  }

  ghost predicate AllowedPath(tables: FieldTables, path: seq<string>, scope: bool)
    requires path != []
  {
    var field := path[|path| - 1];
    && field in tables.repository
    && (scope || BelowBoundary(tables, path) ==> field in tables.identity)
  }

  ghost predicate Conforms(tables: FieldTables, trees: seq<Tree>, scope: bool) {
    forall path :: Occurs(trees, path) ==> AllowedPath(tables, path, scope)
  }

  /** The reference meaning: finite expansion, every spread defined, every path allowed. */
  ghost predicate Admissible(doc: seq<Fragment>, tables: FieldTables, selections: seq<Selection>, scope: bool) {
    exists depth: nat :: AdmissibleAt(doc, tables, selections, scope, depth)
  }

  ghost predicate AdmissibleAt(
      doc: seq<Fragment>, tables: FieldTables, selections: seq<Selection>, scope: bool, depth: nat) {
    var trees := Inlined(doc, selections, depth);
    trees.Some? && Conforms(tables, trees.value, scope)
  }

  lemma OccursAppend(a: seq<Tree>, b: seq<Tree>, path: seq<string>)
    ensures Occurs(a + b, path) <==> Occurs(a, path) || Occurs(b, path)
  {
    if Occurs(a, path) {
      var i :| 0 <= i < |a| && a[i].name == path[0] && (|path| == 1 || Occurs(a[i].children, path[1..]));
      assert (a + b)[i] == a[i];
    }
    if Occurs(b, path) {
      var i :| 0 <= i < |b| && b[i].name == path[0] && (|path| == 1 || Occurs(b[i].children, path[1..]));
      assert (a + b)[|a| + i] == b[i];
    }
  }

  lemma ConformsAppend(tables: FieldTables, a: seq<Tree>, b: seq<Tree>, scope: bool)
    ensures Conforms(tables, a + b, scope) <==> Conforms(tables, a, scope) && Conforms(tables, b, scope)
  {
    forall path
      ensures Occurs(a + b, path) <==> Occurs(a, path) || Occurs(b, path)
    {
      OccursAppend(a, b, path);
    }
  }

  lemma BelowBoundaryCons(tables: FieldTables, name: string, path: seq<string>)
    requires path != []
    ensures BelowBoundary(tables, [name] + path) <==> name in tables.boundaries || BelowBoundary(tables, path)
  {
    var longer := [name] + path;
    if name in tables.boundaries { assert longer[0] in tables.boundaries; }
    if BelowBoundary(tables, path) {
      var i :| 0 <= i < |path| - 1 && path[i] in tables.boundaries;
      assert longer[i + 1] in tables.boundaries;
    }
    if BelowBoundary(tables, longer) {
      var i :| 0 <= i < |longer| - 1 && longer[i] in tables.boundaries;
      assert i == 0 || path[i - 1] in tables.boundaries;
    }
  }

  lemma ConformsNode(tables: FieldTables, name: string, children: seq<Tree>, scope: bool)
    ensures Conforms(tables, [Node(name, children)], scope)
       <==> && name in tables.repository
            && (scope ==> name in tables.identity)
            && Conforms(tables, children, scope || name in tables.boundaries)
  {
    var tree := [Node(name, children)];
    var below := scope || name in tables.boundaries;
    assert tree[0].name == name;
    assert Occurs(tree, [name]);
    assert AllowedPath(tables, [name], scope) <==> name in tables.repository && (scope ==> name in tables.identity);
    if Conforms(tables, tree, scope) {
      forall path | Occurs(children, path)
        ensures AllowedPath(tables, path, below)
      {
        assert ([name] + path)[1..] == path;
        assert Occurs(tree, [name] + path);
        BelowBoundaryCons(tables, name, path);
      }
    }
    if AllowedPath(tables, [name], scope) && Conforms(tables, children, below) {
      forall path | Occurs(tree, path)
        ensures AllowedPath(tables, path, scope)
      {
        if |path| == 1 {
          assert path == [name];
        } else {
          assert path == [name] + path[1..];
          assert Occurs(children, path[1..]);
          BelowBoundaryCons(tables, name, path[1..]);
        }
      }
    }
  }

  lemma {:induction false} DeeperInlinesTheSame(doc: seq<Fragment>, selections: seq<Selection>, low: nat, high: nat)
    requires low <= high && Inlined(doc, selections, low).Some?
    ensures Inlined(doc, selections, high) == Inlined(doc, selections, low)
    decreases low, selections
  {
    if selections != [] {
      match selections[0] {
        case Field(_, _, _, _, children) => DeeperInlinesTheSame(doc, children, low, high);
        case InlineFragment(children) => DeeperInlinesTheSame(doc, children, low, high);
        case FragmentSpread(name) => DeeperInlinesTheSame(doc, ForName(doc, name).value.selections, low - 1, high - 1);
      }
      DeeperInlinesTheSame(doc, selections[1..], low, high);
    }
  }

  /** The inlined tree does not depend on the depth that revealed it. */
  lemma InlinedIsUnique(doc: seq<Fragment>, selections: seq<Selection>, a: nat, b: nat)
    requires Inlined(doc, selections, a).Some? && Inlined(doc, selections, b).Some?
    ensures Inlined(doc, selections, a) == Inlined(doc, selections, b)
  {
    if a <= b {
      DeeperInlinesTheSame(doc, selections, a, b);
    } else {
      DeeperInlinesTheSame(doc, selections, b, a);
    }
  }

  /** Inlining a single selection, without the empty rest of the list. */
  lemma InlinedOne(doc: seq<Fragment>, one: seq<Selection>, depth: nat)
    requires |one| == 1
    ensures match one[0]
            case Field(_, name, _, _, children) =>
              Inlined(doc, children, depth).Some? ==>
                Inlined(doc, one, depth) == Some([Node(name, Inlined(doc, children, depth).value)])
            case InlineFragment(children) => Inlined(doc, one, depth) == Inlined(doc, children, depth)
            case FragmentSpread(name) =>
              ForName(doc, name).Some? && depth > 0 ==>
                Inlined(doc, one, depth) == Inlined(doc, ForName(doc, name).value.selections, depth - 1)
  {
    assert one[1..] == [];
    assert forall trees: seq<Tree> :: trees + [] == trees;
  }

  /** A first selection and the rest, inlined at depths of their own, are inlined together at the larger one. */
  lemma InlinedCons(doc: seq<Fragment>, selections: seq<Selection>, head: nat, tail: nat) returns (depth: nat)
    requires selections != []
    requires Inlined(doc, selections[..1], head).Some? && Inlined(doc, selections[1..], tail).Some?
    ensures Inlined(doc, selections, depth)
         == Some(Inlined(doc, selections[..1], head).value + Inlined(doc, selections[1..], tail).value)
  {
    depth := if head < tail then tail else head;
    DeeperInlinesTheSame(doc, selections[..1], head, depth);
    DeeperInlinesTheSame(doc, selections[1..], tail, depth);
    assert selections[..1][0] == selections[0] && selections[..1][1..] == [];
    assert Inlined(doc, [], depth) == Some([]);
    assert forall trees: seq<Tree> :: trees + [] == trees;
  }

  // ---------------------------------------------------------------- accepted implies admissible

  lemma {:induction false} AcceptedIsAdmissible(doc: seq<Fragment>, tables: FieldTables, selections: seq<Selection>,
                                                scope: bool, visiting: set<string>) returns (depth: nat)
    requires Accepts(doc, tables, selections, scope, visiting)
    ensures AdmissibleAt(doc, tables, selections, scope, depth)
    decreases AllKeys(doc) - visiting, selections
  {
    if selections == [] { return 0; }
    var tail := AcceptedIsAdmissible(doc, tables, selections[1..], scope, visiting);
    var head: nat;
    match selections[0] {
      case Field(_, name, _, _, children) =>
        head := AcceptedIsAdmissible(doc, tables, children, scope || name in tables.boundaries, visiting);
        ConformsNode(tables, name, Inlined(doc, children, head).value, scope);
      case InlineFragment(children) =>
        head := AcceptedIsAdmissible(doc, tables, children, scope, visiting);
      case FragmentSpread(name) =>
        var fragment := ForName(doc, name).value;
        head := AcceptedIsAdmissible(doc, tables, fragment.selections, scope, visiting + {Key(fragment.name, scope)});
        head := head + 1;
    }
    InlinedOne(doc, selections[..1], head);
    depth := InlinedCons(doc, selections, head, tail);
    ConformsAppend(tables, Inlined(doc, selections[..1], head).value, Inlined(doc, selections[1..], tail).value, scope);
  }

  // ---------------------------------------------------------------- admissible implies accepted

  /** No fragment on the visiting path can itself be inlined in fewer than `depth` nestings. */
  ghost predicate VisitingIsDeeper(doc: seq<Fragment>, visiting: set<string>, depth: nat) {
    forall name, scope: bool :: Key(name, scope) in visiting && depth > 0 && ForName(doc, name).Some?
      ==> Inlined(doc, ForName(doc, name).value.selections, depth - 1).None?
  }

  lemma LeastDepth(doc: seq<Fragment>, selections: seq<Selection>, depth: nat) returns (least: nat)
    requires Inlined(doc, selections, depth).Some?
    ensures least <= depth && Inlined(doc, selections, least) == Inlined(doc, selections, depth)
    ensures least == 0 || Inlined(doc, selections, least - 1).None?
  {
    least := depth;
    while least > 0 && Inlined(doc, selections, least - 1).Some?
      invariant least <= depth && Inlined(doc, selections, least) == Inlined(doc, selections, depth)
    {
      InlinedIsUnique(doc, selections, least - 1, least);
      least := least - 1;
    }
  }

  lemma EnterFragment(
      doc: seq<Fragment>, fragment: Fragment, scope: bool, visiting: set<string>, depth: nat, least: nat)
    requires WellNamed(doc) && ForName(doc, fragment.name) == Some(fragment)
    requires least < depth && VisitingIsDeeper(doc, visiting, depth)
    requires least == 0 || Inlined(doc, fragment.selections, least - 1).None?
    ensures VisitingIsDeeper(doc, visiting + {Key(fragment.name, scope)}, least)
  {
    forall name, s: bool |
      Key(name, s) in visiting + {Key(fragment.name, scope)} && least > 0 && ForName(doc, name).Some?
      ensures Inlined(doc, ForName(doc, name).value.selections, least - 1).None?
    {
      if Key(name, s) in visiting {
        if Inlined(doc, ForName(doc, name).value.selections, least - 1).Some? {
          DeeperInlinesTheSame(doc, ForName(doc, name).value.selections, least - 1, depth - 1);
          assert false;
        }
      } else {
        KeyIsInjective(name, s, fragment.name, scope);
      }
    }
  }

  lemma {:induction false} AdmissibleIsAccepted(doc: seq<Fragment>, tables: FieldTables, selections: seq<Selection>,
                                                scope: bool, visiting: set<string>, depth: nat)
    requires WellNamed(doc)
    requires AdmissibleAt(doc, tables, selections, scope, depth)
    requires VisitingIsDeeper(doc, visiting, depth)
    ensures Accepts(doc, tables, selections, scope, visiting)
    decreases depth, selections
  {
    if selections == [] { return; }
    var rest := Inlined(doc, selections[1..], depth).value;
    match selections[0] {
      case Field(_, name, _, _, children) =>
        var trees := Inlined(doc, children, depth).value;
        ConformsAppend(tables, [Node(name, trees)], rest, scope);
        ConformsNode(tables, name, trees, scope);
        AdmissibleIsAccepted(doc, tables, children, scope || name in tables.boundaries, visiting, depth);
      case InlineFragment(children) =>
        ConformsAppend(tables, Inlined(doc, children, depth).value, rest, scope);
        AdmissibleIsAccepted(doc, tables, children, scope, visiting, depth);
      case FragmentSpread(name) =>
        var fragment := ForName(doc, name).value;
        ConformsAppend(tables, Inlined(doc, fragment.selections, depth - 1).value, rest, scope);
        var least := LeastDepth(doc, fragment.selections, depth - 1);
        EnterFragment(doc, fragment, scope, visiting, depth, least);
        AdmissibleIsAccepted(doc, tables, fragment.selections, scope, visiting + {Key(fragment.name, scope)}, least);
    }
    AdmissibleIsAccepted(doc, tables, selections[1..], scope, visiting, depth);
  }

  /** The checker accepts exactly the selection sets that the reference admits. */
  lemma CheckerAgreesWithInlining(doc: seq<Fragment>, tables: FieldTables, selections: seq<Selection>, scope: bool)
    requires WellNamed(doc)
    ensures Accepts(doc, tables, selections, scope, {}) <==> Admissible(doc, tables, selections, scope)
  {
    if Accepts(doc, tables, selections, scope, {}) {
      var depth := AcceptedIsAdmissible(doc, tables, selections, scope, {});
    }
    if Admissible(doc, tables, selections, scope) {
      var depth: nat :| AdmissibleAt(doc, tables, selections, scope, depth);
      AdmissibleIsAccepted(doc, tables, selections, scope, {}, depth);
    }
  }

  // ---------------------------------------------------------------- finite inlining means defined and acyclic spreads

  ghost function SpreadNames(selections: seq<Selection>): set<string> {
    if selections == [] then {}
    else
      (match selections[0]
       case Field(_, _, _, _, children) => SpreadNames(children)
       case InlineFragment(children) => SpreadNames(children)
       case FragmentSpread(name) => {name})
      + SpreadNames(selections[1..])
  }

  /** A chain of spreads: each name is spread in the body of the fragment before it. */
  ghost predicate Walk(doc: seq<Fragment>, selections: seq<Selection>, names: seq<string>)
    decreases |names|
  {
    names == [] ||
    (names[0] in SpreadNames(selections) &&
     (|names| == 1 || (ForName(doc, names[0]).Some? && Walk(doc, ForName(doc, names[0]).value.selections, names[1..]))))
  }

  /** Section 5.5.2.1: every spread reachable from the selections names a fragment. */
  ghost predicate SpreadsDefined(doc: seq<Fragment>, selections: seq<Selection>) {
    forall names :: Walk(doc, selections, names) && names != [] ==> ForName(doc, names[|names| - 1]).Some?
  }

  /** Section 5.5.2.2: no chain of spreads meets the same fragment twice. */
  ghost predicate SpreadsAcyclic(doc: seq<Fragment>, selections: seq<Selection>) {
    forall names, i, j :: Walk(doc, selections, names) && 0 <= i < j < |names| ==> names[i] != names[j]
  }

  lemma {:induction false} SpreadInlines(doc: seq<Fragment>, selections: seq<Selection>, name: string, depth: nat)
    requires Inlined(doc, selections, depth).Some? && name in SpreadNames(selections)
    ensures depth > 0 && ForName(doc, name).Some? && Inlined(doc, ForName(doc, name).value.selections, depth - 1).Some?
    decreases selections
  {
    if name in SpreadNames(selections[1..]) {
      SpreadInlines(doc, selections[1..], name, depth);
    } else if !selections[0].FragmentSpread? {
      SpreadInlines(doc, selections[0].selections, name, depth);
    }
  }

  lemma {:induction false} WalkInlines(
      doc: seq<Fragment>, selections: seq<Selection>, names: seq<string>, k: nat, depth: nat)
    requires Inlined(doc, selections, depth).Some? && Walk(doc, selections, names) && k < |names|
    ensures depth > k && ForName(doc, names[k]).Some?
    ensures Inlined(doc, ForName(doc, names[k]).value.selections, depth - 1 - k).Some?
    ensures Walk(doc, ForName(doc, names[k]).value.selections, names[k + 1..])
    decreases k
  {
    SpreadInlines(doc, selections, names[0], depth);
    if k > 0 {
      WalkInlines(doc, ForName(doc, names[0]).value.selections, names[1..], k - 1, depth - 1);
      assert names[1..][k..] == names[k + 1..];
    }
  }

  /** The body of a fragment that can be inlined does not spread that fragment, however deep. */
  lemma BodyNeverMeetsItself(doc: seq<Fragment>, name: string, names: seq<string>, k: nat, depth: nat)
    requires ForName(doc, name).Some? && Inlined(doc, ForName(doc, name).value.selections, depth).Some?
    requires Walk(doc, ForName(doc, name).value.selections, names) && k < |names|
    ensures names[k] != name
  {
    var body := ForName(doc, name).value.selections;
    var least := LeastDepth(doc, body, depth);
    WalkInlines(doc, body, names, k, least);
    if names[k] == name {
      DeeperInlinesTheSame(doc, body, least - 1 - k, least - 1);
      assert false;
    }
  }

  lemma RepeatedSpreadIsInfinite(
      doc: seq<Fragment>, selections: seq<Selection>, names: seq<string>, i: nat, j: nat, depth: nat)
    requires Inlined(doc, selections, depth).Some? && Walk(doc, selections, names) && i < j < |names|
    ensures names[i] != names[j]
  {
    WalkInlines(doc, selections, names, i, depth);
    BodyNeverMeetsItself(doc, names[i], names[i + 1..], j - i - 1, depth - 1 - i);
  }

  ghost function FragmentNames(doc: seq<Fragment>): set<string> {
    set f | f in doc :: f.name
  }

  /** The fragments entered so far, none of which can be met again on any longer walk. */
  ghost predicate Entered(doc: seq<Fragment>, selections: seq<Selection>, entered: set<string>) {
    forall names :: Walk(doc, selections, names) && names != [] ==>
      ForName(doc, names[|names| - 1]).Some? && names[|names| - 1] !in entered
  }

  lemma EnterOnce(doc: seq<Fragment>, selections: seq<Selection>, name: string, entered: set<string>)
    requires Entered(doc, selections, entered) && SpreadsAcyclic(doc, selections) && name in SpreadNames(selections)
    ensures ForName(doc, name).Some? && name in FragmentNames(doc) - entered
    ensures var body := ForName(doc, name).value.selections;
            Entered(doc, body, entered + {name}) && SpreadsAcyclic(doc, body)
  {
    assert Walk(doc, selections, [name]);
    assert [name][|[name]| - 1] == name;
    var body := ForName(doc, name).value.selections;
    forall names | Walk(doc, body, names) && names != []
      ensures ForName(doc, names[|names| - 1]).Some? && names[|names| - 1] !in entered + {name}
    {
      var longer := [name] + names;
      assert longer[1..] == names && Walk(doc, selections, longer);
      assert longer[|longer| - 1] == names[|names| - 1] && longer[0] == name;
    }
    forall names, i, j | Walk(doc, body, names) && 0 <= i < j < |names|
      ensures names[i] != names[j]
    {
      var longer := [name] + names;
      assert longer[1..] == names && Walk(doc, selections, longer);
      assert longer[i + 1] == names[i] && longer[j + 1] == names[j];
    }
  }

  lemma {:induction false} SubWalks(
      doc: seq<Fragment>, selections: seq<Selection>, part: seq<Selection>, entered: set<string>)
    requires Entered(doc, selections, entered) && SpreadsAcyclic(doc, selections)
    requires SpreadNames(part) <= SpreadNames(selections)
    ensures Entered(doc, part, entered) && SpreadsAcyclic(doc, part)
  {
    assert forall names :: Walk(doc, part, names) ==> Walk(doc, selections, names);
  }

  lemma {:induction false} AcyclicExpands(
      doc: seq<Fragment>, selections: seq<Selection>, entered: set<string>) returns (depth: nat)
    requires Entered(doc, selections, entered) && SpreadsAcyclic(doc, selections)
    ensures Inlined(doc, selections, depth).Some?
    decreases FragmentNames(doc) - entered, selections
  {
    if selections == [] { return 0; }
    SubWalks(doc, selections, selections[1..], entered);
    var tail := AcyclicExpands(doc, selections[1..], entered);
    var head: nat;
    if selections[0].FragmentSpread? {
      var name := selections[0].name;
      EnterOnce(doc, selections, name, entered);
      head := AcyclicExpands(doc, ForName(doc, name).value.selections, entered + {name});
      head := head + 1;
    } else {
      SubWalks(doc, selections, selections[0].selections, entered);
      head := AcyclicExpands(doc, selections[0].selections, entered);
    }
    InlinedOne(doc, selections[..1], head);
    depth := InlinedCons(doc, selections, head, tail);
  }

  /** A fragment expansion is finite exactly when every reachable spread is defined and none is cyclic. */
  lemma FiniteExpansionMeansValidSpreads(doc: seq<Fragment>, selections: seq<Selection>)
    ensures FiniteExpansion(doc, selections) <==> SpreadsDefined(doc, selections) && SpreadsAcyclic(doc, selections)
  {
    if FiniteExpansion(doc, selections) {
      var depth: nat :| Inlined(doc, selections, depth).Some?;
      forall names | Walk(doc, selections, names) && names != []
        ensures ForName(doc, names[|names| - 1]).Some?
      {
        WalkInlines(doc, selections, names, |names| - 1, depth);
      }
      forall names, i, j | Walk(doc, selections, names) && 0 <= i < j < |names|
        ensures names[i] != names[j]
      {
        RepeatedSpreadIsInfinite(doc, selections, names, i, j, depth);
      }
    }
    if SpreadsDefined(doc, selections) && SpreadsAcyclic(doc, selections) {
      assert Entered(doc, selections, {});
      var depth := AcyclicExpands(doc, selections, {});
    }
  }
}
