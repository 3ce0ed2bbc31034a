/**
 * Printing a URL path from components, percent-encoded as sections 2.1 and 3.3 of RFC 3986 have it.
 * Characters stand for bytes.
 */
module SafeUrl {
  import opened Wrappers
  import opened Strings

  type byte = c: char | (c as int) < 0x100

  type Component = seq<byte>

  // ---------------------------------------------------------------- percent-encoding

  function UpperHex(n: nat): (c: char)
    requires n < 16
    ensures HexValue(c) == Some(n) && ('0' <= c <= '9' || 'A' <= c <= 'F')
  {
    if n < 10 then '0' + n as char else 'A' + (n - 10) as char
  }

  /** The bytes a path segment keeps as they are; of those RFC 3986 allows, the encoder still encodes
      the sub-delimiters that may carry a meaning of their own. */
  predicate Kept(c: char) {
    || 'a' <= c <= 'z' || 'A' <= c <= 'Z' || '0' <= c <= '9'
    || c in {'-', '_', '.', '~', '$', '&', '+', '=', ':', '@'}
  }

  function EscapeByte(c: byte): string {
    if Kept(c) then [c] else ['%', UpperHex(c as nat / 16), UpperHex(c as nat % 16)]
  }

  function PathEscape(s: Component): string {
    if s == [] then "" else EscapeByte(s[0]) + PathEscape(s[1..])
  }

  /** Percent-decoding; None for a "%" that two hexadecimal digits do not follow, or for a character
      that is no byte. */
  function Unescape(s: string): Option<Component> {
    if s == "" then Some([])
    else if s[0] != '%' then (if (s[0] as int) < 0x100 then Prepend(s[0], Unescape(s[1..])) else None)
    else if |s| < 3 then None
    else
      var high, low := HexValue(s[1]), HexValue(s[2]);
      if high.None? || low.None? then None
      else
        HexIsSmall(s[1]);
        HexIsSmall(s[2]);
        Prepend((16 * high.value + low.value) as char, Unescape(s[3..]))
  }

  lemma HexIsSmall(c: char)
    ensures HexValue(c).Some? ==> HexValue(c).value < 16
  {
  }

  function Prepend(c: byte, s: Option<Component>): Option<Component> {
    if s.None? then None else Some([c] + s.value)
  }

  /** Letters, digits, the unreserved marks, and those sub-delimiters that mean nothing in a segment. */
  predicate NeedsNoEscape(c: char) {
    || c in "abcdefghijklmnopqrstuvwxyz" || c in "ABCDEFGHIJKLMNOPQRSTUVWXYZ" || c in "0123456789"
    || c in "-_.~$&+=:@"
  }

  /** Nothing is escaped without need: a component prints as itself exactly when it needs no escape, and each
      byte that does need one takes three characters. */
  lemma {:induction false} EscapesOnlyAtNeed(s: Component)
    ensures PathEscape(s) == s <==> forall c :: c in s ==> NeedsNoEscape(c)
    ensures |s| <= |PathEscape(s)| && (PathEscape(s) != s ==> |s| + 2 <= |PathEscape(s)|)
  {
    if s != [] {
      EscapesOnlyAtNeed(s[1..]);
      KeptNeedsNone(s[0]);
      assert s == [s[0]] + s[1..];
      assert PathEscape(s)[..|EscapeByte(s[0])|] == EscapeByte(s[0]);
      assert PathEscape(s)[|EscapeByte(s[0])|..] == PathEscape(s[1..]);
    }
  }

  /** A run of consecutive characters holds exactly those between its ends. */
  lemma RunHolds(run: string, first: char, c: char)
    requires run != "" && first as int + |run| <= 0x80
    requires forall i :: 0 <= i < |run| ==> run[i] == (first as int + i) as char
    ensures c in run <==> first <= c <= (first as int + |run| - 1) as char
  {
    if first <= c <= (first as int + |run| - 1) as char { assert run[c as int - first as int] == c; }
  }

  lemma KeptNeedsNone(c: char)
    ensures Kept(c) <==> NeedsNoEscape(c)
  {
    RunHolds("abcdefghijklmnopqrstuvwxyz", 'a', c);
    RunHolds("ABCDEFGHIJKLMNOPQRSTUVWXYZ", 'A', c);
    RunHolds("0123456789", '0', c);
  }

  lemma EscapeByteDecodes(c: byte, rest: string)
    ensures Unescape(EscapeByte(c) + rest) == Prepend(c, Unescape(rest))
  {
    var s := EscapeByte(c) + rest;
    if Kept(c) {
      assert s[1..] == rest;
    } else {
      assert s[3..] == rest;
      assert 16 * (c as nat / 16) + c as nat % 16 == c as nat;
    }
  }

  lemma {:induction false} EscapeDecodes(s: Component)
    ensures Unescape(PathEscape(s)) == Some(s)
  {
    if s != [] {
      EscapeByteDecodes(s[0], PathEscape(s[1..]));
      EscapeDecodes(s[1..]);
      assert [s[0]] + s[1..] == s;
    }
  }

  /** Every character of a printed component is allowed in a path segment; none separates anything. */
  predicate SegmentChar(c: char) {
    Kept(c) || c == '%'
  }

  lemma {:induction false} EscapeIsSegment(s: Component)
    ensures forall i :: 0 <= i < |PathEscape(s)| ==> SegmentChar(PathEscape(s)[i]) && PathEscape(s)[i] != '/'
    ensures PathEscape(s) == "" <==> s == []
  {
    if s != [] { EscapeIsSegment(s[1..]); }
  }

  // ---------------------------------------------------------------- joining and splitting

  function Split(s: string): (r: seq<string>)
    ensures r != []
  {
    if s == "" then [""]
    else
      var rest := Split(s[1..]);
      if s[0] == '/' then [""] + rest else [[s[0]] + rest[0]] + rest[1..]
  }

  lemma {:induction false} SplitPart(part: string, rest: string)
    requires NoSlash(part) && (rest == "" || rest[0] == '/')
    ensures Split(part + rest) == if rest == "" then [part] else [part] + Split(rest[1..])
  {
    if part == "" {
      assert part + rest == rest;
    } else {
      assert (part + rest)[1..] == part[1..] + rest;
      SplitPart(part[1..], rest);
      assert [part[0]] + part[1..] == part;
    }
  }

  lemma {:induction false} SplitJoins(parts: seq<string>)
    requires parts != [] && forall i :: 0 <= i < |parts| ==> NoSlash(parts[i])
    ensures Split(Join(parts, "/")) == parts
  {
    if |parts| == 1 {
      assert parts[0] + "" == parts[0];
      SplitPart(parts[0], "");
    } else {
      var rest := "/" + Join(parts[1..], "/");
      assert parts[0] + "/" + Join(parts[1..], "/") == parts[0] + rest && rest[1..] == Join(parts[1..], "/");
      SplitPart(parts[0], rest);
      SplitJoins(parts[1..]);
    }
  }

  // ---------------------------------------------------------------- paths

  function Escaped(components: seq<Component>): (r: seq<string>)
    ensures |r| == |components| && forall i :: 0 <= i < |r| ==> r[i] == PathEscape(components[i])
  {
    seq(|components|, i requires 0 <= i < |components| => PathEscape(components[i]))
  }

  function Path(components: seq<Component>): string {
    Join(Escaped(components), "/")
  }

  /** The parts of a printed path, each percent-decoded. */
  function Decode(path: string): seq<Option<Component>> {
    var parts := Split(path);
    seq(|parts|, i requires 0 <= i < |parts| => Unescape(parts[i]))
  }

  /** The path as the source builds it. */
  method JoinPath(components: seq<Component>) returns (path: string)
    ensures path == Path(components)
  {
    var escaped := new string[|components|](_ => "");
    for i := 0 to |components|
      invariant forall j :: 0 <= j < i ==> escaped[j] == PathEscape(components[j])
    {
      escaped[i] := PathEscape(components[i]);
    }
    assert escaped[..] == Escaped(components);
    path := Join(escaped[..], "/");
  }

  /** Splitting the path and decoding its parts gives back exactly the components; one or more. */
  lemma PathRoundTrip(components: seq<Component>)
    requires components != []
    ensures |Decode(Path(components))| == |components|
    ensures forall i :: 0 <= i < |components| ==> Decode(Path(components))[i] == Some(components[i])
    ensures forall i :: 0 <= i < |Path(components)| ==> SegmentChar(Path(components)[i]) || Path(components)[i] == '/'
  {
    var parts := Escaped(components);
    forall i | 0 <= i < |parts|
      ensures NoSlash(parts[i]) && Unescape(parts[i]) == Some(components[i])
      ensures forall j :: 0 <= j < |parts[i]| ==> SegmentChar(parts[i][j])
    {
      EscapeIsSegment(components[i]);
      EscapeDecodes(components[i]);
    }
    SplitJoins(parts);
    JoinKeepsChars(parts);
  }

  lemma {:induction false} JoinKeepsChars(parts: seq<string>)
    requires forall i, j :: 0 <= i < |parts| && 0 <= j < |parts[i]| ==> SegmentChar(parts[i][j])
    ensures forall k :: 0 <= k < |Join(parts, "/")| ==> SegmentChar(Join(parts, "/")[k]) || Join(parts, "/")[k] == '/'
  {
    if |parts| > 1 { JoinKeepsChars(parts[1..]); }
  }

  /** No component or one empty component: the lists that print as the empty path. */
  predicate IsBlank(components: seq<Component>) {
    components == [] || components == [[]]
  }

  lemma BlankPath(components: seq<Component>)
    ensures Path(components) == "" <==> IsBlank(components)
  {
    if components != [] {
      EscapeIsSegment(components[0]);
      if |components| == 1 { assert components == [components[0]]; }
    }
  }

  /** Two lists print the same path exactly when they are the same list, or both are blank. */
  lemma PathIsInjective(a: seq<Component>, b: seq<Component>)
    ensures Path(a) == Path(b) <==> a == b || (IsBlank(a) && IsBlank(b))
  {
    BlankPath(a);
    BlankPath(b);
    if Path(a) == Path(b) && !IsBlank(a) {
      PathRoundTrip(a);
      PathRoundTrip(b);
      forall i | 0 <= i < |a|
        ensures a[i] == b[i]
      {
        assert Decode(Path(a))[i] == Some(a[i]) && Decode(Path(b))[i] == Some(b[i]);
      }
    }
  }

  // ---------------------------------------------------------------- the host prefix

  function WithHostPrefix(prefix: string, components: seq<Component>): string {
    var path := Path(components);
    if prefix == "" then path
    else if path == "" then prefix
    else if prefix[|prefix| - 1] != '/' then prefix + "/" + path
    else prefix + path
  }

  /** The prefix without the slash it may end in. */
  function Base(prefix: string): string {
    if prefix != "" && prefix[|prefix| - 1] == '/' then prefix[..|prefix| - 1] else prefix
  }

  /** A prefix and a path that is not blank meet in a slash, behind which the path stands unchanged. It
      is a single slash exactly when the prefix does not end in two and the first component is not
      empty. A blank path leaves the prefix as it is, without a slash. */
  lemma PrefixJoin(prefix: string, components: seq<Component>)
    requires prefix != ""
    ensures IsBlank(components) ==> WithHostPrefix(prefix, components) == prefix
    ensures !IsBlank(components) ==>
              var base, path := Base(prefix), Path(components);
              && WithHostPrefix(prefix, components) == base + "/" + path
              && ((base == "" || base[|base| - 1] != '/') && path[0] != '/' <==>
                    !(|prefix| >= 2 && prefix[|prefix| - 2..] == "//") && components[0] != [])
  {
    BlankPath(components);
    if !IsBlank(components) {
      EscapeIsSegment(components[0]);
      var base, path := Base(prefix), Path(components);
      if prefix[|prefix| - 1] == '/' { assert prefix == base + "/"; }
      FirstChar(components);
    }
  }

  lemma FirstChar(components: seq<Component>)
    requires !IsBlank(components)
    ensures Path(components) != "" && (Path(components)[0] == '/' <==> components[0] == [])
  {
    var parts := Escaped(components);
    EscapeIsSegment(components[0]);
    if |components| == 1 { assert components == [components[0]]; }
    if components[0] != [] { assert parts[0] != "" && Join(parts, "/")[0] == parts[0][0]; }
  }

  /** Behind a given prefix, too, only blank lists print alike. */
  lemma PrefixedIsInjective(prefix: string, a: seq<Component>, b: seq<Component>)
    ensures WithHostPrefix(prefix, a) == WithHostPrefix(prefix, b) <==> a == b || (IsBlank(a) && IsBlank(b))
  {
    PathIsInjective(a, b);
    BlankPath(a);
    BlankPath(b);
    if prefix != "" {
      PrefixJoin(prefix, a);
      PrefixJoin(prefix, b);
      if WithHostPrefix(prefix, a) == WithHostPrefix(prefix, b) {
        var n := |Base(prefix)| + 1;
        if !IsBlank(a) && !IsBlank(b) {
          assert (Base(prefix) + "/" + Path(a))[n..] == Path(a);
          assert (Base(prefix) + "/" + Path(b))[n..] == Path(b);
        }
      }
    }
  }

  // ---------------------------------------------------------------- traversal

  predicate Traverses(components: seq<Component>) {
    exists i :: 0 <= i < |components| && components[i] == ".."
  }

  class MutableSafeURL {
    const prefix: string
    const components: seq<Component>

    constructor (prefix: string, components: seq<Component>)
      ensures this.prefix == prefix && this.components == components
    {
      this.prefix, this.components := prefix, components;
    }

    method String() returns (s: string)
      ensures s == WithHostPrefix(prefix, components)
    {
      var path := JoinPath(components);
      if prefix == "" { return path; }
      if path == "" { return prefix; }
      if prefix[|prefix| - 1] != '/' { return prefix + "/" + path; }
      return prefix + path;
    }
  }

  method JoinPathWithHostPrefix(prefix: string, components: seq<Component>) returns (r: Option<MutableSafeURL>)
    ensures r.None? <==> Traverses(components)
    ensures r.Some? ==> fresh(r.value) && r.value.prefix == prefix && r.value.components == components
  {
    for i := 0 to |components|
      invariant forall j :: 0 <= j < i ==> components[j] != ".."
    {
      if components[i] == ".." { return None; }
    }
    var u := new MutableSafeURL(prefix, components);
    return Some(u);
  }

  /** A path that is printed at all has no part that reads as "..", raw or decoded. */
  lemma NothingTraverses(components: seq<Component>)
    requires components != []
    ensures Traverses(components) <==>
            exists i :: 0 <= i < |Decode(Path(components))| && Decode(Path(components))[i] == Some("..")
    ensures !Traverses(components) ==> ".." !in Split(Path(components))
  {
    PathRoundTrip(components);
    var parts := Split(Path(components));
    if Traverses(components) {
      var i :| 0 <= i < |components| && components[i] == "..";
      assert Decode(Path(components))[i] == Some(components[i]);
    } else {
      forall i | 0 <= i < |parts|
        ensures parts[i] != ".."
      {
        assert Decode(Path(components))[i] == Some(components[i]) == Unescape(parts[i]);
        DotsDecode();
      }
    }
  }

  lemma DotsDecode()
    ensures Unescape("..") == Some("..")
  {
    assert PathEscape("..") == "..";
    EscapeDecodes("..");
  }
}
