/** Notions about strings, lists and sets that several modules share. Characters stand for bytes. */
module Strings {
  import opened Wrappers

  /** The value of a hexadecimal digit of either case. */
  function HexValue(c: char): Option<nat> {
    if '0' <= c <= '9' then Some((c - '0') as nat)
    else if 'a' <= c <= 'f' then Some((c - 'a') as nat + 10)
    else if 'A' <= c <= 'F' then Some((c - 'A') as nat + 10)
    else None
  }

  /** Blank, tab, line feed, vertical tab, form feed and carriage return. */
  predicate IsSpace(c: char) {
    c == ' ' || '\t' <= c <= '\r'
  }

  predicate NoSlash(s: string) {
    forall i :: 0 <= i < |s| ==> s[i] != '/'
  }

  function Join(parts: seq<string>, between: string): string {
    if parts == [] then ""
    else if |parts| == 1 then parts[0]
    else parts[0] + between + Join(parts[1..], between)
  }

  predicate NoDuplicates<T(==)>(s: seq<T>) {
    forall i, j :: 0 <= i < j < |s| ==> s[i] != s[j]
  }

  /** A number above all the given ones. */
  lemma AboveAll(indices: set<int>) returns (i: int)
    ensures forall j :: j in indices ==> j < i
  {
    if one :| one in indices {
      i := AboveAll(indices - {one});
      if i <= one { i := one + 1; }
      assert forall j :: j in indices ==> j == one || j in indices - {one};
    } else {
      i := 0;
    }
  }
}
