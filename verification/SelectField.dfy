/**
 * A list of options that is searched and selected from. Searching rebuilds the list, and must lose
 * nothing of what is selected.
 */
module SelectField {
  import opened Wrappers
  import opened Strings

  // ---------------------------------------------------------------- first occurrences, in order

  function Elements<T(==)>(s: seq<T>): set<T> {
    set x | x in s
  }

  /** What is not seen yet, each once. */
  function Unseen<T(==)>(s: seq<T>, seen: set<T>): seq<T> {
    if s == [] then []
    else if s[0] in seen then Unseen(s[1..], seen)
    else [s[0]] + Unseen(s[1..], seen + {s[0]})
  }

  function Only<T(==)>(s: seq<T>, chosen: set<T>): seq<T> {
    if s == [] then []
    else if s[0] in chosen then [s[0]] + Only(s[1..], chosen)
    else Only(s[1..], chosen)
  }

  lemma {:induction false} UnseenHas<T>(s: seq<T>, seen: set<T>)
    ensures NoDuplicates(Unseen(s, seen)) && Elements(Unseen(s, seen)) == Elements(s) - seen
  {
    if s != [] {
      assert Elements(s) == {s[0]} + Elements(s[1..]);
      if s[0] in seen {
        UnseenHas(s[1..], seen);
      } else {
        UnseenHas(s[1..], seen + {s[0]});
        var rest := Unseen(s[1..], seen + {s[0]});
        assert Elements([s[0]] + rest) == {s[0]} + Elements(rest);
        assert forall i :: 0 <= i < |rest| ==> rest[i] in Elements(rest);
      }
    }
  }

  lemma {:induction false} UnseenAppend<T>(a: seq<T>, b: seq<T>, seen: set<T>)
    ensures Unseen(a + b, seen) == Unseen(a, seen) + Unseen(b, seen + Elements(a))
  {
    if a == [] {
      assert a + b == b && seen + Elements(a) == seen;
    } else {
      assert (a + b)[1..] == a[1..] + b;
      var next := if a[0] in seen then seen else seen + {a[0]};
      UnseenAppend(a[1..], b, next);
      assert next + Elements(a[1..]) == seen + Elements(a);
    }
  }

  lemma {:induction false} UnseenKeeps<T>(s: seq<T>, seen: set<T>)
    requires NoDuplicates(s) && Elements(s) !! seen
    ensures Unseen(s, seen) == s
  {
    if s != [] {
      assert s[0] in Elements(s) && s == [s[0]] + s[1..];
      assert forall x :: x in Elements(s[1..]) ==> x in Elements(s) && x != s[0];
      UnseenKeeps(s[1..], seen + {s[0]});
    }
  }

  lemma {:induction false} UnseenDrops<T>(s: seq<T>, seen: set<T>)
    requires Elements(s) <= seen
    ensures Unseen(s, seen) == []
  {
    if s != [] {
      assert s[0] in Elements(s) && Elements(s[1..]) <= Elements(s);
      UnseenDrops(s[1..], seen);
    }
  }

  lemma {:induction false} OnlyAppend<T>(a: seq<T>, b: seq<T>, chosen: set<T>)
    ensures Only(a + b, chosen) == Only(a, chosen) + Only(b, chosen)
  {
    if a == [] {
      assert a + b == b;
    } else {
      assert (a + b)[1..] == a[1..] + b;
      OnlyAppend(a[1..], b, chosen);
    }
  }

  lemma {:induction false} OnlyHas<T>(s: seq<T>, chosen: set<T>)
    ensures Elements(Only(s, chosen)) == Elements(s) * chosen
    ensures Elements(s) <= chosen ==> Only(s, chosen) == s
    ensures Elements(s) !! chosen ==> Only(s, chosen) == []
  {
    if s != [] {
      OnlyHas(s[1..], chosen);
      assert Elements(s) == {s[0]} + Elements(s[1..]);
      assert s == [s[0]] + s[1..];
      var rest := Only(s[1..], chosen);
      assert Elements([s[0]] + rest) == {s[0]} + Elements(rest);
    }
  }

  // ---------------------------------------------------------------- the list and the selection

  /** The selected keys: the defaults' first, then those of the options. */
  function Selected<T(==)>(defaults: seq<T>, options: seq<T>, selected: set<T>): seq<T> {
    Unseen(Only(defaults + options, selected), {})
  }

  /** The list after a search: what is selected, the results, and the options that are always there. */
  function Rebuilt<T(==)>(chosen: seq<T>, results: seq<T>, persistent: seq<T>): seq<T> {
    Unseen(chosen + results + persistent, {})
  }

  lemma SelectedHas<T>(defaults: seq<T>, options: seq<T>, selected: set<T>)
    requires selected <= Elements(defaults) + Elements(options)
    ensures NoDuplicates(Selected(defaults, options, selected)) &&
            Elements(Selected(defaults, options, selected)) == selected
  {
    OnlyHas(defaults + options, selected);
    UnseenHas(Only(defaults + options, selected), {});
    assert Elements(defaults + options) == Elements(defaults) + Elements(options);
  }

  lemma RebuiltHas<T>(chosen: seq<T>, results: seq<T>, persistent: seq<T>)
    requires NoDuplicates(chosen)
    ensures var r := Rebuilt(chosen, results, persistent);
            && NoDuplicates(r) && chosen <= r
            && Elements(r) == Elements(chosen) + Elements(results) + Elements(persistent)
            && Elements(r[|chosen|..]) !! Elements(chosen)
  {
    var all := chosen + results + persistent;
    assert all == chosen + (results + persistent);
    UnseenAppend(chosen, results + persistent, {});
    UnseenKeeps(chosen, {});
    UnseenHas(all, {});
    UnseenHas(results + persistent, {} + Elements(chosen));
    assert Elements(all) == Elements(chosen) + Elements(results) + Elements(persistent);
  }

  /** A search, whatever it finds, leaves the list of selected keys exactly as it was, in order. */
  lemma SearchKeepsSelection<T>(
      defaults: seq<T>, options: seq<T>, selected: set<T>, results: seq<T>, persistent: seq<T>)
    requires selected <= Elements(defaults) + Elements(options)
    ensures var chosen := Selected(defaults, options, selected);
            Selected(defaults, Rebuilt(chosen, results, persistent), selected) == chosen
  {
    var chosen := Selected(defaults, options, selected);
    var rebuilt := Rebuilt(chosen, results, persistent);
    SelectedHas(defaults, options, selected);
    RebuiltHas(chosen, results, persistent);
    var others := rebuilt[|chosen|..];
    assert rebuilt == chosen + others;
    // only the selected front of the new list counts
    OnlyAppend(chosen, others, selected);
    OnlyHas(chosen, selected);
    OnlyHas(others, selected);
    assert chosen + [] == chosen;
    assert Only(rebuilt, selected) == chosen;
    OnlyAppend(defaults, rebuilt, selected);
    OnlyAppend(defaults, options, selected);
    FrontAgain(Only(defaults, selected), Only(options, selected));
  }

  /** First occurrences taken again behind the part they came from are the same first occurrences. */
  lemma FrontAgain<T>(a: seq<T>, b: seq<T>)
    ensures Unseen(a + Unseen(a + b, {}), {}) == Unseen(a + b, {})
  {
    var front, back := Unseen(a, {}), Unseen(b, {} + Elements(a));
    UnseenAppend(a, b, {});
    UnseenAppend(a, front + back, {});
    UnseenAppend(front, back, {} + Elements(a));
    UnseenHas(a, {});
    UnseenHas(b, {} + Elements(a));
    UnseenDrops(front, {} + Elements(a));
    assert {} + Elements(a) + Elements(front) == Elements(a);
    UnseenKeeps(back, {} + Elements(a) + Elements(front));
    assert [] + back == back;
  }

  // ---------------------------------------------------------------- the field

  datatype Mode = Searching | Selecting

  datatype MsOption = MsOption(text: string, value: string)

  /** What a search function answers; `failed` stands for its error. */
  datatype SearchResult = SearchResult(failed: bool, keys: seq<string>, labels: seq<string>)

  datatype Press = Enter | Tab | ShiftTab | Up | Down | Toggle | Typed(text: string)

  datatype Command = Nothing | StartSearch(query: string) | NextField | PrevField

  function Values(options: seq<MsOption>): (r: seq<string>)
    ensures |r| == |options| && forall i :: 0 <= i < |r| ==> r[i] == options[i].value
  {
    seq(|options|, i requires 0 <= i < |options| => options[i].value)
  }

  predicate Usable(r: SearchResult) {
    !r.failed && |r.keys| == |r.labels|
  }

  /** The labels known after a search; the last of several for one key stands. */
  function Learned(labels: map<string, string>, keys: seq<string>, found: seq<string>): map<string, string>
    requires |keys| == |found|
  {
    if keys == [] then labels
    else Learned(labels, keys[..|keys| - 1], found[..|keys| - 1])[keys[|keys| - 1] := found[|keys| - 1]]
  }

  function Label(labels: map<string, string>, key: string): string {
    if key in labels && labels[key] != "" then labels[key] else key
  }

  function FirstIndex(keys: seq<string>, key: string): (i: nat)
    requires key in keys
    ensures i < |keys| && keys[i] == key && forall j :: 0 <= j < i ==> keys[j] != key
  {
    if keys[0] == key then 0 else 1 + FirstIndex(keys[1..], key)
  }

  /** How a key is shown after a search: a result that was not selected carries the label it was first
      found with, anything else the label known for it, and the key itself where that is empty. */
  function Shown(labels: map<string, string>, chosen: seq<string>, r: SearchResult, key: string): string
    requires Usable(r)
  {
    if key !in chosen && key in r.keys then
      var found := r.labels[FirstIndex(r.keys, key)];
      if found == "" then key else found
    else Label(labels, key)
  }

  /** After a search, each result's key has the label that came with it last; what was known of other keys
      stays. */
  lemma {:induction false} LearnedMeans(labels: map<string, string>, keys: seq<string>, found: seq<string>)
    requires |keys| == |found|
    ensures forall key :: key in Learned(labels, keys, found) <==> key in labels || key in keys
    ensures forall i :: 0 <= i < |keys| && (forall j :: i < j < |keys| ==> keys[j] != keys[i]) ==>
              Learned(labels, keys, found)[keys[i]] == found[i]
    ensures forall key :: key in labels && key !in keys ==> Learned(labels, keys, found)[key] == labels[key]
    decreases |keys|
  {
    if keys != [] {
      var n := |keys| - 1;
      LearnedMeans(labels, keys[..n], found[..n]);
      assert forall key :: key in keys <==> key in keys[..n] || key == keys[n];
    }
  }

  /** A result that was not selected is shown with the label it was first found with, any other key with the
      label known for it; without a label the key itself is shown. */
  lemma ShownMeans(labels: map<string, string>, chosen: seq<string>, r: SearchResult, key: string)
    requires !r.failed && |r.keys| == |r.labels|
    ensures forall i ::
              && 0 <= i < |r.keys| && r.keys[i] == key && key !in chosen
              && (forall j :: 0 <= j < i ==> r.keys[j] != key) ==>
              Shown(labels, chosen, r, key) == if r.labels[i] == "" then key else r.labels[i]
    ensures key in chosen || key !in r.keys ==>
              Shown(labels, chosen, r, key) == if key !in labels || labels[key] == "" then key else labels[key]
  {
  }

  /** Toggling changes one key's selection, and no other's. */
  lemma ToggleFlips(selected: set<string>, key: string)
    ensures forall k :: k in Toggled(selected, key) <==> if k == key then k !in selected else k in selected
  {
  }

  class MultiSelectSearchField {
    const defaultValues: seq<string>
    const persistent: seq<string>
    var mode: Mode
    var searchText: string
    var cursor: int
    var loading: bool
    var options: seq<MsOption>
    var selected: set<string>
    var labels: map<string, string>
    var lastQuery: string
    var failed: bool

    /** Options are duplicate-free, the cursor is on one of them if there is any, and whatever is selected
        is a default or an option. */
    ghost predicate Valid()
      reads this
    {
      && NoDuplicates(Values(options))
      && 0 <= cursor && (options != [] ==> cursor < |options|)
      && selected <= Elements(defaultValues) + Elements(Values(options))
    }

    function SelectedList(): seq<string>
      reads this
    {
      Selected(defaultValues, Values(options), selected)
    }

    constructor (defaults: seq<string>, persistent: seq<string>, first: SearchResult)
      ensures Valid() && defaultValues == defaults && this.persistent == persistent
      ensures mode == Searching && selected == Elements(defaults) && SelectedList() == Unseen(defaults, {})
    {
      this.defaultValues, this.persistent := defaults, persistent;
      mode, searchText, cursor, loading := Searching, "", 0, false;
      options, selected, labels, lastQuery, failed := [], Elements(defaults), map[], "", false;
      new;
      OnlyHas(defaults, selected);
      assert defaults + Values([]) == defaults;
      ApplySearchResult("", first);
    }

    method SelectedKeys() returns (keys: seq<string>)
      ensures keys == SelectedList()
    {
      var values := Values(options);
      var all := defaultValues + values;
      keys := [];
      var seen: set<string> := {};
      for i := 0 to |all|
        invariant seen == Elements(Only(all[..i], selected)) && keys == Unseen(Only(all[..i], selected), {})
      {
        var k := all[i];
        SelectedStep(all, i, selected);
        if k in selected && k !in seen {
          keys := keys + [k];
          seen := seen + {k};
        }
      }
      assert all[..|all|] == all;
    }

    /** A failed search changes nothing but the query it answered; a good one rebuilds the list around
        the selection, which it keeps exactly, and puts the cursor first. */
    method ApplySearchResult(query: string, r: SearchResult)
      requires Valid()
      modifies this
      ensures Valid() && selected == old(selected) && mode == old(mode) && searchText == old(searchText)
      ensures !loading && lastQuery == query && failed == !Usable(r)
      ensures failed <==> r.failed || |r.keys| != |r.labels|
      ensures SelectedList() == old(SelectedList())
      ensures !Usable(r) ==> options == old(options) && cursor == old(cursor) && labels == old(labels)
      ensures Usable(r) ==>
                && labels == Learned(old(labels), r.keys, r.labels) && cursor == 0
                && Values(options) == Rebuilt(old(SelectedList()), r.keys, persistent)
                && forall i :: 0 <= i < |options| ==>
                     options[i].text == Shown(labels, old(SelectedList()), r, options[i].value)
    {
      loading, lastQuery := false, query;
      if !Usable(r) {
        failed := true;
        return;
      }
      Learn(r);
      var chosen := SelectedKeys();
      SelectedHas(defaultValues, Values(options), selected);
      SearchKeepsSelection(defaultValues, Values(options), selected, r.keys, persistent);
      RebuiltHas(chosen, r.keys, persistent);
      options := Rebuild(chosen, r);
      cursor := 0;
      failed := false;
    }

    method Learn(r: SearchResult)
      requires Usable(r)
      modifies this`labels
      ensures labels == Learned(old(labels), r.keys, r.labels)
    {
      for i := 0 to |r.keys|
        invariant labels == Learned(old(labels), r.keys[..i], r.labels[..i])
      {
        assert r.keys[..i + 1][..i] == r.keys[..i] && r.labels[..i + 1][..i] == r.labels[..i];
        labels := labels[r.keys[i] := r.labels[i]];
      }
      assert r.keys[..|r.keys|] == r.keys && r.labels[..|r.labels|] == r.labels;
    }

    /** Selected keys, then results, then the persistent ones, each once. */
    method Rebuild(chosen: seq<string>, r: SearchResult) returns (list: seq<MsOption>)
      requires Usable(r)
      ensures Values(list) == Rebuilt(chosen, r.keys, persistent)
      ensures forall i :: 0 <= i < |list| ==> list[i].text == Shown(labels, chosen, r, list[i].value)
    {
      var all := chosen + r.keys + persistent;
      list := [];
      var seen: set<string> := {};
      for i := 0 to |all|
        invariant seen == Elements(all[..i]) && Values(list) == Unseen(all[..i], {})
        invariant forall j :: 0 <= j < |list| ==> list[j].text == Shown(labels, chosen, r, list[j].value)
      {
        var k := all[i];
        UnseenStep(all, i);
        if k !in seen {
          var l := if i < |chosen| || i >= |chosen| + |r.keys| then Label(labels, k)
                   else if r.labels[i - |chosen|] == "" then k else r.labels[i - |chosen|];
          ShownAt(labels, chosen, r, persistent, i, seen);
          ValuesStep(list, MsOption(l, k));
          list := list + [MsOption(l, k)];
          seen := seen + {k};
        }
      }
      assert all[..|all|] == all;
    }

    method Press(p: Press) returns (c: Command)
      requires Valid()
      modifies this
      ensures Valid()
      ensures old(loading) ==> c == Nothing && unchanged(this)
      ensures options == old(options) && labels == old(labels)
      ensures !old(loading) && old(mode).Searching? ==> selected == old(selected) && cursor == old(cursor)
      ensures loading == (old(loading) || c.StartSearch?)
      ensures c.StartSearch? <==>
                !old(loading) && old(mode).Searching? && (p.Enter? || p.Tab?) && old(searchText) != lastQuery
      ensures c.StartSearch? ==> c.query == old(searchText) && searchText == ""
      ensures !c.StartSearch? ==>
                c == (if old(loading) then Nothing
                      else if old(mode).Searching? && p.ShiftTab? then PrevField
                      else if old(mode).Selecting? && p.Enter? then NextField else Nothing)
      ensures !old(loading) && old(mode).Selecting? ==>
                && selected ==
                   (if p.Toggle? && options != [] then Toggled(old(selected), options[cursor].value) else old(selected))
                && cursor == (if p.Up? && old(cursor) > 0 then old(cursor) - 1
                              else if p.Down? && old(cursor) < |options| - 1 then old(cursor) + 1 else old(cursor))
      ensures lastQuery == old(lastQuery) && failed == old(failed)
      ensures !old(loading) ==>
                searchText ==
                  (if c.StartSearch? then "" else if p.Typed? && old(mode).Searching? then p.text else old(searchText))
      ensures !old(loading) ==>
                mode == (if old(mode).Searching? then
                           if (p.Enter? || p.Tab?) && old(searchText) == lastQuery then Selecting else Searching
                         else if p.ShiftTab? then Searching else Selecting)
    {
      if loading { return Nothing; }
      match mode {
        case Searching => c := UpdateSearch(p);
        case Selecting => c := UpdateSelect(p);
      }
    }

    method UpdateSearch(p: Press) returns (c: Command)
      modifies this`mode, this`searchText, this`loading
      ensures if p.Enter? || p.Tab? then
                if old(searchText) == lastQuery then
                  c == Nothing && mode == Selecting && searchText == old(searchText) && loading == old(loading)
                else
                  c == StartSearch(old(searchText)) && mode == old(mode) && searchText == "" && loading
              else
                && c == (if p.ShiftTab? then PrevField else Nothing) && mode == old(mode) && loading == old(loading)
                && searchText == if p.Typed? then p.text else old(searchText)
    {
      match p {
        case Enter | Tab =>
          if searchText == lastQuery {
            mode := Selecting;
            return Nothing;
          }
          var query := searchText;
          searchText, loading := "", true;
          return StartSearch(query);
        case ShiftTab => return PrevField;
        case Typed(text) =>
          searchText := text;
          return Nothing;
        case _ => return Nothing;
      }
    }

    method UpdateSelect(p: Press) returns (c: Command)
      requires Valid()
      modifies this`mode, this`cursor, this`selected
      ensures Valid()
      ensures mode == (if p.ShiftTab? then Searching else old(mode)) && c == (if p.Enter? then NextField else Nothing)
      ensures cursor == (if p.Up? && old(cursor) > 0 then old(cursor) - 1
                         else if p.Down? && old(cursor) < |options| - 1 then old(cursor) + 1 else old(cursor))
      ensures selected ==
              (if p.Toggle? && options != [] then Toggled(old(selected), options[cursor].value) else old(selected))
    {
      c := Nothing;
      match p {
        case ShiftTab => mode := Searching;
        case Enter => c := NextField;
        case Up => if cursor > 0 { cursor := cursor - 1; }
        case Down => if cursor < |options| - 1 { cursor := cursor + 1; }
        case Toggle =>
          if |options| > 0 {
            var k := options[cursor].value;
            assert Values(options)[cursor] == k;
            selected := if k in selected then selected - {k} else selected + {k};
          }
        case _ =>
      }
    }

    /** A finished search is shown in the list. */
    method SearchDone(query: string, r: SearchResult)
      requires Valid()
      modifies this
      ensures Valid() && mode == Selecting && !loading && lastQuery == query && failed == !Usable(r)
      ensures selected == old(selected) && SelectedList() == old(SelectedList())
    {
      ApplySearchResult(query, r);
      mode := Selecting;
    }

    /** A search that failed is not tried again: going back and entering the same query once more only
        switches to the list, with the failure still on record. */
    method EnterAgain(query: string, r: SearchResult) returns (c: Command)
      requires Valid()
      modifies this
      ensures Valid() && c == Nothing && mode == Selecting && !loading
      ensures lastQuery == query == searchText && failed == !Usable(r)
      ensures selected == old(selected)
    {
      SearchDone(query, r);
      c := Press(ShiftTab);
      c := Press(Typed(query));
      c := Press(Enter);
    }
  }

  function Toggled(selected: set<string>, key: string): set<string> {
    if key in selected then selected - {key} else selected + {key}
  }

  lemma ShownAt(
      labels: map<string, string>, chosen: seq<string>, r: SearchResult, persistent: seq<string>, i: nat,
      seen: set<string>)
    requires Usable(r)
    requires var all := chosen + r.keys + persistent; i < |all| && all[i] !in seen && seen == Elements(all[..i])
    ensures var all := chosen + r.keys + persistent;
            Shown(labels, chosen, r, all[i]) ==
            if i < |chosen| || i >= |chosen| + |r.keys| then Label(labels, all[i])
            else if r.labels[i - |chosen|] == "" then all[i] else r.labels[i - |chosen|]
  {
    var all := chosen + r.keys + persistent;
    var k := all[i];
    assert forall j :: 0 <= j < i ==> all[j] == all[..i][j] && all[j] in Elements(all[..i]);
    if i < |chosen| {
      assert k == chosen[i];
    } else {
      assert forall j :: 0 <= j < |chosen| ==> chosen[j] == all[j];
      assert forall j :: 0 <= j < |r.keys| ==> r.keys[j] == all[|chosen| + j];
      if i < |chosen| + |r.keys| {
        assert r.keys[i - |chosen|] == k;
        forall j | 0 <= j < i - |chosen|
          ensures r.keys[j] != k
        {
          assert all[|chosen| + j] == r.keys[j];
        }
        FirstIndexIs(r.keys, i - |chosen|);
      }
    }
  }

  lemma {:induction false} FirstIndexIs(keys: seq<string>, i: nat)
    requires i < |keys| && forall j :: 0 <= j < i ==> keys[j] != keys[i]
    ensures FirstIndex(keys, keys[i]) == i
  {
    if i > 0 { FirstIndexIs(keys[1..], i - 1); }
  }

  lemma UnseenStep<T>(s: seq<T>, i: nat)
    requires i < |s|
    ensures Elements(s[..i + 1]) == Elements(s[..i]) + {s[i]}
    ensures Unseen(s[..i + 1], {}) == Unseen(s[..i], {}) + (if s[i] in Elements(s[..i]) then [] else [s[i]])
  {
    assert s[..i + 1] == s[..i] + [s[i]];
    UnseenAppend(s[..i], [s[i]], {});
    assert {} + Elements(s[..i]) == Elements(s[..i]);
  }

  lemma SelectedStep<T>(s: seq<T>, i: nat, selected: set<T>)
    requires i < |s|
    ensures var front, k := Only(s[..i], selected), s[i];
            && Elements(Only(s[..i + 1], selected)) == Elements(front) + (if k in selected then {k} else {})
            && Unseen(Only(s[..i + 1], selected), {}) ==
               Unseen(front, {}) + (if k in selected && k !in Elements(front) then [k] else [])
  {
    var front, k := Only(s[..i], selected), s[i];
    assert s[..i + 1] == s[..i] + [k];
    OnlyAppend(s[..i], [k], selected);
    UnseenAppend(front, Only([k], selected), {});
    assert [k][1..] == [] && {} + Elements(front) == Elements(front);
    assert Elements(front + Only([k], selected)) == Elements(front) + Elements(Only([k], selected));
  }

  lemma ValuesStep(list: seq<MsOption>, o: MsOption)
    ensures Values(list + [o]) == Values(list) + [o.value]
  {
  }
}
