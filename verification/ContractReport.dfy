/** The report of the contract audit: grouping, matching and the two lists of rows. */
module ContractReport {
  import opened Contracts
  import opened Grouping

  function LowerChar(c: char): char {
    if 'A' <= c <= 'Z' then c + ('a' - 'A') else c
  }

  function Lower(s: string): (t: string)
    ensures |t| == |s| && forall k :: 0 <= k < |t| ==> t[k] == LowerChar(s[k])
  {
    seq(|s|, k requires 0 <= k < |s| => LowerChar(s[k]))
  }

  /** The second is the small letter of the same place in the alphabet, or the same character if the first is no capital
      letter. */
  predicate LowersTo(c: char, d: char) {
    if c < 'A' || 'Z' < c then d == c
    else 'a' <= d <= 'z' && d as int - 'a' as int == c as int - 'A' as int
  }

  /** The second name is the first in small letters. */
  predicate SpellsLower(name: string, small: string) {
    |small| == |name| && forall k :: 0 <= k < |name| ==> LowersTo(name[k], small[k])
  }

  lemma LowerIff(name: string, small: string)
    ensures small == Lower(name) <==> SpellsLower(name, small)
  {
    forall k | 0 <= k < |name| && k < |small| ensures LowersTo(name[k], small[k]) <==> small[k] == LowerChar(name[k]) {
      LowerCharIff(name[k], small[k]);
    }
    hide LowersTo, LowerChar;
  }

  lemma LowerCharIff(c: char, d: char)
    ensures LowersTo(c, d) <==> d == LowerChar(c)
  {
  }

  /** The endpoint has an operation of this name in small letters. */
  predicate Offers(endpoint: Endpoint, name: string) {
    exists operation :: operation in endpoint.operations && SpellsLower(name, operation)
  }

  lemma OffersIff(endpoint: Endpoint, name: string)
    ensures Offers(endpoint, name) <==> Lower(name) in endpoint.operations
  {
    hide SpellsLower, Lower;
    LowerIff(name, Lower(name));
    forall operation | operation in endpoint.operations
      ensures operation == Lower(name) <==> SpellsLower(name, operation)
    {
      LowerIff(name, operation);
    }
  }

  function KeyOf(contract: Contract): Key { contract.key }

  /** The endpoint has an operation of the contract's method and a template that agrees with its path. */
  predicate Answers(endpoint: Endpoint, key: Key) {
    Offers(endpoint, key.method_) && PathsCompatible(key.path, endpoint.path)
  }

  function MatchesOf(endpoints: seq<Endpoint>, key: Key): seq<string> {
    if endpoints == [] then []
    else
      var last := endpoints[|endpoints| - 1];
      MatchesOf(endpoints[..|endpoints| - 1], key) + if Answers(last, key) then [last.path] else []
  }

  function Keys(rows: seq<Row>): (keys: seq<Key>)
    ensures |keys| == |rows| && forall k :: 0 <= k < |keys| ==> keys[k] == rows[k].key
  {
    seq(|rows|, k requires 0 <= k < |rows| => rows[k].key)
  }

  /** Both lists are sorted, no key has two rows, every discovered key has one, and each row holds its sources and
      matches. */
  predicate IsReport(discovered: seq<Contract>, endpoints: seq<Endpoint>, missing: seq<Row>, connected: seq<Row>) {
    && Ascending(Keys(missing)) && Ascending(Keys(connected))
    && (forall i, j :: 0 <= i < |missing| && 0 <= j < |connected| ==> missing[i].key != connected[j].key)
    && (forall k :: 0 <= k < |discovered| ==> discovered[k].key in Keys(missing) + Keys(connected))
    && (forall k :: 0 <= k < |missing| ==> missing[k].matches == [])
    && (forall k :: 0 <= k < |connected| ==> connected[k].matches != [])
    && RowsAreRight(discovered, endpoints, missing) && RowsAreRight(discovered, endpoints, connected)
  }

  predicate RowsAreRight(discovered: seq<Contract>, endpoints: seq<Endpoint>, rows: seq<Row>) {
    forall k :: 0 <= k < |rows| ==>
      && rows[k].sources == Members(discovered, KeyOf, rows[k].key) != []
      && rows[k].matches == MatchesOf(endpoints, rows[k].key)
  }

  // ---------------------------------------------------------------------------------------
  // Building the report
  // ---------------------------------------------------------------------------------------

  /** The dictionary of the contracts seen: its keys in order of insertion, and the contracts of each. */
  ghost predicate Grouped(discovered: seq<Contract>, keys: seq<Key>, unique: map<Key, seq<Contract>>) {
    && keys == FirstKeys(discovered, KeyOf)
    && (forall key :: key in unique <==> key in keys)
    && (forall key :: key in unique ==> unique[key] == Members(discovered, KeyOf, key))
  }

  lemma GroupGrows(discovered: seq<Contract>, contract: Contract, keys: seq<Key>, unique: map<Key, seq<Contract>>)
    requires Grouped(discovered, keys, unique)
    ensures var ready := if contract.key in unique then unique else unique[contract.key := []];
            Grouped(discovered + [contract], if contract.key in unique then keys else keys + [contract.key],
                    ready[contract.key := ready[contract.key] + [contract]])
  {
    hide Members;
    FirstKeysGrow(discovered, contract, KeyOf);
    AppearsIffMembers(discovered, KeyOf, contract.key);
    forall key ensures Members(discovered + [contract], KeyOf, key)
        == Members(discovered, KeyOf, key) + if contract.key == key then [contract] else [] {
      MembersGrow(discovered, contract, KeyOf, key);
    }
  }

  method Group(discovered: seq<Contract>) returns (keys: seq<Key>, unique: map<Key, seq<Contract>>)
    ensures Grouped(discovered, keys, unique)
  {
    keys, unique := [], map[];
    for i := 0 to |discovered|
      invariant Grouped(discovered[..i], keys, unique)
    {
      var contract := discovered[i];
      GroupGrows(discovered[..i], contract, keys, unique);
      assert discovered[..i + 1] == discovered[..i] + [contract];
      if contract.key !in unique {
        keys := keys + [contract.key];
        unique := unique[contract.key := []];
      }
      unique := unique[contract.key := unique[contract.key] + [contract]];
    }
    assert discovered[..|discovered|] == discovered;
  }

  method MatchEndpoints(endpoints: seq<Endpoint>, key: Key) returns (matches: seq<string>)
    ensures matches == MatchesOf(endpoints, key)
  {
    hide PathsCompatible, Lower, Offers;
    matches := [];
    for i := 0 to |endpoints|
      invariant matches == MatchesOf(endpoints[..i], key)
    {
      assert endpoints[..i + 1][..i] == endpoints[..i];
      OffersIff(endpoints[i], key.method_);
      if Lower(key.method_) in endpoints[i].operations && PathsCompatible(key.path, endpoints[i].path) {
        matches := matches + [endpoints[i].path];
      }
    }
    assert endpoints[..|endpoints|] == endpoints;
  }

  function RowOf(discovered: seq<Contract>, endpoints: seq<Endpoint>, key: Key): Row {
    Row(key, Members(discovered, KeyOf, key), MatchesOf(endpoints, key))
  }

  /** The rows of the keys that have a match, or of those that have none, in order. */
  function RowsOf(discovered: seq<Contract>, endpoints: seq<Endpoint>, keys: seq<Key>, matched: bool): seq<Row> {
    if keys == [] then []
    else
      var row := RowOf(discovered, endpoints, keys[|keys| - 1]);
      RowsOf(discovered, endpoints, keys[..|keys| - 1], matched) + if (row.matches != []) == matched then [row] else []
  }

  lemma {:induction false} RowsOfAscend(discovered: seq<Contract>, endpoints: seq<Endpoint>, keys: seq<Key>,
      matched: bool)
    requires Ascending(keys)
    ensures var rows := RowsOf(discovered, endpoints, keys, matched);
            && Ascending(Keys(rows))
            && (forall k :: 0 <= k < |rows| ==>
              rows[k].key in keys && rows[k] == RowOf(discovered, endpoints, rows[k].key))
            && (forall k :: 0 <= k < |rows| ==> (rows[k].matches != []) == matched)
  {
    hide Before, Members, MatchesOf, Ascending, Keys;
    if keys == [] {
      NoKeysAscend();
    } else {
      var n := |keys| - 1;
      var before := RowsOf(discovered, endpoints, keys[..n], matched);
      AscendingPrefix(keys, n);
      RowsOfAscend(discovered, endpoints, keys[..n], matched);
      forall k | 0 <= k < |before| ensures Before(before[k].key, keys[n]) {
        assert before[k].key in keys[..n];
      }
      assert forall key :: key in keys[..n] ==> key in keys;
      RowsAscend(before, RowOf(discovered, endpoints, keys[n]));
      assert before + [] == before && keys[n] in keys;
    }
  }

  lemma NoKeysAscend()
    ensures Ascending(Keys([]))
  {
  }

  lemma AscendingPrefix(keys: seq<Key>, n: nat)
    requires Ascending(keys) && n < |keys|
    ensures Ascending(keys[..n]) && forall key :: key in keys[..n] ==> Before(key, keys[n])
  {
  }

  lemma RowsAscend(rows: seq<Row>, row: Row)
    requires Ascending(Keys(rows)) && forall k :: 0 <= k < |rows| ==> Before(rows[k].key, row.key)
    ensures Ascending(Keys(rows + [row]))
  {
    hide Before;
    assert Keys(rows + [row]) == Keys(rows) + [row.key];
  }

  lemma {:induction false} KeyHasRow(discovered: seq<Contract>, endpoints: seq<Endpoint>, keys: seq<Key>, key: Key)
    requires key in keys
    ensures RowOf(discovered, endpoints, key) in RowsOf(discovered, endpoints, keys, MatchesOf(endpoints, key) != [])
  {
    hide Members, MatchesOf;
    var n := |keys| - 1;
    if key != keys[n] {
      assert keys == keys[..n] + [keys[n]];
      KeyHasRow(discovered, endpoints, keys[..n], key);
    }
  }

  lemma RowsOfMakeReport(discovered: seq<Contract>, endpoints: seq<Endpoint>)
    ensures var sorted := Sorted(FirstKeys(discovered, KeyOf));
            IsReport(discovered, endpoints, RowsOf(discovered, endpoints, sorted, false),
                RowsOf(discovered, endpoints, sorted, true))
  {
    hide Before, Members, MatchesOf, RowsOf, Sorted, Distinct, FirstKeys;
    var keys := FirstKeys(discovered, KeyOf);
    FirstKeysAreDistinct(discovered, KeyOf);
    EveryKeyAppears(discovered, KeyOf);
    SortedIsAscending(keys);
    var missing, connected := RowsOf(discovered, endpoints, Sorted(keys), false),
        RowsOf(discovered, endpoints, Sorted(keys), true);
    RowsOfAscend(discovered, endpoints, Sorted(keys), false);
    RowsOfAscend(discovered, endpoints, Sorted(keys), true);
    forall key | key in keys ensures Members(discovered, KeyOf, key) != [] {
      AppearsIffMembers(discovered, KeyOf, key);
    }
    forall k | 0 <= k < |discovered| ensures discovered[k].key in Keys(missing) + Keys(connected) {
      var key := KeyOf(discovered[k]);
      KeyHasRow(discovered, endpoints, Sorted(keys), key);
      var rows := if MatchesOf(endpoints, key) == [] then missing else connected;
      var i :| 0 <= i < |rows| && rows[i] == RowOf(discovered, endpoints, key);
      assert Keys(rows)[i] == key;
    }
  }

  method Audit(discovered: seq<Contract>, endpoints: seq<Endpoint>) returns (missing: seq<Row>, connected: seq<Row>)
    ensures IsReport(discovered, endpoints, missing, connected)
  {
    var keys, unique := Group(discovered);
    FirstKeysAreDistinct(discovered, KeyOf);
    SortedIsAscending(keys);
    RowsOfMakeReport(discovered, endpoints);
    var sorted := Sorted(keys);
    missing, connected := [], [];
    hide Ascending, Members, MatchesOf, Sorted, IsReport, FirstKeys, Distinct;
    for i := 0 to |sorted|
      invariant missing == RowsOf(discovered, endpoints, sorted[..i], false)
      invariant connected == RowsOf(discovered, endpoints, sorted[..i], true)
    {
      assert sorted[..i + 1][..i] == sorted[..i] && sorted[i] in sorted;
      var matches := MatchEndpoints(endpoints, sorted[i]);
      var row := Row(sorted[i], unique[sorted[i]], matches);
      if matches != [] {
        connected := connected + [row];
      } else {
        missing := missing + [row];
      }
    }
    assert sorted[..|sorted|] == sorted;
  }

  // ---------------------------------------------------------------------------------------
  // What the report says
  // ---------------------------------------------------------------------------------------

  /** All contracts that the rows list. */
  function SourcesIn(rows: seq<Row>): seq<Contract> {
    if rows == [] then [] else SourcesIn(rows[..|rows| - 1]) + rows[|rows| - 1].sources
  }

  lemma {:induction false} SourcesInAreListed(discovered: seq<Contract>, endpoints: seq<Endpoint>, rows: seq<Row>)
    requires RowsAreRight(discovered, endpoints, rows)
    ensures SourcesIn(rows) == Listed(discovered, KeyOf, Keys(rows))
  {
    if rows != [] {
      var n := |rows| - 1;
      SourcesInAreListed(discovered, endpoints, rows[..n]);
      assert Keys(rows)[..n] == Keys(rows[..n]);
    }
  }

  lemma KeysAreDistinct(discovered: seq<Contract>, endpoints: seq<Endpoint>, missing: seq<Row>, connected: seq<Row>)
    requires IsReport(discovered, endpoints, missing, connected)
    ensures Distinct(Keys(missing + connected))
  {
    var keys := Keys(missing + connected);
    hide Before;
    forall i, j | 0 <= i < j < |keys| ensures keys[i] != keys[j] {
      KeyOrder(keys[i], keys[j], keys[i]);
      if j < |missing| {
        assert Before(Keys(missing)[i], Keys(missing)[j]);
      } else if i >= |missing| {
        assert Before(Keys(connected)[i - |missing|], Keys(connected)[j - |missing|]);
      }
    }
  }

  /** Every discovered contract is listed in exactly one row, as often as it was discovered. */
  lemma EverySourceOnce(discovered: seq<Contract>, endpoints: seq<Endpoint>, missing: seq<Row>, connected: seq<Row>)
    requires IsReport(discovered, endpoints, missing, connected)
    ensures Distinct(Keys(missing + connected))
    ensures multiset(SourcesIn(missing + connected)) == multiset(discovered)
  {
    hide Distinct, SourcesIn, Listed, IsReport, RowsAreRight;
    KeysAreDistinct(discovered, endpoints, missing, connected);
    AllRows(discovered, endpoints, missing, connected);
    SourcesInAreListed(discovered, endpoints, missing + connected);
    ListedIsAll(discovered, KeyOf, Keys(missing + connected));
  }

  lemma AllRows(discovered: seq<Contract>, endpoints: seq<Endpoint>, missing: seq<Row>, connected: seq<Row>)
    requires IsReport(discovered, endpoints, missing, connected)
    ensures RowsAreRight(discovered, endpoints, missing + connected)
    ensures forall k :: 0 <= k < |discovered| ==> discovered[k].key in Keys(missing + connected)
  {
    hide Ascending, Members, MatchesOf;
    assert Keys(missing + connected) == Keys(missing) + Keys(connected);
  }

  /** Some operation of the backend with the contract's method shares a concrete path with it. */
  ghost predicate Served(endpoints: seq<Endpoint>, key: Key) {
    exists k :: 0 <= k < |endpoints| && Offers(endpoints[k], key.method_) && CommonInstance(key.path, endpoints[k].path)
  }

  /** The places are those of the endpoints that answer. */
  predicate ArePlaces(places: seq<int>, endpoints: seq<Endpoint>, key: Key) {
    && Increasing(places)
    && (forall k :: k in places ==> 0 <= k < |endpoints|)
    && (forall k :: 0 <= k < |endpoints| ==> (k in places <==> Answers(endpoints[k], key)))
  }

  /** The texts are the paths of the endpoints at these places. */
  predicate PathsAt(matches: seq<string>, endpoints: seq<Endpoint>, places: seq<int>) {
    && |matches| == |places|
    && forall i :: 0 <= i < |places| ==> 0 <= places[i] < |endpoints| && matches[i] == endpoints[places[i]].path
  }

  lemma PlacesGrow(places: seq<int>, endpoints: seq<Endpoint>, last: Endpoint, key: Key)
    requires ArePlaces(places, endpoints, key)
    ensures ArePlaces(if Answers(last, key) then places + [|endpoints|] else places, endpoints + [last], key)
  {
    hide Answers, Increasing;
    OneMorePlace(places, |endpoints|);
  }

  lemma PathsGrow(matches: seq<string>, endpoints: seq<Endpoint>, places: seq<int>, last: Endpoint)
    requires PathsAt(matches, endpoints, places)
    ensures PathsAt(matches, endpoints + [last], places)
    ensures PathsAt(matches + [last.path], endpoints + [last], places + [|endpoints|])
  {
  }

  lemma {:induction false} MatchesListAnswering(endpoints: seq<Endpoint>, key: Key) returns (places: seq<int>)
    ensures ArePlaces(places, endpoints, key) && PathsAt(MatchesOf(endpoints, key), endpoints, places)
  {
    hide Answers;
    places := [];
    if endpoints != [] {
      var n := |endpoints| - 1;
      var before, last := endpoints[..n], endpoints[n];
      places := MatchesListAnswering(before, key);
      PlacesGrow(places, before, last, key);
      PathsGrow(MatchesOf(before, key), before, places, last);
      assert endpoints == before + [last];
      hide ArePlaces, PathsAt;
      assert MatchesOf(before, key) + [] == MatchesOf(before, key);
      if Answers(last, key) { places := places + [n]; }
    }
  }

  /** A row lists exactly the paths of the endpoints that answer its contracts, and is missing if there are none. */
  lemma RowListsAnswering(discovered: seq<Contract>, endpoints: seq<Endpoint>, missing: seq<Row>,
      connected: seq<Row>, row: Row) returns (places: seq<int>)
    requires IsReport(discovered, endpoints, missing, connected) && row in missing + connected
    ensures ArePlaces(places, endpoints, row.key) && PathsAt(row.matches, endpoints, places)
    ensures row in missing <==> forall k :: 0 <= k < |endpoints| ==> !Answers(endpoints[k], row.key)
  {
    hide MatchesOf, Members, Keys, Ascending, Answers, ArePlaces, PathsAt;
    places := MatchesListAnswering(endpoints, row.key);
    MatchedIffAnswered(endpoints, row.key);
  }

  /** The rows of a list come by method, and for one method by path. */
  lemma RowsAreSorted(discovered: seq<Contract>, endpoints: seq<Endpoint>, missing: seq<Row>, connected: seq<Row>,
      i: nat, j: nat)
    requires IsReport(discovered, endpoints, missing, connected)
    ensures i < j < |missing| ==> KeySortsBefore(missing[i].key, missing[j].key)
    ensures i < j < |connected| ==> KeySortsBefore(connected[i].key, connected[j].key)
  {
    hide RowsAreRight, Before;
    if i < j < |missing| {
      assert Before(Keys(missing)[i], Keys(missing)[j]);
      BeforeSorts(missing[i].key, missing[j].key);
    }
    if i < j < |connected| {
      assert Before(Keys(connected)[i], Keys(connected)[j]);
      BeforeSorts(connected[i].key, connected[j].key);
    }
  }

  predicate KeySortsBefore(a: Key, b: Key) {
    if a.method_ == b.method_ then SortsBefore(a.path, b.path) else SortsBefore(a.method_, b.method_)
  }

  lemma BeforeSorts(a: Key, b: Key)
    requires Before(a, b)
    ensures KeySortsBefore(a, b)
  {
    TextBeforeIff(a.method_, b.method_);
    TextBeforeIff(a.path, b.path);
    KeyOrder(a, b, a);
    TextOrder(a.method_, b.method_, a.method_);
  }

  lemma {:induction false} MatchedIffAnswered(endpoints: seq<Endpoint>, key: Key)
    ensures MatchesOf(endpoints, key) != [] <==> exists k :: 0 <= k < |endpoints| && Answers(endpoints[k], key)
  {
    hide Answers;
    if endpoints != [] {
      var n := |endpoints| - 1;
      MatchedIffAnswered(endpoints[..n], key);
      assert forall k :: 0 <= k < n ==> endpoints[..n][k] == endpoints[k];
    }
  }

  /** With well-spelled paths, a discovered contract's row is a connected one exactly if the backend serves it. */
  lemma ConnectedIffServed(discovered: seq<Contract>, endpoints: seq<Endpoint>, missing: seq<Row>,
      connected: seq<Row>, k: nat)
    requires IsReport(discovered, endpoints, missing, connected) && k < |discovered|
    requires WellSpelled(discovered[k].key.path) && forall j :: 0 <= j < |endpoints| ==> WellSpelled(endpoints[j].path)
    ensures discovered[k].key in Keys(connected) <==> Served(endpoints, discovered[k].key)
    ensures discovered[k].key in Keys(missing) <==> !Served(endpoints, discovered[k].key)
  {
    hide WellSpelled, PathsCompatible, Offers;
    var key := discovered[k].key;
    assert MatchesOf(endpoints, key) != [] <==> Served(endpoints, key) by {
      forall j | 0 <= j < |endpoints|
          ensures PathsCompatible(key.path, endpoints[j].path) <==> CommonInstance(key.path, endpoints[j].path) {
        MatcherIsExact(key.path, endpoints[j].path);
      }
      MatchedIffAnswered(endpoints, key);
    }
    assert key in Keys(missing) + Keys(connected);
    if key in Keys(missing) {
      var i :| 0 <= i < |missing| && Keys(missing)[i] == key;
      assert missing[i].key == key;
    }
    if key in Keys(connected) {
      var i :| 0 <= i < |connected| && Keys(connected)[i] == key;
      assert connected[i].key == key;
    }
  }
}
