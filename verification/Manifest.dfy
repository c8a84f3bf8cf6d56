/** Model manifests: one record per destination, in an order that does not depend on the order of the models. */
module Manifest {
  import opened Wrappers
  import opened Transfers
  import opened Prompts
  import BoundaryTypes

  // ---- the order of strings and of manifest records ----

  /** Python's `<` on strings. */
  predicate StringLess(a: string, b: string) {
    if b == [] then false
    else if a == [] then true
    else if a[0] != b[0] then a[0] < b[0]
    else StringLess(a[1..], b[1..])
  }

  lemma {:induction false} StringsOrdered(a: string, b: string, c: string)
    ensures !StringLess(a, a)
    ensures StringLess(a, b) && StringLess(b, c) ==> StringLess(a, c)
    ensures a != b ==> StringLess(a, b) || StringLess(b, a)
    decreases |a| + |b| + |c|
  {
    if a != [] && b != [] {
      assert a == [a[0]] + a[1..] && b == [b[0]] + b[1..];
      StringsOrdered(a[1..], b[1..], if c == [] then c else c[1..]);
    } else if a != [] {
      StringsOrdered(a[1..], b, c);
    }
  }

  /** The sort key: category, folded name, name. */
  predicate KeyLess(x: Identity, y: Identity) {
    var a, b := x.DestinationKey(), y.DestinationKey();
    if a.0 != b.0 then StringLess(a.0, b.0)
    else if a.1 != b.1 then StringLess(a.1, b.1)
    else StringLess(x.name, y.name)
  }

  /** The first place at which two strings differ decides; a string comes after its own beginnings. */
  lemma {:induction false} FirstDifference(a: string, b: string, k: nat)
    requires k <= |a| && k <= |b| && a[..k] == b[..k]
    ensures k == |a| < |b| ==> StringLess(a, b)
    ensures k == |b| ==> !StringLess(a, b)
    ensures k < |a| && k < |b| && a[k] != b[k] ==> (StringLess(a, b) <==> a[k] < b[k])
  {
    if k > 0 {
      assert a[0] == a[..k][0] == b[0] && a[1..][..k - 1] == a[..k][1..] && b[1..][..k - 1] == b[..k][1..];
      FirstDifference(a[1..], b[1..], k - 1);
    }
  }

  /** The category decides, then the name but for case, and then the name. */
  lemma KeyDecides(x: Identity, y: Identity)
    ensures x.category != y.category ==> (KeyLess(x, y) <==> StringLess(x.category, y.category))
    ensures x.category == y.category && !BoundaryTypes.SameUpToCase(x.name, y.name) ==>
              (KeyLess(x, y) <==> StringLess(BoundaryTypes.Lower(x.name), BoundaryTypes.Lower(y.name)))
    ensures x.category == y.category && BoundaryTypes.SameUpToCase(x.name, y.name) ==>
              (KeyLess(x, y) <==> StringLess(x.name, y.name))
  {
    BoundaryTypes.LowerAlike(x.name, y.name);
    hide StringLess;
  }

  lemma KeysOrdered(x: Identity, y: Identity, z: Identity)
    ensures !KeyLess(x, x)
    ensures KeyLess(x, y) && KeyLess(y, z) ==> KeyLess(x, z)
    ensures x.DestinationKey() != y.DestinationKey() ==> KeyLess(x, y) || KeyLess(y, x)
  {
    var a, b, c := x.DestinationKey(), y.DestinationKey(), z.DestinationKey();
    StringsOrdered(a.0, b.0, c.0);
    StringsOrdered(a.1, b.1, c.1);
    StringsOrdered(x.name, y.name, z.name);
    StringsOrdered(b.0, a.0, b.0);
    StringsOrdered(b.1, a.1, b.1);
    hide StringLess, Identity.DestinationKey;
  }

  ghost predicate Sorted(s: seq<Identity>) {
    forall i, j :: 0 <= i < j < |s| ==> KeyLess(s[i], s[j])
  }

  /** Lists with the same elements that are both sorted are equal. */
  lemma {:induction false} SortedOnce(s: seq<Identity>, t: seq<Identity>)
    requires Sorted(s) && Sorted(t) && forall x :: x in s <==> x in t
    ensures s == t
    decreases |s|
  {
    hide KeyLess;
    assert (s != [] ==> s[0] in s) && (t != [] ==> t[0] in t);
    if s != [] && t != [] {
      var i :| 0 <= i < |t| && t[i] == s[0];
      var j :| 0 <= j < |s| && s[j] == t[0];
      if i > 0 && j > 0 { KeysOrdered(s[0], t[0], s[0]); }
      assert s[0] == t[0];
      forall x ensures x in s[1..] <==> x in t[1..] {
        KeysOrdered(s[0], s[0], s[0]);
        assert s[0] !in s[1..] && t[0] !in t[1..];
        assert x in s <==> x == s[0] || x in s[1..];
        assert x in t <==> x == t[0] || x in t[1..];
      }
      SortedOnce(s[1..], t[1..]);
    }
  }

  function Insert(x: Identity, s: seq<Identity>): (r: seq<Identity>)
    ensures forall y :: y in r <==> y == x || y in s
  {
    if s == [] || KeyLess(x, s[0]) then [x] + s else [s[0]] + Insert(x, s[1..])
  }

  lemma {:induction false} InsertSorted(x: Identity, s: seq<Identity>)
    requires Sorted(s) && forall y <- s :: y.DestinationKey() != x.DestinationKey()
    ensures Sorted(Insert(x, s))
    decreases |s|
  {
    hide KeyLess;
    if s == [] {
    } else if KeyLess(x, s[0]) {
      forall j | 0 <= j < |s| ensures KeyLess(x, s[j]) { KeysOrdered(x, s[0], s[j]); }
    } else {
      KeysOrdered(x, s[0], x);
      assert s[0] in s;
      InsertSorted(x, s[1..]);
      var rest := Insert(x, s[1..]);
      forall j | 0 <= j < |rest| ensures KeyLess(s[0], rest[j]) {
        assert rest[j] in rest;
        assert rest[j] == x || rest[j] in s[1..];
      }
    }
  }

  // ---- conflicts and the manifest ----

  /** One destination is not given two contents. */
  ghost predicate NoConflict(models: seq<Identity>) {
    forall i, j ::
      0 <= i < |models| && 0 <= j < |models| && models[i].DestinationKey() == models[j].DestinationKey() ==>
        models[i].size == models[j].size && models[i].sha256 == models[j].sha256
  }

  /** `m` is the first of the models for its destination. */
  ghost predicate IsFirst(models: seq<Identity>, m: Identity) {
    exists i :: 0 <= i < |models| && models[i] == m && forall k :: 0 <= k < i ==>
                                                         models[k].DestinationKey() != m.DestinationKey()
  }

  /** The records: the first model of each destination, sorted. */
  ghost predicate IsManifest(models: seq<Identity>, records: seq<Identity>) {
    Sorted(records) && forall m :: m in records <==> IsFirst(models, m)
  }

  /** What has been collected of the first i models: for each destination its first model. */
  ghost predicate Collected(models: seq<Identity>, i: nat, unique: map<(string, string), Identity>)
    requires i <= |models|
  {
    && (forall key <- unique :: unique[key].DestinationKey() == key && IsFirst(models[..i], unique[key]))
    && forall k :: 0 <= k < i ==>
         && models[k].DestinationKey() in unique
         && unique[models[k].DestinationKey()].size == models[k].size
         && unique[models[k].DestinationKey()].sha256 == models[k].sha256
  }

  lemma CollectedMore(models: seq<Identity>, i: nat, unique: map<(string, string), Identity>)
    requires i < |models| && Collected(models, i, unique)
    ensures var m := models[i]; var key := m.DestinationKey();
            if key in unique && (unique[key].size != m.size || unique[key].sha256 != m.sha256) then !NoConflict(models)
            else Collected(models, i + 1, if key in unique then unique else unique[key := m])
  {
    hide Identity.DestinationKey, IsFirst;
    var m := models[i];
    var key := m.DestinationKey();
    FirstsGrow(models, i);
    if key in unique && (unique[key].size != m.size || unique[key].sha256 != m.sha256) {
      ConflictFound(models, i, unique[key]);
    }
  }

  /** Sorts the collected models. */
  method SortRecords(unique: map<(string, string), Identity>) returns (sorted: seq<Identity>)
    requires forall key <- unique :: unique[key].DestinationKey() == key
    ensures Sorted(sorted) && forall m :: m in sorted <==>
                                m.DestinationKey() in unique && unique[m.DestinationKey()] == m
  {
    sorted := [];
    assert Sorted(sorted);
    hide Identity.DestinationKey, KeyLess, Sorted;
    var keys := Enumerate(unique.Keys);
    for i := 0 to |keys|
      invariant Sorted(sorted)
      invariant forall m :: m in sorted <==>
                  m.DestinationKey() in keys[..i] && m.DestinationKey() in unique && unique[m.DestinationKey()] == m
    {
      assert keys[i] in keys && keys[..i + 1] == keys[..i] + [keys[i]];
      InsertSorted(unique[keys[i]], sorted);
      sorted := Insert(unique[keys[i]], sorted);
    }
    assert keys[..|keys|] == keys;
  }

  /** `_validate_model_conflicts`: refuses exactly the conflicting lists. */
  method ValidateModelConflicts(models: seq<Identity>) returns (records: Option<seq<Identity>>)
    ensures records.Some? <==> NoConflict(models)
    ensures records.Some? ==> IsManifest(models, records.value)
  {
    var unique: map<(string, string), Identity> := map[];
    assert Collected(models, 0, unique);
    hide Identity.DestinationKey, KeyLess, IsFirst, Sorted, Collected, NoConflict;
    for i := 0 to |models|
      invariant Collected(models, i, unique)
    {
      CollectedMore(models, i, unique);
      var m := models[i];
      var key := m.DestinationKey();
      if key in unique {
        if unique[key].size != m.size || unique[key].sha256 != m.sha256 { return None; }
      } else {
        unique := unique[key := m];
      }
    }
    CollectedAll(models, unique);
    var sorted := SortRecords(unique);
    AllFirsts(models, sorted, unique);
    records := Some(sorted);
  }

  lemma CollectedAll(models: seq<Identity>, unique: map<(string, string), Identity>)
    requires Collected(models, |models|, unique)
    ensures NoConflict(models)
    ensures forall key <- unique :: unique[key].DestinationKey() == key && IsFirst(models, unique[key])
    ensures forall k :: 0 <= k < |models| ==> models[k].DestinationKey() in unique
  {
    hide Identity.DestinationKey, IsFirst;
    assert models[..|models|] == models;
  }

  lemma ConflictFound(models: seq<Identity>, i: nat, first: Identity)
    requires i < |models| && IsFirst(models[..i], first) && first.DestinationKey() == models[i].DestinationKey()
    requires first.size != models[i].size || first.sha256 != models[i].sha256
    ensures !NoConflict(models)
  {
    hide Identity.DestinationKey;
    var k :| 0 <= k < i && models[..i][k] == first;
    assert models[k] == first;
  }

  lemma FirstsGrow(models: seq<Identity>, i: nat)
    requires i < |models|
    ensures forall m :: IsFirst(models[..i], m) ==> IsFirst(models[..i + 1], m)
    ensures (forall k :: 0 <= k < i ==> models[k].DestinationKey() != models[i].DestinationKey()) ==>
            IsFirst(models[..i + 1], models[i])
  {
    hide Identity.DestinationKey;
    var few, more := models[..i], models[..i + 1];
    assert forall k :: 0 <= k < i ==> few[k] == more[k] == models[k];
    forall m | IsFirst(few, m) ensures IsFirst(more, m) {
      var k :| 0 <= k < i && few[k] == m && forall j :: 0 <= j < k ==> few[j].DestinationKey() != m.DestinationKey();
      assert more[k] == m;
    }
    assert more[i] == models[i];
  }

  lemma FirstIsOne(models: seq<Identity>, m: Identity, n: Identity)
    requires IsFirst(models, m) && IsFirst(models, n) && m.DestinationKey() == n.DestinationKey()
    ensures m == n
  {
    hide Identity.DestinationKey;
  }

  lemma AllFirsts(models: seq<Identity>, sorted: seq<Identity>, unique: map<(string, string), Identity>)
    requires forall key <- unique :: unique[key].DestinationKey() == key && IsFirst(models, unique[key])
    requires forall k :: 0 <= k < |models| ==> models[k].DestinationKey() in unique
    requires forall m :: m in sorted <==> m.DestinationKey() in unique && unique[m.DestinationKey()] == m
    ensures forall m :: m in sorted <==> IsFirst(models, m)
  {
    hide Identity.DestinationKey;
    forall m | IsFirst(models, m) ensures m in sorted {
      FirstIsOne(models, m, unique[m.DestinationKey()]);
    }
  }

  // ---- what the manifest does not depend on ----

  /** No two models spell one destination with different case. */
  ghost predicate OneSpelling(models: seq<Identity>) {
    forall i, j ::
      0 <= i < |models| && 0 <= j < |models| && models[i].DestinationKey() == models[j].DestinationKey() ==>
        models[i].name == models[j].name
  }

  lemma FirstsOfOneSpelling(models: seq<Identity>, m: Identity)
    requires NoConflict(models) && OneSpelling(models)
    ensures IsFirst(models, m) <==> m in models
  {
    if m in models {
      var i :| 0 <= i < |models| && models[i] == m;
      var j := FirstFor(models, i);
      assert models[j] == m;
    }
  }

  /** The first model with the destination of the i-th. */
  lemma FirstFor(models: seq<Identity>, i: nat) returns (j: nat)
    requires i < |models|
    ensures j <= i && models[j].DestinationKey() == models[i].DestinationKey() && IsFirst(models, models[j])
  {
    hide Identity.DestinationKey;
    j := 0;
    while models[j].DestinationKey() != models[i].DestinationKey()
      invariant j <= i && forall k :: 0 <= k < j ==> models[k].DestinationKey() != models[i].DestinationKey()
      decreases i - j
    {
      j := j + 1;
    }
  }

  /** Lists of the same models, in whatever order and number, are refused alike and have the same manifest. */
  lemma ManifestIgnoresOrder(models: seq<Identity>, others: seq<Identity>, records: seq<Identity>, more: seq<Identity>)
    requires forall m :: m in models <==> m in others
    requires OneSpelling(models)
    ensures NoConflict(models) <==> NoConflict(others)
    ensures NoConflict(models) && IsManifest(models, records) && IsManifest(others, more) ==> records == more
  {
    hide Identity.DestinationKey;
    SameConflicts(models, others);
    SameConflicts(others, models);
    if NoConflict(models) && IsManifest(models, records) && IsManifest(others, more) {
      SameSpelling(models, others);
      forall m ensures m in records <==> m in more {
        FirstsOfOneSpelling(models, m);
        FirstsOfOneSpelling(others, m);
      }
      SortedOnce(records, more);
    }
  }

  lemma SameConflicts(models: seq<Identity>, others: seq<Identity>)
    requires forall m :: m in others ==> m in models
    ensures NoConflict(models) ==> NoConflict(others)
  {
    hide Identity.DestinationKey;
    if NoConflict(models) {
      forall i, j | 0 <= i < |others| && 0 <= j < |others| && others[i].DestinationKey() == others[j].DestinationKey()
        ensures others[i].size == others[j].size && others[i].sha256 == others[j].sha256
      {
        assert others[i] in others && others[j] in others;
        var a :| 0 <= a < |models| && models[a] == others[i];
        var b :| 0 <= b < |models| && models[b] == others[j];
      }
    }
  }

  lemma SameSpelling(models: seq<Identity>, others: seq<Identity>)
    requires forall m :: m in others ==> m in models
    requires OneSpelling(models)
    ensures OneSpelling(others)
  {
    hide Identity.DestinationKey;
    forall i, j | 0 <= i < |others| && 0 <= j < |others| && others[i].DestinationKey() == others[j].DestinationKey()
      ensures others[i].name == others[j].name
    {
      assert others[i] in others && others[j] in others;
      var a :| 0 <= a < |models| && models[a] == others[i];
      var b :| 0 <= b < |models| && models[b] == others[j];
    }
  }

  /** The manifest of a manifest's records is that manifest. */
  lemma ManifestOfRecords(models: seq<Identity>, records: seq<Identity>)
    requires IsManifest(models, records)
    ensures NoConflict(records) && OneSpelling(records) && IsManifest(records, records)
    ensures forall i, j :: 0 <= i < j < |records| ==> records[i].DestinationKey() != records[j].DestinationKey()
  {
    hide Identity.DestinationKey, KeyLess;
    forall i, j | 0 <= i < |records| && 0 <= j < |records| && records[i].DestinationKey() == records[j].DestinationKey()
      ensures i == j
    {
      assert records[i] in records && records[j] in records;
      FirstIsOne(models, records[i], records[j]);
      KeysOrdered(records[i], records[i], records[i]);
    }
    forall m ensures m in records <==> IsFirst(records, m) { FirstsOfOneSpelling(records, m); }
  }

  /** The manifest of a list: each model is inserted unless an earlier one has its destination. */
  function ManifestOf(models: seq<Identity>): seq<Identity> {
    if models == [] then []
    else
      var before, last := ManifestOf(models[..|models| - 1]), models[|models| - 1];
      if exists m :: m in before && m.DestinationKey() == last.DestinationKey() then before else Insert(last, before)
  }

  lemma {:induction false} ManifestOfIs(models: seq<Identity>)
    ensures IsManifest(models, ManifestOf(models))
    decreases |models|
  {
    if models == [] {
      hide Identity.DestinationKey, KeyLess;
    } else {
      hide IsManifest, Identity.DestinationKey, Insert;
      var few, last := models[..|models| - 1], models[|models| - 1];
      ManifestOfIs(few);
      if m :| m in ManifestOf(few) && m.DestinationKey() == last.DestinationKey() {
        AnotherForKnown(models, ManifestOf(few), m);
      } else {
        AnotherForNew(models, ManifestOf(few));
      }
    }
  }

  lemma AnotherForKnown(models: seq<Identity>, before: seq<Identity>, m: Identity)
    requires models != [] && IsManifest(models[..|models| - 1], before)
    requires m in before && m.DestinationKey() == models[|models| - 1].DestinationKey()
    ensures IsManifest(models, before)
  {
    hide Identity.DestinationKey, KeyLess, Sorted, IsFirst;
    FirstIsThere(models[..|models| - 1], m);
    forall x ensures x in before <==> IsFirst(models, x) { FirstsOfLonger(models, x); }
  }

  lemma AnotherForNew(models: seq<Identity>, before: seq<Identity>)
    requires models != [] && IsManifest(models[..|models| - 1], before)
    requires forall m <- before :: m.DestinationKey() != models[|models| - 1].DestinationKey()
    ensures IsManifest(models, Insert(models[|models| - 1], before))
  {
    hide Identity.DestinationKey, KeyLess, Sorted, IsFirst;
    var few, last := models[..|models| - 1], models[|models| - 1];
    NoneIsThere(few, before, last);
    InsertSorted(last, before);
    assert forall k :: 0 <= k < |few| ==> few[k] == models[k];
    forall x ensures x in Insert(last, before) <==> IsFirst(models, x) { FirstsOfLonger(models, x); }
  }

  lemma FirstsOfLonger(models: seq<Identity>, m: Identity)
    requires models != []
    ensures var n := |models| - 1;
            IsFirst(models, m) <==>
              || IsFirst(models[..n], m)
              || (m == models[n] && forall k :: 0 <= k < n ==> models[k].DestinationKey() != m.DestinationKey())
  {
    hide Identity.DestinationKey;
    var n := |models| - 1;
    var few := models[..n];
    assert forall k :: 0 <= k < n ==> few[k] == models[k];
    if IsFirst(models, m) {
      var i :| 0 <= i < |models| && models[i] == m && forall k :: 0 <= k < i ==>
                                                        models[k].DestinationKey() != m.DestinationKey();
      if i < n { assert few[i] == m; }
    }
    if IsFirst(few, m) {
      var i :| 0 <= i < |few| && few[i] == m && forall k :: 0 <= k < i ==>
                                                  few[k].DestinationKey() != m.DestinationKey();
      assert models[i] == m;
    }
  }

  lemma FirstIsThere(few: seq<Identity>, m: Identity)
    requires IsFirst(few, m)
    ensures exists k :: 0 <= k < |few| && few[k].DestinationKey() == m.DestinationKey()
  {
    hide Identity.DestinationKey;
  }

  lemma NoneIsThere(few: seq<Identity>, before: seq<Identity>, last: Identity)
    requires forall m :: m in before <==> IsFirst(few, m)
    requires forall m <- before :: m.DestinationKey() != last.DestinationKey()
    ensures forall k :: 0 <= k < |few| ==> few[k].DestinationKey() != last.DestinationKey()
  {
    hide Identity.DestinationKey;
    forall k | 0 <= k < |few| ensures few[k].DestinationKey() != last.DestinationKey() {
      var j := FirstFor(few, k);
      assert few[j] in before;
    }
  }

  ghost predicate SameMembers(models: seq<Identity>, others: seq<Identity>) {
    forall m :: m in models <==> m in others
  }

  /** A model that is not the first for its destination; moved to the front it takes the place of the first. */
  lemma SpellingDependsOnOrder(models: seq<Identity>, x: Identity, first: Identity)
    requires x in models && IsFirst(models, first) && x.DestinationKey() == first.DestinationKey() && x != first
    ensures SameMembers(models, [x] + models) && ManifestOf([x] + models) != ManifestOf(models)
  {
    var others := [x] + models;
    ManifestOfIs(models);
    ManifestOfIs(others);
    hide Identity.DestinationKey, KeyLess, Sorted;
    assert others[0] == x;
    assert IsFirst(others, x);
    if IsFirst(models, x) { FirstIsOne(models, x, first); }
    assert x in ManifestOf(others) && x !in ManifestOf(models);
  }

  /**
   * Exactly when its manifest does not depend on order: a list without conflict has the same manifest as every
   * list of the same models if and only if it spells no destination in two ways.
   */
  lemma OrderIndependentExactly(models: seq<Identity>)
    requires NoConflict(models)
    ensures (forall others :: SameMembers(models, others) ==> ManifestOf(others) == ManifestOf(models)) <==>
            OneSpelling(models)
  {
    hide Identity.DestinationKey, IsManifest, ManifestOf;
    if OneSpelling(models) {
      forall others | SameMembers(models, others) ensures ManifestOf(others) == ManifestOf(models) {
        ManifestOfIs(models);
        ManifestOfIs(others);
        ManifestIgnoresOrder(models, others, ManifestOf(models), ManifestOf(others));
      }
    } else {
      var i, j :| 0 <= i < |models| && 0 <= j < |models| && models[i].DestinationKey() == models[j].DestinationKey()
                  && models[i].name != models[j].name;
      var k := FirstFor(models, i);
      var x := if models[i] == models[k] then models[j] else models[i];
      SpellingDependsOnOrder(models, x, models[k]);
    }
  }
}
