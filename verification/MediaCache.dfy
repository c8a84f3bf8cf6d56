/**
 * Files received from remote machines: counted by owner, evicted by age and size. Every method is one
 * critical section under the media lock, unless it says otherwise; deletes succeed.
 */
module MediaCache {
  import opened Wrappers
  import opened Prompts
  import opened BoundaryTypes

  const MAX_ITEM_BYTES: nat := 128 * 1024 * 1024
  const MAX_CACHE_BYTES: nat := 512 * 1024 * 1024
  const MAX_AGE: real := 21600.0
  const TEMP_MAX_AGE: real := 600.0

  /** A finished file, or the partial file of a write under way. */
  datatype Path = Media(name: string) | Part(name: string)

  datatype File = File(content: seq<bv8>, mtime: real) {
    function Size(): nat { |content| }
    function Age(now: real): real { if mtime < now then now - mtime else 0.0 }
  }

  type Files = map<Path, File>

  datatype Problem = TooLarge | Collision | Full

  // ---- bytes ----

  /** Partial files do not count. */
  function Weight(p: Path, f: File): nat { if p.Part? then 0 else f.Size() }

  ghost function Total(files: Files): nat {
    if files == map[] then 0
    else
      var p :| p in files;
      Weight(p, files[p]) + Total(files - {p})
  }

  lemma {:induction false} TotalWithout(files: Files, p: Path)
    requires p in files
    ensures Total(files) == Weight(p, files[p]) + Total(files - {p})
    decreases |files|
  {
    var q :| q in files && Total(files) == Weight(q, files[q]) + Total(files - {q});
    if q != p {
      TotalWithout(files - {q}, p);
      TotalWithout(files - {p}, q);
      assert files - {q} - {p} == files - {p} - {q};
    }
  }

  lemma TotalWith(files: Files, p: Path, f: File)
    ensures p !in files ==> Total(files[p := f]) == Weight(p, f) + Total(files)
    ensures p in files && f.Size() == files[p].Size() ==> Total(files[p := f]) == Total(files)
  {
    TotalWithout(files[p := f], p);
    if p in files {
      TotalWithout(files, p);
      assert files[p := f] - {p} == files - {p};
    } else {
      assert files[p := f] - {p} == files;
    }
  }

  lemma {:induction false} TotalOfSome(some: Files, files: Files)
    requires forall p <- some :: p in files && files[p] == some[p]
    ensures Total(some) <= Total(files)
    decreases |some|
  {
    if some != map[] {
      var p :| p in some;
      TotalWithout(some, p);
      TotalWithout(files, p);
      TotalOfSome(some - {p}, files - {p});
    }
  }

  // ---- what eviction removes ----

  /** The age of a file is the time since its last use; one from the future is new. An older file has the greater. */
  lemma AgeIs(f: File, g: File, now: real, later: real)
    ensures f.mtime <= now ==> f.Age(now) == now - f.mtime
    ensures now <= f.mtime ==> f.Age(now) == 0.0
    ensures f.mtime <= g.mtime ==> g.Age(now) <= f.Age(now)
    ensures now <= later ==> f.Age(now) <= f.Age(later)
  {
  }

  /** A partial file stays for ten minutes, a finished one for six hours unless somebody owns it. */
  lemma UnexpiredExactly(files: Files, active: set<Path>, now: real, p: Path)
    ensures p in Unexpired(files, active, now) <==>
              p in files && if p.Part? then now - files[p].mtime < 600.0
                            else p in active || now - files[p].mtime < 21600.0
    ensures p in Unexpired(files, active, now) ==> Unexpired(files, active, now)[p] == files[p]
  {
  }

  /** The bytes that may stay when `required` more are to be written. */
  function Room(required: nat): nat { if required <= MAX_CACHE_BYTES then MAX_CACHE_BYTES - required else 0 }

  ghost predicate Expired(p: Path, f: File, active: set<Path>, now: real) {
    if p.Part? then f.Age(now) >= TEMP_MAX_AGE else p !in active && f.Age(now) >= MAX_AGE
  }

  function Unexpired(files: Files, active: set<Path>, now: real): Files {
    map p | p in files && !(if p.Part? then files[p].Age(now) >= TEMP_MAX_AGE
                            else p !in active && files[p].Age(now) >= MAX_AGE) :: files[p]
  }

  function ActiveOnly(files: Files, active: set<Path>): Files {
    map p | p in files && p in active && p.Media? :: files[p]
  }

  /** The oldest inactive files are gone, and no more of them than needed to get down to `target` bytes. */
  ghost predicate OldestEvicted(files: Files, active: set<Path>, target: nat, left: Files) {
    && (forall p <- left :: p in files && left[p] == files[p])
    && (forall p <- files :: p.Part? || p in active ==> p in left)
    && (forall p, q :: p in files && p !in left && q in left && q.Media? && q !in active ==>
          files[p].mtime <= files[q].mtime)
    && (left == files || exists last :: last in files && last !in left && target < Total(left) + files[last].Size())
  }

  // ---- sorting by age ----

  ghost predicate ByAge(files: Files, s: seq<Path>) {
    && (forall p <- s :: p in files)
    && forall i, j :: 0 <= i < j < |s| ==> s[i] in files && s[j] in files && files[s[i]].mtime <= files[s[j]].mtime
  }

  function InsertByAge(files: Files, p: Path, s: seq<Path>): (r: seq<Path>)
    requires p in files && forall q <- s :: q in files
    ensures forall q :: q in r <==> q == p || q in s
    ensures |r| == |s| + 1
  {
    if s == [] || files[p].mtime < files[s[0]].mtime then [p] + s else [s[0]] + InsertByAge(files, p, s[1..])
  }

  ghost predicate NoRepeats(s: seq<Path>) {
    forall i, j :: 0 <= i < j < |s| ==> s[i] != s[j]
  }

  lemma {:induction false} InsertedByAge(files: Files, p: Path, s: seq<Path>)
    requires p in files && ByAge(files, s)
    ensures ByAge(files, InsertByAge(files, p, s))
    decreases |s|
  {
    if s != [] && !(files[p].mtime < files[s[0]].mtime) {
      assert ByAge(files, s[1..]);
      InsertedByAge(files, p, s[1..]);
      var rest := InsertByAge(files, p, s[1..]);
      forall q <- rest ensures q in files && files[s[0]].mtime <= files[q].mtime { assert q == p || q in s[1..]; }
      FirstByAge(files, s[0], rest);
      hide ByAge;
    }
  }

  lemma FirstByAge(files: Files, p: Path, s: seq<Path>)
    requires p in files && ByAge(files, s) && forall q <- s :: q in files && files[p].mtime <= files[q].mtime
    ensures ByAge(files, [p] + s)
  {
  }

  lemma {:induction false} InsertedOnce(files: Files, p: Path, s: seq<Path>)
    requires p in files && (forall q <- s :: q in files) && p !in s && NoRepeats(s)
    ensures NoRepeats(InsertByAge(files, p, s))
    decreases |s|
  {
    if s != [] && !(files[p].mtime < files[s[0]].mtime) {
      InsertedOnce(files, p, s[1..]);
      assert s[0] !in s[1..];
    }
  }

  /** Python's `sorted` with the modification time as key. */
  method SortByAge(files: Files, paths: seq<Path>) returns (s: seq<Path>)
    requires NoRepeats(paths) && forall p <- paths :: p in files
    ensures ByAge(files, s) && NoRepeats(s) && forall p :: p in s <==> p in paths
  {
    s := [];
    for i := 0 to |paths|
      invariant ByAge(files, s) && NoRepeats(s) && forall p :: p in s <==> p in paths[..i]
    {
      InsertedByAge(files, paths[i], s);
      assert paths[..i + 1] == paths[..i] + [paths[i]];
      InsertedOnce(files, paths[i], s);
      s := InsertByAge(files, paths[i], s);
    }
    assert paths[..|paths|] == paths;
  }

  // ---- eviction ----

  /** What a scan has found to keep among the files it has seen. */
  ghost function Kept(files: Files, seen: set<Path>, active: set<Path>, now: real): Files {
    map p | p in files && p in seen && !Expired(p, files[p], active, now) :: files[p]
  }

  /** What is known when some of the directory has been scanned. */
  ghost predicate Scanned(files: Files, seen: set<Path>, active: set<Path>, now: real, left: Files, cached: seq<Path>,
                          total: nat) {
    && (forall p :: p in left <==> p in files && (p in seen ==> !Expired(p, files[p], active, now)))
    && (forall p <- left :: left[p] == files[p])
    && total == Total(Kept(files, seen, active, now))
    && NoRepeats(cached)
    && forall p :: p in cached <==> p in seen && p in left && p.Media? && p !in active
  }

  lemma ScanStep(files: Files, seen: set<Path>, p: Path, active: set<Path>, now: real, left: Files, cached: seq<Path>,
                 total: nat)
    requires Scanned(files, seen, active, now, left, cached, total) && p in files && p !in seen
    ensures var f, more := files[p], seen + {p};
            if p.Part? then
              Scanned(files, more, active, now, if f.Age(now) >= TEMP_MAX_AGE then left - {p} else left, cached, total)
            else if p in active then Scanned(files, more, active, now, left, cached, total + f.Size())
            else if f.Age(now) >= MAX_AGE then Scanned(files, more, active, now, left - {p}, cached, total)
            else Scanned(files, more, active, now, left, cached + [p], total + f.Size())
  {
    KeptGrows(files, seen, p, active, now);
    hide Total, Kept;
  }

  lemma SeenSoFar<T(!new)>(order: seq<T>, all: set<T>, i: nat, seen: set<T>)
    requires Enumerates(order, all) && i < |order| && forall x :: x in seen <==> x in order[..i]
    ensures order[i] in all && order[i] !in seen
    ensures forall x :: x in seen + {order[i]} <==> x in order[..i + 1]
  {
    assert order[..i + 1] == order[..i] + [order[i]];
    assert order[i] in order;
  }

  lemma SeenAll<T(!new)>(order: seq<T>, all: set<T>, seen: set<T>)
    requires Enumerates(order, all) && forall x :: x in seen <==> x in order[..|order|]
    ensures seen == all
  {
    assert order[..|order|] == order;
  }

  lemma ScanBegins(files: Files, active: set<Path>, now: real)
    ensures Scanned(files, {}, active, now, files, [], 0)
  {
    assert Kept(files, {}, active, now) == map[];
  }

  lemma ScanDone(files: Files, active: set<Path>, now: real, left: Files, cached: seq<Path>, total: nat)
    requires Scanned(files, files.Keys, active, now, left, cached, total)
    ensures left == Unexpired(files, active, now) && total == Total(left)
    ensures NoRepeats(cached) && forall p :: p in cached <==> p in left && p.Media? && p !in active
  {
    assert Kept(files, files.Keys, active, now) == left;
    hide Total;
  }

  /** Scans the directory: expired files go, the rest is added up, and inactive files are listed. */
  method Scan(files: Files, active: set<Path>, now: real) returns (left: Files, cached: seq<Path>, total: nat)
    ensures left == Unexpired(files, active, now) && total == Total(left)
    ensures NoRepeats(cached) && forall p :: p in cached <==> p in left && p.Media? && p !in active
  {
    var order := Enumerate(files.Keys);
    left, cached, total := files, [], 0;
    ghost var seen: set<Path> := {};
    ScanBegins(files, active, now);
    hide Scanned, Total, Unexpired, Kept, NoRepeats, Enumerates, File.Age, File.Size;
    for i := 0 to |order|
      invariant forall p :: p in seen <==> p in order[..i]
      invariant Scanned(files, seen, active, now, left, cached, total)
    {
      var p := order[i];
      SeenSoFar(order, files.Keys, i, seen);
      var f := files[p];
      ScanStep(files, seen, p, active, now, left, cached, total);
      if p.Part? {
        if f.Age(now) >= TEMP_MAX_AGE { left := left - {p}; }
      } else if p in active {
        total := total + f.Size();
      } else if f.Age(now) >= MAX_AGE {
        left := left - {p};
      } else {
        total := total + f.Size();
        cached := cached + [p];
      }
      seen := seen + {p};
    }
    SeenAll(order, files.Keys, seen);
    ScanDone(files, active, now, left, cached, total);
  }

  lemma KeptGrows(files: Files, seen: set<Path>, p: Path, active: set<Path>, now: real)
    requires p in files && p !in seen
    ensures Total(Kept(files, seen + {p}, active, now)) ==
            Total(Kept(files, seen, active, now)) + if Expired(p, files[p], active, now) then 0 else Weight(p, files[p])
  {
    var before, after := Kept(files, seen, active, now), Kept(files, seen + {p}, active, now);
    if Expired(p, files[p], active, now) {
      assert after == before;
    } else {
      assert after == before[p := files[p]];
      TotalWith(before, p, files[p]);
    }
  }

  lemma NothingInactive(files: Files, active: set<Path>)
    requires forall p <- files :: p.Media? ==> p in active
    ensures Total(files) == Total(ActiveOnly(files, active))
    decreases |files|
  {
    hide Total;
    if p :| p in files && p.Part? {
      TotalWithout(files, p);
      NothingInactive(files - {p}, active);
      assert ActiveOnly(files - {p}, active) == ActiveOnly(files, active);
    } else {
      assert ActiveOnly(files, active) == files;
    }
  }

  /**
   * Removes what has expired and then, oldest first, as many inactive files as needed to leave room. It
   * fails exactly when the active files alone take up too much; everything inactive is gone then.
   */
  method Evict(files: Files, active: set<Path>, required: nat, now: real) returns (left: Files, ok: bool)
    ensures OldestEvicted(Unexpired(files, active, now), active, Room(required), left)
    ensures ok <==> Total(left) <= Room(required)
    ensures ok <==> Total(ActiveOnly(files, active)) <= Room(required)
  {
    hide Total, ByAge, OldestEvicted, Unexpired, ActiveOnly, Evicting, NoRepeats, Room;
    var target := Room(required);
    var scanned, cached, total: nat := Scan(files, active, now);
    left := scanned;
    var sorted := SortByAge(scanned, cached);
    var i := 0;
    EvictBegins(scanned, sorted, total, target);
    while i < |sorted| && total > target
      invariant i <= |sorted| && Evicting(scanned, sorted, i, left, total, target)
    {
      EvictStep(scanned, sorted, i, left, total, target);
      total := total - scanned[sorted[i]].Size();
      left := left - {sorted[i]};
      i := i + 1;
    }
    ok := total <= target;
    EvictedOldest(scanned, active, target, left, total, sorted, i);
    ActiveSurvive(files, active, now, target, left);
    if ok {
      ActiveFit(files, active, left);
    } else {
      AllInactiveGone(scanned, active, left, total, target, sorted);
    }
  }

  /** What is known when the first i of the sorted files have been removed. */
  ghost predicate Evicting(scanned: Files, sorted: seq<Path>, i: nat, left: Files, total: nat, target: nat)
    requires i <= |sorted|
  {
    && (forall p <- sorted :: p in scanned && p.Media?)
    && NoRepeats(sorted)
    && (forall p :: p in left <==> p in scanned && p !in sorted[..i])
    && (forall p <- left :: left[p] == scanned[p])
    && total == Total(left)
    && (i > 0 ==> sorted[i - 1] in scanned && target < total + scanned[sorted[i - 1]].Size())
  }

  lemma EvictBegins(scanned: Files, sorted: seq<Path>, total: nat, target: nat)
    requires total == Total(scanned) && NoRepeats(sorted) && forall p <- sorted :: p in scanned && p.Media?
    ensures Evicting(scanned, sorted, 0, scanned, total, target)
  {
  }

  lemma EvictStep(scanned: Files, sorted: seq<Path>, i: nat, left: Files, total: nat, target: nat)
    requires i < |sorted| && Evicting(scanned, sorted, i, left, total, target) && total > target
    ensures sorted[i] in scanned && scanned[sorted[i]].Size() <= total
    ensures Evicting(scanned, sorted, i + 1, left - {sorted[i]}, total - scanned[sorted[i]].Size(), target)
  {
    var p := sorted[i];
    assert sorted[..i + 1] == sorted[..i] + [p] && p in sorted && p !in sorted[..i];
    TotalWithout(left, p);
    hide Total;
  }

  lemma ActiveFit(files: Files, active: set<Path>, left: Files)
    requires ActiveOnly(left, active) == ActiveOnly(files, active)
    ensures Total(ActiveOnly(files, active)) <= Total(left)
  {
    TotalOfSome(ActiveOnly(left, active), left);
  }

  lemma AllInactiveGone(scanned: Files, active: set<Path>, left: Files, total: nat, target: nat, sorted: seq<Path>)
    requires Evicting(scanned, sorted, |sorted|, left, total, target)
    requires forall p :: p in sorted <==> p in scanned && p.Media? && p !in active
    ensures Total(left) == Total(ActiveOnly(left, active))
  {
    assert sorted[..|sorted|] == sorted;
    NothingInactive(left, active);
  }

  lemma EvictedOldest(scanned: Files, active: set<Path>, target: nat, left: Files, total: nat, sorted: seq<Path>,
                      i: nat)
    requires ByAge(scanned, sorted) && i <= |sorted| && Evicting(scanned, sorted, i, left, total, target)
    requires forall p :: p in sorted <==> p in scanned && p.Media? && p !in active
    ensures OldestEvicted(scanned, active, target, left) && total == Total(left)
  {
    hide Total;
    forall p, q | p in scanned && p !in left && q in left && q.Media? && q !in active
      ensures scanned[p].mtime <= scanned[q].mtime
    {
      var a :| 0 <= a < i && sorted[a] == p;
      assert forall k :: 0 <= k < i ==> sorted[k] in sorted[..i];
      assert q in sorted;
      var b :| 0 <= b < |sorted| && sorted[b] == q;
    }
    if i == 0 {
      assert left == scanned;
    } else {
      assert sorted[i - 1] in sorted[..i];
    }
  }

  lemma ActiveSurvive(files: Files, active: set<Path>, now: real, target: nat, left: Files)
    requires OldestEvicted(Unexpired(files, active, now), active, target, left)
    ensures ActiveOnly(left, active) == ActiveOnly(files, active)
    ensures forall p <- left :: p in files && left[p] == files[p]
  {
    forall p | p in files && p in active && p.Media? ensures p in left { assert p in Unexpired(files, active, now); }
  }

  // ---- the cache ----

  class Cache {
    var files: Files
    var refs: map<Path, nat>
    var prompts: map<string, set<Path>>
    ghost var handles: multiset<Path>     // references that callers hold and have not released

    function Count(p: Path): nat
      reads this
    {
      CountIn(refs, p)
    }

    /** A path's count is the number of prompts that retain it plus its outstanding handles, and owned files exist. */
    ghost predicate Valid()
      reads this
    {
      && (forall p <- refs :: refs[p] > 0 && p.Media? && p in files)
      && Counted(refs, prompts, handles)
    }

    /** Somebody still relies on the file. */
    ghost predicate Owned(p: Path)
      reads this
    {
      OwnedIn(handles, prompts, p)
    }

    /** The cached bytes are within the limit. */
    ghost predicate Within()
      reads this
    {
      Total(files) <= MAX_CACHE_BYTES
    }

    constructor (files: Files)
      ensures Valid() && this.files == files && prompts == map[] && handles == multiset{}
    {
      this.files, refs, prompts, handles := files, map[], map[], multiset{};
    }

    /** Evicts for a write of `required` bytes; only files that nobody owns are unlinked. */
    method EvictFor(required: nat, now: real) returns (ok: bool)
      requires Valid()
      modifies this`files
      ensures Valid()
      ensures forall p <- old(files) :: p !in files ==> !Owned(p)
      ensures forall p <- files :: p in old(files) && files[p] == old(files)[p]
      ensures OldestEvicted(Unexpired(old(files), refs.Keys, now), refs.Keys, Room(required), files)
      ensures ok <==> Total(files) <= Room(required)
      ensures ok <==> Total(ActiveOnly(old(files), refs.Keys)) <= Room(required)
      ensures old(Within()) ==> Within()
    {
      hide Total, OldestEvicted, Unexpired, ActiveOnly;
      ghost var before := files;
      files, ok := Evict(files, refs.Keys, required, now);
      ActiveSurvive(before, refs.Keys, now, Room(required), files);
      ActiveStay(before, files, refs.Keys);
      TotalOfSome(files, before);
      OwnersCounted(refs, prompts, handles);
    }

    /** Takes out a reference. */
    method Refer(p: Path)
      requires Valid() && p in files && p.Media?
      modifies this`refs, this`handles
      ensures Valid() && handles == old(handles) + multiset{p} && refs == old(refs)[p := old(Count(p)) + 1]
    {
      refs := refs[p := Count(p) + 1];
      handles := handles + multiset{p};
    }

    /**
     * Stores a payload under the name made of its digest. A file of that name with other content is never
     * overwritten, and a new file leaves the cache within its limit.
     */
    method Write(payload: seq<bv8>, digest: seq<bv8> -> string, suffix: string, retain: bool, now: real)
      returns (r: Result<Path, Problem>)
      requires Valid()
      modifies this
      ensures Valid() && prompts == old(prompts)
      ensures r.Failure? ==>
                && handles == old(handles) && refs == old(refs)
                && r.error == (if |payload| > MAX_ITEM_BYTES then TooLarge
                               else if Media(digest(payload) + suffix) in old(files) then Collision else Full)
      ensures r.Failure? && !r.error.Full? ==> files == old(files)
      ensures r == Failure(Full) || (r.Success? && r.value !in old(files)) ==>
                var left := if r.Success? then files - {r.value} else files;
                OldestEvicted(Unexpired(old(files), old(refs).Keys, now), old(refs).Keys, Room(|payload|), left)
      ensures r.Success? ==>
                && r.value == Media(digest(payload) + suffix)
                && r.value in files && |files[r.value].content| == |payload|
                  && digest(files[r.value].content) == digest(payload)
                && files[r.value].mtime == now
                && handles == old(handles) + (if retain then multiset{r.value} else multiset{})
      ensures r.Success? && r.value !in old(files) ==> files[r.value].content == payload && Within()
      ensures r.Success? && r.value in old(files) ==>
              files == old(files)[r.value := File(old(files)[r.value].content, now)]
      ensures forall p <- old(files) :: p !in files ==> !old(Owned(p))
      ensures forall p <- files :: p in old(files) ==> files[p].content == old(files)[p].content
      ensures old(Within()) ==> Within()
      ensures r.Success? <==>
                var p := Media(digest(payload) + suffix);
                && |payload| <= MAX_ITEM_BYTES
                && if p in old(files)
                  then |old(files)[p].content| == |payload| && digest(old(files)[p].content) == digest(payload)
                   else Total(ActiveOnly(old(files), old(refs).Keys)) <= MAX_CACHE_BYTES - |payload|
    {
      hide Total, OldestEvicted, Unexpired, ActiveOnly;
      if |payload| > MAX_ITEM_BYTES { return Failure(TooLarge); }
      var p := Media(digest(payload) + suffix);
      ghost var was := files;
      if p in files {
        if !(|files[p].content| == |payload| && digest(files[p].content) == digest(payload)) {
          return Failure(Collision);
        }
        TotalWith(files, p, File(files[p].content, now));
        files := files[p := File(files[p].content, now)];
      } else {
        var ok := EvictFor(|payload|, now);
        if !ok { return Failure(Full); }
        TotalWith(files, p, File(payload, now));
        assert files[p := File(payload, now)] - {p} == files;
        files := files[p := File(payload, now)];
      }
      if retain { Refer(p); }
      r := Success(p);
    }

    /** Gives back a handle. The file goes with its last owner, unless that is to be left to eviction. */
    method Release(p: Path, removeWhenZero: bool)
      requires Valid() && p in handles
      modifies this`refs, this`files, this`handles
      ensures Valid() && handles == old(handles) - multiset{p}
      ensures forall q :: q != p ==> Count(q) == old(Count(q))
      ensures files == (if removeWhenZero && !Owned(p) then old(files) - {p} else old(files))
      ensures old(Within()) ==> Within()
    {
      hide Total, RetainersIn, Counted;
      TotalOfSome(files - {p}, files);
      ReleaseCounted(refs, prompts, handles, p);
      var count := Count(p);
      handles := handles - multiset{p};
      if count <= 1 {
        refs := refs - {p};
        if removeWhenZero { files := files - {p}; }
      } else {
        refs := refs[p := count - 1];
      }
    }

    /** A prompt keeps a path that the caller holds; keeping it again changes nothing. */
    method RetainForPrompt(promptId: string, p: Path) returns (kept: bool)
      requires Valid() && p in handles
      modifies this`prompts, this`refs
      ensures Valid() && kept == (Strip(promptId) != "")
      ensures !kept ==> prompts == old(prompts) && refs == old(refs)
      ensures kept ==>
                var had := if Strip(promptId) in old(prompts) then old(prompts)[Strip(promptId)] else {};
                prompts == old(prompts)[Strip(promptId) := had + {p}]
    {
      var id := Strip(promptId);
      if id == "" { return false; }
      OwnersCounted(refs, prompts, handles);
      var paths := if id in prompts then prompts[id] else {};
      RetainersWith(prompts, id, paths, p);
      if p !in paths { refs := refs[p := Count(p) + 1]; }
      prompts := prompts[id := paths + {p}];
      kept := true;
    }

    /** Takes a prompt's paths away from it; the caller now holds them. */
    method TakePrompt(id: string) returns (paths: set<Path>)
      requires Valid()
      modifies this`prompts, this`handles
      ensures Valid() && prompts == old(prompts) - {id}
      ensures paths == (if id in old(prompts) then old(prompts)[id] else {})
      ensures handles == old(handles) + multiset(paths)
    {
      paths := if id in prompts then prompts[id] else {};
      RetainersWithout(prompts, id);
      prompts := prompts - {id};
      handles := handles + multiset(paths);
    }

    /**
     * Several critical sections: releases paths that the caller holds. Of their files, those stay that are still owned.
     */
    method ReleaseAll(paths: set<Path>)
      requires Valid() && multiset(paths) <= handles
      modifies this`refs, this`files, this`handles
      ensures Valid() && handles == old(handles) - multiset(paths)
      ensures files == Remaining(old(files), paths, handles, prompts)
      ensures old(Within()) ==> Within()
    {
      hide Total, RetainersIn, Counted, OwnedIn, Remaining;
      NothingReleased(files, handles, prompts);
      var left := paths;
      while left != {}
        invariant Valid() && left <= paths
        invariant handles == old(handles) - multiset(paths - left)
        invariant files == Remaining(old(files), paths - left, handles, prompts)
        invariant old(Within()) ==> Within()
      {
        var p :| p in left;
        HandlesStep(old(handles), paths, left, p);
        ReleasedMore(old(files), handles, prompts, paths - left, p);
        Release(p, true);
        left := left - {p};
      }
      assert paths - {} == paths;
    }

    /** Several critical sections: takes the prompt's paths, releases each, and evicts. */
    method ReleasePrompt(promptId: string, now: real)
      requires Valid()
      modifies this
      ensures Valid() && handles == old(handles)
      ensures prompts == if Strip(promptId) == "" then old(prompts) else old(prompts) - {Strip(promptId)}
      ensures forall p <- old(files) :: p !in files ==> !Owned(p)
      ensures Strip(promptId) == "" ==> files == old(files)
      ensures Strip(promptId) != "" ==>
                var kept := if Strip(promptId) in old(prompts) then old(prompts)[Strip(promptId)] else {};
                var left := Remaining(old(files), kept, handles, prompts);
                && OldestEvicted(Unexpired(left, refs.Keys, now), refs.Keys, Room(0), files)
                && forall p <- kept :: Owned(p) || p !in files
      ensures old(Within()) ==> Within()
    {
      hide Total, RetainersIn, OldestEvicted, Unexpired, ActiveOnly, Counted, Remaining;
      var id := Strip(promptId);
      if id == "" { return; }
      var paths := TakePrompt(id);
      ReleaseAll(paths);
      assert handles == old(handles);
      StillOwned(old(files), files, paths, handles, prompts);
      var ok := EvictFor(0, now);
    }
  }

  ghost function RetainersIn(prompts: map<string, set<Path>>, p: Path): set<string> {
    set id | id in prompts && p in prompts[id]
  }

  ghost predicate OwnedIn(handles: multiset<Path>, prompts: map<string, set<Path>>, p: Path) {
    p in handles || RetainersIn(prompts, p) != {}
  }

  /** The files that are left when the paths have been released. */
  ghost function Remaining(was: Files, paths: set<Path>, handles: multiset<Path>,
                           prompts: map<string, set<Path>>): Files {
    map p | p in was && (p in paths ==> OwnedIn(handles, prompts, p)) :: was[p]
  }

  lemma NothingReleased(was: Files, handles: multiset<Path>, prompts: map<string, set<Path>>)
    ensures Remaining(was, {}, handles, prompts) == was
  {
  }

  lemma StillOwned(was: Files, files: Files, paths: set<Path>, handles: multiset<Path>, prompts: map<string, set<Path>>)
    requires files == Remaining(was, paths, handles, prompts)
    ensures forall p <- was :: p !in files ==> !OwnedIn(handles, prompts, p)
    ensures forall p <- paths :: OwnedIn(handles, prompts, p) || p !in files
  {
  }

  lemma ReleasedMore(was: Files, handles: multiset<Path>, prompts: map<string, set<Path>>, paths: set<Path>, p: Path)
    requires p !in paths
    ensures var files, fewer := Remaining(was, paths, handles, prompts), handles - multiset{p};
            Remaining(was, paths + {p}, fewer, prompts) == if OwnedIn(fewer, prompts, p) then files else files - {p}
  {
    hide RetainersIn;
    forall q | q != p ensures OwnedIn(handles, prompts, q) <==> OwnedIn(handles - multiset{p}, prompts, q) {
      assert (handles - multiset{p})[q] == handles[q];
    }
  }

  function CountIn(refs: map<Path, nat>, p: Path): nat { if p in refs then refs[p] else 0 }

  ghost predicate Counted(refs: map<Path, nat>, prompts: map<string, set<Path>>, handles: multiset<Path>) {
    forall p :: CountIn(refs, p) == handles[p] + |RetainersIn(prompts, p)|
  }

  /** A path is counted exactly when somebody owns it. */
  lemma OwnersCounted(refs: map<Path, nat>, prompts: map<string, set<Path>>, handles: multiset<Path>)
    requires Counted(refs, prompts, handles)
    ensures forall p :: OwnedIn(handles, prompts, p) <==> CountIn(refs, p) > 0
  {
    hide RetainersIn;
  }

  lemma HandlesStep(handles: multiset<Path>, paths: set<Path>, left: set<Path>, p: Path)
    requires p in left && left <= paths && multiset(paths) <= handles
    ensures p in handles - multiset(paths - left)
    ensures handles - multiset(paths - left) - multiset{p} == handles - multiset(paths - (left - {p}))
    ensures paths - (left - {p}) == (paths - left) + {p}
  {
    assert multiset(paths)[p] == 1 && multiset(paths - left)[p] == 0;
  }

  /** Giving back one handle takes one off the count, and a path on its last count has no other owner. */
  lemma ReleaseCounted(refs: map<Path, nat>, prompts: map<string, set<Path>>, handles: multiset<Path>, p: Path)
    requires Counted(refs, prompts, handles) && p in handles
    ensures Counted(if CountIn(refs, p) <= 1 then refs - {p} else refs[p := CountIn(refs, p) - 1], prompts,
                    handles - multiset{p})
    ensures CountIn(refs, p) <= 1 <==> !OwnedIn(handles - multiset{p}, prompts, p)
  {
    hide RetainersIn;
    var fewer := if CountIn(refs, p) <= 1 then refs - {p} else refs[p := CountIn(refs, p) - 1];
    assert CountIn(refs, p) == handles[p] + |RetainersIn(prompts, p)|;
    forall q ensures CountIn(fewer, q) == (handles - multiset{p})[q] + |RetainersIn(prompts, q)| {
      assert CountIn(refs, q) == handles[q] + |RetainersIn(prompts, q)|;
    }
  }

  lemma RetainersSet(prompts: map<string, set<Path>>, id: string, paths: set<Path>, q: Path)
    ensures RetainersIn(prompts[id := paths], q) == (RetainersIn(prompts, q) - {id}) + (if q in paths then {id} else {})
    ensures id in RetainersIn(prompts, q) <==> id in prompts && q in prompts[id]
  {
  }

  lemma RetainersWithOne(prompts: map<string, set<Path>>, id: string, paths: set<Path>, p: Path, q: Path)
    requires paths == if id in prompts then prompts[id] else {}
    ensures |RetainersIn(prompts[id := paths + {p}], q)| ==
            |RetainersIn(prompts, q)| + if q == p && p !in paths then 1 else 0
  {
    RetainersSet(prompts, id, paths + {p}, q);
    hide RetainersIn;
    var before := RetainersIn(prompts, q);
    if q in paths {
      assert (before - {id}) + {id} == before;
    } else if q == p {
      assert before - {id} == before;
    } else {
      assert (before - {id}) + {} == before;
    }
  }

  lemma RetainersWith(prompts: map<string, set<Path>>, id: string, paths: set<Path>, p: Path)
    requires paths == if id in prompts then prompts[id] else {}
    ensures forall q :: |RetainersIn(prompts[id := paths + {p}], q)| ==
                        |RetainersIn(prompts, q)| + if q == p && p !in paths then 1 else 0
  {
    hide RetainersIn;
    forall q
      ensures |RetainersIn(prompts[id := paths + {p}], q)| ==
              |RetainersIn(prompts, q)| + if q == p && p !in paths then 1 else 0
    {
      RetainersWithOne(prompts, id, paths, p, q);
    }
  }

  lemma RetainersWithoutOne(prompts: map<string, set<Path>>, id: string, q: Path)
    ensures |RetainersIn(prompts, q)| ==
            |RetainersIn(prompts - {id}, q)| + if id in prompts && q in prompts[id] then 1 else 0
  {
    if id in prompts && q in prompts[id] {
      assert RetainersIn(prompts, q) == RetainersIn(prompts - {id}, q) + {id};
    } else {
      assert RetainersIn(prompts, q) == RetainersIn(prompts - {id}, q);
    }
  }

  lemma RetainersWithout(prompts: map<string, set<Path>>, id: string)
    ensures forall q :: |RetainersIn(prompts, q)| ==
                        |RetainersIn(prompts - {id}, q)| + if id in prompts && q in prompts[id] then 1 else 0
  {
    hide RetainersIn;
    forall q
      ensures |RetainersIn(prompts, q)| ==
              |RetainersIn(prompts - {id}, q)| + if id in prompts && q in prompts[id] then 1 else 0
    {
      RetainersWithoutOne(prompts, id, q);
    }
  }

  lemma ActiveStay(before: Files, after: Files, active: set<Path>)
    requires ActiveOnly(after, active) == ActiveOnly(before, active)
    ensures forall p :: p in active && p in before && p.Media? ==> p in after
  {
    forall p | p in active && p in before && p.Media? ensures p in after { assert p in ActiveOnly(before, active); }
  }
}
