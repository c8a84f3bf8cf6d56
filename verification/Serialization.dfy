/** Value trees as manifests plus content-addressed blobs, and bundles of both. */
module Serialization {
  import opened Wrappers
  import opened Prompts
  import opened BoundaryTypes
  import Base64

  type byte = Base64.byte

  /** Without PyTorch: `Tensor` is the payload that stands for a tensor. `Unsupported` is any other Python value. */
  datatype Value =
    | Null | Text(text: string) | Integer(whole: int) | Float(number: real) | Boolean(truth: bool)
    | Bytes(data: seq<byte>)
    | Tensor(dtype: string, shape: seq<int>, data: seq<byte>)
    | List(items: seq<Value>) | Tuple(items: seq<Value>) | Dict(entries: map<string, Value>)
    | Unsupported

  predicate IsPrimitive(v: Value) { v.Null? || v.Text? || v.Integer? || v.Float? || v.Boolean? }

  datatype Descriptor = Descriptor(hash: string, size: int)

  /** A v1 manifest; `Malformed` is anything that is none. */
  datatype Manifest =
    | Primitive(value: Value)
    | BytesOf(blob: Descriptor)
    | TensorOf(dtype: string, shape: seq<int>, blob: Descriptor)
    | ListOf(items: seq<Manifest>) | TupleOf(items: seq<Manifest>) | DictOf(entries: map<string, Manifest>)
    | Malformed

  type Sha = seq<byte> -> string

  type Blobs = map<string, seq<byte>>

  predicate IsDigest(h: string) { |h| == 64 && forall c <- h :: c in "0123456789abcdef" }

  /** SHA-256 gives 64 lower-case hexadecimal digits; nothing else is assumed of it. */
  ghost predicate GivesDigests(sha: Sha) { forall b :: IsDigest(sha(b)) }

  function Clean(hash: string): string { Lower(Strip(hash)) }

  class MemoryBlobStore {
    const sha: Sha
    var blobs: Blobs

    constructor (sha: Sha)
      ensures this.sha == sha && blobs == map[]
    {
      this.sha, blobs := sha, map[];
    }

    method PutBytes(data: seq<byte>) returns (d: Descriptor)
      modifies this
      ensures blobs == old(blobs)[sha(data) := data] && d == Descriptor(sha(data), |data|)
    {
      blobs := blobs[sha(data) := data];
      d := Descriptor(sha(data), |data|);
    }
  }

  // ---- encoding ----

  /** The manifest of a value; `None` is a refusal. */
  function Encode(sha: Sha, v: Value): Option<Manifest>
    decreases v
  {
    match v
    case Bytes(data) => Some(BytesOf(Descriptor(sha(data), |data|)))
    case Tensor(dtype, shape, data) =>
      if dtype == "" then None else Some(TensorOf(dtype, shape, Descriptor(sha(data), |data|)))
    case List(items) => var ms := EncodeAll(sha, items); if ms.None? then None else Some(ListOf(ms.value))
    case Tuple(items) => var ms := EncodeAll(sha, items); if ms.None? then None else Some(TupleOf(ms.value))
    case Dict(entries) =>
      if forall key <- entries :: Encode(sha, entries[key]).Some? then
        Some(DictOf(map key | key in entries :: Encode(sha, entries[key]).value))
      else None
    case Unsupported => None
    case _ => Some(Primitive(v))
  }

  function EncodeAll(sha: Sha, items: seq<Value>): (ms: Option<seq<Manifest>>)
    ensures ms.Some? ==> |ms.value| == |items|
    decreases items
  {
    if items == [] then Some([])
    else
      var m := Encode(sha, items[0]);
      var rest := EncodeAll(sha, items[1..]);
      if m.None? || rest.None? then None else Some([m.value] + rest.value)
  }

  /** The blobs in a value. */
  function BlobsIn(v: Value): set<seq<byte>>
    decreases v
  {
    match v
    case Bytes(data) => {data}
    case Tensor(_, _, data) => {data}
    case List(items) => BlobsInAll(items)
    case Tuple(items) => BlobsInAll(items)
    case Dict(entries) => set key, b | key in entries && b in BlobsIn(entries[key]) :: b
    case _ => {}
  }

  function BlobsInAll(items: seq<Value>): set<seq<byte>>
    decreases items
  {
    if items == [] then {} else BlobsIn(items[0]) + BlobsInAll(items[1..])
  }

  /** The store has gained blobs among `added`, under their digests, and each digest of `added` is there. */
  ghost predicate Gained(sha: Sha, before: Blobs, after: Blobs, added: set<seq<byte>>) {
    && (forall h <- before :: h in after)
    && (forall b <- added :: sha(b) in after)
    && forall h <- after :: (h in before && after[h] == before[h]) || (after[h] in added && sha(after[h]) == h)
  }

  lemma GainedMore(sha: Sha, first: Blobs, second: Blobs, third: Blobs, some: set<seq<byte>>, more: set<seq<byte>>)
    requires Gained(sha, first, second, some) && Gained(sha, second, third, more)
    ensures Gained(sha, first, third, some + more)
  {
  }

  method EncodeValue(v: Value, store: MemoryBlobStore) returns (m: Option<Manifest>)
    modifies store
    ensures m == Encode(store.sha, v)
    ensures m.Some? ==> Gained(store.sha, old(store.blobs), store.blobs, BlobsIn(v))
    decreases v, 1
  {
    match v
    case Bytes(data) =>
      var d := store.PutBytes(data);
      m := Some(BytesOf(d));
    case Tensor(dtype, shape, data) =>
      if dtype == "" { return None; }
      var d := store.PutBytes(data);
      m := Some(TensorOf(dtype, shape, d));
    case List(items) =>
      var ms := EncodeItems(items, store);
      m := if ms.None? then None else Some(ListOf(ms.value));
    case Tuple(items) =>
      var ms := EncodeItems(items, store);
      m := if ms.None? then None else Some(TupleOf(ms.value));
    case Dict(entries) =>
      m := EncodeEntries(v, store);
    case Unsupported => m := None;
    case _ => m := Some(Primitive(v));
  }

  method EncodeItems(items: seq<Value>, store: MemoryBlobStore) returns (ms: Option<seq<Manifest>>)
    modifies store
    ensures ms == EncodeAll(store.sha, items)
    ensures ms.Some? ==> Gained(store.sha, old(store.blobs), store.blobs, BlobsInAll(items))
    decreases items, 1
  {
    if items == [] { return Some([]); }
    var m := EncodeValue(items[0], store);
    if m.None? { return None; }
    ghost var between := store.blobs;
    var rest := EncodeItems(items[1..], store);
    if rest.None? { return None; }
    GainedMore(store.sha, old(store.blobs), between, store.blobs, BlobsIn(items[0]), BlobsInAll(items[1..]));
    ms := Some([m.value] + rest.value);
  }

  /** The blobs of some of a dictionary's entries. */
  ghost function BlobsUnder(entries: map<string, Value>, keys: set<string>): set<seq<byte>> {
    set key, b | key in entries && key in keys && b in BlobsIn(entries[key]) :: b
  }

  method EncodeEntries(v: Value, store: MemoryBlobStore) returns (m: Option<Manifest>)
    requires v.Dict?
    modifies store
    ensures m == Encode(store.sha, v)
    ensures m.Some? ==> Gained(store.sha, old(store.blobs), store.blobs, BlobsIn(v))
    decreases v, 0
  {
    var entries := v.entries;
    assert BlobsUnder(entries, {}) == {};
    assert Gained(store.sha, store.blobs, store.blobs, {});
    hide Encode, BlobsIn, BlobsUnder, Gained;
    var keys := Enumerate(entries.Keys);
    var ms: map<string, Manifest> := map[];
    ghost var done: set<string> := {};
    for i := 0 to |keys|
      invariant forall key :: key in done <==> key in keys[..i]
      invariant ms.Keys == done && done <= entries.Keys
      invariant forall key <- done :: Encode(store.sha, entries[key]) == Some(ms[key])
      invariant Gained(store.sha, old(store.blobs), store.blobs, BlobsUnder(entries, done))
    {
      var key := keys[i];
      assert key in keys && keys[..i + 1] == keys[..i] + [key];
      ghost var between := store.blobs;
      var one := EncodeValue(entries[key], store);
      if one.None? {
        EntryRefused(store.sha, v, key);
        return None;
      }
      GainedMore(store.sha, old(store.blobs), between, store.blobs, BlobsUnder(entries, done), BlobsIn(entries[key]));
      BlobsUnderMore(entries, done, key);
      ms, done := ms[key := one.value], done + {key};
    }
    assert keys[..|keys|] == keys && done == entries.Keys;
    BlobsUnderAll(v);
    EntriesEncoded(store.sha, v, ms);
    m := Some(DictOf(ms));
  }

  lemma BlobsUnderMore(entries: map<string, Value>, done: set<string>, key: string)
    requires key in entries
    ensures BlobsUnder(entries, done + {key}) == BlobsUnder(entries, done) + BlobsIn(entries[key])
  {
    hide BlobsIn;
  }

  lemma BlobsUnderAll(v: Value)
    requires v.Dict?
    ensures BlobsUnder(v.entries, v.entries.Keys) == BlobsIn(v)
  {
  }

  lemma EntryRefused(sha: Sha, v: Value, key: string)
    requires v.Dict? && key in v.entries && Encode(sha, v.entries[key]).None?
    ensures Encode(sha, v).None?
  {
  }

  lemma EntriesEncoded(sha: Sha, v: Value, ms: map<string, Manifest>)
    requires v.Dict? && ms.Keys == v.entries.Keys && forall key <- ms :: Encode(sha, v.entries[key]) == Some(ms[key])
    ensures Encode(sha, v) == Some(DictOf(ms))
  {
    var e := Encode(sha, v);
    assert e.Some? && e.value.DictOf?;
    assert e.value.entries == ms;
  }

  // ---- decoding ----

  /** `None` stands for no limit. */
  type Limit = Option<int>

  predicate WithinLimit(size: int, limit: Limit) { limit.None? || size <= limit.value }

  function ReadBlob(sha: Sha, d: Descriptor, blobs: Blobs, limit: Limit): Option<seq<byte>> {
    var hash := Clean(d.hash);
    if !IsDigest(hash) || d.size < 0 || !WithinLimit(d.size, limit) || hash !in blobs then None
    else if |blobs[hash]| != d.size || sha(blobs[hash]) != hash then None
    else Some(blobs[hash])
  }

  predicate ValidShape(shape: seq<int>) { forall d <- shape :: d >= 0 }

  function Decode(sha: Sha, m: Manifest, blobs: Blobs, limit: Limit): Option<Value>
    decreases m
  {
    match m
    case Primitive(value) => if IsPrimitive(value) then Some(value) else None
    case BytesOf(d) => var b := ReadBlob(sha, d, blobs, limit); if b.None? then None else Some(Bytes(b.value))
    case TensorOf(dtype, shape, d) =>
      if dtype == "" || !ValidShape(shape) then None
      else var b := ReadBlob(sha, d, blobs, limit); if b.None? then None else Some(Tensor(dtype, shape, b.value))
    case ListOf(items) => var vs := DecodeAll(sha, items, blobs, limit); if vs.None? then None else Some(List(vs.value))
    case TupleOf(items) =>
      var vs := DecodeAll(sha, items, blobs, limit);
      if vs.None? then None else Some(Tuple(vs.value))
    case DictOf(entries) =>
      if forall key <- entries :: Decode(sha, entries[key], blobs, limit).Some? then
        Some(Dict(map key | key in entries :: Decode(sha, entries[key], blobs, limit).value))
      else None
    case Malformed => None
  }

  function DecodeAll(sha: Sha, items: seq<Manifest>, blobs: Blobs, limit: Limit): (vs: Option<seq<Value>>)
    ensures vs.Some? ==> |vs.value| == |items|
    decreases items
  {
    if items == [] then Some([])
    else
      var v := Decode(sha, items[0], blobs, limit);
      var rest := DecodeAll(sha, items[1..], blobs, limit);
      if v.None? || rest.None? then None else Some([v.value] + rest.value)
  }

  // ---- round trips ----

  lemma DigestIsClean(h: string)
    requires IsDigest(h)
    ensures Clean(h) == h
  {
    forall i | 0 <= i < |h| ensures !IsSpace(h[i]) && !('A' <= h[i] <= 'Z') { DigitIsPlain(h[i]); }
    hide IsSpace, IsDigest;
    assert Trimmed(h);
    TrimmedStays(h);
    assert Lower(h) == h;
  }

  lemma DigitIsPlain(c: char)
    requires c in "0123456789abcdef"
    ensures !IsSpace(c) && !('A' <= c <= 'Z')
  {
  }

  /** The blobs of a value are stored under their digests. */
  ghost predicate Holds(sha: Sha, blobs: Blobs, of: set<seq<byte>>) {
    forall b <- of :: sha(b) in blobs && blobs[sha(b)] == b
  }

  /** Every shape is valid and every blob within the limit. */
  predicate Decodable(v: Value, limit: Limit)
    decreases v
  {
    match v
    case Bytes(data) => WithinLimit(|data|, limit)
    case Tensor(_, shape, data) => ValidShape(shape) && WithinLimit(|data|, limit)
    case List(items) => forall i :: 0 <= i < |items| ==> Decodable(items[i], limit)
    case Tuple(items) => forall i :: 0 <= i < |items| ==> Decodable(items[i], limit)
    case Dict(entries) => forall key <- entries :: Decodable(entries[key], limit)
    case _ => true
  }

  lemma BlobReadBack(sha: Sha, data: seq<byte>, blobs: Blobs, limit: Limit)
    requires GivesDigests(sha) && sha(data) in blobs && blobs[sha(data)] == data
    ensures ReadBlob(sha, Descriptor(sha(data), |data|), blobs, limit) ==
            if WithinLimit(|data|, limit) then Some(data) else None
  {
    DigestIsClean(sha(data));
  }

  /** Decoding the manifest of a value gives the value back, exactly if it is decodable. */
  lemma {:induction false} DecodeEncoded(sha: Sha, v: Value, blobs: Blobs, limit: Limit)
    requires GivesDigests(sha) && Encode(sha, v).Some? && Holds(sha, blobs, BlobsIn(v))
    ensures Decode(sha, Encode(sha, v).value, blobs, limit) == if Decodable(v, limit) then Some(v) else None
    decreases v, 1
  {
    hide ReadBlob, GivesDigests, IsDigest;
    match v
    case Bytes(data) => BlobReadBack(sha, data, blobs, limit);
    case Tensor(dtype, shape, data) => BlobReadBack(sha, data, blobs, limit);
    case List(items) => DecodeEncodedAll(sha, items, blobs, limit);
    case Tuple(items) => DecodeEncodedAll(sha, items, blobs, limit);
    case Dict(_) => DecodeEncodedEntries(sha, v, blobs, limit);
    case _ =>
  }

  lemma {:induction false} DecodeEncodedAll(sha: Sha, items: seq<Value>, blobs: Blobs, limit: Limit)
    requires GivesDigests(sha) && EncodeAll(sha, items).Some? && Holds(sha, blobs, BlobsInAll(items))
    ensures DecodeAll(sha, EncodeAll(sha, items).value, blobs, limit) ==
            if forall i :: 0 <= i < |items| ==> Decodable(items[i], limit) then Some(items) else None
    decreases items, 1
  {
    hide GivesDigests, Encode, Decode, Decodable, BlobsIn;
    if items != [] {
      DecodeEncoded(sha, items[0], blobs, limit);
      DecodeEncodedAll(sha, items[1..], blobs, limit);
      var ms := EncodeAll(sha, items).value;
      assert ms[0] == Encode(sha, items[0]).value && ms[1..] == EncodeAll(sha, items[1..]).value;
      assert [items[0]] + items[1..] == items;
      assert forall i :: 0 <= i < |items[1..]| ==> items[1..][i] == items[i + 1];
      assert forall i :: 0 < i < |items| ==> items[i] == items[1..][i - 1];
    }
  }

  lemma {:induction false} DecodeEncodedEntries(sha: Sha, v: Value, blobs: Blobs, limit: Limit)
    requires v.Dict? && GivesDigests(sha) && Encode(sha, v).Some? && Holds(sha, blobs, BlobsIn(v))
    ensures Decode(sha, Encode(sha, v).value, blobs, limit) == if Decodable(v, limit) then Some(v) else None
    decreases v, 0
  {
    var entries := v.entries;
    var ms := Encode(sha, v).value.entries;
    forall key <- entries
      ensures Decode(sha, ms[key], blobs, limit) == if Decodable(entries[key], limit) then Some(entries[key]) else None
    {
      assert Holds(sha, blobs, BlobsIn(entries[key])) by {
        forall b <- BlobsIn(entries[key]) ensures b in BlobsIn(v) { }
      }
      DecodeEncoded(sha, entries[key], blobs, limit);
    }
    if Decodable(v, limit) {
      EntriesDecoded(sha, ms, entries, blobs, limit);
    } else {
      var key :| key in entries && !Decodable(entries[key], limit);
      assert Decode(sha, ms[key], blobs, limit).None?;
    }
  }

  lemma EntriesDecoded(sha: Sha, ms: map<string, Manifest>, entries: map<string, Value>, blobs: Blobs, limit: Limit)
    requires ms.Keys == entries.Keys && forall key <- ms :: Decode(sha, ms[key], blobs, limit) == Some(entries[key])
    ensures Decode(sha, DictOf(ms), blobs, limit) == Some(Dict(entries))
  {
    var d := Decode(sha, DictOf(ms), blobs, limit);
    assert d.Some? && d.value.Dict?;
    assert d.value.entries == entries;
  }

  // ---- what can be decoded ----

  /** The numbers that the tensors in a value have as dimensions. */
  function DimensionsIn(v: Value): set<int>
    decreases v
  {
    match v
    case Tensor(_, shape, _) => set d | d in shape
    case List(items) => DimensionsInAll(items)
    case Tuple(items) => DimensionsInAll(items)
    case Dict(entries) => set key, d | key in entries && d in DimensionsIn(entries[key]) :: d
    case _ => {}
  }

  function DimensionsInAll(items: seq<Value>): set<int>
    decreases items
  {
    if items == [] then {} else DimensionsIn(items[0]) + DimensionsInAll(items[1..])
  }

  ghost predicate Fit(blobs: set<seq<byte>>, limit: Limit) {
    forall b <- blobs :: limit.None? || |b| <= limit.value
  }

  ghost predicate Shaped(dimensions: set<int>) { forall d <- dimensions :: 0 <= d }

  /** A value is decodable exactly if no dimension is negative and no blob is larger than the limit. */
  lemma {:induction false} DecodableExactly(v: Value, limit: Limit)
    ensures Decodable(v, limit) <==> Shaped(DimensionsIn(v)) && Fit(BlobsIn(v), limit)
    decreases v, 1
  {
    match v
    case Tensor(_, shape, _) => assert forall d <- shape :: d in DimensionsIn(v);
    case List(items) => DecodableItems(items, limit);
    case Tuple(items) => DecodableItems(items, limit);
    case Dict(entries) =>
      forall key <- entries { DecodableExactly(entries[key], limit); }
      EntriesFit(v, limit);
    case _ =>
  }

  lemma EntriesFit(v: Value, limit: Limit)
    requires v.Dict?
    ensures Fit(BlobsIn(v), limit) <==> forall key <- v.entries :: Fit(BlobsIn(v.entries[key]), limit)
    ensures Shaped(DimensionsIn(v)) <==> forall key <- v.entries :: Shaped(DimensionsIn(v.entries[key]))
  {
    forall key <- v.entries, b <- BlobsIn(v.entries[key]) ensures b in BlobsIn(v) { }
    if key :| key in v.entries && !Shaped(DimensionsIn(v.entries[key])) {
      var d :| d in DimensionsIn(v.entries[key]) && d < 0;
      assert d in DimensionsIn(v);
    }
  }

  lemma {:induction false} DecodableItems(items: seq<Value>, limit: Limit)
    ensures (forall i :: 0 <= i < |items| ==> Decodable(items[i], limit)) <==>
            Shaped(DimensionsInAll(items)) && Fit(BlobsInAll(items), limit)
    decreases items, 1
  {
    hide Decodable, BlobsIn, DimensionsIn;
    if items != [] {
      DecodableExactly(items[0], limit);
      DecodableItems(items[1..], limit);
      assert forall i :: 0 <= i < |items[1..]| ==> items[1..][i] == items[i + 1];
      assert forall i :: 0 < i < |items| ==> items[i] == items[1..][i - 1];
    }
  }

  /** The manifest with its hashes written the canonical way. */
  function Canonical(m: Manifest): Manifest
    decreases m
  {
    match m
    case BytesOf(d) => BytesOf(Descriptor(Clean(d.hash), d.size))
    case TensorOf(dtype, shape, d) => TensorOf(dtype, shape, Descriptor(Clean(d.hash), d.size))
    case ListOf(items) => ListOf(seq(|items|, i requires 0 <= i < |items| => Canonical(items[i])))
    case TupleOf(items) => TupleOf(seq(|items|, i requires 0 <= i < |items| => Canonical(items[i])))
    case DictOf(entries) => DictOf(map key | key in entries :: Canonical(entries[key]))
    case _ => m
  }

  /**
   * Whatever a manifest decodes to, from whatever store, encodes to the same manifest again: content cannot differ
   * from its descriptor, and no blob exceeds the limit.
   */
  lemma {:induction false} DecodedEncodes(sha: Sha, m: Manifest, blobs: Blobs, limit: Limit)
    requires Decode(sha, m, blobs, limit).Some?
    ensures Encode(sha, Decode(sha, m, blobs, limit).value) == Some(Canonical(m))
    ensures Decodable(Decode(sha, m, blobs, limit).value, limit)
    decreases m, 1
  {
    match m
    case ListOf(items) =>
      DecodedEncodesAll(sha, items, blobs, limit);
      assert EncodeAll(sha, DecodeAll(sha, items, blobs, limit).value).value
          == seq(|items|, i requires 0 <= i < |items| => Canonical(items[i]));
    case TupleOf(items) =>
      DecodedEncodesAll(sha, items, blobs, limit);
      assert EncodeAll(sha, DecodeAll(sha, items, blobs, limit).value).value
          == seq(|items|, i requires 0 <= i < |items| => Canonical(items[i]));
    case DictOf(entries) => DecodedEncodesEntries(sha, m, blobs, limit);
    case _ =>
  }

  lemma {:induction false} DecodedEncodesAll(sha: Sha, items: seq<Manifest>, blobs: Blobs, limit: Limit)
    requires DecodeAll(sha, items, blobs, limit).Some?
    ensures var vs := DecodeAll(sha, items, blobs, limit).value;
            && EncodeAll(sha, vs).Some?
            && (forall i :: 0 <= i < |items| ==> EncodeAll(sha, vs).value[i] == Canonical(items[i]))
            && forall i :: 0 <= i < |vs| ==> Decodable(vs[i], limit)
    decreases items, 1
  {
    hide Encode, Decode, Decodable, Canonical;
    if items != [] {
      DecodedEncodes(sha, items[0], blobs, limit);
      DecodedEncodesAll(sha, items[1..], blobs, limit);
      var vs := DecodeAll(sha, items, blobs, limit).value;
      assert vs[1..] == DecodeAll(sha, items[1..], blobs, limit).value;
      assert forall i :: 0 < i < |items| ==> items[i] == items[1..][i - 1] && vs[i] == vs[1..][i - 1];
    }
  }

  lemma {:induction false} DecodedEncodesEntries(sha: Sha, m: Manifest, blobs: Blobs, limit: Limit)
    requires m.DictOf? && Decode(sha, m, blobs, limit).Some?
    ensures Encode(sha, Decode(sha, m, blobs, limit).value) == Some(Canonical(m))
    ensures Decodable(Decode(sha, m, blobs, limit).value, limit)
    decreases m, 0
  {
    var v := Decode(sha, m, blobs, limit).value;
    var ms := Canonical(m).entries;
    forall key <- m.entries
      ensures Encode(sha, v.entries[key]) == Some(ms[key]) && Decodable(v.entries[key], limit)
    {
      DecodedEncodes(sha, m.entries[key], blobs, limit);
    }
    EntriesEncoded(sha, v, ms);
  }

  // ---- bundles ----

  datatype Bundle = Bundle(manifest: Manifest, blobs: map<string, string>)

  ghost predicate NoCollisions(sha: Sha, of: set<seq<byte>>) {
    forall a, b :: a in of && b in of && sha(a) == sha(b) ==> a == b
  }

  /** A bundle of a value: its manifest, and each digest with the base64 text of a blob that has it. */
  ghost predicate IsBundleOf(sha: Sha, v: Value, bundle: Bundle) {
    && Encode(sha, v) == Some(bundle.manifest)
    && (forall b <- BlobsIn(v) :: sha(b) in bundle.blobs)
    && forall h <- bundle.blobs :: exists b :: b in BlobsIn(v) && sha(b) == h && bundle.blobs[h] == Base64.Encode(b)
  }

  method EncodeBundle(sha: Sha, v: Value) returns (bundle: Option<Bundle>)
    ensures bundle.Some? <==> Encode(sha, v).Some?
    ensures bundle.Some? ==> IsBundleOf(sha, v, bundle.value)
  {
    var store := new MemoryBlobStore(sha);
    var m := EncodeValue(v, store);
    if m.None? { return None; }
    var stored := store.blobs;
    bundle := Some(Bundle(m.value, map h | h in stored :: Base64.Encode(stored[h])));
    BundleOfStored(sha, v, stored, bundle.value);
  }

  lemma BundleOfStored(sha: Sha, v: Value, stored: Blobs, bundle: Bundle)
    requires Encode(sha, v) == Some(bundle.manifest) && Gained(sha, map[], stored, BlobsIn(v))
    requires bundle.blobs.Keys == stored.Keys && forall h <- stored :: bundle.blobs[h] == Base64.Encode(stored[h])
    ensures IsBundleOf(sha, v, bundle)
  {
    hide Encode, BlobsIn, Base64.Encode;
    forall h <- bundle.blobs ensures exists b :: b in BlobsIn(v) && sha(b) == h && bundle.blobs[h] == Base64.Encode(b) {
      assert stored[h] in BlobsIn(v) && sha(stored[h]) == h;
    }
  }

  predicate EntryOk(e: string, limit: Limit) {
    Base64.PayloadSize(e).Some? && WithinLimit(Base64.PayloadSize(e).value, limit) && Base64.Decode(e).Some?
  }

  predicate EntriesOk(entries: map<string, string>, limit: Limit) {
    forall k <- entries :: EntryOk(entries[k], limit)
  }

  ghost predicate FromEntry(entries: map<string, string>, h: string, b: seq<byte>) {
    exists k :: k in entries && Clean(k) == h && Base64.Decode(entries[k]) == Some(b)
  }

  /** The decoded blobs, under the cleaned keys. */
  ghost predicate Unpacked(entries: map<string, string>, stored: Blobs) {
    && (forall k <- entries :: Clean(k) in stored)
    && forall h <- stored :: FromEntry(entries, h, stored[h])
  }

  /** What decoding a bundle comes to. If keys clash when cleaned, the last of them counts. */
  ghost predicate DecodesTo(sha: Sha, bundle: Bundle, limit: Limit, r: Option<Value>) {
    if (limit.Some? && limit.value < 0) || !EntriesOk(bundle.blobs, limit) then r == None
    else exists stored :: Unpacked(bundle.blobs, stored) && r == Decode(sha, bundle.manifest, stored, limit)
  }

  /** The entries under the first keys have been unpacked. */
  ghost predicate UnpackedSome(entries: map<string, string>, keys: seq<string>, limit: Limit, stored: Blobs) {
    && (forall k <- keys :: k in entries && EntryOk(entries[k], limit) && Clean(k) in stored)
    && forall h <- stored :: FromEntry(entries, h, stored[h])
  }

  lemma UnpackedMore(entries: map<string, string>, keys: seq<string>, limit: Limit, stored: Blobs, k: string,
                     b: seq<byte>)
    requires UnpackedSome(entries, keys, limit, stored) && k in entries && EntryOk(entries[k], limit)
    requires Base64.Decode(entries[k]) == Some(b)
    ensures UnpackedSome(entries, keys + [k], limit, stored[Clean(k) := b])
  {
    hide Base64.Decode, Clean, EntryOk;
    assert FromEntry(entries, Clean(k), b);
    hide FromEntry;
  }

  lemma UnpackedAll(entries: map<string, string>, keys: seq<string>, limit: Limit, stored: Blobs)
    requires UnpackedSome(entries, keys, limit, stored) && Enumerates(keys, entries.Keys)
    ensures EntriesOk(entries, limit) && Unpacked(entries, stored)
  {
    hide Clean, EntryOk, FromEntry;
  }

  method DecodeBundle(sha: Sha, bundle: Bundle, limit: Limit) returns (r: Option<Value>)
    ensures DecodesTo(sha, bundle, limit, r)
  {
    hide Base64.PayloadSize, Base64.Decode, Clean, Decode, EntryOk, Unpacked;
    if limit.Some? && limit.value < 0 { return None; }
    var keys := Enumerate(bundle.blobs.Keys);
    var stored: Blobs := map[];
    assert UnpackedSome(bundle.blobs, [], limit, stored);
    hide UnpackedSome;
    for i := 0 to |keys|
      invariant UnpackedSome(bundle.blobs, keys[..i], limit, stored)
    {
      var k := keys[i];
      assert k in keys && keys[..i + 1] == keys[..i] + [k];
      var e := bundle.blobs[k];
      EntryParts(e, limit);
      var size := Base64.PayloadSize(e);
      if size.None? { return None; }
      if !WithinLimit(size.value, limit) { return None; }
      var b := Base64.Decode(e);
      if b.None? { return None; }
      UnpackedMore(bundle.blobs, keys[..i], limit, stored, k, b.value);
      stored := stored[Clean(k) := b.value];
    }
    assert keys[..|keys|] == keys;
    UnpackedAll(bundle.blobs, keys, limit, stored);
    r := Decode(sha, bundle.manifest, stored, limit);
  }

  lemma EntryParts(e: string, limit: Limit)
    ensures EntryOk(e, limit) <==>
            Base64.PayloadSize(e).Some? && WithinLimit(Base64.PayloadSize(e).value, limit) && Base64.Decode(e).Some?
  {
  }

  /** An entry is accepted exactly if it decodes to no more bytes than the limit, whatever is computed beforehand. */
  lemma EntryExactly(e: string, limit: Limit)
    ensures EntryOk(e, limit) <==>
            Base64.Decode(e).Some? && (limit.None? || |Base64.Decode(e).value| <= limit.value)
  {
    if Base64.Decode(e).Some? { Base64.SizeIsRight(e); }
    hide Base64.Decode, Base64.PayloadSize;
  }

  lemma EncodedEntry(b: seq<byte>, limit: Limit)
    ensures EntryOk(Base64.Encode(b), limit) <==> WithinLimit(|b|, limit)
    ensures Base64.Decode(Base64.Encode(b)) == Some(b)
  {
    Base64.RoundTrip(b);
    Base64.EncodedSize(b);
  }

  lemma UnpackedHolds(sha: Sha, v: Value, bundle: Bundle, stored: Blobs)
    requires GivesDigests(sha) && IsBundleOf(sha, v, bundle) && NoCollisions(sha, BlobsIn(v))
             && Unpacked(bundle.blobs, stored)
    ensures Holds(sha, stored, BlobsIn(v))
  {
    hide Encode, BlobsIn, Base64.Encode, Base64.Decode, Clean;
    forall b <- BlobsIn(v) ensures sha(b) in stored && stored[sha(b)] == b {
      DigestIsClean(sha(b));
      assert FromEntry(bundle.blobs, sha(b), stored[sha(b)]);
      var k :| k in bundle.blobs && Clean(k) == sha(b) && Base64.Decode(bundle.blobs[k]) == Some(stored[sha(b)]);
      var c :| c in BlobsIn(v) && sha(c) == k && bundle.blobs[k] == Base64.Encode(c);
      DigestIsClean(sha(c));
      EncodedEntry(c, None);
    }
  }

  /**
   * Decoding a bundle gives the value back, for every value that can be encoded and whose blobs' digests do not
   * collide: exactly if its shapes are valid and every blob fits the limit. Otherwise it is refused.
   */
  lemma BundleRoundTrip(sha: Sha, v: Value, bundle: Bundle, limit: Limit, r: Option<Value>)
    requires GivesDigests(sha) && IsBundleOf(sha, v, bundle) && NoCollisions(sha, BlobsIn(v))
    requires limit.Some? ==> limit.value >= 0
    requires DecodesTo(sha, bundle, limit, r)
    ensures r == if Shaped(DimensionsIn(v)) && Fit(BlobsIn(v), limit) then Some(v) else None
  {
    hide *;
    DecodableExactly(v, limit);
    BundleEntries(sha, v, bundle, limit);
    if Fit(BlobsIn(v), limit) {
      var stored := StoredFor(sha, bundle, limit, r);
      UnpackedHolds(sha, v, bundle, stored);
      BundleManifest(sha, v, bundle);
      DecodeEncoded(sha, v, stored, limit);
    } else {
      RefusedBundle(sha, bundle, limit, r);
    }
  }

  lemma BundleManifest(sha: Sha, v: Value, bundle: Bundle)
    requires IsBundleOf(sha, v, bundle)
    ensures Encode(sha, v) == Some(bundle.manifest)
  {
  }

  lemma StoredFor(sha: Sha, bundle: Bundle, limit: Limit, r: Option<Value>) returns (stored: Blobs)
    requires DecodesTo(sha, bundle, limit, r) && EntriesOk(bundle.blobs, limit) && (limit.Some? ==> limit.value >= 0)
    ensures Unpacked(bundle.blobs, stored) && r == Decode(sha, bundle.manifest, stored, limit)
  {
    hide Unpacked, Decode, EntriesOk;
    stored :| Unpacked(bundle.blobs, stored) && r == Decode(sha, bundle.manifest, stored, limit);
  }

  lemma RefusedBundle(sha: Sha, bundle: Bundle, limit: Limit, r: Option<Value>)
    requires DecodesTo(sha, bundle, limit, r) && !EntriesOk(bundle.blobs, limit)
    ensures r == None
  {
    hide EntriesOk;
  }

  /** The entries of a value's bundle pass exactly if its blobs fit the limit. */
  lemma BundleEntries(sha: Sha, v: Value, bundle: Bundle, limit: Limit)
    requires IsBundleOf(sha, v, bundle) && NoCollisions(sha, BlobsIn(v))
    ensures EntriesOk(bundle.blobs, limit) <==> Fit(BlobsIn(v), limit)
  {
    hide Encode, BlobsIn, Base64.Encode, Base64.Decode, EntryOk;
    forall b | b in BlobsIn(v) ensures EntryOk(bundle.blobs[sha(b)], limit) <==> WithinLimit(|b|, limit) {
      var c :| c in BlobsIn(v) && sha(c) == sha(b) && bundle.blobs[sha(b)] == Base64.Encode(c);
      EncodedEntry(b, limit);
    }
    forall k | k in bundle.blobs ensures exists b :: b in BlobsIn(v) && sha(b) == k { }
  }
}
