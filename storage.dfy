/** The layered key-value store of app/lib/storage/StorageManager.ts over
    AsyncStorage, which is the map `items`. Writing stringifies, compresses (by flag
    or by size), encrypts, wraps in a TTL envelope, then stores the payload whole or
    as chunks under a `chunked:n` header. Reading undoes those steps according to the
    caller's flags, and any failure reads as null. JSON, compression and encryption
    are the functions of a `Codec`; their inverse laws are stated in `Inverse`. */
module Storage {
  import opened Common
  import opened UsageStats

  const CompressionThreshold := 10 * 1024
  const ChunkSize := 1024 * 1024
  const ChunkedPrefix := "chunked:"
  const ExpiresMarker := "\"expires\":"
  const StatsKey := "storage_stats"

  /** `StorageOptions`; a `ttl` of 0 is falsy and means no TTL. */
  datatype Options = Options(encrypt: bool, compress: bool, ttl: int)

  /** The collaborators: JSON on values, gzip, encryption, the TTL envelope
      `{ value, expires }` and the JSON of the stats record (given `now`). A
      collaborator that throws returns `Err` (on the write path, where the error is
      rethrown) or `None` (on the read path, where it becomes null). */
  datatype Codec<!V> = Codec(
    stringify: V -> string,
    parse: string -> Option<V>,
    compress: string -> Result<string>,
    decompress: string -> Option<string>,
    encrypt: string -> Result<string>,
    decrypt: string -> Option<string>,
    wrap: (string, int) -> string,
    unwrap: string -> Option<(string, int)>,
    renderStats: (StorageStats, int) -> string)

  /** The laws a correct codec obeys: each decoder undoes its encoder, and an
      envelope always contains the `"expires":` marker. */
  ghost predicate Inverse<V(!new)>(c: Codec<V>)
  {
    && (forall v :: c.parse(c.stringify(v)) == Some(v))
    && (forall s :: c.compress(s).Ok? ==> c.decompress(c.compress(s).value) == Some(s))
    && (forall s :: c.encrypt(s).Ok? ==> c.decrypt(c.encrypt(s).value) == Some(s))
    && (forall d, e :: c.unwrap(c.wrap(d, e)) == Some((d, e)))
    && (forall d, e :: Contains(c.wrap(d, e), ExpiresMarker))
  }

  // ---------------------------------------------------------------------
  // Chunks
  // ---------------------------------------------------------------------

  /** Consecutive `CHUNK_SIZE`-character slices of `data`. */
  function Chunks(data: string): (r: seq<string>)
    decreases |data|
    ensures forall i :: 0 <= i < |r| ==> 0 < |r[i]| <= ChunkSize
    ensures (|r| - 1) * ChunkSize < |data| <= |r| * ChunkSize
  {
    if |data| == 0 then []
    else if |data| <= ChunkSize then [data]
    else [data[..ChunkSize]] + Chunks(data[ChunkSize..])
  }

  /** `chunks.join('')`. */
  function Concat(cs: seq<string>): string
  {
    if cs == [] then "" else Concat(cs[..|cs| - 1]) + cs[|cs| - 1]
  }

  lemma {:induction false} ConcatCons(x: string, cs: seq<string>)
    ensures Concat([x] + cs) == x + Concat(cs)
    decreases |cs|
  {
    if cs != [] {
      assert ([x] + cs)[..|[x] + cs| - 1] == [x] + cs[..|cs| - 1];
      ConcatCons(x, cs[..|cs| - 1]);
    }
  }

  /** Joining the chunks in index order gives the payload back. */
  lemma {:induction false} ConcatChunks(data: string)
    ensures Concat(Chunks(data)) == data
    decreases |data|
  {
    if |data| > ChunkSize {
      ConcatChunks(data[ChunkSize..]);
      ConcatCons(data[..ChunkSize], Chunks(data[ChunkSize..]));
    } else if |data| > 0 {
      assert Concat([data]) == Concat([]) + data;
    }
  }

  function ChunkKey(key: string, i: nat): string
  {
    key + "_chunk_" + NatToString(i)
  }

  function ChunkHeader(n: nat): string
  {
    ChunkedPrefix + NatToString(n)
  }

  /** `parseInt(header.split(':')[1])`, with NaN giving `Array.from` a length of 0. */
  function ChunkCount(header: string): nat
  {
    if |header| < |ChunkedPrefix| then 0
    else match ParseLeadingNat(header[|ChunkedPrefix|..])
      case None => 0
      case Some(n) => n
  }

  lemma ChunkCountOfHeader(n: nat)
    ensures StartsWith(ChunkHeader(n), ChunkedPrefix)
    ensures ChunkCount(ChunkHeader(n)) == n
  {
    assert ChunkHeader(n)[|ChunkedPrefix|..] == NatToString(n) + [];
    ParseNatToString(n, []);
  }

  lemma ChunkKeyInjective(key: string, i: nat, j: nat)
    requires ChunkKey(key, i) == ChunkKey(key, j)
    ensures i == j
  {
    var p := key + "_chunk_";
    assert ChunkKey(key, i)[|p|..] == NatToString(i);
    assert ChunkKey(key, j)[|p|..] == NatToString(j);
    NatToStringInjective(i, j);
  }

  /** A chunk key is neither the header key nor the stats key. */
  lemma ChunkKeyDistinct(key: string, i: nat)
    ensures ChunkKey(key, i) != key
    ensures ChunkKey(key, i) != StatsKey
  {
    var s := NatToString(i);
    var k := ChunkKey(key, i);
    assert k[|k| - 1] == s[|s| - 1];
    assert IsDigit(s[|s| - 1]);
  }

  /** The store after writing the first `n` chunks. */
  function PutChunks(items: map<string, string>, key: string, chunks: seq<string>, n: nat): map<string, string>
    requires n <= |chunks|
  {
    if n == 0 then items else PutChunks(items, key, chunks, n - 1)[ChunkKey(key, n - 1) := chunks[n - 1]]
  }

  lemma {:induction false} PutChunksEntries(items: map<string, string>, key: string, chunks: seq<string>, n: nat)
    requires n <= |chunks|
    ensures forall i :: 0 <= i < n ==>
      ChunkKey(key, i) in PutChunks(items, key, chunks, n) && PutChunks(items, key, chunks, n)[ChunkKey(key, i)] == chunks[i]
    ensures forall k :: (forall i :: 0 <= i < n ==> k != ChunkKey(key, i)) ==>
      (k in PutChunks(items, key, chunks, n) <==> k in items) &&
      (k in items ==> PutChunks(items, key, chunks, n)[k] == items[k])
  {
    if n > 0 {
      PutChunksEntries(items, key, chunks, n - 1);
      forall i | 0 <= i < n - 1 ensures ChunkKey(key, i) != ChunkKey(key, n - 1) {
        if ChunkKey(key, i) == ChunkKey(key, n - 1) {
          ChunkKeyInjective(key, i, n - 1);
        }
      }
    }
  }

  /** `setChunked`: every chunk under its chunk key, then the header under `key`. */
  function WriteChunked(items: map<string, string>, key: string, data: string): map<string, string>
  {
    var chunks := Chunks(data);
    PutChunks(items, key, chunks, |chunks|)[key := ChunkHeader(|chunks|)]
  }

  /** `getChunked` after the header check: the first `n` chunks joined, a missing
      chunk joining as the empty string. */
  function JoinChunks(items: map<string, string>, key: string, n: nat): string
  {
    if n == 0 then ""
    else JoinChunks(items, key, n - 1) + (if ChunkKey(key, n - 1) in items then items[ChunkKey(key, n - 1)] else "")
  }

  lemma {:induction false} JoinChunksOf(m: map<string, string>, key: string, chunks: seq<string>, n: nat)
    requires n <= |chunks|
    requires forall i :: 0 <= i < |chunks| ==> ChunkKey(key, i) in m && m[ChunkKey(key, i)] == chunks[i]
    ensures JoinChunks(m, key, n) == Concat(chunks[..n])
  {
    if n > 0 {
      JoinChunksOf(m, key, chunks, n - 1);
      assert chunks[..n][..n - 1] == chunks[..n - 1];
    }
  }

  /** The chunk layout: the header `chunked:n` at `key`, chunk `i` at `key_chunk_i`,
      and joining the chunks named by the header gives `data` back. */
  lemma ChunkedRoundTrip(items: map<string, string>, key: string, data: string)
    ensures var m := WriteChunked(items, key, data);
      var n := |Chunks(data)|;
      && key in m && m[key] == ChunkHeader(n) && ChunkCount(m[key]) == n
      && (forall i :: 0 <= i < n ==> ChunkKey(key, i) in m && m[ChunkKey(key, i)] == Chunks(data)[i])
      && JoinChunks(m, key, ChunkCount(m[key])) == data
  {
    var chunks := Chunks(data);
    var n := |chunks|;
    var m := WriteChunked(items, key, data);
    PutChunksEntries(items, key, chunks, n);
    forall i | 0 <= i < n ensures ChunkKey(key, i) in m && m[ChunkKey(key, i)] == chunks[i] {
      ChunkKeyDistinct(key, i);
    }
    ChunkCountOfHeader(n);
    JoinChunksOf(m, key, chunks, n);
    assert chunks[..n] == chunks;
    ConcatChunks(data);
  }

  // ---------------------------------------------------------------------
  // Write path
  // ---------------------------------------------------------------------

  /** The payload `set` stores: stringify; compress when asked to or when over 10 KB;
      encrypt when asked to; wrap with `expires = now + ttl` when a TTL is given. */
  function Encode<V>(value: V, opts: Options, now: int, c: Codec<V>): Result<string>
  {
    var s := c.stringify(value);
    var compressed := if opts.compress || Utf8Size(s) > CompressionThreshold then c.compress(s) else Ok(s);
    if compressed.Err? then Err(compressed.error)
    else
      var encrypted := if opts.encrypt then c.encrypt(compressed.value) else compressed;
      if encrypted.Err? then Err(encrypted.error)
      else if opts.ttl != 0 then Ok(c.wrap(encrypted.value, now + opts.ttl))
      else Ok(encrypted.value)
  }

  /** Where the payload goes: chunked when over `CHUNK_SIZE` bytes, else under `key`. */
  function Place(items: map<string, string>, key: string, data: string): map<string, string>
  {
    if Utf8Size(data) > ChunkSize then WriteChunked(items, key, data) else items[key := data]
  }

  /** `updateStorageStats` with the key list AsyncStorage reports. */
  function WithStats<V>(items: map<string, string>, allKeys: seq<string>, now: int, c: Codec<V>): map<string, string>
  {
    items[StatsKey := c.renderStats(StatsOf(allKeys, items), now)]
  }

  // ---------------------------------------------------------------------
  // Read path
  // ---------------------------------------------------------------------

  /** `getItem`, with a chunked header replaced by the joined chunks; `None` when
      the key is missing or its value is empty. */
  function Fetch(items: map<string, string>, key: string): Option<string>
  {
    if key !in items || items[key] == "" then None
    else if StartsWith(items[key], ChunkedPrefix) then Some(JoinChunks(items, key, ChunkCount(items[key])))
    else Some(items[key])
  }

  /** Decrypt and decompress according to the caller's flags only, then parse. */
  function Decode<V>(data: string, opts: Options, c: Codec<V>): Option<V>
  {
    var decrypted := if opts.encrypt then c.decrypt(data) else Some(data);
    if decrypted.None? then None
    else
      var decompressed := if opts.compress then c.decompress(decrypted.value) else decrypted;
      if decompressed.None? then None else c.parse(decompressed.value)
  }

  datatype ReadResult<V> = Found(value: Option<V>) | Expired

  /** The TTL step: anything containing `"expires":` is taken for an envelope. */
  function Open<V>(data: string, opts: Options, now: int, c: Codec<V>): ReadResult<V>
  {
    if Contains(data, ExpiresMarker) then
      match c.unwrap(data)
      case None => Found(None)
      case Some(env) => if now > env.1 then Expired else Found(Decode(env.0, opts, c))
    else Found(Decode(data, opts, c))
  }

  /** `remove`: a chunked key takes its `n` chunk keys with it. */
  function Removed(items: map<string, string>, key: string): map<string, string>
  {
    if key in items && StartsWith(items[key], ChunkedPrefix)
    then items - {key} - ChunkKeys(key, ChunkCount(items[key]))
    else items - {key}
  }

  function ChunkKeys(key: string, n: nat): set<string>
  {
    set i | 0 <= i < n :: ChunkKey(key, i)
  }

  /** `get`: the value read (`None` for null) and the store afterwards, which only an
      expired envelope changes. */
  function Read<V>(items: map<string, string>, key: string, opts: Options, now: int, c: Codec<V>): (Option<V>, map<string, string>)
  {
    match Fetch(items, key)
    case None => (None, items)
    case Some(data) =>
      match Open(data, opts, now, c)
      case Expired => (None, Removed(items, key))
      case Found(v) => (v, items)
  }

  // ---------------------------------------------------------------------
  // The manager
  // ---------------------------------------------------------------------

  /** The transformations `set` applies before the write; the first collaborator
      that throws ends it with that error. */
  method EncodePayload<V>(value: V, opts: Options, now: int, c: Codec<V>) returns (r: Result<string>)
    ensures r == Encode(value, opts, now, c)
  {
    var data := c.stringify(value);
    if opts.compress || Utf8Size(data) > CompressionThreshold {
      var compressed := c.compress(data);
      if compressed.Err? {
        return Err(compressed.error);
      }
      data := compressed.value;
    }
    if opts.encrypt {
      var encrypted := c.encrypt(data);
      if encrypted.Err? {
        return Err(encrypted.error);
      }
      data := encrypted.value;
    }
    if opts.ttl != 0 {
      data := c.wrap(data, now + opts.ttl);
    }
    r := Ok(data);
  }

  /** The `while (offset < totalLength)` loop of `setChunked`. */
  method SliceChunks(data: string) returns (chunks: seq<string>)
    ensures chunks == Chunks(data)
  {
    chunks := [];
    var offset := 0;
    while offset < |data|
      invariant 0 <= offset
      invariant offset <= |data| ==> chunks + Chunks(data[offset..]) == Chunks(data)
      invariant offset > |data| ==> chunks == Chunks(data)
      decreases |data| - offset
    {
      var rest := data[offset..];
      if offset + ChunkSize <= |data| {
        var chunk := data[offset..offset + ChunkSize];
        assert rest[..ChunkSize] == chunk;
        assert rest[ChunkSize..] == data[offset + ChunkSize..];
        if |rest| > ChunkSize {
          assert Chunks(rest) == [chunk] + Chunks(data[offset + ChunkSize..]);
        } else {
          assert rest == chunk && data[offset + ChunkSize..] == [];
          assert Chunks(rest) == [chunk] + Chunks(data[offset + ChunkSize..]);
        }
        assert (chunks + [chunk]) + Chunks(data[offset + ChunkSize..]) == chunks + Chunks(rest);
        chunks := chunks + [chunk];
      } else {
        assert Chunks(rest) == [rest];
        chunks := chunks + [data[offset..]];
      }
      offset := offset + ChunkSize;
    }
  }

  class StorageManager {
    /** The AsyncStorage contents. */
    var items: map<string, string>

    constructor (initial: map<string, string>)
      ensures items == initial
    {
      items := initial;
    }

    /** `get`: never fails; every failure reads as null. */
    method Get<V>(key: string, opts: Options, now: int, c: Codec<V>) returns (r: Option<V>)
      modifies this
      ensures (r, items) == Read(old(items), key, opts, now, c)
    {
      if key !in items || items[key] == "" {
        return None;
      }
      var data := items[key];
      if StartsWith(data, ChunkedPrefix) {
        var joined := GetChunked(key);
        data := joined.value;
      }
      if Contains(data, ExpiresMarker) {
        var env := c.unwrap(data);
        if env.None? {
          return None;
        }
        if now > env.value.1 {
          Remove(key);
          return None;
        }
        data := env.value.0;
      }
      if opts.encrypt {
        var decrypted := c.decrypt(data);
        if decrypted.None? {
          return None;
        }
        data := decrypted.value;
      }
      if opts.compress {
        var decompressed := c.decompress(data);
        if decompressed.None? {
          return None;
        }
        data := decompressed.value;
      }
      r := c.parse(data);
    }

    /** `set`: a collaborator's failure is rethrown before anything is written;
        otherwise the payload is placed and the stats record refreshed. */
    method Set<V>(key: string, value: V, opts: Options, now: int, c: Codec<V>, allKeys: seq<string>)
      returns (result: Outcome)
      modifies this
      ensures Encode(value, opts, now, c).Err? ==>
        result == Fail(Encode(value, opts, now, c).error) && items == old(items)
      ensures Encode(value, opts, now, c).Ok? ==>
        result == Pass &&
        items == WithStats(Place(old(items), key, Encode(value, opts, now, c).value), allKeys, now, c)
    {
      var payload := EncodePayload(value, opts, now, c);
      if payload.Err? {
        return Fail(payload.error);
      }
      var data := payload.value;
      if Utf8Size(data) > ChunkSize {
        SetChunked(key, data);
      } else {
        items := items[key := data];
      }
      UpdateStorageStats(allKeys, now, c);
      result := Pass;
    }

    /** `remove`. */
    method Remove(key: string)
      modifies this
      ensures items == Removed(old(items), key)
    {
      if key in items && StartsWith(items[key], ChunkedPrefix) {
        var n := ChunkCount(items[key]);
        items := items - {key};
        var i := 0;
        while i < n
          invariant 0 <= i <= n
          invariant items == old(items) - {key} - ChunkKeys(key, i)
        {
          assert ChunkKeys(key, i + 1) == ChunkKeys(key, i) + {ChunkKey(key, i)};
          items := items - {ChunkKey(key, i)};
          i := i + 1;
        }
      } else {
        items := items - {key};
      }
    }

    /** `setChunked`: the payload sliced into chunks, every chunk written under its
        chunk key, then the header under `key`. */
    method SetChunked(key: string, data: string)
      modifies this
      ensures items == WriteChunked(old(items), key, data)
    {
      var chunks := SliceChunks(data);
      var i := 0;
      while i < |chunks|
        invariant 0 <= i <= |chunks|
        invariant items == PutChunks(old(items), key, chunks, i)
      {
        items := items[ChunkKey(key, i) := chunks[i]];
        i := i + 1;
      }
      items := items[key := ChunkHeader(|chunks|)];
    }

    /** `getChunked`: an error unless `key` holds a chunk header. */
    method GetChunked(key: string) returns (data: Result<string>)
      ensures key in items && StartsWith(items[key], ChunkedPrefix) ==>
        data == Ok(JoinChunks(items, key, ChunkCount(items[key])))
      ensures !(key in items && StartsWith(items[key], ChunkedPrefix)) ==> data.Err?
    {
      if !(key in items && StartsWith(items[key], ChunkedPrefix)) {
        return Err("Invalid chunked data");
      }
      var n := ChunkCount(items[key]);
      var joined := "";
      var i := 0;
      while i < n
        invariant 0 <= i <= n
        invariant joined == JoinChunks(items, key, i)
      {
        var chunk := if ChunkKey(key, i) in items then items[ChunkKey(key, i)] else "";
        joined := joined + chunk;
        i := i + 1;
      }
      data := Ok(joined);
    }

    /** `updateStorageStats`: the tally over the reported keys, written under
        `storage_stats`. */
    method UpdateStorageStats<V>(allKeys: seq<string>, now: int, c: Codec<V>)
      modifies this
      ensures items == WithStats(old(items), allKeys, now, c)
    {
      var stats := ComputeStats(allKeys, items);
      items := items[StatsKey := c.renderStats(stats, now)];
    }
  }

  // ---------------------------------------------------------------------
  // Properties
  // ---------------------------------------------------------------------

  /** Writing the stats record does not disturb what `key` reads, nor its chunks. */
  lemma FetchIgnoresStats(m: map<string, string>, key: string, x: string)
    requires key != StatsKey
    ensures Fetch(m[StatsKey := x], key) == Fetch(m, key)
  {
    var m2 := m[StatsKey := x];
    if key in m && m[key] != "" && StartsWith(m[key], ChunkedPrefix) {
      JoinChunksIgnores(m, key, ChunkCount(m[key]), x);
    }
  }

  lemma {:induction false} JoinChunksIgnores(m: map<string, string>, key: string, n: nat, x: string)
    ensures JoinChunks(m[StatsKey := x], key, n) == JoinChunks(m, key, n)
  {
    if n > 0 {
      ChunkKeyDistinct(key, n - 1);
      JoinChunksIgnores(m, key, n - 1, x);
    }
  }

  /** A payload placed under `key` is fetched back unchanged, whether it was stored
      whole or in chunks. A whole payload must be non-empty and must not itself look
      like a chunk header. */
  lemma FetchPlaced(items: map<string, string>, key: string, data: string)
    requires data != ""
    requires Utf8Size(data) <= ChunkSize ==> !StartsWith(data, ChunkedPrefix)
    ensures Fetch(Place(items, key, data), key) == Some(data)
  {
    if Utf8Size(data) > ChunkSize {
      ChunkedRoundTrip(items, key, data);
      ChunkCountOfHeader(|Chunks(data)|);
    }
  }

  /** The round trip of `set` then `get` with the same flags: the value comes back,
      as long as the codec obeys its laws, the TTL has not passed, compression was
      requested whenever the size rule applies, and the stored form is not mistaken
      for a header, an empty value or an envelope. */
  lemma SetThenGet<V(!new)>(items: map<string, string>, key: string, value: V, opts: Options,
                      now: int, later: int, c: Codec<V>, allKeys: seq<string>)
    requires Inverse(c)
    requires key != StatsKey
    requires opts.compress || Utf8Size(c.stringify(value)) <= CompressionThreshold
    requires Encode(value, opts, now, c).Ok?
    requires var e := Encode(value, opts, now, c).value;
      && e != ""
      && (Utf8Size(e) <= ChunkSize ==> !StartsWith(e, ChunkedPrefix))
      && (opts.ttl == 0 ==> !Contains(e, ExpiresMarker))
    requires opts.ttl != 0 ==> later <= now + opts.ttl
    ensures var stored := WithStats(Place(items, key, Encode(value, opts, now, c).value), allKeys, now, c);
      Read(stored, key, opts, later, c).0 == Some(value)
  {
    var e := Encode(value, opts, now, c).value;
    var placed := Place(items, key, e);
    FetchPlaced(items, key, e);
    FetchIgnoresStats(placed, key, c.renderStats(StatsOf(allKeys, placed), now));
    OpenEncoded(value, opts, now, later, c);
  }

  /** The payload `set` produced opens, before its TTL has passed, to the value. */
  lemma OpenEncoded<V(!new)>(value: V, opts: Options, now: int, later: int, c: Codec<V>)
    requires Inverse(c)
    requires opts.compress || Utf8Size(c.stringify(value)) <= CompressionThreshold
    requires Encode(value, opts, now, c).Ok?
    requires opts.ttl == 0 ==> !Contains(Encode(value, opts, now, c).value, ExpiresMarker)
    requires opts.ttl != 0 ==> later <= now + opts.ttl
    ensures Open(Encode(value, opts, now, c).value, opts, later, c) == Found(Some(value))
  {
    var e := Encode(value, opts, now, c).value;
    var s := c.stringify(value);
    var compressed := if opts.compress then c.compress(s) else Ok(s);
    var encrypted := if opts.encrypt then c.encrypt(compressed.value) else compressed;
    if opts.ttl != 0 {
      assert e == c.wrap(encrypted.value, now + opts.ttl);
      assert c.unwrap(e) == Some((encrypted.value, now + opts.ttl));
      assert Contains(e, ExpiresMarker);
    }
    assert Decode(encrypted.value, opts, c) == Some(value);
  }

  lemma MarkedNonEmpty(s: string)
    requires Contains(s, ExpiresMarker)
    ensures s != ""
  {
    var i := IndexOf(s, ExpiresMarker, 0).value;
    assert OccursAt(s, ExpiresMarker, i);
  }

  /** A TTL'd value read after its expiry is null, and the read removes it. */
  lemma ExpiredReadRemoves<V(!new)>(items: map<string, string>, key: string, value: V, opts: Options,
                              now: int, later: int, c: Codec<V>)
    requires Inverse(c)
    requires opts.ttl != 0 && later > now + opts.ttl
    requires Encode(value, opts, now, c).Ok?
    requires var e := Encode(value, opts, now, c).value;
      Utf8Size(e) <= ChunkSize ==> !StartsWith(e, ChunkedPrefix)
    ensures var placed := Place(items, key, Encode(value, opts, now, c).value);
      Read(placed, key, opts, later, c) == (None, Removed(placed, key))
  {
    var e := Encode(value, opts, now, c).value;
    var s := c.stringify(value);
    var compressed := if opts.compress || Utf8Size(s) > CompressionThreshold then c.compress(s) else Ok(s);
    var encrypted := if opts.encrypt then c.encrypt(compressed.value) else compressed;
    assert e == c.wrap(encrypted.value, now + opts.ttl);
    assert Contains(e, ExpiresMarker);
    var w := c.wrap("", 0);
    assert Contains(w, ExpiresMarker);
    MarkedNonEmpty(e);
    FetchPlaced(items, key, e);
  }

  /** Compression triggered by size alone is not undone on read: without the
      `compress` flag, a large value (unencrypted, no TTL) reads back as the parse of
      its compressed text. */
  lemma SizeCompressionNotUndone<V>(items: map<string, string>, key: string, value: V, now: int, c: Codec<V>)
    requires Utf8Size(c.stringify(value)) > CompressionThreshold
    requires c.compress(c.stringify(value)).Ok?
    requires var z := c.compress(c.stringify(value)).value;
      && z != ""
      && (Utf8Size(z) <= ChunkSize ==> !StartsWith(z, ChunkedPrefix))
      && !Contains(z, ExpiresMarker)
    ensures var opts := Options(false, false, 0);
      var z := c.compress(c.stringify(value)).value;
      Encode(value, opts, now, c) == Ok(z) &&
      Read(Place(items, key, z), key, opts, now, c).0 == c.parse(z)
  {
    FetchPlaced(items, key, c.compress(c.stringify(value)).value);
  }

  /** A value stored without TTL whose stored form contains `"expires":` is taken
      for an envelope on read; when it does not unwrap, it reads as null. */
  lemma MarkerWithoutTtlReadsNull<V>(items: map<string, string>, key: string, data: string, opts: Options, now: int, c: Codec<V>)
    requires Contains(data, ExpiresMarker) && c.unwrap(data).None?
    requires Utf8Size(data) <= ChunkSize ==> !StartsWith(data, ChunkedPrefix)
    ensures Read(Place(items, key, data), key, opts, now, c) == (None, Place(items, key, data))
  {
    MarkedNonEmpty(data);
    FetchPlaced(items, key, data);
  }

  /** `remove` deletes exactly `key` and, for a chunk header, its chunk keys. */
  lemma RemovedKeys(items: map<string, string>, key: string, k: string)
    ensures k in Removed(items, key) <==>
      k in items && k != key &&
      !(key in items && StartsWith(items[key], ChunkedPrefix) && k in ChunkKeys(key, ChunkCount(items[key])))
  {
  }
}
