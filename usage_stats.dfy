/** The storage-usage tally that app/lib/storage/StorageManager.ts
    (`updateStorageStats`) and app/lib/modules/llm/android/secure/StorageQuotas.ts
    (`getStorageStats`) both compute with the same loop: over the keys of the store,
    every non-empty value adds its UTF-8 size to the total; a `message_` key counts
    one message, and otherwise an `attachment_` key adds its size to the attachments. */
module UsageStats {
  import opened Common

  const MessagePrefix := "message_"
  const AttachmentPrefix := "attachment_"

  datatype StorageStats = StorageStats(totalSize: nat, messageCount: nat, attachmentSize: nat)

  /** Bytes of one code point in UTF-8 (what TextEncoder and Buffer.byteLength count). */
  function Utf8Len(c: char): (n: nat)
    ensures 1 <= n <= 4
    ensures (c as int < 0x80) <==> n == 1
  {
    if c as int < 0x80 then 1
    else if c as int < 0x800 then 2
    else if c as int < 0x10000 then 3
    else 4
  }

  function Utf8Size(s: string): (n: nat)
    ensures |s| <= n <= 4 * |s|
  {
    if s == [] then 0 else Utf8Size(s[..|s| - 1]) + Utf8Len(s[|s| - 1])
  }

  lemma {:induction false} Utf8SizeAppend(a: string, b: string)
    ensures Utf8Size(a + b) == Utf8Size(a) + Utf8Size(b)
    decreases |b|
  {
    if b == [] {
      assert a + b == a;
    } else {
      var ab := a + b;
      assert ab[..|ab| - 1] == a + b[..|b| - 1];
      assert ab[|ab| - 1] == b[|b| - 1];
      Utf8SizeAppend(a, b[..|b| - 1]);
      assert Utf8Size(ab) == Utf8Size(ab[..|ab| - 1]) + Utf8Len(ab[|ab| - 1]);
    }
  }

  /** `if (value)`: a missing key and an empty string are both skipped. */
  predicate Present(store: map<string, string>, k: string)
  {
    k in store && store[k] != ""
  }

  function TotalSize(keys: seq<string>, store: map<string, string>): nat
  {
    if keys == [] then 0
    else
      var k := keys[|keys| - 1];
      TotalSize(keys[..|keys| - 1], store) + (if Present(store, k) then Utf8Size(store[k]) else 0)
  }

  function MessageCount(keys: seq<string>, store: map<string, string>): nat
  {
    if keys == [] then 0
    else
      var k := keys[|keys| - 1];
      MessageCount(keys[..|keys| - 1], store) + (if Present(store, k) && StartsWith(k, MessagePrefix) then 1 else 0)
  }

  function AttachmentSize(keys: seq<string>, store: map<string, string>): nat
  {
    if keys == [] then 0
    else
      var k := keys[|keys| - 1];
      AttachmentSize(keys[..|keys| - 1], store) +
        (if Present(store, k) && !StartsWith(k, MessagePrefix) && StartsWith(k, AttachmentPrefix)
         then Utf8Size(store[k]) else 0)
  }

  function StatsOf(keys: seq<string>, store: map<string, string>): StorageStats
  {
    StorageStats(TotalSize(keys, store), MessageCount(keys, store), AttachmentSize(keys, store))
  }

  /** The accumulator loop over `getAllKeys()`. */
  method ComputeStats(keys: seq<string>, store: map<string, string>) returns (stats: StorageStats)
    ensures stats == StatsOf(keys, store)
  {
    var totalSize := 0;
    var messageCount := 0;
    var attachmentSize := 0;
    var i := 0;
    while i < |keys|
      invariant 0 <= i <= |keys|
      invariant totalSize == TotalSize(keys[..i], store)
      invariant messageCount == MessageCount(keys[..i], store)
      invariant attachmentSize == AttachmentSize(keys[..i], store)
    {
      var key := keys[i];
      assert keys[..i + 1][..i] == keys[..i];
      if key in store && store[key] != "" {
        var size := Utf8Size(store[key]);
        totalSize := totalSize + size;
        if StartsWith(key, MessagePrefix) {
          messageCount := messageCount + 1;
        } else if StartsWith(key, AttachmentPrefix) {
          attachmentSize := attachmentSize + size;
        }
      }
      i := i + 1;
    }
    assert keys[..i] == keys;
    stats := StorageStats(totalSize, messageCount, attachmentSize);
  }

  /** No key is both a message key and an attachment key. */
  lemma PrefixesDisjoint(k: string)
    ensures !(StartsWith(k, MessagePrefix) && StartsWith(k, AttachmentPrefix))
  {
    if StartsWith(k, MessagePrefix) {
      assert k[0] == 'm';
    }
  }

  /** Attachments are part of the total, and at most one message is counted per key. */
  lemma {:induction false} StatsBounds(keys: seq<string>, store: map<string, string>)
    ensures AttachmentSize(keys, store) <= TotalSize(keys, store)
    ensures MessageCount(keys, store) <= |keys|
  {
    if keys != [] {
      StatsBounds(keys[..|keys| - 1], store);
    }
  }

  /** A key whose value is missing or empty changes none of the three figures. */
  lemma {:induction false} AbsentKeyAddsNothing(keys: seq<string>, store: map<string, string>, k: string)
    requires !Present(store, k)
    ensures StatsOf(keys + [k], store) == StatsOf(keys, store)
  {
    assert (keys + [k])[..|keys|] == keys;
  }
}
