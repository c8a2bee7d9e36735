/** The quota functions of app/utils/storageQuotas.ts, which work on the app's
    `storage` store (not part of this model beyond its `messages` and `attachments`
    entries, held here as fields). Its `checkStorageQuotas` is `QuotaRules.Check`
    applied to the `storageStats` snapshot. An entry the store does not hold is
    `None`. */
module StoreQuotas {
  import opened Common

  const KeptMessages := 500
  const MaxAge := 30 * 24 * 60 * 60 * 1000

  /** An attachment record; a missing or non-numeric `timestamp` is `None`. */
  datatype Attachment = Attachment(timestamp: Option<int>, data: string)

  /** The filter test: younger than 30 days, strictly. A missing timestamp makes
      `now - timestamp` NaN and the test false. */
  predicate Keeps(a: Attachment, now: int)
  {
    a.timestamp.Some? && now - a.timestamp.value < MaxAge
  }

  /** The `filter`/`reduce` over `Object.entries(attachments)`. */
  function FreshAttachments(m: map<string, Attachment>, now: int): (r: map<string, Attachment>)
    ensures forall k :: k in r <==> k in m && Keeps(m[k], now)
    ensures forall k :: k in r ==> r[k] == m[k]
  {
    map k | k in m && Keeps(m[k], now) :: m[k]
  }

  /** The store after one cleanup at `now`. */
  function Cleaned<M>(messages: Option<seq<M>>, attachments: Option<map<string, Attachment>>, now: int)
    : (Option<seq<M>>, Option<map<string, Attachment>>)
  {
    var msgs := if messages.Some? then messages.value else [];
    var atts := if attachments.Some? then attachments.value else map[];
    (if |msgs| > KeptMessages then Some(KeepLast(msgs, KeptMessages)) else messages,
     Some(FreshAttachments(atts, now)))
  }

  class QuotaStore<M> {
    var messages: Option<seq<M>>
    var attachments: Option<map<string, Attachment>>

    constructor (messages: Option<seq<M>>, attachments: Option<map<string, Attachment>>)
      ensures this.messages == messages && this.attachments == attachments
    {
      this.messages := messages;
      this.attachments := attachments;
    }

    /** `cleanupStorage`: over 500 messages, the last 500 are written back; the
        attachments still young enough are written back on every call. A missing
        entry reads as empty. */
    method CleanupStorage(now: int)
      modifies this
      ensures var msgs := if old(messages).Some? then old(messages).value else [];
        if |msgs| > KeptMessages then messages == Some(KeepLast(msgs, KeptMessages)) else messages == old(messages)
      ensures attachments == Some(FreshAttachments(if old(attachments).Some? then old(attachments).value else map[], now))
      ensures (messages, attachments) == Cleaned(old(messages), old(attachments), now)
    {
      var msgs := if messages.Some? then messages.value else [];
      var atts := if attachments.Some? then attachments.value else map[];
      if |msgs| > KeptMessages {
        messages := Some(msgs[|msgs| - KeptMessages..]);
      }
      attachments := Some(FreshAttachments(atts, now));
    }
  }

  /** For a fixed `now`, a second cleanup changes nothing. */
  lemma CleanupIdempotent<M>(messages: Option<seq<M>>, attachments: Option<map<string, Attachment>>, now: int)
    ensures var once := Cleaned(messages, attachments, now);
      Cleaned(once.0, once.1, now) == once
  {
    var once := Cleaned(messages, attachments, now);
    var atts := if attachments.Some? then attachments.value else map[];
    var young := FreshAttachments(atts, now);
    assert FreshAttachments(young, now) == young;
  }
}
