/** The quota classification shared by app/lib/modules/llm/android/secure/StorageQuotas.ts
    and app/utils/storageQuotas.ts: three limits, each breached only when strictly
    exceeded, and one warning per breach in the order total, messages, attachments.
    A warning carries the figure it reports; its wording (which formats bytes) is
    not modelled. */
module QuotaRules {
  import opened UsageStats

  const TotalStorageLimit := 100 * 1024 * 1024
  const MessageCountLimit := 1000
  const AttachmentSizeLimit := 50 * 1024 * 1024

  datatype Warning =
    | StorageUsage(size: nat)
    | MessageCountExceeded(count: nat)
    | AttachmentSizeExceeded(size: nat)
  {
    /** The position of each kind in the warning list. */
    function Rank(): nat
    {
      match this
      case StorageUsage(_) => 0
      case MessageCountExceeded(_) => 1
      case AttachmentSizeExceeded(_) => 2
    }
  }

  datatype QuotaReport = QuotaReport(withinLimits: bool, warnings: seq<Warning>)

  /** The three `if (stats.x > LIMITS.Y) warnings.push(...)` checks. */
  function Warnings(s: StorageStats): (w: seq<Warning>)
    ensures forall i, j :: 0 <= i < j < |w| ==> w[i].Rank() < w[j].Rank()
    ensures StorageUsage(s.totalSize) in w <==> s.totalSize > TotalStorageLimit
    ensures MessageCountExceeded(s.messageCount) in w <==> s.messageCount > MessageCountLimit
    ensures AttachmentSizeExceeded(s.attachmentSize) in w <==> s.attachmentSize > AttachmentSizeLimit
    ensures forall i :: 0 <= i < |w| ==>
      w[i] in {StorageUsage(s.totalSize), MessageCountExceeded(s.messageCount), AttachmentSizeExceeded(s.attachmentSize)}
  {
    (if s.totalSize > TotalStorageLimit then [StorageUsage(s.totalSize)] else []) +
    (if s.messageCount > MessageCountLimit then [MessageCountExceeded(s.messageCount)] else []) +
    (if s.attachmentSize > AttachmentSizeLimit then [AttachmentSizeExceeded(s.attachmentSize)] else [])
  }

  /** `checkStorageQuotas` on a stats record: within limits exactly when no limit is
      strictly exceeded, which is exactly when there is no warning. */
  function Check(s: StorageStats): (r: QuotaReport)
    ensures r.warnings == Warnings(s)
    ensures r.withinLimits <==> r.warnings == []
    ensures r.withinLimits <==>
      s.totalSize <= TotalStorageLimit && s.messageCount <= MessageCountLimit && s.attachmentSize <= AttachmentSizeLimit
  {
    var w := Warnings(s);
    QuotaReport(|w| == 0, w)
  }
}
