/** The rules embedded in app/components/OfflineIndicator.tsx: when the indicator is
    shown, which pending messages count as failed, the status line, and the retry
    action that resets every pending message. The pending message record is the one
    the offline store keeps. Animation, styles and layout are not modelled. */
module OfflineIndicator {
  import opened Common

  datatype PendingMessage = PendingMessage(id: string, content: string, timestamp: int, retryCount: int, lastRetry: Option<int>)

  datatype OfflineState = OfflineState(isOnline: bool, pendingMessages: seq<PendingMessage>, syncInProgress: bool)

  /** The retry count from which a pending message counts as failed. */
  const FailedRetryCount := 5

  /** The banner text, written as two literals so that the proofs can see its first character. */
  const OfflineText := "You are offline" + " - Messages will be sent when connection is restored"

  /** The early `return null`: nothing is rendered when online with nothing pending. */
  predicate Hidden(st: OfflineState)
  {
    st.isOnline && |st.pendingMessages| == 0
  }

  /** The opacity the fade animation is driven to. */
  function FadeTarget(st: OfflineState): (r: int)
    ensures r == 0 || r == 1
  {
    if !st.isOnline || |st.pendingMessages| > 0 then 1 else 0
  }

  /** The animation fades in exactly when the indicator is rendered. */
  lemma FadeMatchesVisibility(st: OfflineState)
    ensures FadeTarget(st) == 0 <==> Hidden(st)
  {
  }

  /** `pendingMessages.filter(msg => msg.retryCount >= 5)`. */
  function FailedMessages(ps: seq<PendingMessage>): (r: seq<PendingMessage>)
    ensures |r| <= |ps|
    ensures forall m :: m in r <==> m in ps && m.retryCount >= FailedRetryCount
  {
    if ps == [] then []
    else (if ps[0].retryCount >= FailedRetryCount then [ps[0]] else []) + FailedMessages(ps[1..])
  }

  /** The retry affordance appears only when some pending message has failed. */
  predicate ShowsRetry(st: OfflineState)
  {
    !Hidden(st) && |FailedMessages(st.pendingMessages)| > 0
  }

  lemma ShowsRetryIff(st: OfflineState)
    ensures ShowsRetry(st) <==> exists i :: 0 <= i < |st.pendingMessages| && st.pendingMessages[i].retryCount >= FailedRetryCount
  {
    var f := FailedMessages(st.pendingMessages);
    if |f| > 0 {
      assert f[0] in f;
    }
    if exists i :: 0 <= i < |st.pendingMessages| && st.pendingMessages[i].retryCount >= FailedRetryCount {
      var i :| 0 <= i < |st.pendingMessages| && st.pendingMessages[i].retryCount >= FailedRetryCount;
      assert st.pendingMessages[i] in f;
    }
  }

  /** The status line: being offline wins over syncing, which wins over the count. */
  function StatusText(st: OfflineState): (r: string)
    ensures r == OfflineText <==> !st.isOnline
    ensures StartsWith(r, SyncingPrefix) <==> st.isOnline && st.syncInProgress
    ensures st.isOnline && !st.syncInProgress ==> ParseLeadingNat(r) == Some(|st.pendingMessages|)
    ensures st.isOnline && st.syncInProgress ==> ParseLeadingNat(r[|SyncingPrefix|..]) == Some(|st.pendingMessages|)
  {
    var n := |st.pendingMessages|;
    if !st.isOnline then
      assert OfflineText[0] == 'Y' && SyncingPrefix[0] == 'S';
      OfflineText
    else if st.syncInProgress then SyncingText(n)
    else WaitingText(n)
  }

  const SyncingPrefix := "Syncing "

  function SyncingText(n: nat): (r: string)
    ensures StartsWith(r, SyncingPrefix) && r != OfflineText
    ensures ParseLeadingNat(r[|SyncingPrefix|..]) == Some(n)
  {
    var r := SyncingPrefix + NatToString(n) + " pending messages...";
    assert r[..|SyncingPrefix|] == SyncingPrefix;
    assert r[|SyncingPrefix|..] == NatToString(n) + " pending messages...";
    ParseNatToString(n, " pending messages...");
    assert r[0] == 'S' && OfflineText[0] == 'Y';
    r
  }

  function WaitingText(n: nat): (r: string)
    ensures !StartsWith(r, SyncingPrefix) && r != OfflineText
    ensures ParseLeadingNat(r) == Some(n)
  {
    var d := NatToString(n);
    var r := d + " messages waiting to sync";
    ParseNatToString(n, " messages waiting to sync");
    assert r[0] == d[0] && IsDigit(d[0]);
    assert OfflineText[0] == 'Y' && SyncingPrefix[0] == 'S';
    r
  }

  /** The pending messages the retry button writes back: every message, failed or
      not, with its retry count cleared. */
  function ResetRetries(ps: seq<PendingMessage>): (r: seq<PendingMessage>)
    ensures |r| == |ps|
    ensures forall i :: 0 <= i < |ps| ==>
      r[i].retryCount == 0 && r[i].lastRetry.None? &&
      r[i].id == ps[i].id && r[i].content == ps[i].content && r[i].timestamp == ps[i].timestamp
  {
    if ps == [] then [] else [ps[0].(retryCount := 0, lastRetry := None)] + ResetRetries(ps[1..])
  }

  /** The store write of the retry button. */
  function Retried(st: OfflineState): (r: OfflineState)
    ensures r.isOnline == st.isOnline && r.syncInProgress == st.syncInProgress
    ensures r.pendingMessages == ResetRetries(st.pendingMessages)
  {
    st.(pendingMessages := ResetRetries(st.pendingMessages))
  }

  /** After a retry nothing counts as failed, so the button goes away, while the
      indicator stays up as long as messages are pending. */
  lemma RetryClearsFailures(st: OfflineState)
    ensures FailedMessages(Retried(st).pendingMessages) == []
    ensures !ShowsRetry(Retried(st))
    ensures Hidden(Retried(st)) <==> Hidden(st)
  {
    var r := Retried(st).pendingMessages;
    forall m | m in r
      ensures m.retryCount == 0
    {
      var i :| 0 <= i < |r| && r[i] == m;
    }
    NoneFailed(r);
  }

  lemma {:induction false} NoneFailed(ps: seq<PendingMessage>)
    requires forall m :: m in ps ==> m.retryCount < FailedRetryCount
    ensures FailedMessages(ps) == []
  {
    if ps != [] {
      assert ps[0] in ps;
      assert forall m :: m in ps[1..] ==> m in ps;
      NoneFailed(ps[1..]);
    }
  }

  /** Resetting twice is resetting once. */
  lemma ResetIdempotent(ps: seq<PendingMessage>)
    ensures ResetRetries(ResetRetries(ps)) == ResetRetries(ps)
  {
    var r := ResetRetries(ps);
    var rr := ResetRetries(r);
    assert forall i :: 0 <= i < |r| ==> rr[i] == r[i];
  }
}
