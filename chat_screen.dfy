/** `sendMessage` of app/screens/ChatScreen.tsx: the input is trimmed, blank input is
    ignored, the input box is cleared, and one user message is appended to the chat;
    when offline the content is first queued as a pending message and the chat entry
    carries the pending entry's id. The clock and the id `addPendingMessage` hands
    back are parameters; the queue it appends to is the field `queued`. */
module ChatScreen {
  import opened Common

  datatype Role = User | Assistant | System

  datatype ChatMessage = ChatMessage(id: string, role: Role, content: string, pending: bool)

  /** The characters `String.prototype.trim` removes that this model knows of: the
      ASCII white space, the line terminators, no-break space and the byte order mark. */
  predicate IsSpace(c: char)
  {
    c == ' ' || c == '\t' || c == '\n' || c == '\r' || c == '\U{000B}' || c == '\U{000C}' ||
    c == '\U{00A0}' || c == '\U{2028}' || c == '\U{2029}' || c == '\U{FEFF}'
  }

  /** The number of white-space characters at the start of `s`. */
  function LeadingSpace(s: string): (n: nat)
    ensures n <= |s|
    ensures forall k :: 0 <= k < n ==> IsSpace(s[k])
    ensures n < |s| ==> !IsSpace(s[n])
  {
    if s == [] || !IsSpace(s[0]) then 0 else 1 + LeadingSpace(s[1..])
  }

  /** The number of white-space characters at the end of `s`. */
  function TrailingSpace(s: string): (n: nat)
    ensures n <= |s|
    ensures forall k :: |s| - n <= k < |s| ==> IsSpace(s[k])
    ensures n < |s| ==> !IsSpace(s[|s| - n - 1])
  {
    if s == [] || !IsSpace(s[|s| - 1]) then 0 else 1 + TrailingSpace(s[..|s| - 1])
  }

  /** `trim`: `s` without its leading and trailing white space. What is cut from
      the front is `LeadingSpace(s)` characters of white space; what is cut from the
      back is white space too. */
  function Trim(s: string): (r: string)
    ensures LeadingSpace(s) + |r| <= |s| && r == s[LeadingSpace(s)..LeadingSpace(s) + |r|]
    ensures forall k :: LeadingSpace(s) + |r| <= k < |s| ==> IsSpace(s[k])
  {
    var i := LeadingSpace(s);
    var rest := s[i..];
    var r := rest[..|rest| - TrailingSpace(rest)];
    assert forall k :: i + |r| <= k < |s| ==> s[k] == rest[k - i];
    assert r == s[i..i + |r|];
    r
  }

  /** The trimmed string starts and ends with a non-space, and is empty exactly when
      `s` is all white space. */
  lemma TrimEnds(s: string)
    ensures var r := Trim(s);
      && (r != "" ==> !IsSpace(r[0]) && !IsSpace(r[|r| - 1]))
      && (r == "" <==> forall k :: 0 <= k < |s| ==> IsSpace(s[k]))
  {
    var i := LeadingSpace(s);
    var rest := s[i..];
    var r := Trim(s);
    assert r == rest[..|rest| - TrailingSpace(rest)];
    if i < |s| {
      assert rest[0] == s[i];
      assert TrailingSpace(rest) < |rest|;
      assert r[0] == s[i];
      assert r[|r| - 1] == rest[|rest| - TrailingSpace(rest) - 1];
    }
  }

  /** Trimming what is already trimmed changes nothing. */
  lemma TrimIdempotent(s: string)
    ensures Trim(Trim(s)) == Trim(s)
  {
    var t := Trim(s);
    TrimEnds(s);
    if t != "" {
      assert LeadingSpace(t) == 0;
      assert TrailingSpace(t) == 0;
      assert t[0..|t|] == t;
    }
  }

  class ChatScreen {
    var input: string
    var messages: seq<ChatMessage>
    /** The contents handed to `addPendingMessage`, in order. */
    var queued: seq<string>

    constructor (messages: seq<ChatMessage>)
      ensures input == "" && this.messages == messages && queued == []
    {
      input := "";
      this.messages := messages;
      queued := [];
    }

    /** `sendMessage` at time `now`; `pendingId` is the id of the pending entry
        `addPendingMessage` creates. */
    method SendMessage(isOnline: bool, now: nat, pendingId: string)
      modifies this
      ensures Trim(old(input)) == "" ==>
        input == old(input) && messages == old(messages) && queued == old(queued)
      ensures Trim(old(input)) != "" ==>
        var content := Trim(old(input));
        && input == ""
        && messages == old(messages) + [ChatMessage(if isOnline then NatToString(now) else pendingId, User, content, !isOnline)]
        && queued == old(queued) + (if isOnline then [] else [content])
    {
      var messageContent := Trim(input);
      if messageContent == "" {
        return;
      }
      input := "";
      if !isOnline {
        queued := queued + [messageContent];
        messages := messages + [ChatMessage(pendingId, User, messageContent, true)];
      } else {
        messages := messages + [ChatMessage(NatToString(now), User, messageContent, false)];
      }
    }
  }
}
