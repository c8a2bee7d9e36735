/** The splitting of a chat message's content into Markdown text and Mermaid diagrams
    done by `renderContent` in app/components/Message.tsx. The regular expression
    /```mermaid\n([\s\S]*?)```/g is modelled by `NextMatch`: the leftmost match at or
    after a position, whose body ends at the first closing fence. How the parts are
    rendered is not modelled; a part here is the text or the diagram source it is
    rendered from. */
module MessageSegments {
  import opened Common

  const OpenFence := "```mermaid\n"
  const CloseFence := "```"

  datatype Part = Text(text: string) | Diagram(chart: string)

  /** A position where the expression matches: the opening fence, and a closing fence
      somewhere after it. */
  predicate MatchesAt(s: string, i: nat)
  {
    OccursAt(s, OpenFence, i) && IndexOf(s, CloseFence, i + |OpenFence|).Some?
  }

  /** `exec` from `from`: the index of the leftmost match and the index of the closing
      fence that ends it (the non-greedy body stops at the first one). */
  function NextMatch(s: string, from: nat): (r: Option<(nat, nat)>)
    decreases |s| - from
    ensures r.Some? ==>
      var (i, e) := r.value;
      && from <= i && i + |OpenFence| <= e && e + |CloseFence| <= |s|
      && OccursAt(s, OpenFence, i) && OccursAt(s, CloseFence, e)
  {
    if from > |s| then None
    else if MatchesAt(s, from) then Some((from, IndexOf(s, CloseFence, from + |OpenFence|).value))
    else NextMatch(s, from + 1)
  }

  /** No match is found only when there is none. */
  lemma {:induction false} NoMatchFound(s: string, from: nat)
    requires NextMatch(s, from).None?
    decreases |s| - from
    ensures forall j :: from <= j ==> !MatchesAt(s, j)
  {
    if from <= |s| {
      NoMatchFound(s, from + 1);
    }
  }

  /** The match found is the leftmost one. */
  lemma {:induction false} MatchIsLeftmost(s: string, from: nat, i: nat, e: nat)
    requires NextMatch(s, from) == Some((i, e))
    decreases |s| - from
    ensures MatchesAt(s, i)
    ensures forall j :: from <= j < i ==> !MatchesAt(s, j)
  {
    if !MatchesAt(s, from) {
      MatchIsLeftmost(s, from + 1, i, e);
    }
  }

  /** The body of a match ends at the first closing fence after the opening one. */
  lemma {:induction false} MatchCloses(s: string, from: nat, i: nat, e: nat)
    requires NextMatch(s, from) == Some((i, e))
    decreases |s| - from
    ensures IndexOf(s, CloseFence, i + |OpenFence|) == Some(e)
  {
    if !MatchesAt(s, from) {
      MatchCloses(s, from + 1, i, e);
    }
  }

  /** The parts `renderContent` produces from position `from` on. */
  function Segments(s: string, from: nat): (r: seq<Part>)
    requires from <= |s|
    decreases |s| - from
  {
    match NextMatch(s, from)
    case None => if from < |s| then [Text(s[from..])] else []
    case Some((i, e)) =>
      (if i > from then [Text(s[from..i])] else []) + [Diagram(s[i + |OpenFence|..e])] + Segments(s, e + |CloseFence|)
  }

  /** The text the parts were cut from: text as it is, a diagram inside its fences. */
  function Render(parts: seq<Part>): string
  {
    if parts == [] then "" else Source(parts[0]) + Render(parts[1..])
  }

  function Source(p: Part): string
  {
    match p
    case Text(t) => t
    case Diagram(c) => OpenFence + c + CloseFence
  }

  lemma {:induction false} RenderAppend(a: seq<Part>, b: seq<Part>)
    ensures Render(a + b) == Render(a) + Render(b)
  {
    if a != [] {
      assert (a + b)[0] == a[0] && (a + b)[1..] == a[1..] + b;
      RenderAppend(a[1..], b);
    } else {
      assert a + b == b;
    }
  }

  /** One match: the text before it (when there is any), its diagram, then the rest. */
  lemma SegmentsStep(s: string, from: nat, i: nat, e: nat)
    requires from <= |s| && NextMatch(s, from) == Some((i, e))
    ensures Segments(s, from) ==
      (if i > from then [Text(s[from..i])] else []) + [Diagram(s[i + |OpenFence|..e])] + Segments(s, e + |CloseFence|)
  {
  }

  /** A text part is never empty, and a diagram body holds no closing fence. */
  predicate Shaped(p: Part)
  {
    match p
    case Text(t) => t != ""
    case Diagram(c) => !Contains(c, CloseFence)
  }

  predicate AllShaped(parts: seq<Part>)
  {
    forall p :: p in parts ==> Shaped(p)
  }

  lemma AllShapedAppend(a: seq<Part>, b: seq<Part>)
    requires AllShaped(a) && AllShaped(b)
    ensures AllShaped(a + b)
  {
  }

  lemma {:induction false} SegmentsShape(s: string, from: nat)
    requires from <= |s|
    decreases |s| - from
    ensures AllShaped(Segments(s, from))
  {
    var m := NextMatch(s, from);
    if m.None? {
      SegmentsLast(s, from);
    } else {
      var i := m.value.0;
      var e := m.value.1;
      var before: seq<Part> := if i > from then [Text(s[from..i])] else [];
      var d := Diagram(s[i + |OpenFence|..e]);
      var rest := Segments(s, e + |CloseFence|);
      SegmentsStep(s, from, i, e);
      SegmentsShape(s, e + |CloseFence|);
      DiagramShaped(s, from, i, e);
      assert AllShaped(before);
      AllShapedAppend(before, [d]);
      AllShapedAppend(before + [d], rest);
    }
  }

  lemma DiagramShaped(s: string, from: nat, i: nat, e: nat)
    requires NextMatch(s, from) == Some((i, e))
    ensures AllShaped([Diagram(s[i + |OpenFence|..e])])
  {
    MatchCloses(s, from, i, e);
    BodyHasNoFence(s, i + |OpenFence|, e);
    assert Shaped(Diagram(s[i + |OpenFence|..e]));
  }

  /** A closing fence inside the body would be an earlier closing fence. */
  lemma BodyHasNoFence(s: string, start: nat, e: nat)
    requires start <= e <= |s|
    requires IndexOf(s, CloseFence, start) == Some(e)
    ensures !Contains(s[start..e], CloseFence)
  {
    var body := s[start..e];
    if Contains(body, CloseFence) {
      var k := IndexOf(body, CloseFence, 0).value;
      assert s[start + k..start + k + |CloseFence|] == body[k..k + |CloseFence|];
      assert OccursAt(s, CloseFence, start + k);
      assert false;
    }
  }

  /** Nothing is lost or added: the parts, with the diagrams put back in their fences,
      spell the content. */
  lemma {:induction false} SegmentsRoundTrip(s: string, from: nat)
    requires from <= |s|
    ensures Render(Segments(s, from)) == s[from..]
    decreases |s| - from
  {
    var m := NextMatch(s, from);
    if m.None? {
      assert Segments(s, from) == if from < |s| then [Text(s[from..])] else [];
    } else {
      var (i, e) := m.value;
      var next := e + |CloseFence|;
      var before: seq<Part> := if i > from then [Text(s[from..i])] else [];
      var d := [Diagram(s[i + |OpenFence|..e])];
      var rest := Segments(s, next);
      SegmentsStep(s, from, i, e);
      assert Segments(s, from) == before + d + rest;
      SegmentsRoundTrip(s, next);
      RenderAppend(before + d, rest);
      RenderAppend(before, d);
      assert Render(before) == s[from..i];
      RenderDiagram(s, i, e);
      Split3(s, from, i, next);
    }
  }

  lemma RenderDiagram(s: string, i: nat, e: nat)
    requires OccursAt(s, OpenFence, i) && OccursAt(s, CloseFence, e) && i + |OpenFence| <= e
    ensures Render([Diagram(s[i + |OpenFence|..e])]) == s[i..e + |CloseFence|]
  {
    var c := s[i + |OpenFence|..e];
    assert Render([Diagram(c)]) == OpenFence + c + CloseFence by {
      assert Render([Diagram(c)]) == Source(Diagram(c)) + Render([]);
    }
    Fenced(s, i, e, OpenFence, CloseFence);
  }

  /** A fenced stretch of `s` is its opening fence, its body and its closing fence. */
  lemma Fenced(s: string, i: nat, e: nat, open: string, close: string)
    requires OccursAt(s, open, i) && OccursAt(s, close, e) && i + |open| <= e
    ensures s[i..e + |close|] == open + s[i + |open|..e] + close
  {
    Split(s, i, i + |open|, e, e + |close|);
  }

  lemma Split3(s: string, a: nat, b: nat, c: nat)
    requires a <= b <= c <= |s|
    ensures s[a..b] + s[b..c] + s[c..] == s[a..]
  {
    Split(s, a, b, c, |s|);
    assert s[a..|s|] == s[a..] && s[c..|s|] == s[c..];
  }

  lemma Split(s: string, a: nat, b: nat, c: nat, d: nat)
    requires a <= b <= c <= d <= |s|
    ensures s[a..d] == s[a..b] + s[b..c] + s[c..d]
  {
  }

  /** Content without a diagram is one text part, or no part when empty. */
  lemma NoDiagram(s: string)
    requires !Contains(s, OpenFence)
    ensures Segments(s, 0) == if s == "" then [] else [Text(s)]
  {
    if NextMatch(s, 0).Some? {
      var i := NextMatch(s, 0).value.0;
      ContainsAt(s, OpenFence, i);
    }
  }

  /** `renderContent`: the `exec` loop, with `lastIndex` moved past each match. */
  method RenderContent(content: string) returns (parts: seq<Part>)
    ensures parts == Segments(content, 0)
    ensures Render(parts) == content
    ensures AllShaped(parts)
  {
    parts := [];
    var lastIndex := 0;
    var m := NextMatch(content, lastIndex);
    while m.Some?
      invariant lastIndex <= |content|
      invariant m == NextMatch(content, lastIndex)
      invariant parts + Segments(content, lastIndex) == Segments(content, 0)
      decreases |content| - lastIndex
    {
      var step, next := PartsOfMatch(content, lastIndex, m.value.0, m.value.1);
      AppendAssoc(parts, step, Segments(content, next));
      parts := parts + step;
      lastIndex := next;
      m := NextMatch(content, lastIndex);
    }
    SegmentsLast(content, lastIndex);
    if lastIndex < |content| {
      parts := parts + [Text(content[lastIndex..])];
    } else {
      assert parts + [] == parts;
    }
    SegmentsRoundTrip(content, 0);
    SegmentsShape(content, 0);
  }

  /** The body of the loop for one match: the text before the match when it is not
      empty, then the diagram; `lastIndex` moves to just past the closing fence. */
  method PartsOfMatch(content: string, lastIndex: nat, index: nat, end: nat) returns (step: seq<Part>, next: nat)
    requires lastIndex <= |content| && NextMatch(content, lastIndex) == Some((index, end))
    ensures lastIndex < next <= |content|
    ensures step + Segments(content, next) == Segments(content, lastIndex)
  {
    step := if index > lastIndex then [Text(content[lastIndex..index])] else [];
    step := step + [Diagram(content[index + |OpenFence|..end])];
    next := end + |CloseFence|;
    SegmentsStep(content, lastIndex, index, end);
  }

  lemma AppendAssoc(a: seq<Part>, b: seq<Part>, c: seq<Part>)
    ensures (a + b) + c == a + (b + c)
  {
  }

  lemma SegmentsLast(s: string, from: nat)
    requires from <= |s| && NextMatch(s, from).None?
    ensures Segments(s, from) == if from < |s| then [Text(s[from..])] else []
  {
  }
}
