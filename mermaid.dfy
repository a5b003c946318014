/**
 * Diagram extraction in the "Visualize" handler: the reply's first
 * ```mermaid ... ``` block, trimmed, or the whole reply when there is none.
 * The regular expression is /```mermaid([\s\S]*?)```/, a lazy match, so the
 * block ends at the first fence after the opening marker.
 */
module Mermaid {
  import opened Wrappers
  import opened Text

  const OpenFence := "```mermaid"
  const Fence := "```"

  /** The text between the opening marker and the first fence after it, if the reply has both. */
  function FencedBlock(response: string): (block: Option<string>)
    ensures block.Some? ==> |block.value| <= |response|
    ensures !Contains(response, OpenFence) ==> block.None?
  {
    match IndexOf(response, OpenFence)
    case None => None
    case Some(i) =>
      var rest := response[i + |OpenFence|..];
      match IndexOf(rest, Fence)
      case None => None
      case Some(j) => Some(rest[..j])
  }

  /** The text handed to the diagram renderer for a reply `response`. */
  function MermaidCode(response: string): (code: string)
    ensures |code| <= |response|
    ensures !Contains(response, OpenFence) ==> code == response
  {
    match FencedBlock(response)
    case None => response
    case Some(block) => Trim(block)
  }

  /** IndexOf is pinned down by an occurrence with none before it. */
  lemma {:induction false} IndexOfFirst(s: string, pattern: string, i: nat)
    requires OccursAt(s, pattern, i)
    requires forall j :: 0 <= j < i ==> !OccursAt(s, pattern, j)
    ensures IndexOf(s, pattern) == Some(i)
  {
    var r := IndexOf(s, pattern);
    assert r.Some?;
    assert !(r.value < i);
    assert !(i < r.value);
  }

  /** A body with no complete fence of its own is closed by the fence that follows it. */
  lemma {:induction false} FirstFenceAfter(body: string, post: string)
    requires forall j :: 0 <= j < |body| ==> !OccursAt(body + Fence, Fence, j)
    ensures IndexOf(body + Fence + post, Fence) == Some(|body|)
  {
    var rest := body + Fence + post;
    assert rest[|body|..|body| + |Fence|] == Fence;
    forall j | 0 <= j < |body| ensures !OccursAt(rest, Fence, j) {
      assert OccursAt(body + Fence, Fence, j) <==> OccursAt(rest, Fence, j) by {
        assert (body + Fence)[j..j + |Fence|] == rest[j..j + |Fence|];
      }
    }
    IndexOfFirst(rest, Fence, |body|);
  }

  /** Once both markers are found, the block is the text between them. */
  lemma {:induction false} MermaidBetween(response: string, i: nat, j: nat)
    requires IndexOf(response, OpenFence) == Some(i)
    requires i + |OpenFence| <= |response| && IndexOf(response[i + |OpenFence|..], Fence) == Some(j)
    ensures j <= |response| - i - |OpenFence|
    ensures FencedBlock(response) == Some(response[i + |OpenFence|..][..j])
  {
    assert OccursAt(response[i + |OpenFence|..], Fence, j);
  }

  /**
   * A reply of the shape pre ```mermaid body ``` post, where the opening marker
   * does not start inside `pre` and `body` holds no complete fence of its own,
   * yields exactly the trimmed body.
   */
  lemma {:induction false} MermaidBlock(pre: string, body: string, post: string)
    requires forall j :: 0 <= j < |pre| ==> !OccursAt(pre + OpenFence + body + Fence + post, OpenFence, j)
    requires forall j :: 0 <= j < |body| ==> !OccursAt(body + Fence, Fence, j)
    ensures MermaidCode(pre + OpenFence + body + Fence + post) == Trim(body)
  {
    var response := pre + OpenFence + body + Fence + post;
    assert response[|pre|..|pre| + |OpenFence|] == OpenFence;
    IndexOfFirst(response, OpenFence, |pre|);
    var rest := response[|pre| + |OpenFence|..];
    assert rest == body + Fence + post;
    FirstFenceAfter(body, post);
    MermaidBetween(response, |pre|, |body|);
    assert rest[..|body|] == body;
    assert FencedBlock(response) == Some(body);
  }

  /** An opening marker with no fence after it leaves the reply as it is. */
  lemma {:induction false} MermaidUnclosed(response: string, i: nat)
    requires IndexOf(response, OpenFence) == Some(i)
    requires !Contains(response[i + |OpenFence|..], Fence)
    ensures MermaidCode(response) == response
  {
    var rest := response[i + |OpenFence|..];
    assert IndexOf(rest, Fence).None?;
    assert FencedBlock(response).None?;
  }
}
