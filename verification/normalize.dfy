/** Sanitising of the generation service's raw reply (src/App.tsx:892-893):
    `(response.text || '').replace(/^```html/, '').replace(/```$/, '').trim()`.
    Without the `m` flag `^` anchors at index 0 and `$` at the very end of the
    input, and a non-global `replace` removes at most one match. */
module Normalize {
  import opened Common
  import opened JsText

  const HtmlFence: string := "```html"
  const Fence: string := "```"

  /** `replace(/^```html/, '')`: one opening marker, only at index 0. */
  function StripLeadingFence(s: string): (r: string)
    ensures StartsWith(s, HtmlFence) ==> s == HtmlFence + r
    ensures !StartsWith(s, HtmlFence) ==> r == s
  {
    if StartsWith(s, HtmlFence) then s[|HtmlFence|..] else s
  }

  /** `replace(/```$/, '')`: one closing marker, only at the very end. */
  function StripTrailingFence(s: string): (r: string)
    ensures EndsWith(s, Fence) ==> s == r + Fence
    ensures !EndsWith(s, Fence) ==> r == s
  {
    if EndsWith(s, Fence) then s[..|s| - |Fence|] else s
  }

  /** The stored markup for a reply whose text may be missing (`None`).
      A missing or empty reply is not an error: it yields the empty string. */
  function NormalizeResponse(text: Option<string>): (r: string)
    ensures IsTrimmed(r)
    ensures text.None? ==> r == ""
    ensures text.Some? ==> |r| <= |text.value|
    ensures text.Some? ==> exists a :: OccursAt(text.value, r, a)
    ensures text.Some? ==> exists pre, post :: && AllSpace(pre) && AllSpace(post)
                                               && StripTrailingFence(StripLeadingFence(text.value)) == pre + r + post
  {
    var s := text.GetOr("");
    StrippedIsSliceOfReply(s);
    TrimSplits(StripTrailingFence(StripLeadingFence(s)));
    Trim(StripTrailingFence(StripLeadingFence(s)))
  }

  lemma {:induction false} StrippedIsSliceOfReply(s: string)
    ensures exists a :: OccursAt(s, Trim(StripTrailingFence(StripLeadingFence(s))), a)
  {
    var u := StripLeadingFence(s);
    var inner := StripTrailingFence(u);
    var off := |s| - |u|;
    assert u == s[off..];
    assert inner == u[..|inner|];
    assert inner == s[off..off + |inner|];
    TrimIsSlice(inner);
    var a := LeadingSpace(inner);
    SliceOfSlice(s, off, inner, a, Trim(inner));
  }

  lemma {:induction false} SliceOfSlice(s: string, off: nat, inner: string, a: nat, r: string)
    requires off + |inner| <= |s| && inner == s[off..off + |inner|]
    requires a + |r| <= |inner| && r == inner[a..a + |r|]
    ensures OccursAt(s, r, off + a)
  {
    forall i | 0 <= i < |r| ensures s[off + a + i] == r[i] {
      assert r[i] == inner[a + i];
      assert inner[a + i] == s[off + a + i];
    }
  }

  /** A reply that is already bare markup (trimmed, no marker at either end)
      is stored exactly as received. */
  lemma {:induction false} BareReplyUnchanged(s: string)
    requires IsTrimmed(s) && !StartsWith(s, HtmlFence) && !EndsWith(s, Fence)
    ensures NormalizeResponse(Some(s)) == s
  {
    TrimFixesTrimmed(s);
  }

  /** The wrapping a model typically adds: an opening ```html line and a
      closing ``` line around the markup. */
  function FenceBlock(body: string): string {
    HtmlFence + "\n" + body + "\n" + Fence
  }

  /** Normalisation undoes the fenced-block wrapping of any trimmed markup. */
  lemma {:induction false} FenceBlockRoundTrip(body: string)
    requires IsTrimmed(body)
    ensures NormalizeResponse(Some(FenceBlock(body))) == body
  {
    var afterLead := "\n" + body + "\n" + Fence;
    OpeningFenceStripped(FenceBlock(body), afterLead);
    assert afterLead == ("\n" + body + "\n") + Fence;
    assert afterLead[|afterLead| - |Fence|..] == Fence;
    assert StripTrailingFence(afterLead) == "\n" + body + "\n";
    assert AllSpace("\n");
    TrimDropsSpaceFrame("\n", body, "\n");
    TrimFixesTrimmed(body);
  }

  /** The example of a fenced reply: it is reduced to the bare paragraph. */
  lemma {:induction false} FencedParagraph()
    ensures NormalizeResponse(Some("```html\n<p>x</p>\n```")) == "<p>x</p>"
  {
    var p := "<p>x</p>";
    PrintableIsNotSpace(p[0]);
    PrintableIsNotSpace(p[|p| - 1]);
    assert "```html\n<p>x</p>\n```" == FenceBlock(p);
    FenceBlockRoundTrip(p);
  }

  /** Only one opening marker is removed, so normalising is not idempotent:
      a doubled marker survives the first pass and is removed by the second. */
  lemma {:induction false} NotIdempotent()
    ensures NormalizeResponse(Some(HtmlFence + HtmlFence)) == HtmlFence
    ensures NormalizeResponse(Some(HtmlFence)) == ""
  {
    var s := HtmlFence + HtmlFence;
    assert s[..|HtmlFence|] == HtmlFence;
    assert StripLeadingFence(s) == HtmlFence;
    assert HtmlFence[|HtmlFence| - |Fence|..] != Fence by {
      assert HtmlFence[|HtmlFence| - 1] == 'l';
    }
    PrintableIsNotSpace(HtmlFence[0]);
    PrintableIsNotSpace(HtmlFence[|HtmlFence| - 1]);
    TrimFixesTrimmed(HtmlFence);
    assert StripLeadingFence(HtmlFence) == "";
  }

  /** The closing marker is removed only at the very end of the reply: when a
      line break follows it, the marker stays in the stored markup. */
  lemma {:induction false} TrailingNewlineKeepsClosingFence(body: string)
    requires IsTrimmed(body) && body != ""
    ensures NormalizeResponse(Some(FenceBlock(body) + "\n")) == body + "\n" + Fence
  {
    var mid := body + "\n" + Fence;
    var t := "\n" + mid + "\n";
    OpeningFenceStripped(FenceBlock(body) + "\n", t);
    NoClosingFenceBeforeNewline(t);
    NewlineAndSpaceAreSpace();
    TrimDropsSpaceFrame("\n", mid, "\n");
    PrintableIsNotSpace('`');
    assert mid[0] == body[0] && mid[|mid| - 1] == '`';
    TrimFixesTrimmed(mid);
  }

  lemma {:induction false} NoClosingFenceBeforeNewline(t: string)
    requires |t| > 0 && t[|t| - 1] == '\n'
    ensures StripTrailingFence(t) == t
  {
    assert |t| < |Fence| || t[|t| - |Fence|..][2] == t[|t| - 1];
  }

  lemma {:induction false} OpeningFenceStripped(s: string, t: string)
    requires s == HtmlFence + t
    ensures StripLeadingFence(s) == t
  {
    assert s[..|HtmlFence|] == HtmlFence;
  }

  /** The opening marker is removed only at index 0: a reply that starts with
      whitespace keeps its opening marker, and only the closing one can go. */
  lemma {:induction false} LeadingSpaceKeepsOpeningFence(s: string)
    requires |s| > 0 && IsJsSpace(s[0])
    ensures NormalizeResponse(Some(s)) == Trim(StripTrailingFence(s))
  {
    PrintableIsNotSpace(HtmlFence[0]);
    assert |s| < |HtmlFence| || s[..|HtmlFence|][0] == s[0];
  }
}
