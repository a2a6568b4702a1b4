/** The clean-up applied to a generated Unity script: the markdown code
    fences a language model tends to wrap code in are removed, one anchored
    replacement after another. */
module GeminiService {
  import opened Types

  /** The opening fence of a C# code block. */
  const CSharpFence: string := "```csharp\n"

  /** An opening fence without a language tag. */
  const PlainFence: string := "```\n"

  /** A closing fence at the very end of the text. */
  const ClosingFence: string := "\n```"

  /** `r` is a contiguous slice of `s`. */
  ghost predicate IsSlice(r: string, s: string)
  {
    exists i, j :: 0 <= i <= j <= |s| && r == s[i..j]
  }

  /** A replacement of an anchored-at-start pattern by nothing: the prefix
      is dropped once when present, otherwise the text is unchanged. */
  function StripPrefix(s: string, prefix: string): (r: string)
    ensures prefix <= s ==> s == prefix + r
    ensures !(prefix <= s) ==> r == s
  {
    if prefix <= s then s[|prefix|..] else s
  }

  /** s ends with suffix. */
  predicate EndsWith(s: string, suffix: string)
  {
    |suffix| <= |s| && s[|s| - |suffix|..] == suffix
  }

  /** A replacement of an anchored-at-end pattern by nothing: the suffix is
      dropped once when it ends the text, otherwise the text is
      unchanged. */
  function StripSuffix(s: string, suffix: string): (r: string)
    ensures EndsWith(s, suffix) ==> s == r + suffix
    ensures !EndsWith(s, suffix) ==> r == s
  {
    if EndsWith(s, suffix) then s[..|s| - |suffix|] else s
  }

  /** The cleaned script for a response whose text may be missing: the
      missing and the empty text give the empty script; otherwise a leading
      C# fence is dropped, then a leading plain fence (also one the first
      step exposed), then a trailing closing fence. */
  function CleanCode(response: Option<string>): (r: string)
    ensures response == None || response == Some("") ==> r == ""
    ensures |r| <= |GetOr(response, "")|
  {
    var text := GetOr(response, "");
    StripSuffix(StripPrefix(StripPrefix(text, CSharpFence), PlainFence), ClosingFence)
  }

  /** The cleaned script is a contiguous slice of the response text, so it
      is never longer. */
  lemma CleanCodeIsSlice(text: string)
    ensures IsSlice(CleanCode(Some(text)), text)
    ensures |CleanCode(Some(text))| <= |text|
  {
    var a := StripPrefix(text, CSharpFence);
    var i := |text| - |a|;
    assert a == text[i..];
    var b := StripPrefix(a, PlainFence);
    var i' := i + (|a| - |b|);
    assert b == text[i'..];
    var c := StripSuffix(b, ClosingFence);
    var j := i' + |c|;
    assert c == b[..|c|];
    assert c == text[i'..j];
  }

  /** Text with none of the fences is returned unchanged. */
  lemma CleanCodeWithoutFences(text: string)
    requires !(CSharpFence <= text) && !(PlainFence <= text)
    requires !EndsWith(text, ClosingFence)
    ensures CleanCode(Some(text)) == text
  {
  }

  /** A body wrapped in a C# fence and a closing fence comes back as the
      body, provided the body (with the closing fence) does not itself begin
      with a plain fence. */
  lemma {:induction false} CleanCodeUnwrapsCSharp(body: string)
    requires !(PlainFence <= body + ClosingFence)
    ensures CleanCode(Some(CSharpFence + body + ClosingFence)) == body
  {
    var text := CSharpFence + body + ClosingFence;
    assert CSharpFence <= text;
    assert text[|CSharpFence|..] == body + ClosingFence;
    var b := body + ClosingFence;
    assert b[|b| - |ClosingFence|..] == ClosingFence;
    assert b[..|b| - |ClosingFence|] == body;
  }

  /** The plain fence exposed by removing a C# fence is removed as well,
      because the replacements are chained. */
  lemma {:induction false} CleanCodeChainsFences(body: string)
    requires !EndsWith(body, ClosingFence)
    ensures CleanCode(Some(CSharpFence + PlainFence + body)) == body
  {
    var text := CSharpFence + PlainFence + body;
    assert CSharpFence <= text;
    assert text[|CSharpFence|..] == PlainFence + body;
    assert (PlainFence + body)[|PlainFence|..] == body;
  }

  /** Only one C# fence is removed: a second one right after it stays. */
  lemma {:induction false} CSharpFenceRemovedOnce(body: string)
    ensures CleanCode(Some(CSharpFence + CSharpFence + body))
         == StripSuffix(CSharpFence + body, ClosingFence)
  {
    var text := CSharpFence + CSharpFence + body;
    assert CSharpFence <= text;
    assert text[|CSharpFence|..] == CSharpFence + body;
    assert (CSharpFence + body)[3] != PlainFence[3];
    assert !(PlainFence <= CSharpFence + body);
  }

  /** The closing fence is the last step and looks only at the very end:
      whatever the opening-fence steps left is returned as it is, unless it
      ends with a closing fence, which is then dropped once. */
  lemma ClosingFenceOnlyAtEnd(text: string)
    ensures var b := StripPrefix(StripPrefix(text, CSharpFence), PlainFence);
            && (!EndsWith(b, ClosingFence) ==> CleanCode(Some(text)) == b)
            && (EndsWith(b, ClosingFence) ==> b == CleanCode(Some(text)) + ClosingFence)
  {
  }

  /** A closing fence that is not at the very end is kept; one at the end
      is dropped. */
  lemma ClosingFenceExample()
    ensures CleanCode(Some("x\n```\ny")) == "x\n```\ny"
    ensures CleanCode(Some("x\n```")) == "x"
  {
    assert PlainFence[0] != 'x' && CSharpFence[0] != 'x';
    assert !(CSharpFence <= "x\n```\ny");
    assert !(PlainFence <= "x\n```\ny");
    assert "x\n```\ny"[7 - 4..] != ClosingFence;
    assert !(CSharpFence <= "x\n```");
    assert !(PlainFence <= "x\n```");
    assert "x\n```"[5 - 4..] == ClosingFence;
  }
}
