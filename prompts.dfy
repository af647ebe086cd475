/** `cleanManimCode` (lib/llm/prompts.ts): turns an LLM reply into bare Manim source by
    deleting Markdown code fences, trimming, and cutting everything before the first
    `from manim import *` when the text does not already start with `from manim`.
    The system prompt constant of the same file is opaque text and is not modelled. */
module Prompts {
  import opened Common
  import opened Text

  const PythonFence := "```python"
  const Fence := "```"
  const ManimPrefix := "from manim"
  const ManimImport := "from manim import *"

  /** A global regular-expression replace of `tag\n?` by nothing: scanning left to right,
      every occurrence of `tag` is deleted together with one newline right after it. */
  function StripFence(s: string, tag: string): (r: string)
    requires tag != []
    ensures |r| <= |s|
    ensures !Contains(s, tag) ==> r == s
    decreases |s|
  {
    if s == [] then []
    else if StartsWith(s, tag) then
      var rest := s[|tag|..];
      if rest != [] && rest[0] == '\n' then StripFence(rest[1..], tag) else StripFence(rest, tag)
    else
      [s[0]] + StripFence(s[1..], tag)
  }

  /** The text after both fence replacements, before trimming. */
  function Unfenced(code: string): string
  {
    StripFence(StripFence(code, PythonFence), Fence)
  }

  /** `s` ends with `r`. */
  predicate IsSuffix(r: string, s: string)
  {
    |r| <= |s| && s[|s| - |r|..] == r
  }

  /** The text the cut is applied to: fences deleted, then trimmed. */
  function Prepared(code: string): string
  {
    Trim(Unfenced(code))
  }

  function CleanManimCode(code: string): (r: string)
    // the result never has surrounding white space
    ensures IsTrimmed(r)
    // it is always a tail of the fence-stripped, trimmed text
    ensures IsSuffix(r, Prepared(code))
    // text that already starts with `from manim` is kept whole
    ensures StartsWith(Prepared(code), ManimPrefix) ==> r == Prepared(code)
    // otherwise the import line and everything after it are kept
    ensures !StartsWith(Prepared(code), ManimPrefix) && Contains(Prepared(code), ManimImport) ==>
              StartsWith(r, ManimImport) && r == Prepared(code)[IndexOf(Prepared(code), ManimImport).value..]
    // and without an import line the trimmed text is returned
    ensures !Contains(Prepared(code), ManimImport) ==> r == Prepared(code)
  {
    var cleaned := Prepared(code);
    if StartsWith(cleaned, ManimPrefix) then cleaned
    else if Contains(cleaned, ManimImport) then
      var i := IndexOf(cleaned, ManimImport).value;
      CutTrimmed(cleaned, i);
      cleaned[i..]
    else cleaned
  }

  /** Cutting a trimmed text at the start of the import line keeps it trimmed. */
  lemma CutTrimmed(t: string, i: nat)
    requires IsTrimmed(t) && i <= |t| && StartsWith(t[i..], ManimImport)
    ensures IsTrimmed(t[i..]) && IsSuffix(t[i..], t)
  {
    var tail := t[i..];
    assert tail[..|ManimImport|] == ManimImport;
    assert tail[0] == ManimImport[0] == 'f';
    assert tail[|tail| - 1] == t[|t| - 1];
  }

  /** A text without backquotes has no fence to delete. */
  lemma {:induction false} StripFenceNoBackquote(s: string, tag: string)
    requires tag != [] && tag[0] == '`'
    requires forall k :: 0 <= k < |s| ==> s[k] != '`'
    ensures StripFence(s, tag) == s
  {
    forall j | 0 <= j <= |s|
      ensures !StartsWith(s[j..], tag)
    {
      if j < |s| {
        assert s[j..][0] == s[j];
      }
    }
    ContainsIff(s, tag);
  }

  /** Clean Manim source (no backquotes, no surrounding white space, starting with
      `from manim`) passes through unchanged. */
  lemma CleanFixpoint(code: string)
    requires forall k :: 0 <= k < |code| ==> code[k] != '`'
    requires IsTrimmed(code) && StartsWith(code, ManimPrefix)
    ensures CleanManimCode(code) == code
  {
    StripFenceNoBackquote(code, PythonFence);
    StripFenceNoBackquote(code, Fence);
    TrimOfTrimmed(code);
  }
}
