/** The options screen (components/GenerationOptions.tsx): the custom-prompt
    text area, its submit guard, and the calls the two style cards make. */
module GenerationOptions {
  import opened Types

  /** The code points of the WhiteSpace production (section 12.2 of
      ECMA-262): tab, vertical tab, form feed, byte-order mark, and every
      space separator. */
  const WhiteSpaceCodePoints: set<int> :=
    {0x09, 0x0B, 0x0C, 0xFEFF, 0x20, 0xA0, 0x1680,
     0x2000, 0x2001, 0x2002, 0x2003, 0x2004, 0x2005, 0x2006, 0x2007, 0x2008, 0x2009, 0x200A,
     0x202F, 0x205F, 0x3000}

  /** The code points of the LineTerminator production (section 12.3 of
      ECMA-262): line feed, carriage return, line and paragraph separator. */
  const LineTerminatorCodePoints: set<int> := {0x0A, 0x0D, 0x2028, 0x2029}

  /** The characters JavaScript's `String.prototype.trim` removes: the
      ECMAScript WhiteSpace code points (tab, vertical tab, form feed, space,
      no-break space, the byte-order mark and the space separators) and the
      LineTerminator code points (line feed, carriage return, line and
      paragraph separator). */
  predicate IsTrimmable(c: char) {
    var n := c as int;
    || n == 0x09 || n == 0x0A || n == 0x0B || n == 0x0C || n == 0x0D
    || n == 0x20 || n == 0xA0 || n == 0x1680
    || (0x2000 <= n <= 0x200A)
    || n == 0x2028 || n == 0x2029 || n == 0x202F || n == 0x205F
    || n == 0x3000 || n == 0xFEFF
  }

  /** The trimmable characters are exactly the code points of the two
      ECMA-262 productions. */
  lemma TrimmableIsStandardWhiteSpace(c: char)
    ensures IsTrimmable(c) <==> c as int in WhiteSpaceCodePoints + LineTerminatorCodePoints
  {
  }

  /** `s` with its leading trimmable characters removed: the longest suffix
      that does not start with one. */
  function TrimStart(s: string): (t: string)
    ensures |t| <= |s| && t == s[|s| - |t|..]
    ensures t == [] || !IsTrimmable(t[0])
    ensures forall k :: 0 <= k < |s| - |t| ==> IsTrimmable(s[k])
    decreases |s|
  {
    if |s| > 0 && IsTrimmable(s[0]) then TrimStart(s[1..]) else s
  }

  /** `s` with its trailing trimmable characters removed: the longest prefix
      that does not end with one. */
  function TrimEnd(s: string): (t: string)
    ensures |t| <= |s| && t == s[..|t|]
    ensures t == [] || !IsTrimmable(t[|t| - 1])
    ensures forall k :: |t| <= k < |s| ==> IsTrimmable(s[k])
    decreases |s|
  {
    if |s| > 0 && IsTrimmable(s[|s| - 1]) then TrimEnd(s[..|s| - 1]) else s
  }

  /** `s.trim()`: the slice of `s` left once every leading and every
      trailing trimmable character is dropped; it neither starts nor ends
      with one. */
  function Trim(s: string): (t: string)
    ensures |t| <= |s|
    ensures exists i, j ::
              (0 <= i <= j <= |s| && t == s[i..j]
               && (forall k :: 0 <= k < i ==> IsTrimmable(s[k]))
               && (forall k :: j <= k < |s| ==> IsTrimmable(s[k])))
    ensures t == [] || (!IsTrimmable(t[0]) && !IsTrimmable(t[|t| - 1]))
  {
    var e := TrimEnd(s);
    var t := TrimStart(e);
    assert t == [] || t[|t| - 1] == e[|e| - 1];
    var i, j := |e| - |t|, |e|;
    assert e == s[..j];
    assert t == e[i..];
    assert t == s[i..j];
    t
  }

  /** A string made only of trimmable characters has nothing left at its end. */
  lemma {:induction false} TrimEndOfBlank(s: string)
    requires forall k :: 0 <= k < |s| ==> IsTrimmable(s[k])
    ensures TrimEnd(s) == []
    decreases |s|
  {
    if |s| > 0 {
      TrimEndOfBlank(s[..|s| - 1]);
    }
  }

  /** A prompt trims to nothing exactly when every character of it is
      whitespace. */
  lemma TrimEmptyIffBlank(s: string)
    ensures Trim(s) == "" <==> forall k :: 0 <= k < |s| ==> IsTrimmable(s[k])
  {
    var e := TrimEnd(s);
    if Trim(s) == "" {
      forall k | 0 <= k < |s| ensures IsTrimmable(s[k]) {
        if k < |e| {
          assert IsTrimmable(e[k]);
        }
      }
    }
    if forall k :: 0 <= k < |s| ==> IsTrimmable(s[k]) {
      TrimEndOfBlank(s);
    }
  }

  /** Trimming twice trims nothing more. */
  lemma TrimIdempotent(s: string)
    ensures Trim(Trim(s)) == Trim(s)
  {
    var t := Trim(s);
    assert TrimEnd(t) == t;
  }

  /** The submit button is disabled exactly when the prompt trims to nothing. */
  function SubmitDisabled(prompt: string): (disabled: bool)
    ensures disabled <==> forall k :: 0 <= k < |prompt| ==> IsTrimmable(prompt[k])
  {
    TrimEmptyIffBlank(prompt);
    Trim(prompt) == ""
  }

  /** `handleCustomSubmit`: the `onGenerate` call a submission makes, if any.
      The prompt is passed on untrimmed. */
  function CustomSubmission(prompt: string): (call: Option<GenerateCall>)
    ensures call.Some? <==> !SubmitDisabled(prompt)
    ensures call.Some? ==> call.value == GenerateCall(Custom, Some(prompt))
  {
    if Trim(prompt) != "" then Some(GenerateCall(Custom, Some(prompt))) else None
  }

  /** A blank or whitespace-only prompt is never submitted, and anything
      else is submitted as typed. */
  lemma BlankPromptNotSubmitted(prompt: string)
    ensures CustomSubmission(prompt).None? <==> forall k :: 0 <= k < |prompt| ==> IsTrimmable(prompt[k])
    ensures CustomSubmission(prompt).Some? ==> CustomSubmission(prompt).value.customPrompt == Some(prompt)
  {
    TrimEmptyIffBlank(prompt);
  }

  /** The form's only state, the text of the custom prompt. */
  class Form {
    var customPrompt: string

    constructor ()
      ensures customPrompt == ""
    {
      customPrompt := "";
    }

    /** The text area's `onChange`. */
    method OnChange(value: string)
      modifies this
      ensures customPrompt == value
    {
      customPrompt := value;
    }

    function IsSubmitDisabled(): (disabled: bool)
      reads this
      ensures disabled <==> forall k :: 0 <= k < |customPrompt| ==> IsTrimmable(customPrompt[k])
    {
      SubmitDisabled(customPrompt)
    }

    /** Submitting the form: the call it makes, if any. */
    method HandleCustomSubmit() returns (call: Option<GenerateCall>)
      ensures call.Some? <==> !IsSubmitDisabled()
      ensures call.Some? ==> call.value == GenerateCall(Custom, Some(customPrompt))
    {
      call := CustomSubmission(customPrompt);
    }

    /** The professional card asks for professional mode, with no prompt. */
    method OnProfessionalClick() returns (call: GenerateCall)
      ensures call.mode == Professional && call.customPrompt.None?
    {
      call := GenerateCall(Professional, None);
    }

    /** The creative card asks for creative mode, with no prompt. */
    method OnCreativeClick() returns (call: GenerateCall)
      ensures call.mode == Creative && call.customPrompt.None?
    {
      call := GenerateCall(Creative, None);
    }
  }
}
