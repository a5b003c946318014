/**
 * The `/generate` endpoint of the inference server: after decoding, the echoed
 * prompt is removed from the front of the model's output. Tokenising, model
 * loading and sampling are not part of this model.
 */
module Generate {
  import opened Text

  /** The reply text: `decoded` without a leading copy of `prompt`, removed at most once. */
  function StripPrompt(decoded: string, prompt: string): (r: string)
    ensures StartsWith(decoded, prompt) ==> prompt + r == decoded
    ensures !StartsWith(decoded, prompt) ==> r == decoded
    ensures |r| <= |decoded| && r == decoded[|decoded| - |r|..]
  {
    if StartsWith(decoded, prompt) then decoded[|prompt|..] else decoded
  }

  /** The strip is one `if`, not a loop: a doubled prompt loses only its first copy. */
  lemma {:induction false} StripOnce(prompt: string, x: string)
    ensures StripPrompt(prompt + prompt + x, prompt) == prompt + x
  {
    assert (prompt + prompt + x)[..|prompt|] == prompt;
    assert (prompt + prompt + x)[|prompt|..] == prompt + x;
  }

  /** The stripped reply is determined by what follows the prompt: `prompt + x` always yields `x`. */
  lemma {:induction false} StripExact(prompt: string, x: string)
    ensures StripPrompt(prompt + x, prompt) == x
  {
    assert (prompt + x)[..|prompt|] == prompt;
  }
}
