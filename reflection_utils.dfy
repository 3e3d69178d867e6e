/** The stand-alone prompt helper of the reflection pattern. */
module ReflectionUtils {
  import Completions
  import Reflection

  /** `build_prompt_structure(prompt, role)`: the `{"role", "content"}` record, with no tag wrapping. */
  function BuildPromptStructure(prompt: string, role: string): (m: Completions.Message)
    ensures m.role == role && m.content == prompt
  {
    Completions.Message(role, prompt)
  }

  /** The three prompt builders agree once no tag is given: the two reflection ones always, and the tagging
      one of the shared completions helpers with an empty tag. */
  lemma BuildersAgree(prompt: string, role: string)
    ensures BuildPromptStructure(prompt, role) == Reflection.BuildPromptStructure(prompt, role)
    ensures BuildPromptStructure(prompt, role) == Completions.BuildPromptStructure(prompt, role, "")
  {
  }
}
