/** What the modules about assistants share. */
module Assistants {
  datatype Id = Id(text: string)

  const DEFAULT_AGENT_TYPE := "gemini"
}
