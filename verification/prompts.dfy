/** The prompt record as the prompts API returns it. */
module Prompts {
  import opened Wrappers

  /** `description` and `category` may be null; `createdAt` is a clock
      reading in milliseconds. */
  datatype Prompt = Prompt(
    id: string,
    title: string,
    description: Option<string>,
    content: string,
    category: Option<string>,
    isFavorite: bool,
    createdAt: int)
}
