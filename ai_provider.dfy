/**
 * The embedding model of `lib/ai-provider.ts`, seen from its callers: an
 * uninterpreted function from a text to a vector or a thrown error.
 */
module AiProvider {

  /** What `generateEmbedding(text)` yields. */
  datatype EmbedResult = Vector(v: seq<real>) | EmbedFailed(message: string)
}
