/** The two remote services, as opaque inputs: the completion endpoint and the
    semantic search adapter. */
module Remote {
  import opened Records

  /** `NUM_CHUNKS`: the result limit of every search. */
  const NumChunks: nat := 5

  /** The pet type that marks a search chunk, or a classification, as type-agnostic. */
  const UndefinedType: string := "Undefined"

  /** One search hit: the projected columns `chunk`, `relative_path`, `pet_type`. */
  datatype Chunk = Chunk(chunk: string, relativePath: string, petType: string)

  /** The parts the answer prompt interpolates into its fixed instruction template. */
  datatype Prompt = Prompt(chatHistory: seq<Message>, clinicalHistory: seq<ClinicalRecord>,
                           dailyCheckIns: seq<CheckInRecord>, context: seq<Chunk>, question: string)

  /** What a completion call is asked, one case per prompt the app builds. */
  datatype Request =
    | Summarize(history: seq<Message>, question: string)
    | Rewrite(question: string)
    | Answer(prompt: Prompt)
    | Classify(text: string)

  /** `SNOWFLAKE.CORTEX.COMPLETE(model, prompt)`: nothing is known of its answers. */
  type Completion = (string, Request) -> string

  /** A call to a remote service, in the order the app makes them. */
  datatype Call =
    | Complete(model: string, request: Request)
    | Search(query: string, petTypes: set<string>, limit: nat)

  /** The search adapter `get_similar_chunks_search_service` as written: the
      success path returns a name that is never bound, the resulting error is
      caught by its own handler, and so every search yields no results. */
  function SimilarChunks(query: string, petType: string): (results: seq<Chunk>)
    ensures |results| == 0
  {
    []
  }
}
