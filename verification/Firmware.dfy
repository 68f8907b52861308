/** The values that travel between the pipeline stages. */
module Firmware {
  import opened Collections

  type JobId = string
  type BlobId = string

  /** One resolved SBOM entry; these four fields are all an entry has. */
  datatype Component = Component(vendor: string, product: string, version: string, source: BlobId)

  datatype Tier = Confirmed | HighConfidence | Possible | LowConfidence | NoMatch

  datatype Via = ExactCpe | EmbeddingSimilarity

  datatype CveMatch = CveMatch(cveId: string, tier: Tier, score: Option<real>, via: Via, rationale: Option<string>)
}
