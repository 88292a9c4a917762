/** Evidence as the correction and reflection stages pass it on. */
module Evidence {
  import opened Wrappers

  datatype Origin = Policy | RegulatoryWeb

  datatype Chunk = Chunk(
    text: string, source: string, page: Option<int>, score: real, origin: Origin, url: Option<string>)
}
