/** server/src/services/contentAnalyzer.ts: the content-type classification
    of a video from its metadata, and the placeholder analysis. */
module ContentAnalysis {
  datatype ContentType = Speech | Visual | Hybrid

  /** `VideoMetadata`; `duration` is an integer of seconds here. */
  datatype VideoMetadata = VideoMetadata(hasAudio: bool, hasSpeech: bool, hasSubtitles: bool, isSlideshow: bool, duration: int)

  datatype Content = Content(transcript: string, visualDescription: string, subtitles: string)

  datatype Analysis = Analysis(contentType: ContentType, content: Content, metadata: VideoMetadata)

  /** `determineContentType(metadata)` */
  function DetermineContentType(m: VideoMetadata): ContentType
  {
    if m.hasSpeech || m.hasSubtitles then (if m.isSlideshow then Hybrid else Speech) else Visual
  }

  /** The three outcomes, each in both directions. */
  lemma ContentTypeCases(m: VideoMetadata)
    ensures DetermineContentType(m) == Hybrid <==> (m.hasSpeech || m.hasSubtitles) && m.isSlideshow
    ensures DetermineContentType(m) == Speech <==> (m.hasSpeech || m.hasSubtitles) && !m.isSlideshow
    ensures DetermineContentType(m) == Visual <==> !m.hasSpeech && !m.hasSubtitles
  {
  }

  /** Neither `hasAudio` nor `duration` has any say in the result. */
  lemma AudioAndDurationIgnored(m: VideoMetadata, hasAudio: bool, duration: int)
    ensures DetermineContentType(m.(hasAudio := hasAudio, duration := duration)) == DetermineContentType(m)
  {
  }

  const PlaceholderDescription := "Video content analysis not implemented yet"

  /** `analyzeContent(url)`: the placeholder result, whatever the URL. The
      `catch` branch cannot be reached, since building the literal cannot
      throw. */
  function AnalyzeContent(url: string): (a: Analysis)
  {
    Analysis(Visual, Content("", PlaceholderDescription, ""), VideoMetadata(false, false, false, false, 0))
  }

  /** The placeholder's type agrees with the classifier applied to its own
      metadata, and nothing in it depends on the URL. */
  lemma AnalyzeContentIsPlaceholder(url: string, other: string)
    ensures var a := AnalyzeContent(url);
      && a.contentType == Visual
      && a.contentType == DetermineContentType(a.metadata)
      && a.content.transcript == "" && a.content.subtitles == ""
      && a.content.visualDescription == PlaceholderDescription
      && !a.metadata.hasAudio && !a.metadata.hasSpeech && !a.metadata.hasSubtitles && !a.metadata.isSlideshow
      && a.metadata.duration == 0
      && a == AnalyzeContent(other)
  {
  }
}
