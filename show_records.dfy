/**
 * The records app/show/details.go and app/show/feed.go build and the
 * compaction step reads: the lookup details of a show and its feed summary.
 */
module ShowRecords {
  datatype ShowImage = ShowImage(big: string, small: string, medium: string)
  datatype Podcast = Podcast(title: string, published: string, description: string)

  datatype ShowDetails = ShowDetails(
    id: int, rss: string, name: string, genres: seq<string>, artist: string,
    image: ShowImage, description: string, lastPodcast: Podcast)

  datatype Feed = Feed(id: int, language: string, description: string, lastPodcast: Podcast)
}
