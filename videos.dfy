/** The two record shapes the page works with. */
module Videos {

  /**
   * The part of one video resource returned by the platform's batched metadata request
   * that the page reads: its identifier, the medium thumbnail URL, the snippet's title and
   * full description, and the statistics' view count.
   */
  datatype Record = Record(
    id: string,
    thumbnail: string,
    title: string,
    description: string,
    viewCount: nat)

  /** One card of the page (the `VideoData` interface, without its cosmetic size tag). */
  datatype VideoData = VideoData(
    id: string,
    videoThumbnail: string,
    videoTitle: string,
    videoDescription: string,
    videoPlays: nat)
}
