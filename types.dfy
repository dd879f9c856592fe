/** Domain records shared by the views: the metadata record returned by the
    anime catalogue, a user's collection and one row of a collection's list.
    Field names follow the repository's type declarations. */
module Types {

  datatype Option<+T> = None | Some(value: T)

  /** The outcome of one remote call, which the model takes as a parameter
      instead of performing it. */
  datatype Outcome<+T> = Succeeded(data: T) | Failed

  datatype Genre = Genre(mal_id: int, kind: string, name: string, url: string)

  /** One image encoding in three sizes. */
  datatype ImageSizes = ImageSizes(image_url: string, small_image_url: string, large_image_url: string)

  datatype Images = Images(jpg: ImageSizes, webp: ImageSizes)

  /** The catalogue record (`type` is a keyword, hence `kind`). */
  datatype Anime = Anime(
    mal_id: int,
    url: string,
    title: string,
    images: Images,
    kind: string,
    episodes: int,
    status: string,
    airing: bool,
    score: real,
    synopsis: string,
    season: string,
    year: int,
    genres: seq<Genre>)

  /** A collection as the store returns it; `preview_images` may be absent
      (null) in a stored row, which the edit form guards against. */
  datatype Collection = Collection(
    id: string,
    name: string,
    description: string,
    preview_images: Option<seq<string>>,
    animes_count: int,
    user_id: string)

  /** One row of a collection's list: a denormalised copy of catalogue fields
      plus the user's tracking fields. `status` holds whatever was stored:
      the declared three-value union is only a compile-time cast. */
  datatype AnimeList = AnimeList(
    mal_id: int,
    title: string,
    url: string,
    image_jpg: string,
    image_webp: string,
    status: string,
    kind: string,
    episodes: int,
    progress: int,
    score: int,
    airing: bool,
    synopsis: string,
    season: string,
    year: int,
    genres: seq<Genre>,
    started_at: Option<string>,
    finished_at: Option<string>,
    notes: string,
    collection_id: string)
}
