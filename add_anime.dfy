/** The "add to my list" dialog of an anime's detail page: the ten-star
    rating control, the validation of the submitted form, the denormalised
    row it inserts and the dialog's open and error state. The insert call
    itself is not performed; its outcome is a parameter. */
module AddAnime {
  import opened Types

  const StarCount: nat := 10
  const MissingCollectionMessage: string := "Por favor, selecciona una colección."
  const InsertFailedMessage: string := "Hubo un error al añadir el anime. Por favor, inténtalo de nuevo."

  /** The integers `lo`, `lo + 1`, ..., `hi - 1`. */
  function Range(lo: int, hi: int): (r: seq<int>)
    ensures |r| == if lo <= hi then hi - lo else 0
    ensures forall k :: 0 <= k < |r| ==> r[k] == lo + k
    decreases hi - lo
  {
    if lo >= hi then [] else [lo] + Range(lo + 1, hi)
  }

  /** The values of the rendered stars, `index + 1` for the ten indices. */
  function StarValues(): (r: seq<int>)
    ensures |r| == StarCount
    ensures forall k :: 0 <= k < |r| ==> r[k] == k + 1
  {
    Range(1, StarCount as int + 1)
  }

  /** A star is drawn highlighted when its value is at most the rating. */
  predicate Highlighted(starValue: int, rating: int) {
    starValue <= rating
  }

  /** How many of `stars` are highlighted for `rating`. */
  function HighlightedAmong(stars: seq<int>, rating: int): (n: nat)
    ensures n <= |stars|
  {
    if stars == [] then 0
    else (if Highlighted(stars[0], rating) then 1 else 0) + HighlightedAmong(stars[1..], rating)
  }

  /** Among consecutive values from `lo`, the highlighted ones are those up
      to the rating. */
  lemma {:induction false} HighlightedInRange(lo: int, hi: int, rating: int)
    requires lo <= hi
    ensures HighlightedAmong(Range(lo, hi), rating) ==
      if rating < lo then 0 else if rating >= hi then hi - lo else rating - lo + 1
    decreases hi - lo
  {
    if lo < hi {
      HighlightedInRange(lo + 1, hi, rating);
      assert Range(lo, hi)[1..] == Range(lo + 1, hi);
    }
  }

  /** The rating control shows the rating clamped to 0..10 as lit stars:
      none for a rating below one, all ten for ten or more. */
  lemma HighlightedStars(rating: int)
    ensures HighlightedAmong(StarValues(), rating) ==
      if rating < 0 then 0 else if rating > StarCount as int then StarCount as int else rating
  {
    HighlightedInRange(1, StarCount as int + 1, rating);
  }

  /** The form's fields as read from the submitted form data. A field that
      may be missing is an Option; the absent and the empty value are told
      apart where the handler tells them apart. The numeric fields are taken
      as already converted. */
  datatype FormFields = FormFields(
    collection_id: Option<string>,
    status: string,
    progress: int,
    started_at: Option<string>,
    finished_at: Option<string>,
    notes: string)

  /** `value || undefined`: absent when missing or empty, else the value. */
  function OptionalDate(value: Option<string>): (r: Option<string>)
    ensures r.Some? <==> value.Some? && value.value != ""
    ensures r.Some? ==> r == value
  {
    if value.Some? && value.value != "" then value else None
  }

  /** `!collectionId`: missing or empty. */
  predicate MissingCollection(fields: FormFields) {
    fields.collection_id.None? || fields.collection_id.value == ""
  }

  /** The row inserted into the list of collection `collectionId`: the
      catalogue fields copied verbatim, the two default image URLs picked out
      of the image set, and the user's tracking fields from the form, with
      the score taken from the star control. */
  function ToRow(anime: Anime, fields: FormFields, score: int, collectionId: string): (row: AnimeList)
    ensures row.mal_id == anime.mal_id && row.title == anime.title && row.url == anime.url
    ensures row.episodes == anime.episodes && row.kind == anime.kind && row.year == anime.year
    ensures row.season == anime.season && row.airing == anime.airing
    ensures row.synopsis == anime.synopsis && row.genres == anime.genres
    ensures row.image_jpg == anime.images.jpg.image_url
    ensures row.image_webp == anime.images.webp.image_url
    ensures row.status == fields.status && row.score == score && row.progress == fields.progress
    ensures row.started_at == OptionalDate(fields.started_at)
    ensures row.finished_at == OptionalDate(fields.finished_at)
    ensures row.notes == fields.notes && row.collection_id == collectionId
  {
    AnimeList(
      mal_id := anime.mal_id,
      title := anime.title,
      url := anime.url,
      image_jpg := anime.images.jpg.image_url,
      image_webp := anime.images.webp.image_url,
      status := fields.status,
      kind := anime.kind,
      episodes := anime.episodes,
      progress := fields.progress,
      score := score,
      airing := anime.airing,
      synopsis := anime.synopsis,
      season := anime.season,
      year := anime.year,
      genres := anime.genres,
      started_at := OptionalDate(fields.started_at),
      finished_at := OptionalDate(fields.finished_at),
      notes := fields.notes,
      collection_id := collectionId)
  }

  /** The catalogue's own status, score and small or large images never reach
      the row: two records that agree on the copied fields give the same
      row. */
  lemma ToRowIgnoresUncopiedFields(a: Anime, b: Anime, fields: FormFields, score: int, id: string)
    requires a.mal_id == b.mal_id && a.title == b.title && a.url == b.url
    requires a.episodes == b.episodes && a.kind == b.kind && a.year == b.year
    requires a.season == b.season && a.airing == b.airing
    requires a.synopsis == b.synopsis && a.genres == b.genres
    requires a.images.jpg.image_url == b.images.jpg.image_url
    requires a.images.webp.image_url == b.images.webp.image_url
    ensures ToRow(a, fields, score, id) == ToRow(b, fields, score, id)
  {
  }

  class AddAnimeDialog {
    const anime: Anime
    var open: bool
    var selectedScore: int
    var isSubmitting: bool
    var error: Option<string>

    /** A closed dialog whose rating starts at the given score (the
        catalogue score rounded, computed by the caller). */
    constructor (a: Anime, initialScore: int)
      ensures anime == a && selectedScore == initialScore
      ensures !open && !isSubmitting && error == None
    {
      anime := a;
      open := false;
      selectedScore := initialScore;
      isSubmitting := false;
      error := None;
    }

    /** Clicking a star sets the rating to its value, which lies in 1..10. */
    method ClickStar(starValue: int)
      requires starValue in StarValues()
      modifies this`selectedScore
      ensures selectedScore == starValue && 1 <= selectedScore <= StarCount
    {
      selectedScore := starValue;
    }

    /** The dialog's open-state handler: closing it also clears the
        error. */
    method OnOpenChange(isOpen: bool)
      modifies this`open, this`error
      ensures open == isOpen
      ensures !isOpen ==> error == None
      ensures isOpen ==> error == old(error)
    {
      open := isOpen;
      if !isOpen {
        error := None;
      }
    }

    /** `handleSubmit` up to the insert call. Without a selected collection
        the error is set, submitting ends and nothing is to be inserted.
        Otherwise the row to insert is returned and submitting goes on. */
    method BeginSubmit(fields: FormFields) returns (insert: Option<AnimeList>)
      modifies this`isSubmitting, this`error
      ensures MissingCollection(fields) ==>
        insert == None && error == Some(MissingCollectionMessage) && !isSubmitting
      ensures !MissingCollection(fields) ==>
        && insert == Some(ToRow(anime, fields, selectedScore, fields.collection_id.value))
        && error == None && isSubmitting
    {
      isSubmitting := true;
      error := None;
      if MissingCollection(fields) {
        error := Some(MissingCollectionMessage);
        isSubmitting := false;
        insert := None;
      } else {
        insert := Some(ToRow(anime, fields, selectedScore, fields.collection_id.value));
      }
    }

    /** After the insert call: on success the dialog closes, on failure the
        error is set and the dialog stays as it is. Submitting ends either
        way. */
    method FinishSubmit(outcome: Outcome<()>)
      modifies this`isSubmitting, this`open, this`error
      ensures !isSubmitting
      ensures outcome.Succeeded? ==> !open && error == old(error)
      ensures outcome.Failed? ==> open == old(open) && error == Some(InsertFailedMessage)
    {
      match outcome
      case Succeeded(_) =>
        isSubmitting := false;
        open := false;
      case Failed =>
        error := Some(InsertFailedMessage);
        isSubmitting := false;
    }

    /** `handleSubmit` as a whole; `outcome` is the insert call's outcome and
        is only consulted when the call is made. */
    method HandleSubmit(fields: FormFields, outcome: Outcome<()>) returns (insert: Option<AnimeList>)
      modifies this`isSubmitting, this`open, this`error
      ensures !isSubmitting
      ensures MissingCollection(fields) ==>
        insert == None && error == Some(MissingCollectionMessage) && open == old(open)
      ensures !MissingCollection(fields) ==>
        insert == Some(ToRow(anime, fields, selectedScore, fields.collection_id.value))
      ensures !MissingCollection(fields) && outcome.Succeeded? ==> !open && error == None
      ensures !MissingCollection(fields) && outcome.Failed? ==>
        open == old(open) && error == Some(InsertFailedMessage)
    {
      insert := BeginSubmit(fields);
      if insert.Some? {
        FinishSubmit(outcome);
      }
    }
  }
}
