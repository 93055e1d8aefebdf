/**
 * The read-only corpus of the recommender: the song table, the artist table,
 * the weight vector and the extra artist chosen once at construction.
 */
module Catalog {
  import opened Wrappers

  type SongId = string
  type ArtistId = string

  /** A real number that is never negative (a standard deviation, say). */
  type NonNegReal = r: real | r >= 0.0

  /**
   * One row of the song table. `complete` is false when some cell of the row
   * is missing, which is what the table's `dropna` filters look at.
   */
  datatype Song = Song(
    id: SongId,
    artistId: ArtistId,
    title: string,
    duration: real,
    loudness: real,
    tempo: real,
    key: int,
    keyConfidence: real,
    mode: int,
    modeConfidence: real,
    complete: bool)

  /** One entry of the artist table: display name and similar-artist ids. */
  datatype Artist = Artist(name: string, similar: seq<ArtistId>)

  /** Weights of the key, mode, loudness, duration and tempo sub-scores, in that order. */
  datatype Weights = Weights(key: real, mode: real, loudness: real, duration: real, tempo: real)
  {
    predicate NonNegative() {
      key >= 0.0 && mode >= 0.0 && loudness >= 0.0 && duration >= 0.0 && tempo >= 0.0
    }

    /** The sum of the five weights: the score of a row that matches perfectly. */
    function Total(): real {
      key + mode + loudness + duration + tempo
    }
  }

  /** The weight vector used when the caller supplies none. */
  const DefaultWeights := Weights(3.0, 2.0, 1.0, 1.0, 1.0)

  /** The ways a call can fail; each stands for an exception the engine raises. */
  datatype Error =
    | EmptyCatalog                      // sampling an empty song table
    | UnknownSong(song: SongId)         // a history id absent from the song table
    | UnknownArtist(artist: ArtistId)   // an artist id absent from the artist table
    | NoSimilarArtists                  // indexing the first entry of an empty frequency table
    | RowOutOfRange(position: int)      // positional row access past either end of the table

  /** A constructed engine: the corpus, the weights and the fixed extra artist. */
  datatype Engine = Engine(
    songs: seq<Song>,
    artists: map<ArtistId, Artist>,
    weights: Weights,
    extraArtist: ArtistId)

  /** What construction guarantees: a non-empty catalog and an extra artist that owns a song. */
  ghost predicate Constructed(e: Engine) {
    && |e.songs| > 0
    && exists i :: 0 <= i < |e.songs| && e.songs[i].artistId == e.extraArtist
  }

  /** The row picked by a uniform random draw, the draw being supplied by the caller. */
  function Draw(songs: seq<Song>, draw: nat): (s: Song)
    requires |songs| > 0
    ensures s in songs
    ensures draw < |songs| ==> s == songs[draw]
  {
    songs[draw % |songs|]
  }

  /**
   * Builds an engine. Sampling the extra artist from an empty table fails,
   * so an empty catalog is rejected here rather than at query time.
   */
  function NewEngine(songs: seq<Song>, artists: map<ArtistId, Artist>, weights: Weights, draw: nat)
    : (r: Result<Engine, Error>)
    ensures r.Failure? <==> songs == []
    ensures r.Failure? ==> r.error == EmptyCatalog
    ensures r.Success? ==> Constructed(r.value)
    ensures r.Success? ==> r.value.songs == songs && r.value.artists == artists && r.value.weights == weights
  {
    if songs == [] then Failure(EmptyCatalog)
    else Success(Engine(songs, artists, weights, Draw(songs, draw).artistId))
  }

  /** The row of the song table indexed by `id` (the first one, should ids repeat). */
  function FindSong(songs: seq<Song>, id: SongId): (r: Option<Song>)
    ensures r.Some? ==> r.value in songs && r.value.id == id
    ensures r.None? <==> forall i :: 0 <= i < |songs| ==> songs[i].id != id
  {
    if songs == [] then None
    else if songs[0].id == id then Some(songs[0])
    else FindSong(songs[1..], id)
  }

  /** Some catalog row is by artist `a`. */
  ghost predicate Named(e: Engine, a: ArtistId) {
    exists s :: s in e.songs && s.artistId == a
  }

  /** A history id whose song row and artist entry both exist. */
  predicate Resolvable(e: Engine, id: SongId) {
    var s := FindSong(e.songs, id);
    s.Some? && s.value.artistId in e.artists
  }

  /**
   * Looks up every history id: first its song row, then that row's artist
   * entry, stopping at the first miss.
   */
  function ResolveHistory(e: Engine, history: seq<SongId>): (r: Result<seq<Song>, Error>)
    ensures r.Success? <==> forall i :: 0 <= i < |history| ==> Resolvable(e, history[i])
    ensures r.Success? ==> |r.value| == |history|
    ensures r.Success? ==> forall i :: 0 <= i < |history| ==>
      r.value[i] == FindSong(e.songs, history[i]).value && r.value[i] in e.songs && r.value[i].artistId in e.artists
    ensures r.Failure? && r.error.UnknownSong? ==>
      r.error.song in history && FindSong(e.songs, r.error.song).None?
    ensures r.Failure? ==>
      r.error.UnknownSong? || (r.error.UnknownArtist? && r.error.artist !in e.artists && Named(e, r.error.artist))
  {
    if history == [] then Success([])
    else
      match FindSong(e.songs, history[0])
      case None => Failure(UnknownSong(history[0]))
      case Some(s) =>
        if s.artistId !in e.artists then Failure(UnknownArtist(s.artistId))
        else
          var rest :- ResolveHistory(e, history[1..]);
          Success([s] + rest)
  }
}
