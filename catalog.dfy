/** The gallery's catalog: the Artwork record, the fixed list of nine
    artworks in display order, and the first-match lookup by artist name
    (`artworks.indexOfFirst { it.artist.contains(query, ignoreCase = true) }`),
    which answers -1 when nothing matches. */
module Catalog {
  import opened Text

  /** An image resource identifier; the platform assigns the real values and
      the gallery only hands them back to the image loader. */
  type ResId = int

  const AbdulImage: ResId := 1
  const JungImage: ResId := 2
  const KalmsteinerImage: ResId := 3
  const KinneyImage: ResId := 4
  const LautrecImage: ResId := 5
  const LendeckeImage: ResId := 6
  const MollerImage: ResId := 7
  const SchieleImage: ResId := 8
  const StephensImage: ResId := 9

  /** One displayable record. */
  datatype Artwork = Artwork(imageResId: ResId, title: string, artist: string, year: string)

  /** The catalog, in display order. */
  function Artworks(): (r: seq<Artwork>)
    ensures |r| == 9
  {
    [ Artwork(AbdulImage, "Llama", "C. Abdul", "1881"),
      Artwork(JungImage, "Der Litterat", "Moriz Jung", "1911"),
      Artwork(KalmsteinerImage, "Kasperltheater", "Hans Kalmsteiner", "1907"),
      Artwork(KinneyImage, "Jocular Ocular", "B. Kinney", "1889"),
      Artwork(LautrecImage, "Reine de Joie", "Henri de Toulouse-Lautrec", "1892"),
      Artwork(LendeckeImage, "Mode", "Otto Friedr. Carl Lendecke", "1912"),
      Artwork(MollerImage, "Kingitorssuak", "Lars Moller", "1863"),
      Artwork(SchieleImage, "Portrait of a Woman", "Egon Schiele", "1910"),
      Artwork(StephensImage, "Gallows Bird", "Henry Louis Stephens", "1851") ]
  }

  /** The search predicate applied to each artwork: its artist name contains
      the query ignoring case. A matching query is never longer than the
      name, and the empty query matches every artwork. */
  predicate ArtistMatches(a: Artwork, query: string): (b: bool)
    ensures b ==> |query| <= |a.artist|
    ensures |query| == 0 ==> b
  {
    ContainsIgnoreCase(a.artist, query)
  }

  /** Some artwork of the catalog matches the query. */
  ghost predicate AnyMatch(catalog: seq<Artwork>, query: string)
  {
    exists j :: 0 <= j < |catalog| && ArtistMatches(catalog[j], query)
  }

  /** The first index at or after `from` whose artwork matches, or -1. */
  function IndexOfFirstFrom(catalog: seq<Artwork>, query: string, from: nat): (r: int)
    requires from <= |catalog|
    ensures r == -1 || from <= r < |catalog|
    ensures r != -1 ==> ArtistMatches(catalog[r], query)
    ensures r != -1 ==> forall j :: from <= j < r ==> !ArtistMatches(catalog[j], query)
    ensures r == -1 <==> forall j :: from <= j < |catalog| ==> !ArtistMatches(catalog[j], query)
    decreases |catalog| - from
  {
    if from == |catalog| then -1
    else if ArtistMatches(catalog[from], query) then from
    else IndexOfFirstFrom(catalog, query, from + 1)
  }

  /** `indexOfFirst`: the smallest index whose artist contains the query
      ignoring case, or -1 when there is none. */
  function IndexOfFirst(catalog: seq<Artwork>, query: string): (r: int)
    ensures -1 <= r < |catalog|
    ensures r == -1 <==> !AnyMatch(catalog, query)
    ensures r != -1 ==> ArtistMatches(catalog[r], query)
    ensures r != -1 ==> forall j :: 0 <= j < r ==> !ArtistMatches(catalog[j], query)
  {
    IndexOfFirstFrom(catalog, query, 0)
  }

  /** The answer of the lookup is determined by the match predicate: any
      index satisfying "matches, and nothing earlier does" is the one it
      returns. */
  lemma IndexOfFirstUnique(catalog: seq<Artwork>, query: string, i: nat)
    requires i < |catalog| && ArtistMatches(catalog[i], query)
    requires forall j :: 0 <= j < i ==> !ArtistMatches(catalog[j], query)
    ensures IndexOfFirst(catalog, query) == i
  {
    var r := IndexOfFirst(catalog, query);
    assert r != -1;
    assert !(r < i) && !(i < r);
  }

  /** Queries that differ only in letter case find the same artwork. */
  lemma {:induction false} IndexOfFirstFromIgnoresCase(catalog: seq<Artwork>, q1: string, q2: string, from: nat)
    requires from <= |catalog|
    requires Lower(q1) == Lower(q2)
    ensures IndexOfFirstFrom(catalog, q1, from) == IndexOfFirstFrom(catalog, q2, from)
    decreases |catalog| - from
  {
    if from < |catalog| {
      ContainsIgnoresQueryCase(catalog[from].artist, q1, q2);
      IndexOfFirstFromIgnoresCase(catalog, q1, q2, from + 1);
    }
  }

  /** Queries that differ only in letter case find the same artwork. */
  lemma IndexOfFirstIgnoresCase(catalog: seq<Artwork>, q1: string, q2: string)
    requires Lower(q1) == Lower(q2)
    ensures IndexOfFirst(catalog, q1) == IndexOfFirst(catalog, q2)
  {
    IndexOfFirstFromIgnoresCase(catalog, q1, q2, 0);
  }

  /** The empty query is contained in every artist name, so it finds the
      first artwork of a non-empty catalog. */
  lemma EmptyQueryFindsFirst(catalog: seq<Artwork>)
    requires |catalog| > 0
    ensures IndexOfFirst(catalog, "") == 0
  {
  }
}
