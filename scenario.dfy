/** The gallery's behaviour on its own nine-artwork catalog: searches for
    particular artists, and a short session of button presses and typing. */
module Scenario {
  import opened Text
  import opened Catalog
  import opened Gallery

  lemma EgonSchieleContainsSchiele()
    ensures ContainsIgnoreCase("Egon Schiele", "Schiele")
  {
  }

  lemma EarlyArtistsLackSchiele()
    ensures !ContainsIgnoreCase("C. Abdul", "Schiele")
    ensures !ContainsIgnoreCase("Moriz Jung", "Schiele")
    ensures !ContainsIgnoreCase("B. Kinney", "Schiele")
  {
    NotContainedWhenFirstAbsent("C. Abdul", "Schiele");
    NotContainedWhenFirstAbsent("Moriz Jung", "Schiele");
    NotContainedWhenFirstAbsent("B. Kinney", "Schiele");
  }

  lemma KalmsteinerLacksSchiele()
    ensures !ContainsIgnoreCase("Hans Kalmsteiner", "Schiele")
  {
    NotContainedWhenPairAbsent("Hans Kalmsteiner", "Schiele");
  }

  lemma LautrecLacksSchiele()
    ensures !ContainsIgnoreCase("Henri de Toulouse-Lautrec", "Schiele")
  {
    NotContainedWhenPairAbsent("Henri de Toulouse-Lautrec", "Schiele");
  }

  lemma LendeckeLacksSchiele()
    ensures !ContainsIgnoreCase("Otto Friedr. Carl Lendecke", "Schiele")
  {
    NotContainedWhenFirstAbsent("Otto Friedr. Carl Lendecke", "Schiele");
  }

  lemma MollerLacksSchiele()
    ensures !ContainsIgnoreCase("Lars Moller", "Schiele")
  {
    NotContainedWhenPairAbsent("Lars Moller", "Schiele");
  }

  lemma SchieleNotAmongFirstFour()
    ensures forall j :: 0 <= j < 4 ==> !ArtistMatches(Artworks()[j], "Schiele")
  {
    var c := Artworks();
    forall j | 0 <= j < 4
      ensures !ArtistMatches(c[j], "Schiele")
    {
      if j == 2 { KalmsteinerLacksSchiele(); }
      else { EarlyArtistsLackSchiele(); }
    }
  }

  lemma SchieleNotAmongNextThree()
    ensures forall j :: 4 <= j < 7 ==> !ArtistMatches(Artworks()[j], "Schiele")
  {
    var c := Artworks();
    forall j | 4 <= j < 7
      ensures !ArtistMatches(c[j], "Schiele")
    {
      if j == 4 { LautrecLacksSchiele(); }
      else if j == 5 { LendeckeLacksSchiele(); }
      else { MollerLacksSchiele(); }
    }
  }

  /** "Schiele" is found at index 7: no earlier artist has "sc" in it. */
  lemma SearchSchiele(index: int)
    ensures AfterSearch(Artworks(), index, "Schiele") == 7
  {
    SchieleNotAmongFirstFour();
    SchieleNotAmongNextThree();
    EgonSchieleContainsSchiele();
    IndexOfFirstUnique(Artworks(), "Schiele", 7);
  }

  lemma MorizJungContainsJung()
    ensures ContainsIgnoreCase("Moriz Jung", "jung")
  {
  }

  /** "jung" is first found at Moriz Jung, index 1. */
  lemma JungFoundAtJung()
    ensures IndexOfFirst(Artworks(), "jung") == 1
  {
    NotContainedWhenFirstAbsent("C. Abdul", "jung");
    MorizJungContainsJung();
    IndexOfFirstUnique(Artworks(), "jung", 1);
  }

  lemma JungFoldsToJung()
    ensures Lower("JUNG") == Lower("jung")
  {
    assert Lower("JUNG") == "jung";
  }

  /** "jung" and "JUNG" both find Moriz Jung at index 1. */
  lemma SearchJung(index: int)
    ensures AfterSearch(Artworks(), index, "jung") == 1
    ensures AfterSearch(Artworks(), index, "JUNG") == 1
  {
    JungFoundAtJung();
    JungFoldsToJung();
    IndexOfFirstIgnoresCase(Artworks(), "jung", "JUNG");
  }

  lemma CAbdulContainsAbdul()
    ensures ContainsIgnoreCase("C. Abdul", "abdul")
  {
  }

  /** "abdul" finds C. Abdul at index 0. */
  lemma SearchAbdul(index: int)
    ensures AfterSearch(Artworks(), index, "abdul") == 0
  {
    CAbdulContainsAbdul();
    IndexOfFirstUnique(Artworks(), "abdul", 0);
  }

  /** The three artist names as long as "zzz-no-such-artist" have no "z" in
      them. */
  lemma LautrecLacksNoSuchArtist()
    ensures !ContainsIgnoreCase("Henri de Toulouse-Lautrec", "zzz-no-such-artist")
  {
    NotContainedWhenFirstAbsent("Henri de Toulouse-Lautrec", "zzz-no-such-artist");
  }

  lemma LendeckeLacksNoSuchArtist()
    ensures !ContainsIgnoreCase("Otto Friedr. Carl Lendecke", "zzz-no-such-artist")
  {
    NotContainedWhenFirstAbsent("Otto Friedr. Carl Lendecke", "zzz-no-such-artist");
  }

  lemma StephensLacksNoSuchArtist()
    ensures !ContainsIgnoreCase("Henry Louis Stephens", "zzz-no-such-artist")
  {
    NotContainedWhenFirstAbsent("Henry Louis Stephens", "zzz-no-such-artist");
  }

  /** No artist name contains "zzz-no-such-artist": the others are shorter
      than it. */
  lemma NoArtistContainsNoSuchArtist()
    ensures forall j :: 0 <= j < 9 ==> !ArtistMatches(Artworks()[j], "zzz-no-such-artist")
  {
    var c, q := Artworks(), "zzz-no-such-artist";
    LautrecLacksNoSuchArtist();
    LendeckeLacksNoSuchArtist();
    StephensLacksNoSuchArtist();
    forall j | 0 <= j < 9 && j !in {4, 5, 8}
      ensures !ArtistMatches(c[j], q)
    {
      assert |c[j].artist| < |q|;
    }
  }

  /** A query no artist contains leaves the index where it was. */
  lemma SearchNoSuchArtist(index: int)
    ensures AfterSearch(Artworks(), index, "zzz-no-such-artist") == index
  {
    NoArtistContainsNoSuchArtist();
    SearchWithoutMatchKeepsIndex(Artworks(), index, "zzz-no-such-artist");
  }

  /** The session's events: Next, Next, typing "Schiele", Previous. */
  const SessionEvents: seq<Event> := [NextClick, NextClick, ValueChange("Schiele"), PreviousClick]

  /** On any catalog whose first "Schiele" match is at index 7, the session
      shows the artworks at 1, 2, 7 and 6. */
  lemma SessionTraceOn(c: seq<Artwork>)
    requires IndexOfFirst(c, "Schiele") == 7
    ensures Trace(c, Initial, SessionEvents) == [1, 2, 7, 6]
  {
  }

  /** From the first artwork of the gallery's catalog, the session shows the
      artworks at 1, 2, 7 and 6. */
  lemma SessionTrace()
    ensures Trace(Artworks(), Initial, SessionEvents) == [1, 2, 7, 6]
  {
    SearchSchiele(0);
    SessionTraceOn(Artworks());
  }

  /** The session driven through the activity's handlers, on any activity
      whose catalog has its first "Schiele" match at index 7. */
  method SessionOn(activity: MainActivity) returns (shown: seq<int>)
    requires activity.currentIndex == 0
    requires IndexOfFirst(activity.artworks, "Schiele") == 7
    modifies activity
    ensures shown == [1, 2, 7, 6]
  {
    activity.OnNextClick();
    shown := [activity.currentIndex];
    activity.OnNextClick();
    shown := shown + [activity.currentIndex];
    activity.OnValueChange("Schiele");
    shown := shown + [activity.currentIndex];
    activity.OnPreviousClick();
    shown := shown + [activity.currentIndex];
  }

  /** The session on a freshly created activity. */
  method Session() returns (shown: seq<int>)
    ensures shown == [1, 2, 7, 6]
  {
    var activity := new MainActivity();
    SearchSchiele(0);
    shown := SessionOn(activity);
  }
}
