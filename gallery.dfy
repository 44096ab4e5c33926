/** The gallery's navigation and search state machine: which artwork is
    shown (`currentIndex`), the text in the search field (`searchQuery`),
    and the three transitions the screen's handlers perform: Previous,
    Next, and a search run on every change of the search field.

    The transitions are first given as functions of the catalog and the old
    state, then as the handlers of the activity class, which update its
    fields in place and are proved to agree with them. */
module Gallery {
  import opened Text
  import opened Catalog

  /** The bounds invariant: the render path reads `artworks[currentIndex]`
      without a check. */
  ghost predicate InBounds(catalog: seq<Artwork>, index: int)
  {
    0 <= index < |catalog|
  }

  /** The index after Previous: one step back, unless already at the first
      artwork. */
  function AfterPrevious(index: int): (r: int)
    ensures 0 <= index ==> 0 <= r <= index
    ensures index > 0 ==> r == index - 1
  {
    if index > 0 then index - 1 else index
  }

  /** The index after Next: one step forward, unless already at the last
      artwork. */
  function AfterNext(catalog: seq<Artwork>, index: int): (r: int)
    ensures index <= r
    ensures index < |catalog| ==> r < |catalog|
    ensures index < |catalog| - 1 ==> r == index + 1
  {
    if index < |catalog| - 1 then index + 1 else index
  }

  /** The index after a search: the first artwork whose artist contains the
      query ignoring case, or the old index when there is none. */
  function AfterSearch(catalog: seq<Artwork>, index: int, query: string): (r: int)
    ensures r == index || (0 <= r < |catalog| && ArtistMatches(catalog[r], query))
  {
    var found := IndexOfFirst(catalog, query);
    if found != -1 then found else index
  }

  /** What the user can do on the screen. */
  datatype Event = PreviousClick | NextClick | ValueChange(text: string)

  /** The mutable part of the screen: the index shown and the search text. */
  datatype State = State(index: int, query: string)

  /** The state when the screen is first shown. */
  const Initial: State := State(0, "")

  /** One event applied to the state. A change of the search field stores the
      raw text and then searches for it. */
  function Step(catalog: seq<Artwork>, s: State, e: Event): (r: State)
    ensures e.ValueChange? ==> r.query == e.text
    ensures !e.ValueChange? ==> r.query == s.query
  {
    match e
    case PreviousClick => s.(index := AfterPrevious(s.index))
    case NextClick => s.(index := AfterNext(catalog, s.index))
    case ValueChange(text) => State(AfterSearch(catalog, s.index, text), text)
  }

  /** The index shown after each event of a sequence, in order; the last one
      shown is the index of the final state. */
  function Trace(catalog: seq<Artwork>, s: State, events: seq<Event>): (r: seq<int>)
    ensures |r| == |events|
    ensures events != [] ==> r[|r| - 1] == Run(catalog, s, events).index
    decreases |events|
  {
    if events == [] then []
    else
      var t := Step(catalog, s, events[0]);
      [t.index] + Trace(catalog, t, events[1..])
  }

  /** The state after a whole sequence of events. Button presses alone never
      change the search text. */
  function Run(catalog: seq<Artwork>, s: State, events: seq<Event>): (r: State)
    ensures (forall k :: 0 <= k < |events| ==> !events[k].ValueChange?) ==> r.query == s.query
    decreases |events|
  {
    if events == [] then s else Run(catalog, Step(catalog, s, events[0]), events[1..])
  }

  /** Each entry of the trace is the index of the state reached by the
      events up to and including its own. */
  lemma {:induction false} TraceEntries(catalog: seq<Artwork>, s: State, events: seq<Event>)
    ensures forall k :: 0 <= k < |events| ==> Trace(catalog, s, events)[k] == Run(catalog, s, events[..k + 1]).index
    decreases |events|
  {
    if events != [] {
      var t := Step(catalog, s, events[0]);
      TraceEntries(catalog, t, events[1..]);
      forall k | 0 <= k < |events|
        ensures Trace(catalog, s, events)[k] == Run(catalog, s, events[..k + 1]).index
      {
        var p := events[..k + 1];
        assert p[0] == events[0];
        assert p[1..] == events[1..][..k];
      }
    }
  }

  /** Previous keeps the index in bounds. */
  lemma PreviousKeepsBounds(catalog: seq<Artwork>, index: int)
    requires InBounds(catalog, index)
    ensures InBounds(catalog, AfterPrevious(index))
    ensures AfterPrevious(index) <= index
  {
  }

  /** Next keeps the index in bounds. */
  lemma NextKeepsBounds(catalog: seq<Artwork>, index: int)
    requires InBounds(catalog, index)
    ensures InBounds(catalog, AfterNext(catalog, index))
    ensures index <= AfterNext(catalog, index)
  {
  }

  /** A search keeps the index in bounds, whether or not it finds a match. */
  lemma SearchKeepsBounds(catalog: seq<Artwork>, index: int, query: string)
    requires InBounds(catalog, index)
    ensures InBounds(catalog, AfterSearch(catalog, index, query))
  {
  }

  /** Every event keeps the index in bounds. */
  lemma StepKeepsBounds(catalog: seq<Artwork>, s: State, e: Event)
    requires InBounds(catalog, s.index)
    ensures InBounds(catalog, Step(catalog, s, e).index)
  {
    match e
    case PreviousClick => PreviousKeepsBounds(catalog, s.index);
    case NextClick => NextKeepsBounds(catalog, s.index);
    case ValueChange(text) => SearchKeepsBounds(catalog, s.index, text);
  }

  /** Starting in bounds, every index shown along any sequence of events is
      in bounds, and so is the final one. */
  lemma {:induction false} RunKeepsBounds(catalog: seq<Artwork>, s: State, events: seq<Event>)
    requires InBounds(catalog, s.index)
    ensures forall k :: 0 <= k < |events| ==> InBounds(catalog, Trace(catalog, s, events)[k])
    ensures InBounds(catalog, Run(catalog, s, events).index)
    decreases |events|
  {
    if events != [] {
      var t := Step(catalog, s, events[0]);
      StepKeepsBounds(catalog, s, events[0]);
      RunKeepsBounds(catalog, t, events[1..]);
      assert Trace(catalog, s, events) == [t.index] + Trace(catalog, t, events[1..]);
    }
  }

  /** The screen starts in bounds on any non-empty catalog. */
  lemma InitialInBounds(catalog: seq<Artwork>)
    requires |catalog| > 0
    ensures InBounds(catalog, Initial.index)
  {
  }

  /** Previous then Next comes back to where it started, away from the
      first artwork. */
  lemma PreviousThenNext(catalog: seq<Artwork>, index: int)
    requires 0 < index < |catalog|
    ensures AfterNext(catalog, AfterPrevious(index)) == index
  {
  }

  /** Next then Previous comes back to where it started, away from the last
      artwork. */
  lemma NextThenPrevious(catalog: seq<Artwork>, index: int)
    requires 0 <= index < |catalog| - 1
    ensures AfterPrevious(AfterNext(catalog, index)) == index
  {
  }

  /** When some artist contains the query, the search shows the first such
      artwork, wherever it started. */
  lemma SearchSelectsFirstMatch(catalog: seq<Artwork>, index: int, query: string)
    requires AnyMatch(catalog, query)
    ensures var r := AfterSearch(catalog, index, query);
      0 <= r < |catalog| && ArtistMatches(catalog[r], query) &&
      forall j :: 0 <= j < r ==> !ArtistMatches(catalog[j], query)
  {
  }

  /** When no artist contains the query, the search leaves the index as it
      was. */
  lemma SearchWithoutMatchKeepsIndex(catalog: seq<Artwork>, index: int, query: string)
    requires !AnyMatch(catalog, query)
    ensures AfterSearch(catalog, index, query) == index
  {
  }

  /** Searching twice for the same text shows what searching once does. */
  lemma SearchIdempotent(catalog: seq<Artwork>, index: int, query: string)
    ensures AfterSearch(catalog, AfterSearch(catalog, index, query), query) == AfterSearch(catalog, index, query)
  {
  }

  /** Typing the same text twice leaves the whole state as typing it once. */
  lemma ValueChangeIdempotent(catalog: seq<Artwork>, s: State, text: string)
    ensures Step(catalog, Step(catalog, s, ValueChange(text)), ValueChange(text)) == Step(catalog, s, ValueChange(text))
  {
    SearchIdempotent(catalog, s.index, text);
  }

  /** Queries that differ only in letter case show the same artwork. */
  lemma SearchIgnoresCase(catalog: seq<Artwork>, index: int, q1: string, q2: string)
    requires Lower(q1) == Lower(q2)
    ensures AfterSearch(catalog, index, q1) == AfterSearch(catalog, index, q2)
  {
    IndexOfFirstIgnoresCase(catalog, q1, q2);
  }

  /** An empty search field shows the first artwork of a non-empty catalog:
      every artist name contains the empty string. */
  lemma EmptySearchSelectsFirst(catalog: seq<Artwork>, index: int)
    requires |catalog| > 0
    ensures AfterSearch(catalog, index, "") == 0
  {
    EmptyQueryFindsFirst(catalog);
  }

  /** The activity: the fixed catalog, the index of the artwork shown and the
      text of the search field, updated in place by the screen's handlers. */
  class MainActivity {
    const artworks: seq<Artwork>
    var currentIndex: int
    var searchQuery: string

    /** The object invariant: the index shown is a position of the catalog. */
    ghost predicate Valid()
      reads this
    {
      InBounds(artworks, currentIndex)
    }

    /** The mutable fields as a `State` value. */
    function Snapshot(): State
      reads this
    {
      State(currentIndex, searchQuery)
    }

    constructor ()
      ensures artworks == Artworks()
      ensures Snapshot() == Initial
      ensures Valid()
    {
      artworks := Artworks();
      currentIndex := 0;
      searchQuery := "";
    }

    /** The artwork the screen renders. */
    function Displayed(): (a: Artwork)
      reads this
      requires Valid()
      ensures a in artworks
      ensures a == artworks[currentIndex]
    {
      artworks[currentIndex]
    }

    /** The Previous button. */
    method OnPreviousClick()
      modifies this`currentIndex
      ensures old(currentIndex) > 0 ==> currentIndex == old(currentIndex) - 1
      ensures old(currentIndex) <= 0 ==> currentIndex == old(currentIndex)
      ensures Snapshot() == Step(artworks, old(Snapshot()), PreviousClick)
      ensures old(Valid()) ==> Valid()
    {
      if currentIndex > 0 {
        currentIndex := currentIndex - 1;
      }
    }

    /** The Next button. */
    method OnNextClick()
      modifies this`currentIndex
      ensures old(currentIndex) < |artworks| - 1 ==> currentIndex == old(currentIndex) + 1
      ensures old(currentIndex) >= |artworks| - 1 ==> currentIndex == old(currentIndex)
      ensures Snapshot() == Step(artworks, old(Snapshot()), NextClick)
      ensures old(Valid()) ==> Valid()
    {
      if currentIndex < |artworks| - 1 {
        currentIndex := currentIndex + 1;
      }
    }

    /** The search callback: show the first artwork whose artist contains
        the query ignoring case; with no such artwork, change nothing. */
    method OnSearch(query: string)
      modifies this`currentIndex
      ensures AnyMatch(artworks, query) ==>
        0 <= currentIndex < |artworks| && ArtistMatches(artworks[currentIndex], query) &&
        forall j :: 0 <= j < currentIndex ==> !ArtistMatches(artworks[j], query)
      ensures !AnyMatch(artworks, query) ==> currentIndex == old(currentIndex)
      ensures currentIndex == AfterSearch(artworks, old(currentIndex), query)
      ensures old(Valid()) ==> Valid()
    {
      var foundIndex := IndexOfFirst(artworks, query);
      if foundIndex != -1 {
        currentIndex := foundIndex;
      }
    }

    /** The search field's change handler: store the raw text, then search
        for it. */
    method OnValueChange(text: string)
      modifies this`currentIndex, this`searchQuery
      ensures searchQuery == text
      ensures currentIndex == AfterSearch(artworks, old(currentIndex), text)
      ensures Snapshot() == Step(artworks, old(Snapshot()), ValueChange(text))
      ensures old(Valid()) ==> Valid()
    {
      searchQuery := text;
      OnSearch(text);
    }
  }
}
