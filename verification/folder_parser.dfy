/**
 The trip assembly of `parse_folder`: keep the listing's visible directories,
 parse each as a day, collect the highlights described in each day's
 metadata, sort days and highlights by date and attach the trip metadata.
 */
module FolderParser {
  import opened Wrappers
  import opened Models
  import Paths
  import StableSort

  /** Looks a file name up among a day's pictures. The matching rule belongs
      to `TripDay.find_picture_by_filename`, which is not part of this model. */
  type PictureFinder = (TripDay, string) -> Option<Picture>

  /** Python's `name.startswith('.')`. */
  predicate IsHidden(name: string) {
    |name| > 0 && name[0] == '.'
  }

  /** A listing entry becomes a trip day when it is a directory that is not hidden. */
  predicate IsKept(e: Entry) {
    e.isDir && !IsHidden(e.name)
  }

  /** The kept entries, in listing order. */
  function KeptEntries(es: seq<Entry>): (kept: seq<Entry>)
    ensures |kept| <= |es|
  {
    if |es| == 0 then []
    else KeptEntries(es[..|es| - 1]) + (if IsKept(es[|es| - 1]) then [es[|es| - 1]] else [])
  }

  /** Exactly the kept entries survive: each kept entry as often as it is
      listed, and no other entry at all. */
  lemma {:induction false} KeptEntriesExactly(es: seq<Entry>)
    ensures forall e :: multiset(KeptEntries(es))[e] == if IsKept(e) then multiset(es)[e] else 0
  {
    if |es| > 0 {
      var init, last := es[..|es| - 1], es[|es| - 1];
      assert es == init + [last];
      KeptEntriesExactly(init);
    }
  }

  /** Keeping entries commutes with concatenating listings, so the kept
      entries stay in listing order. */
  lemma {:induction false} KeptEntriesAppend(a: seq<Entry>, b: seq<Entry>)
    ensures KeptEntries(a + b) == KeptEntries(a) + KeptEntries(b)
  {
    if |b| == 0 {
      assert a + b == a;
    } else {
      var b', last := b[..|b| - 1], b[|b| - 1];
      var tail := if IsKept(last) then [last] else [];
      var ab := a + b;
      assert ab[..|ab| - 1] == a + b';
      assert ab[|ab| - 1] == last;
      assert KeptEntries(ab) == KeptEntries(a + b') + tail;
      assert KeptEntries(b) == KeptEntries(b') + tail;
      KeptEntriesAppend(a, b');
    }
  }

  /** The days of some entries, in their order. */
  function DaysOf(entries: seq<Entry>): seq<TripDay> {
    seq(|entries|, i requires 0 <= i < |entries| => entries[i].day)
  }

  /** The days of the kept entries, in listing order. */
  function ParsedDays(es: seq<Entry>): seq<TripDay> {
    DaysOf(KeptEntries(es))
  }

  /** Python truthiness of the `picture` value: a null or an empty string is false. */
  predicate IsFalsy(p: Option<string>) {
    p.None? || p.value == ""
  }

  /** The file name a highlight record's picture is looked up by: the part of
      its `picture` path after the last `/`, or none when `picture` is falsy. */
  function PictureKey(rec: HighlightRecord): (key: Option<string>)
    ensures key.None? <==> IsFalsy(rec.picture)
    ensures key.Some? ==> Paths.IsLastSegment(key.value, rec.picture.value)
    ensures key.Some? && Paths.Separator !in rec.picture.value ==> key.value == rec.picture.value
  {
    if IsFalsy(rec.picture) then None else Some(Paths.LastSegment(rec.picture.value))
  }

  /** The picture of a highlight: no lookup at all when there is no key. */
  function ResolvePicture(day: TripDay, rec: HighlightRecord, find: PictureFinder): (pic: Option<Picture>)
    ensures IsFalsy(rec.picture) ==> pic.None?
    ensures !IsFalsy(rec.picture) ==> pic == find(day, Paths.LastSegment(rec.picture.value))
  {
    match PictureKey(rec)
    case None => None
    case Some(k) => find(day, k)
  }

  /** The highlight records of a day; an absent `highlights` entry has none. */
  function Records(day: TripDay): seq<HighlightRecord> {
    day.highlights.GetOr([])
  }

  /** The highlights one day contributes: one per record, in record order,
      and none when its `highlights` entry is absent or empty. Each highlight
      has the day's date and the record's name and summary; its picture is the
      lookup of the record's key, and there is none without a key. */
  function DayHighlights(day: TripDay, find: PictureFinder): (hs: seq<Highlight>)
    ensures |hs| == |Records(day)|
    ensures hs == [] <==> day.highlights.None? || day.highlights.value == []
    ensures forall j :: 0 <= j < |hs| ==>
      && hs[j].fromDate == day.date
      && hs[j].name == Records(day)[j].name
      && hs[j].summary == Records(day)[j].summary
      && (PictureKey(Records(day)[j]).None? ==> hs[j].picture.None?)
      && (PictureKey(Records(day)[j]).Some? ==> hs[j].picture == find(day, PictureKey(Records(day)[j]).value))
  {
    var recs := Records(day);
    seq(|recs|, j requires 0 <= j < |recs| =>
      Highlight(day.date, recs[j].name, recs[j].summary, ResolvePicture(day, recs[j], find)))
  }

  /** The number of highlight records over all `days`. */
  function TotalRecords(days: seq<TripDay>): nat {
    if |days| == 0 then 0
    else TotalRecords(days[..|days| - 1]) + |Records(days[|days| - 1])|
  }

  /** Where the highlights of day `i` start: after all earlier days' records. */
  function Offset(days: seq<TripDay>, i: nat): nat
    requires i <= |days|
  {
    TotalRecords(days[..i])
  }

  /** `hs` holds the highlights of day `i` as the slice that starts at
      `Offset(days, i)`, one per record of the day. */
  ghost predicate PlacesDay(days: seq<TripDay>, find: PictureFinder, hs: seq<Highlight>, i: nat)
    requires i < |days|
  {
    && Offset(days, i) + |Records(days[i])| <= |hs|
    && hs[Offset(days, i)..Offset(days, i) + |Records(days[i])|] == DayHighlights(days[i], find)
  }

  /** `hs` holds every day's highlights at that day's offset. */
  ghost predicate PlacesAll(days: seq<TripDay>, find: PictureFinder, hs: seq<Highlight>) {
    forall i: nat :: i < |days| ==> PlacesDay(days, find, hs, i)
  }

  /** Every highlight of `hs` is one of some day's highlights, and carries that day's date. */
  ghost predicate FromSomeDay(days: seq<TripDay>, find: PictureFinder, hs: seq<Highlight>) {
    forall h :: h in hs ==> exists d :: d in days && h.fromDate == d.date && h in DayHighlights(d, find)
  }

  /** The highlights of `days`, day after day, each day's in record order. */
  function CollectHighlights(days: seq<TripDay>, find: PictureFinder): (hs: seq<Highlight>)
    ensures |hs| == TotalRecords(days)
    ensures PlacesAll(days, find, hs)
    ensures FromSomeDay(days, find, hs)
  {
    if |days| == 0 then []
    else
      var init := days[..|days| - 1];
      var prefix := CollectHighlights(init, find);
      var hs := prefix + DayHighlights(days[|days| - 1], find);
      CollectOffsets(days, find, prefix, hs);
      CollectMembers(days, find, prefix, hs);
      hs
  }

  /** The recursive case of `CollectHighlights`: offsets into the earlier
      days' highlights stay valid once the last day's are appended. */
  lemma CollectOffsets(days: seq<TripDay>, find: PictureFinder, prefix: seq<Highlight>, hs: seq<Highlight>)
    requires |days| > 0
    requires |prefix| == TotalRecords(days[..|days| - 1])
    requires PlacesAll(days[..|days| - 1], find, prefix)
    requires hs == prefix + DayHighlights(days[|days| - 1], find)
    ensures PlacesAll(days, find, hs)
  {
    var n := |days| - 1;
    forall i: nat | i < |days|
      ensures PlacesDay(days, find, hs, i)
    {
      if i < n {
        assert PlacesDay(days[..n], find, prefix, i);
      }
      if i == n {
        PlacesLastDay(days, find, prefix, hs);
      } else {
        PlacesEarlierDay(days, find, prefix, hs, i);
      }
    }
  }

  lemma PlacesLastDay(days: seq<TripDay>, find: PictureFinder, prefix: seq<Highlight>, hs: seq<Highlight>)
    requires |days| > 0
    requires |prefix| == TotalRecords(days[..|days| - 1])
    requires hs == prefix + DayHighlights(days[|days| - 1], find)
    ensures PlacesDay(days, find, hs, |days| - 1)
  {
    var n := |days| - 1;
    assert Offset(days, n) == |prefix|;
    assert hs[|prefix|..] == DayHighlights(days[n], find);
  }

  lemma PlacesEarlierDay(days: seq<TripDay>, find: PictureFinder, prefix: seq<Highlight>, hs: seq<Highlight>, i: nat)
    requires i < |days| - 1
    requires PlacesDay(days[..|days| - 1], find, prefix, i)
    requires hs == prefix + DayHighlights(days[|days| - 1], find)
    ensures PlacesDay(days, find, hs, i)
  {
    var init := days[..|days| - 1];
    assert init[..i] == days[..i];
    assert init[i] == days[i];
    var o, len := Offset(days, i), |Records(days[i])|;
    assert o == Offset(init, i);
    assert hs[o..o + len] == prefix[o..o + len];
  }

  /** The recursive case of `CollectHighlights`: every highlight still comes
      from one of the days. */
  lemma CollectMembers(days: seq<TripDay>, find: PictureFinder, prefix: seq<Highlight>, hs: seq<Highlight>)
    requires |days| > 0
    requires FromSomeDay(days[..|days| - 1], find, prefix)
    requires hs == prefix + DayHighlights(days[|days| - 1], find)
    ensures FromSomeDay(days, find, hs)
  {
    var n := |days| - 1;
    var own := DayHighlights(days[n], find);
    forall h | h in hs
      ensures exists d :: d in days && h.fromDate == d.date && h in DayHighlights(d, find)
    {
      if h in prefix {
        var d :| d in days[..n] && h.fromDate == d.date && h in DayHighlights(d, find);
        assert d in days;
      } else {
        var j :| 0 <= j < |own| && own[j] == h;
        assert days[n] in days;
      }
    }
  }

  /** The privacy zones of the trip: none when `trip.yaml` has no
      `privacy_zones`, otherwise one per entry, in order, fields unchanged. */
  function ZonesOf(meta: TripMetadata): (zs: seq<PrivacyZone>)
    ensures meta.privacyZones.None? ==> zs == []
    ensures meta.privacyZones.Some? ==>
              && |zs| == |meta.privacyZones.value|
              && forall i :: 0 <= i < |zs| ==> zs[i].fields == meta.privacyZones.value[i]
  {
    var fields := meta.privacyZones.GetOr([]);
    seq(|fields|, i requires 0 <= i < |fields| => PrivacyZone(fields[i]))
  }

  /** `parse_folder` on an already listed and parsed trip folder. */
  function ParseFolder(meta: TripMetadata, es: seq<Entry>, find: PictureFinder): (trip: Trip)
    ensures trip.title == meta.title && trip.summary == meta.summary
    ensures |trip.tripDays| == |KeptEntries(es)|
    ensures StableSort.IsStableSortOf(trip.tripDays, ParsedDays(es), DayDate)
    ensures |trip.highlights| == TotalRecords(ParsedDays(es))
    ensures StableSort.IsStableSortOf(trip.highlights, CollectHighlights(ParsedDays(es), find), HighlightDate)
    ensures meta.privacyZones.None? ==> trip.privacyZones == []
    ensures meta.privacyZones.Some? ==>
              && |trip.privacyZones| == |meta.privacyZones.value|
              && forall i :: 0 <= i < |trip.privacyZones| ==>
                   trip.privacyZones[i].fields == meta.privacyZones.value[i]
  {
    var days := ParsedDays(es);
    var highlights := CollectHighlights(days, find);
    var sortedDays := StableSort.Sort(days, DayDate);
    var sortedHighlights := StableSort.Sort(highlights, HighlightDate);
    assert |sortedDays| == |multiset(sortedDays)| == |multiset(days)| == |days|;
    assert |sortedHighlights| == |multiset(sortedHighlights)| == |multiset(highlights)| == |highlights|;
    Trip(meta.title, sortedDays, meta.summary, sortedHighlights, ZonesOf(meta))
  }

  /** The indices of the listing that become trip days. */
  ghost function KeptIndices(es: seq<Entry>): set<nat> {
    set i: nat | i < |es| && IsKept(es[i])
  }

  lemma {:induction false} KeptEntriesCount(es: seq<Entry>)
    ensures |KeptEntries(es)| == |KeptIndices(es)|
  {
    if |es| > 0 {
      var n := |es| - 1;
      var init := es[..n];
      KeptEntriesCount(init);
      var rest := if IsKept(es[n]) then {n} else {};
      assert KeptIndices(es) == KeptIndices(init) + rest by {
        forall i: nat | i < n
          ensures es[i] == init[i]
        {
        }
      }
      assert n !in KeptIndices(init);
    }
  }

  /** There are as many trip days as listing entries that are visible directories. */
  lemma TripDayCount(meta: TripMetadata, es: seq<Entry>, find: PictureFinder)
    ensures |ParseFolder(meta, es, find).tripDays| == |KeptIndices(es)|
  {
    KeptEntriesCount(es);
  }

  /** Every visible directory of the listing yields one of the trip's days. */
  lemma KeptEntriesBecomeDays(meta: TripMetadata, es: seq<Entry>, find: PictureFinder)
    ensures var trip := ParseFolder(meta, es, find);
      forall i :: 0 <= i < |es| && IsKept(es[i]) ==> es[i].day in trip.tripDays
  {
    var trip := ParseFolder(meta, es, find);
    var kept := KeptEntries(es);
    var days := ParsedDays(es);
    KeptEntriesExactly(es);
    forall i | 0 <= i < |es| && IsKept(es[i])
      ensures es[i].day in trip.tripDays
    {
      assert es[i] in multiset(es);
      assert es[i] in multiset(kept);
      var k :| 0 <= k < |kept| && kept[k] == es[i];
      assert days[k] == es[i].day;
      assert es[i].day in multiset(days);
      assert es[i].day in multiset(trip.tripDays);
    }
  }

  /** Every day of the trip is the day of a visible directory of the listing:
      files and hidden folders yield none. */
  lemma DaysComeFromKeptEntries(meta: TripMetadata, es: seq<Entry>, find: PictureFinder)
    ensures var trip := ParseFolder(meta, es, find);
      forall d :: d in trip.tripDays ==> exists i :: 0 <= i < |es| && IsKept(es[i]) && es[i].day == d
  {
    var trip := ParseFolder(meta, es, find);
    var kept := KeptEntries(es);
    var days := ParsedDays(es);
    KeptEntriesExactly(es);
    forall d | d in trip.tripDays
      ensures exists i :: 0 <= i < |es| && IsKept(es[i]) && es[i].day == d
    {
      assert d in multiset(trip.tripDays);
      assert d in multiset(days);
      var k :| 0 <= k < |days| && days[k] == d;
      assert kept[k] in multiset(kept);
      assert kept[k] in multiset(es);
      var i :| 0 <= i < |es| && es[i] == kept[k];
    }
  }

  /** Every highlight of the trip is a highlight of one of the trip's days
      and carries that day's date. */
  lemma HighlightsFromTheirDay(meta: TripMetadata, es: seq<Entry>, find: PictureFinder)
    ensures var trip := ParseFolder(meta, es, find);
      forall h :: h in trip.highlights ==>
        exists d :: d in trip.tripDays && h.fromDate == d.date && h in DayHighlights(d, find)
  {
    var trip := ParseFolder(meta, es, find);
    var days := ParsedDays(es);
    var collected := CollectHighlights(days, find);
    forall h | h in trip.highlights
      ensures exists d :: d in trip.tripDays && h.fromDate == d.date && h in DayHighlights(d, find)
    {
      assert h in multiset(trip.highlights);
      assert h in multiset(collected);
      assert h in collected;
      var d :| d in days && h.fromDate == d.date && h in DayHighlights(d, find);
      assert d in multiset(days);
      assert d in multiset(trip.tripDays);
    }
  }

  /** Appending one listing entry appends its day exactly when it is kept. */
  lemma ParsedDaysStep(es: seq<Entry>, n: nat)
    requires n < |es|
    ensures ParsedDays(es[..n + 1]) == ParsedDays(es[..n]) + (if IsKept(es[n]) then [es[n].day] else [])
  {
    assert es[..n + 1][..n] == es[..n];
    assert es[..n + 1][n] == es[n];
  }

  /** The inner loop of `parse_folder`: appends one highlight per record of
      a day whose `highlights` entry is truthy. */
  method AppendDayHighlights(highlights: seq<Highlight>, day: TripDay, find: PictureFinder)
    returns (out: seq<Highlight>)
    ensures out == highlights + DayHighlights(day, find)
  {
    out := highlights;
    if day.highlights.Some? && |day.highlights.value| > 0 {
      var records := day.highlights.value;
      ghost var own := DayHighlights(day, find);
      for j := 0 to |records|
        invariant out == highlights + own[..j]
      {
        var record := records[j];
        var picture := if IsFalsy(record.picture) then None
                       else find(day, Paths.LastSegment(record.picture.value));
        out := out + [Highlight(day.date, record.name, record.summary, picture)];
        assert own[..j + 1] == own[..j] + [own[j]];
      }
      assert own[..|records|] == own;
    }
  }

  /** The loop over `privacy_zones`, defaulting to an empty list. */
  method CopyZones(meta: TripMetadata) returns (zones: seq<PrivacyZone>)
    ensures zones == ZonesOf(meta)
  {
    zones := [];
    var fields := meta.privacyZones.GetOr([]);
    ghost var all := ZonesOf(meta);
    for k := 0 to |fields|
      invariant zones == all[..k]
    {
      zones := zones + [PrivacyZone(fields[k])];
      assert all[..k + 1] == all[..k] + [all[k]];
    }
    assert all[..|fields|] == all;
  }

  /** The outer loop of `parse_folder`: skips files and hidden folders and
      appends each remaining day and its highlights, in listing order. */
  method WalkListing(listing: seq<Entry>, find: PictureFinder)
    returns (tripDays: seq<TripDay>, highlights: seq<Highlight>)
    ensures tripDays == ParsedDays(listing)
    ensures highlights == CollectHighlights(ParsedDays(listing), find)
  {
    tripDays, highlights := [], [];
    for n := 0 to |listing|
      invariant tripDays == ParsedDays(listing[..n])
      invariant highlights == CollectHighlights(tripDays, find)
    {
      var entry := listing[n];
      ParsedDaysStep(listing, n);
      if !entry.isDir {
        continue;
      }
      if IsHidden(entry.name) {
        continue;
      }
      var before := tripDays;
      tripDays := tripDays + [entry.day];
      assert tripDays[..|tripDays| - 1] == before;
      highlights := AppendDayHighlights(highlights, entry.day, find);
    }
    assert listing[..|listing|] == listing;
  }

  /** `parse_folder` as the Python code runs it: the walk over the listing,
      the two sorts by date and the copy of the privacy zones. It builds the
      trip `ParseFolder` describes. */
  method AssembleTrip(meta: TripMetadata, listing: seq<Entry>, find: PictureFinder) returns (trip: Trip)
    ensures trip == ParseFolder(meta, listing, find)
  {
    var tripDays, highlights := WalkListing(listing, find);
    tripDays := StableSort.Sort(tripDays, DayDate);
    highlights := StableSort.Sort(highlights, HighlightDate);
    var privacyZones := CopyZones(meta);
    trip := Trip(meta.title, tripDays, meta.summary, highlights, privacyZones);
  }

  lemma DaysOfConcat(a: seq<Entry>, b: seq<Entry>)
    ensures DaysOf(a + b) == DaysOf(a) + DaysOf(b)
  {
  }

  /** Entries that are permutations of each other have days that are too. */
  lemma {:induction false} DaysOfPermutation(k1: seq<Entry>, k2: seq<Entry>)
    requires multiset(k1) == multiset(k2)
    ensures multiset(DaysOf(k1)) == multiset(DaysOf(k2))
    decreases |k1|
  {
    if |k1| == 0 {
      assert |k2| == |multiset(k2)| == 0;
    } else {
      var n := |k1| - 1;
      var init, x := k1[..n], k1[n];
      assert x in multiset(k2);
      var j :| 0 <= j < |k2| && k2[j] == x;
      var rest := k2[..j] + k2[j + 1..];
      RemoveOne(k1, n);
      RemoveOne(k2, j);
      assert k1[..n] + k1[n + 1..] == init;
      assert multiset(init) == multiset(rest) by {
        assert multiset(init) + multiset{x} == multiset(rest) + multiset{x};
        assert multiset(init) == multiset(init) + multiset{x} - multiset{x};
        assert multiset(rest) == multiset(rest) + multiset{x} - multiset{x};
      }
      DaysOfPermutation(init, rest);
    }
  }

  /** Taking out the entry at `j` takes out one entry and one day. */
  lemma RemoveOne(k: seq<Entry>, j: nat)
    requires j < |k|
    ensures multiset(k) == multiset(k[..j] + k[j + 1..]) + multiset{k[j]}
    ensures multiset(DaysOf(k)) == multiset(DaysOf(k[..j] + k[j + 1..])) + multiset{k[j].day}
  {
    var before, x, after := k[..j], k[j], k[j + 1..];
    assert k == before + [x] + after;
    DaysOfConcat(before + [x], after);
    DaysOfConcat(before, [x]);
    DaysOfConcat(before, after);
    assert multiset(DaysOf(k)) == multiset(DaysOf(before)) + multiset{x.day} + multiset(DaysOf(after));
  }

  /** No two different positions of the listing hold visible day folders with the same date. */
  ghost predicate DatesDistinct(es: seq<Entry>) {
    forall i, j ::
      (0 <= i < |es| && 0 <= j < |es| && i != j && IsKept(es[i]) && IsKept(es[j]))
      ==> es[i].day.date != es[j].day.date
  }

  /** When the visible day folders have distinct dates, a parsed day is determined by its date. */
  lemma DatesDetermineParsedDays(es: seq<Entry>)
    requires DatesDistinct(es)
    ensures StableSort.KeyDetermines(ParsedDays(es), DayDate)
  {
    var k, d := KeptEntries(es), ParsedDays(es);
    KeptEntriesExactly(es);
    forall x, y | x in d && y in d && DayDate(x) == DayDate(y)
      ensures x == y
    {
      var a :| 0 <= a < |d| && d[a] == x;
      var b :| 0 <= b < |d| && d[b] == y;
      assert k[a] in multiset(k) && k[b] in multiset(k);
      assert k[a] in multiset(es) && k[b] in multiset(es);
      var i :| 0 <= i < |es| && es[i] == k[a];
      var j :| 0 <= j < |es| && es[j] == k[b];
      assert IsKept(es[i]) && IsKept(es[j]);
    }
  }

  /** The folder listing comes in an arbitrary order. When no two visible
      day folders share a date, that order does not change the trip's days. */
  lemma DayOrderIgnoresListingOrder(meta: TripMetadata, es1: seq<Entry>, es2: seq<Entry>, find: PictureFinder)
    requires multiset(es1) == multiset(es2)
    requires DatesDistinct(es1)
    ensures ParseFolder(meta, es1, find).tripDays == ParseFolder(meta, es2, find).tripDays
  {
    var k1, k2 := KeptEntries(es1), KeptEntries(es2);
    KeptEntriesExactly(es1);
    KeptEntriesExactly(es2);
    assert multiset(k1) == multiset(k2) by {
      forall e
        ensures multiset(k1)[e] == multiset(k2)[e]
      {
      }
    }
    DaysOfPermutation(k1, k2);
    DatesDetermineParsedDays(es1);
    StableSort.SortDeterminedByContents(ParsedDays(es1), ParsedDays(es2), DayDate);
  }

  /** Two visible day folders listed one after the other are both kept, in that order. */
  lemma KeptPair(e1: Entry, e2: Entry)
    requires IsKept(e1) && IsKept(e2)
    ensures ParsedDays([e1, e2]) == [e1.day, e2.day]
  {
    assert [e1][..0] == [];
    assert KeptEntries([e1]) == [e1];
    assert [e1, e2][..1] == [e1];
    assert KeptEntries([e1, e2]) == [e1, e2];
  }

  /** Two days with the same date stay in the order given. */
  lemma SortTie(d1: TripDay, d2: TripDay)
    requires d1.date == d2.date
    ensures StableSort.Sort([d1, d2], DayDate) == [d1, d2]
  {
    assert [d1, d2][1..] == [d2];
  }

  /** When two visible day folders share a date, the sort keeps them in
      listing order, so swapping them in the listing swaps them in the trip. */
  lemma ListingOrderBreaksDateTies(meta: TripMetadata, e1: Entry, e2: Entry, find: PictureFinder)
    requires IsKept(e1) && IsKept(e2) && e1.day.date == e2.day.date
    ensures ParseFolder(meta, [e1, e2], find).tripDays == [e1.day, e2.day]
    ensures ParseFolder(meta, [e2, e1], find).tripDays == [e2.day, e1.day]
  {
    KeptPair(e1, e2);
    KeptPair(e2, e1);
    SortTie(e1.day, e2.day);
    SortTie(e2.day, e1.day);
  }
}
