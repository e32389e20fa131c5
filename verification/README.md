# travel_log trip assembly, modelled in Dafny

travel_log turns a folder of trip assets into a static website. The folder
holds a `trip.yaml` with the trip's title, summary and optional privacy zones,
and one sub-folder per day. `parse_folder` assembles a `Trip` from them, and
this project models that step:

- it keeps the listing entries that are directories and are not hidden (their
  name does not start with `.`), and parses each one as a day;
- it builds one highlight per record in a day's `highlights` metadata. Each
  highlight is stamped with the day's date and gets its picture by looking up
  the part of the record's `picture` path after the last `/`. A falsy
  `picture` means no lookup and no picture;
- it stable-sorts the days and the highlights by date;
- it copies the title and summary, and builds one privacy zone per
  `privacy_zones` entry. A missing key gives no zones.

Modules:

- `Wrappers` (wrappers.dfy): `Option`, for Python's `None`.
- `Paths` (paths.dfy): Python's `str.split('/')`, its inverse `'/'.join`, and
  the last segment `s.split('/')[-1]`.
- `StableSort` (stable_sort.dfy): `sorted(xs, key=...)` as an insertion sort,
  with "stable" stated per key class. Filtering the result to one key gives
  the same sequence as filtering the input to that key.
- `Models` (models.dfy): the records read and built. Dates are integers,
  since only their order matters.
- `FolderParser` (folder_parser.dfy): the functional description
  `ParseFolder`, the properties of the trip it builds, and `AssembleTrip`.
  `AssembleTrip` is the loop-and-append procedure as the Python code runs
  it, and it is proved to build the same trip.

The inputs that come from I/O are parameters. The folder listing is a
sequence of `Entry(name, isDir, day)` in whatever order the operating system
lists it. `day` is what parsing that entry as a day folder yields. The parsed
`trip.yaml` is a `TripMetadata` record. The picture lookup of a day is a
function parameter `find`.

`Trip.privacyZones` is the list that the loop at main.py:54-55 builds, in
`trip.yaml` order.

## Model

| member | source | states |
|---|---|---|
| FolderParser.KeptEntries | src/travel_log/main.py:22-31 | the filter of the listing keeps at most as many entries as are listed; which entries it keeps, and in what order, is stated by `KeptEntriesExactly` and `KeptEntriesAppend` |
| FolderParser.KeptEntriesExactly | src/travel_log/main.py:22-31 | the kept entries are exactly the listed directories whose name does not start with `.`: each such entry appears as often as it is listed, and no file or hidden folder appears at all |
| FolderParser.KeptEntriesAppend | src/travel_log/main.py:22-37 | filtering the listing commutes with concatenation, so the kept entries stay in listing order |
| FolderParser.TripDayCount | src/travel_log/main.py:22-37 | the trip has exactly as many days as the listing has visible directories |
| FolderParser.KeptEntriesBecomeDays | src/travel_log/main.py:22-37 | every visible directory of the listing yields one of the trip's days |
| FolderParser.DaysComeFromKeptEntries | src/travel_log/main.py:22-37 | every trip day is the day of a visible directory, so files and hidden folders yield none |
| Paths.Split | src/travel_log/main.py:43 | `split('/')` yields at least one segment, no segment contains `/`, and there is exactly one segment when the string has no `/` |
| Paths.JoinSplit | src/travel_log/main.py:43 | joining the segments of a split with `/` gives back the original string |
| Paths.SplitJoin | src/travel_log/main.py:43 | splitting the join of `/`-free segments gives back the segments |
| Paths.SplitLastSegment | src/travel_log/main.py:43 | the last element of `split('/')` is a `/`-free suffix of the string that is either all of it or preceded by a `/` |
| Paths.LastSegment | src/travel_log/main.py:43 | `split('/')[-1]` is the suffix after the last `/`, contains no `/`, and is the whole string when the string has no `/` |
| Paths.LastSegmentUnique | src/travel_log/main.py:43 | any `/`-free suffix that is the whole string or preceded by `/` is the last segment, so that description fixes it |
| FolderParser.PictureKey | src/travel_log/main.py:42-45 | there is a lookup key exactly when `picture` is truthy (not null, not empty), and then the key is the last `/`-segment of `picture` |
| FolderParser.ResolvePicture | src/travel_log/main.py:42-45 | a falsy `picture` gives no picture and no lookup; otherwise the picture is what the day's lookup returns for the part of `picture` after the last `/` |
| FolderParser.DayHighlights | src/travel_log/main.py:40-49 | one highlight per record in record order; none when `highlights` is absent or empty; each highlight has the day's date and the record's name and summary; it has no picture when the record has no key, and otherwise has what the day's lookup returns for the key |
| FolderParser.CollectHighlights | src/travel_log/main.py:39-49 | the collected highlights number the total of the days' records; record `j` of day `i` is at position (records of earlier days) + `j`; every highlight belongs to one of the days and carries its date |
| StableSort.Insert | src/travel_log/main.py:51-52 | inserting into a key-sorted list keeps it sorted, adds exactly the one element, and puts it before the other elements of its key |
| StableSort.Sort | src/travel_log/main.py:51-52 | the insertion sort's result is a permutation of its input, non-decreasing by key, with equal keys in input order |
| StableSort.SortedSameClassesEqual | src/travel_log/main.py:51-52 | two key-sorted lists that agree on every key class are equal |
| StableSort.StableSortUnique | src/travel_log/main.py:51-52 | a list is a stable sort of the input exactly when it equals `Sort` of it, so Python's `sorted` and the insertion sort give the same list |
| StableSort.SortedPermutationsEqual | src/travel_log/main.py:51 | two key-sorted permutations of each other are equal when no two of their elements share a key |
| StableSort.SortDeterminedByContents | src/travel_log/main.py:51 | when no two input elements share a key, the sorted result depends only on which elements there are, not on their input order |
| FolderParser.DaysOfPermutation | src/travel_log/main.py:22-37 | reordering the kept entries reorders their days and changes nothing else |
| FolderParser.DatesDetermineParsedDays | src/travel_log/main.py:22-37 | when no two visible folders share a date, each parsed day is determined by its date |
| FolderParser.DayOrderIgnoresListingOrder | src/travel_log/main.py:22-51 | when no two visible folders share a date, the order in which the listing returns its entries does not change the trip's days |
| FolderParser.ListingOrderBreaksDateTies | src/travel_log/main.py:22-51 | for any two visible folders with the same date, the trip's days are their days in listing order, so swapping the two in the listing swaps them in the trip |
| FolderParser.ZonesOf | src/travel_log/main.py:54-55 | no zones when `privacy_zones` is absent, otherwise one zone per entry, in order, with the entry's fields |
| FolderParser.ParseFolder | src/travel_log/main.py:16-60 | the trip's title and summary are the metadata's; its days are a stable date sort of the kept days, as many as the kept entries; its highlights are a stable date sort of the collected highlights, as many as the kept days' records; its privacy zones are as `ZonesOf` describes |
| FolderParser.HighlightsFromTheirDay | src/travel_log/main.py:40-52 | after sorting, every highlight of the trip still belongs to one of the trip's days and carries that day's date |
| FolderParser.AppendDayHighlights | src/travel_log/main.py:40-49 | the inner loop appends exactly the day's highlights to the list built so far, and appends nothing when `highlights` is absent or empty |
| FolderParser.WalkListing | src/travel_log/main.py:22-49 | the outer loop yields the kept days in listing order and their highlights collected day after day |
| FolderParser.CopyZones | src/travel_log/main.py:54-55 | the zone loop, with `[]` as the default, yields the zones `ZonesOf` describes |
| FolderParser.AssembleTrip | src/travel_log/main.py:16-60 | the single pass that skips files and hidden folders, appends days and highlights, sorts both and appends the zones builds exactly the trip `ParseFolder` describes |

## Left out

- Listing the folder (`os.listdir`, `os.path.isdir`, `os.path.join`) is I/O. The listing is an input sequence of entries in arbitrary order.
- Reading `trip.yaml` (`parse_trip_metadata`) is file I/O plus the YAML library. The metadata is an already-parsed `TripMetadata`, and a missing or malformed file (an exception in the source) is not modelled.
- `TripDay.from_folder_path` is not part of this model. Each entry carries the day that parsing its folder yields, and a day folder that fails to parse is not modelled.
- `TripDay.find_picture_by_filename` is not part of this model. It is the parameter `find`, with no matching rule assumed.
- The constructors of `Highlight`, `PrivacyZone` and `Trip` are not part of this model. They are plain datatypes. Privacy-zone fields are passed through as a string-to-string map.
- The skip messages printed for files and hidden folders are console output.
- The `click` command line, `CURRENT_FOLDER` and `generate_website` are the command-line interface and an external collaborator.
- A highlight record or `trip.yaml` without one of the keys the code indexes (`picture`, `name`, `summary`, `title`) raises `KeyError` in the source. The records here always have these fields.
- A `privacy_zones` key that is present with a null value makes the loop raise `TypeError`. `None` here means the key is absent.
- A truthy `picture` that is not a string (a number, say) fails at `.split`. The model types `picture` as an optional string.
- Dates are integers: the source compares `date` values only for sorting.
- Running the parser twice on the same listing gives the same trip, since every member here is a pure function of its inputs. `os.listdir` promises no order, though, and for a reordered listing less is proved. `DayOrderIgnoresListingOrder` shows only that the trip's days agree, and only when no two visible day folders share a date. Nothing is proved about the highlights of a reordered listing. When two visible folders share a date, `sorted` at main.py:51 keeps them in listing order, so the order can change the result. `ListingOrderBreaksDateTies` states this for any two such folders.
- `TripDay` keeps only the date, the `highlights` entry and the pictures. The day's other metadata and the folder it came from are not modelled, because the `TripDay` class is not part of this model. So two day folders whose dates, highlights and pictures agree are equal records here, even if the program's day objects differ.
- A truthy `highlights` value that is not a list, or a highlight record that is not a mapping, raises `TypeError` in the source (main.py:41-42). The model types `highlights` as an optional list of records.
- KeptEntries: its own contract states only the length bound. Which entries survive, how often and in what order, is stated as separate lemmas (`KeptEntriesExactly`, `KeptEntriesAppend`), which keeps the proofs that unfold the recursive filter small.
