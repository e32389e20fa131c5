/**
 The records `parse_folder` reads and builds. Everything here is already
 parsed: the YAML of `trip.yaml` and of each day folder, and the listing of
 the trip folder, are inputs.
 */
module Models {
  import opened Wrappers

  /** A day's date; only its order matters, so an integer stands for it. */
  type Date = int

  /** A picture of a day. Its contents are never inspected here. */
  datatype Picture = Picture(path: string)

  /** One entry of a day's `highlights` metadata list. `picture` is the raw
      value of the record's `picture` key: `None` for a YAML null. */
  datatype HighlightRecord = HighlightRecord(picture: Option<string>, name: string, summary: string)

  /** A parsed day folder: its date, the `highlights` entry of its metadata
      (`None` when the key is absent or null) and its pictures. */
  datatype TripDay = TripDay(date: Date, highlights: Option<seq<HighlightRecord>>, pictures: seq<Picture>)

  /** One name from the listing of the trip folder, whether it is a directory,
      and the day that parsing it as a day folder yields. */
  datatype Entry = Entry(name: string, isDir: bool, day: TripDay)

  /** A highlight of the trip, stamped with the date of the day it came from. */
  datatype Highlight = Highlight(fromDate: Date, name: string, summary: string, picture: Option<Picture>)

  /** The fields of one `privacy_zones` entry, passed through untouched. */
  type ZoneFields = map<string, string>

  datatype PrivacyZone = PrivacyZone(fields: ZoneFields)

  /** The parsed `trip.yaml`: `privacyZones` is `None` when the key is absent. */
  datatype TripMetadata = TripMetadata(title: string, summary: string, privacyZones: Option<seq<ZoneFields>>)

  datatype Trip = Trip(
    title: string,
    tripDays: seq<TripDay>,
    summary: string,
    highlights: seq<Highlight>,
    privacyZones: seq<PrivacyZone>)

  function DayDate(d: TripDay): Date { d.date }

  function HighlightDate(h: Highlight): Date { h.fromDate }
}
