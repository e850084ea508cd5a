# mediarename metadata normalisation, modelled in Dafny

mediarename renames video files after the metadata the `ffprobe` tool reports
for them. This project models the part of `index.js` that turns the parsed
probe document into the flat record that file-name templates refer to:

- the **recorder classifier** (`getRecorderType`): Android, GoPro or Unknown,
  from a container tag and the first stream's handler name;
- the **location resolver** (`getCityName`): an unanchored search of the
  container `location` tag for an ISO 6709 coordinate in the text form of
  Annex H of ISO 6709:2008 (`+DD.DDDD+DDD.DDDD/`), a zero check, and a
  nearest-city lookup within 100 km;
- the **normaliser** (`standardizeMetadata`): rejects documents without
  `streams`, lets the last stream's duration and creation time win, and
  derives the zero-padded `year`, `month`, `day`, `hour`, `minute`, `second`
  fields and the `YYYY-MM-DDTHH-mm-ss` date string from one instant.

Files:

- `wrappers.dfy` — `Option` and `Result`.
- `decimal.dfy` — digit strings: the text of a number, the value of a digit
  string, and zero fill to a fixed width (the padding the date library does).
- `probe.dfy` — the probe document (format tags, streams with duration and
  tags), the dotted-path lookups made on it, and the errors the normaliser
  throws.
- `recorder.dfy` — `Classify`, with `Includes` for `String.prototype.includes`.
- `location.dfy` — the pattern as a predicate, the leftmost-match search,
  `CityName`, and the Annex H writer used to state round trips.
- `normalize.dfy` — `Render` (the date formats), `Normalized` (the
  normaliser stated on the whole stream list), `Standardize` (the normaliser
  as the source runs it) with `ScanStreams` (its loop, which overwrites
  duration and date on every stream), and the date-string reader used to state the round trip.

Foreign pieces are parameters: the nearest-city lookup is a function from
latitude, longitude (ten-thousandths of a degree) and radius (metres) to city
names, nearest first; reading `creation_time` as a date and converting it to
local time is a function from text to an optional instant; the current
instant the date library falls back on is a parameter `now`.

Behaviour of the code worth knowing:

- The classifier throws when `format.tags` is missing, or when there is no
  truthy `com.android.version` tag and the first stream has no
  `handler_name`; it does not fall back to Unknown. These are
  the `NoContainerTags` and `NoHandlerName` failures.
- An invalid or missing creation time does not fail: the date library prints
  "Invalid date" for every field and for the date string.
- An empty `streams` list passes the `streams` check. The loop then never
  runs, `duration` is never set and the date library is given no date, so it
  uses the current instant. (Unless the Android tag is present the
  classifier has already thrown, since there is no first stream.)
- A stream without `tags` throws when its `creation_time` is read, wherever
  it sits in the list.

## Model

| member | source | states |
|---|---|---|
| `Recorder.Includes` | index.js:25 | `includes` is true exactly when the marker occurs as a contiguous piece of the handler name |
| `Recorder.Classify` | index.js:20-29 | Android exactly when the container tags exist and carry a truthy `com.android.version`, whatever the streams hold; otherwise GoPro exactly when the first stream's `handler_name` contains "GoPro", Unknown when it exists without it; failure exactly when `format.tags` is missing, or when there is no Android tag and no handler name |
| `Location.FirstMatch` | index.js:36 | the offset found is a match and no earlier offset matches; none is found only when no offset matches |
| `Location.ParseLocation` | index.js:36-37 | no coordinate exactly when the pattern `[+-]dd.dddd[+-]ddd.dddd/` matches nowhere in the tag; otherwise the coordinate decoded from the leftmost match |
| `Location.CityName` | index.js:31-44 | "Unknown location" for a missing or empty tag, for a tag without a match, and for a zero latitude or longitude whatever the lookup holds; otherwise the lookup's first city within 100 km of the matched coordinate, or "Unknown location" when it finds none |
| `Location.FixedTextRoundTrip` | index.js:38-39 | a number written as signed fixed-point text with four decimals has the pattern's shape and converts back to the same number |
| `Location.EncodedLocationParses` | index.js:36-39 | a tag `<latitude><longitude>/` followed by anything yields exactly the coordinate it was written from |
| `Location.AltitudeDefeatsPattern` | index.js:36-37 | a tag with an altitude between the longitude and the slash matches nowhere, so it is never resolved |
| `Location.ResolvesEncoded` | index.js:38-43 | for a tag carrying a coordinate, a zero latitude or longitude gives "Unknown location" without regard to the lookup; otherwise the lookup's nearest city for exactly that coordinate, or "Unknown location" |
| `Decimal.ZeroFill` | index.js:59-64 | zero fill keeps the number's value and, for a non-negative number below 10^width, has exactly `width` digits |
| `Normalize.Render` | index.js:58-65 | month, day, hour, minute and second are two-digit texts of the instant's fields; the year is the four-digit text of years 0 to 9999; an invalid date gives "Invalid date" everywhere |
| `Normalize.StampRoundTrip` | index.js:58-65 | the date string cut at its separators gives back exactly the six fields, and reading it gives back the instant |
| `Normalize.Normalized` | index.js:46-67 | no `streams` is rejected; a classifier failure wins over any stream error; a stream without tags fails with `NoStreamTags`; success exactly when there are streams, the classifier succeeds and every stream has tags; location and recorder come from the whole document; duration and all date fields come from the last stream only (from `now` and no duration when there is no stream) |
| `Normalize.ScanStreams` | index.js:53-56 | the pass over the streams succeeds exactly when every stream carries `tags`; it then leaves the last stream's duration and creation instant, or nothing when there is no stream |
| `Normalize.Standardize` | index.js:46-67 | the method that rejects, resolves, runs the pass over the streams and formats the instant returns exactly what `Normalized` states |
| `Normalize.LastStreamWins` | index.js:53-56 | when every stream carries tags, apart from the first stream's `handler_name` only the last stream affects the record: documents whose streams all carry tags and that agree on the container section, that handler name and the last stream normalise alike (an earlier stream still matters through whether it has `tags`, since a stream without them fails) |
| `Normalize.NormalizedDateFields` | index.js:58-65 | for a valid instant with a year from 0 to 9999 the record's year has 4 characters, the other fields 2, and its date string splits into exactly those fields and reads back as the instant |
| `Normalize.InvalidDateFields` | index.js:55-65 | a missing or unreadable creation time on the last stream makes every date field "Invalid date" instead of failing |

## Left out

- `getMetadata` (index.js:69-88): running `ffprobe` and parsing its JSON output is process I/O; the model starts from the parsed document, with optional fields standing for missing paths.
- The nearest-city database (index.js:41) is not part of this model; it is the `CityLookup` parameter.
- `Number(...)` on the coordinates (index.js:38-39): coordinates are integers in ten-thousandths of a degree, which the four-decimal pattern makes exact; `Number(stream.duration)` (index.js:54) keeps the raw text, since floating-point conversion is not modelled.
- `new Date(...)` and local-time conversion (index.js:55, 58): the `DateReader` parameter; the date library is modelled only in its zero fill, its "Invalid date" output and its fallback to the current instant for no date.
- Normalize.Render: the year is stated to have four digits only for years 0 to 9999; the zero fill gives a leading `-` for earlier years and more digits for later ones, and those cases are modelled but not stated further.
- `getFilename` (index.js:90-92): template substitution is done by an external library whose behaviour is not part of this model.
- The command-line options and the metadata table (index.js:8-18, 94-108): user interface and console output.
- The batch rename (index.js:110-127): bounded concurrency over the processor count, path resolution and `fs.rename` are concurrency and file-system I/O.
