/** The metadata normaliser: turns a probe document into the flat record of
    location, recorder, duration and zero-padded date fields that the
    renamer's templates refer to. */
module Normalize {
  import opened Wrappers
  import opened Decimal
  import opened Probe
  import Recorder
  import Location

  type Month = m: int | 1 <= m <= 12 witness 1
  type Day = d: int | 1 <= d <= 31 witness 1
  type Hour = h: int | 0 <= h <= 23
  type Minute = m: int | 0 <= m <= 59
  type Second = s: int | 0 <= s <= 59

  /** A point in time as the local calendar shows it. */
  datatype Instant = Instant(year: int, month: Month, day: Day, hour: Hour, minute: Minute, second: Second)

  /** Reading a `creation_time` text as a date and converting it to local
      time: the instant, or none for an invalid date. */
  type DateReader = string -> Option<Instant>

  /** What `Number(stream.duration)` is applied to: the numeric conversion
      is not modelled, so the record keeps the raw field. */
  datatype Duration = DurationText(raw: Option<string>)

  /** The normalised metadata record. `duration` is absent when no stream was
      visited. */
  datatype Meta = Meta(
    location: string, recorder: string, duration: Option<Duration>, date: string,
    year: string, month: string, day: string, hour: string, minute: string, second: string)

  /** The seven formatted renderings of one instant. */
  datatype Calendar = Calendar(
    year: string, month: string, day: string, hour: string, minute: string, second: string,
    date: string)

  const CreationTimeTag := "creation_time"
  /** What the date library prints for an invalid date, in every format. */
  const InvalidDate := "Invalid date"

  /** s is the zero-padded two-digit text of v. */
  predicate TwoDigits(s: string, v: int) {
    |s| == 2 && AllDigits(s) && Value(s) == v
  }

  /** The date-library formats `YYYY`, `MM`, `DD`, `HH`, `mm`, `ss` and
      `YYYY-MM-DDTHH-mm-ss` of one instant; an invalid date prints as
      "Invalid date" in each. The two-digit fields are always two digits; the
      year is four digits for years 0 to 9999. */
  function Render(m: Option<Instant>): (c: Calendar)
    ensures m.None? ==> c == Calendar(InvalidDate, InvalidDate, InvalidDate, InvalidDate,
                                      InvalidDate, InvalidDate, InvalidDate)
    ensures m.Some? ==> TwoDigits(c.month, m.value.month) && TwoDigits(c.day, m.value.day)
                        && TwoDigits(c.hour, m.value.hour) && TwoDigits(c.minute, m.value.minute)
                        && TwoDigits(c.second, m.value.second)
    ensures m.Some? && 0 <= m.value.year < 10000 ==>
              |c.year| == 4 && AllDigits(c.year) && Value(c.year) == m.value.year
  {
    match m
    case None =>
      Calendar(InvalidDate, InvalidDate, InvalidDate, InvalidDate, InvalidDate, InvalidDate, InvalidDate)
    case Some(i) =>
      assert Pow10(2) == 100 && Pow10(4) == 10000;
      var year, month, day := ZeroFill(i.year, 4), ZeroFill(i.month, 2), ZeroFill(i.day, 2);
      var hour, minute, second := ZeroFill(i.hour, 2), ZeroFill(i.minute, 2), ZeroFill(i.second, 2);
      Calendar(year, month, day, hour, minute, second,
               year + "-" + month + "-" + day + "T" + hour + "-" + minute + "-" + second)
  }

  /** Cuts a date string at its five separators, `YYYY-MM-DDTHH-mm-ss`
      (19 characters), into its six fields. */
  function SplitStamp(s: string): Option<seq<string>> {
    if |s| == 19 && s[4] == '-' && s[7] == '-' && s[10] == 'T' && s[13] == '-' && s[16] == '-'
    then Some([s[..4], s[5..7], s[8..10], s[11..13], s[14..16], s[17..]])
    else None
  }

  /** Reads a date string back into the instant it names, or none when it
      is not one. */
  function ParseStamp(s: string): Option<Instant> {
    match SplitStamp(s)
    case None => None
    case Some(f) =>
      if AllDigits(f[0]) && AllDigits(f[1]) && AllDigits(f[2]) && AllDigits(f[3])
         && AllDigits(f[4]) && AllDigits(f[5])
      then
        var year, month, day := Value(f[0]), Value(f[1]), Value(f[2]);
        var hour, minute, second := Value(f[3]), Value(f[4]), Value(f[5]);
        if 1 <= month <= 12 && 1 <= day <= 31 && hour <= 23 && minute <= 59 && second <= 59
        then Some(Instant(year, month, day, hour, minute, second))
        else None
      else None
  }

  /** Six fields of widths 4, 2, 2, 2, 2, 2 joined with the separators of
      `YYYY-MM-DDTHH-mm-ss` are cut apart again at those separators. */
  lemma JoinThenSplit(year: string, month: string, day: string, hour: string, minute: string, second: string)
    requires |year| == 4 && |month| == 2 && |day| == 2 && |hour| == 2 && |minute| == 2 && |second| == 2
    ensures SplitStamp(year + "-" + month + "-" + day + "T" + hour + "-" + minute + "-" + second)
            == Some([year, month, day, hour, minute, second])
  {
    var s := year + "-" + month + "-" + day + "T" + hour + "-" + minute + "-" + second;
    assert s[..4] == year;
    assert s[5..7] == month;
    assert s[8..10] == day;
    assert s[11..13] == hour;
    assert s[14..16] == minute;
    assert s[17..] == second;
  }

  /** Digit fields of those widths, whose values are a year, a month, a
      day, an hour, a minute and a second, joined with the separators, read
      back as that instant. */
  lemma JoinThenParse(year: string, month: string, day: string, hour: string, minute: string,
                      second: string, i: Instant)
    requires |year| == 4 && AllDigits(year) && Value(year) == i.year
    requires TwoDigits(month, i.month) && TwoDigits(day, i.day) && TwoDigits(hour, i.hour)
    requires TwoDigits(minute, i.minute) && TwoDigits(second, i.second)
    ensures ParseStamp(year + "-" + month + "-" + day + "T" + hour + "-" + minute + "-" + second)
            == Some(i)
  {
    JoinThenSplit(year, month, day, hour, minute, second);
  }

  /** For years 0 to 9999 the date string is the six fields joined by its
      separators, so cutting it at them gives back exactly the fields, and
      reading it gives back the instant it was made from. */
  lemma {:induction false} StampRoundTrip(i: Instant)
    requires 0 <= i.year < 10000
    ensures var c := Render(Some(i));
            SplitStamp(c.date) == Some([c.year, c.month, c.day, c.hour, c.minute, c.second])
            && ParseStamp(c.date) == Some(i)
  {
    var c := Render(Some(i));
    assert c.date == c.year + "-" + c.month + "-" + c.day + "T" + c.hour + "-" + c.minute + "-" + c.second;
    JoinThenSplit(c.year, c.month, c.day, c.hour, c.minute, c.second);
    JoinThenParse(c.year, c.month, c.day, c.hour, c.minute, c.second, i);
  }

  /** The stream's `creation_time` read as a date; without the tag the date
      is invalid. */
  function CreationInstant(stream: Stream, read: DateReader): Option<Instant>
    requires stream.tags.Some?
  {
    if CreationTimeTag in stream.tags.value then read(stream.tags.value[CreationTimeTag]) else None
  }

  /** Every stream carries a tag set. */
  predicate AllTagged(streams: seq<Stream>) {
    forall k :: 0 <= k < |streams| ==> streams[k].tags.Some?
  }

  /** The instant the date library is given after the pass over the
      streams: the last stream's creation time, or, when there is no stream,
      no date at all, which the library takes as the current instant `now`. */
  function DateInput(streams: seq<Stream>, read: DateReader, now: Instant): Option<Instant>
    requires AllTagged(streams)
  {
    if streams == [] then Some(now) else CreationInstant(streams[|streams| - 1], read)
  }

  /** The record built from the resolved parts and the instant the date
      library is given. */
  function Assemble(location: string, recorder: Recorder.Kind, duration: Option<Duration>,
                    moment: Option<Instant>): Meta
  {
    var c := Render(moment);
    Meta(location, Recorder.Label(recorder), duration, c.date,
         c.year, c.month, c.day, c.hour, c.minute, c.second)
  }

  /** standardizeMetadata, stated on the whole stream list: a document without
      `streams` is rejected; location and recorder are resolved from the
      whole document first, so a recorder error wins over any stream error;
      a stream without tags throws; otherwise only the last stream's duration
      and creation time reach the record, and with no stream at all the date
      library is given no date and uses the current instant `now`. */
  function Normalized(doc: Document, nearest: Location.CityLookup, read: DateReader, now: Instant)
    : (r: Result<Meta, Failure>)
    ensures doc.streams.None? ==> r == Failure(UnrecognisedMetadata)
    ensures doc.streams.Some? && Recorder.Classify(doc).Failure? ==> r == Failure(Recorder.Classify(doc).error)
    ensures doc.streams.Some? && Recorder.Classify(doc).Success? && !AllTagged(doc.streams.value)
            ==> r == Failure(NoStreamTags)
    ensures r.Success? <==> doc.streams.Some? && Recorder.Classify(doc).Success? && AllTagged(doc.streams.value)
    ensures r.Success? ==> r.value.location == Location.CityName(doc, nearest)
                           && r.value.recorder == Recorder.Label(Recorder.Classify(doc).value)
    ensures r.Success? && doc.streams.value != [] ==>
              r.value.duration == Some(DurationText(doc.streams.value[|doc.streams.value| - 1].duration))
    ensures r.Success? && doc.streams.value == [] ==> r.value.duration.None?
    ensures r.Success? ==>
              var c := Render(DateInput(doc.streams.value, read, now));
              r.value.date == c.date && r.value.year == c.year && r.value.month == c.month
              && r.value.day == c.day && r.value.hour == c.hour && r.value.minute == c.minute
              && r.value.second == c.second
  {
    if doc.streams.None? then Failure(UnrecognisedMetadata)
    else
      var recorder := Recorder.Classify(doc);
      if recorder.Failure? then Failure(recorder.error)
      else
        var streams := doc.streams.value;
        if !AllTagged(streams) then Failure(NoStreamTags)
        else if streams == [] then
          Success(Assemble(Location.CityName(doc, nearest), recorder.value, None, Some(now)))
        else
          var last := streams[|streams| - 1];
          Success(Assemble(Location.CityName(doc, nearest), recorder.value,
                           Some(DurationText(last.duration)), CreationInstant(last, read)))
  }

  /** The `forEach` over the streams: every stream overwrites the duration
      and the date, and a stream without `tags` throws when its creation
      time is read (reported as `tagged == false`). */
  method ScanStreams(streams: seq<Stream>, read: DateReader)
    returns (tagged: bool, duration: Option<Duration>, date: Option<Option<Instant>>)
    ensures tagged <==> AllTagged(streams)
    ensures tagged && streams == [] ==> duration.None? && date.None?
    ensures tagged && streams != [] ==>
              duration == Some(DurationText(streams[|streams| - 1].duration))
              && date == Some(CreationInstant(streams[|streams| - 1], read))
  {
    duration, date := None, None;  // None: never assigned
    for i := 0 to |streams|
      invariant AllTagged(streams[..i])
      invariant i == 0 ==> duration.None? && date.None?
      invariant i > 0 ==> duration == Some(DurationText(streams[i - 1].duration))
                          && streams[i - 1].tags.Some?
                          && date == Some(CreationInstant(streams[i - 1], read))
    {
      duration := Some(DurationText(streams[i].duration));
      if streams[i].tags.None? {
        assert !AllTagged(streams);
        return false, duration, date;
      }
      date := Some(CreationInstant(streams[i], read));
      assert streams[..i + 1] == streams[..i] + [streams[i]];
    }
    assert streams[..|streams|] == streams;
    tagged := true;
  }

  /** standardizeMetadata itself: reject a document without `streams`,
      resolve location and recorder, run the pass over the streams, then
      format the instant the date library is given. */
  method Standardize(doc: Document, nearest: Location.CityLookup, read: DateReader, now: Instant)
    returns (r: Result<Meta, Failure>)
    ensures r == Normalized(doc, nearest, read, now)
  {
    if doc.streams.None? {
      return Failure(UnrecognisedMetadata);
    }
    var location := Location.CityName(doc, nearest);
    var recorder := Recorder.Classify(doc);
    if recorder.Failure? {
      return Failure(recorder.error);
    }
    var tagged, duration, date := ScanStreams(doc.streams.value, read);
    if !tagged {
      return Failure(NoStreamTags);
    }
    var moment := if date.None? then Some(now) else date.value;
    r := Success(Assemble(location, recorder.value, duration, moment));
  }

  /** Only the last stream's data and the first stream's handler name
      matter: two documents with the same container section whose first
      streams have the same `handler_name`, whose last streams are equal, and
      whose streams all carry tags, normalise alike. */
  lemma LastStreamWins(d1: Document, d2: Document, nearest: Location.CityLookup, read: DateReader,
                       now: Instant)
    requires d1.format == d2.format
    requires d1.streams.Some? && d2.streams.Some?
    requires AllTagged(d1.streams.value) && AllTagged(d2.streams.value)
    requires |d1.streams.value| > 0 && |d2.streams.value| > 0
    requires FirstStreamTag(d1, Recorder.HandlerNameTag) == FirstStreamTag(d2, Recorder.HandlerNameTag)
    requires d1.streams.value[|d1.streams.value| - 1] == d2.streams.value[|d2.streams.value| - 1]
    ensures Normalized(d1, nearest, read, now) == Normalized(d2, nearest, read, now)
  {
    assert ContainerTag(d1, Location.LocationTag) == ContainerTag(d2, Location.LocationTag);
    assert Location.CityName(d1, nearest) == Location.CityName(d2, nearest);
    assert Recorder.Classify(d1) == Recorder.Classify(d2);
  }

  /** When the date library is given a valid instant with a year from 0 to
      9999, the record's year has four digits, the other fields two, and
      the date string cut at its separators gives back exactly those six
      fields and reads back as that instant. */
  lemma {:induction false} NormalizedDateFields(doc: Document, nearest: Location.CityLookup,
                                                read: DateReader, now: Instant, i: Instant)
    requires 0 <= i.year < 10000
    ensures var r := Normalized(doc, nearest, read, now);
            r.Success? && DateInput(doc.streams.value, read, now) == Some(i) ==>
            var m := r.value;
            |m.year| == 4 && |m.month| == 2 && |m.day| == 2 && |m.hour| == 2
            && |m.minute| == 2 && |m.second| == 2
            && SplitStamp(m.date) == Some([m.year, m.month, m.day, m.hour, m.minute, m.second])
            && ParseStamp(m.date) == Some(i)
  {
    StampRoundTrip(i);
  }

  /** When the last stream's creation time is missing or not a date, every
      date field of the record reads "Invalid date": nothing fails. */
  lemma InvalidDateFields(doc: Document, nearest: Location.CityLookup, read: DateReader, now: Instant)
    ensures var r := Normalized(doc, nearest, read, now);
            r.Success? && DateInput(doc.streams.value, read, now).None? ==>
            var m := r.value;
            m.date == InvalidDate && m.year == InvalidDate && m.month == InvalidDate
            && m.day == InvalidDate && m.hour == InvalidDate && m.minute == InvalidDate
            && m.second == InvalidDate
  {
  }
}
