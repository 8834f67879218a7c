/** Export: the timestamped output path, chosen by format, and the dispatch
    to one of the two writers. The writers themselves (CSV rendering and
    JSON serialisation) are not modelled; an export is described by the
    writer chosen, the path and the records written. */
module Exporter {
  import opened Wrappers
  import opened Text
  import Meta
  import Clock

  const CsvDirectory := "/home/ryan/Data/vinilo/csv"
  const JsonDirectory := "/home/ryan/Data/vinilo/json"
  const FilePrefix := "vinilo_stock_"

  /** The format `export` uses when it is given none. */
  const DefaultFiletype := "csv"

  /** The directory a valid extension selects. */
  function Directory(ext: string): (dir: string)
    ensures dir == CsvDirectory <==> ext == "csv"
    ensures dir == CsvDirectory || dir == JsonDirectory
  {
    if ext == "csv" then CsvDirectory else JsonDirectory
  }

  /** The date, `_`, and the first eight characters of the time with every
      `:` turned into `.`. */
  function Timestamp(date: string, time: string): (ts: string)
    ensures |ts| > |date| && ts[..|date|] == date && ts[|date|] == '_'
    ensures ':' !in ts[|date| + 1..]
    ensures |ts| == |date| + 1 + (if |time| < 8 then |time| else 8)
    ensures forall i :: 0 <= i < |ts| - |date| - 1 ==>
      ts[|date| + 1 + i] == (if time[i] == ':' then '.' else time[i])
  {
    var t := Take(Replace(time, ':', '.'), 8);
    assert (date + "_" + t)[|date| + 1..] == t;
    date + "_" + t
  }

  /** The segments of a relative path that `pathlib` keeps: it splits on
      `/` and drops empty and `.` segments. */
  function KeptSegments(parts: seq<string>): (kept: seq<string>)
    ensures forall seg :: seg in kept <==> seg in parts && seg != "" && seg != "."
    ensures |kept| <= |parts|
  {
    if parts == [] then []
    else if parts[0] == "" || parts[0] == "." then KeptSegments(parts[1..])
    else [parts[0]] + KeptSegments(parts[1..])
  }

  /** Appends each segment to the directory with a `/` before it. */
  function AppendSegments(dir: string, segments: seq<string>): (path: string)
    ensures dir <= path
    decreases |segments|
  {
    if segments == [] then dir else AppendSegments(dir + "/" + segments[0], segments[1..])
  }

  /** `str(Path(dir, name))` for an absolute, normalised `dir` and a
      relative `name`. */
  function PathText(dir: string, name: string): (path: string)
    requires name == [] || name[0] != '/'
    ensures dir <= path
  {
    AppendSegments(dir, KeptSegments(Split(name, '/')))
  }

  /** `filename(ext)`: `vinilo_stock_<timestamp>.<ext>` under the directory
      of the format; any other extension is refused with a `ValueError`. */
  function Filename(ext: string, date: string, time: string): (r: Result<string>)
    ensures r.Ok? <==> ext == "csv" || ext == "json"
    ensures r.Err? ==> r.error == ValueError("Only csv or json are valid arguments")
  {
    var name := FilePrefix + Timestamp(date, time) + "." + ext;
    if ext == "csv" then Ok(PathText(CsvDirectory, name))
    else if ext == "json" then Ok(PathText(JsonDirectory, name))
    else Err(ValueError("Only csv or json are valid arguments"))
  }

  /** Which writer an export calls. */
  datatype Format = Csv | Json

  /** One file written: by which writer, where, and which records. */
  datatype Output = Output(format: Format, path: string, records: seq<Meta.Record>)

  /** `export(stack, filetype)`: hands the whole stack to the CSV writer or
      to the JSON writer, each of which writes to `filename` of its own
      format; any other filetype fails before either writer is called. */
  function Export(stack: seq<Meta.Record>, filetype: string, date: string, time: string): (r: Result<Output>)
    ensures r.Ok? <==> filetype == "csv" || filetype == "json"
    ensures r.Err? ==> r.error == ValueError("Invalid argument")
    ensures r.Ok? ==> r.value.records == stack
    ensures r.Ok? ==> (r.value.format == Csv <==> filetype == "csv")
    ensures r.Ok? ==> Filename(filetype, date, time) == Ok(r.value.path)
  {
    if filetype == "csv" then Ok(Output(Csv, Filename("csv", date, time).value, stack))
    else if filetype == "json" then Ok(Output(Json, Filename("json", date, time).value, stack))
    else Err(ValueError("Invalid argument"))
  }

  /** A name without `/` is kept whole: the path is the directory, `/` and
      the name. */
  lemma PathTextPlain(dir: string, name: string)
    requires name != "" && name != "." && '/' !in name
    ensures PathText(dir, name) == dir + "/" + name
  {
    IndexOfUnique(name, '/', |name|);
    assert name[..|name|] == name;
    assert Split(name, '/') == [name];
    assert [name][1..] == [];
    assert KeptSegments([name]) == [name];
    assert AppendSegments(dir, [name]) == AppendSegments(dir + "/" + name, []);
  }

  /** With date and time texts free of `/`, as `datetime` renders them, the
      path is exactly `<dir>/vinilo_stock_<date>_<time>.<ext>`, and the time
      part has no `:` and at most eight characters. */
  lemma FilenameShape(ext: string, date: string, time: string)
    requires ext == "csv" || ext == "json"
    requires '/' !in date && '/' !in time
    ensures Filename(ext, date, time) == Ok(Directory(ext) + "/" + FilePrefix + Timestamp(date, time) + "." + ext)
    ensures ':' !in Timestamp(date, time)[|date| + 1..]
    ensures |Timestamp(date, time)| <= |date| + 9
  {
    var ts := Timestamp(date, time);
    var name := FilePrefix + ts + "." + ext;
    assert '/' !in Take(Replace(time, ':', '.'), 8);
    assert '/' !in ts;
    assert '/' !in name;
    assert name[0] == 'v';
    PathTextPlain(Directory(ext), name);
    assert Filename(ext, date, time) == Ok(PathText(Directory(ext), name));
    assert Directory(ext) + "/" + name == Directory(ext) + "/" + FilePrefix + ts + "." + ext;
  }

  /** Whatever the date and time texts hold, a valid extension puts the file
      in its format's directory under a name that starts with the prefix. */
  lemma FilenameDirectory(ext: string, date: string, time: string)
    requires ext == "csv" || ext == "json"
    ensures Directory(ext) + "/" + FilePrefix <= Filename(ext, date, time).value
  {
    var name := FilePrefix + Timestamp(date, time) + "." + ext;
    assert name[..|FilePrefix|] == FilePrefix;
    PrefixedPath(Directory(ext), name);
  }

  /** A name that starts with the prefix keeps it as its first segment, so
      the path starts with the directory, `/` and the prefix. */
  lemma PrefixedPath(dir: string, name: string)
    requires |name| >= |FilePrefix| && name[..|FilePrefix|] == FilePrefix
    ensures dir + "/" + FilePrefix <= PathText(dir, name)
  {
    var parts := Split(name, '/');
    var i := IndexOf(name, '/');
    assert '/' !in FilePrefix;
    assert i >= |FilePrefix| by {
      assert forall k :: 0 <= k < |FilePrefix| ==> name[k] == FilePrefix[k];
    }
    assert parts[0] == name[..i];
    assert FilePrefix <= parts[0];
    var kept := KeptSegments(parts);
    assert kept == [parts[0]] + KeptSegments(parts[1..]);
    assert dir + "/" + parts[0] <= AppendSegments(dir + "/" + parts[0], KeptSegments(parts[1..]));
  }

  /** A single segment is kept exactly when it is neither empty nor `.`. */
  lemma KeptSegment(seg: string)
    ensures KeptSegments([seg]) == if seg == "" || seg == "." then [] else [seg]
  {
    assert [seg][1..] == [];
  }

  /** `pathlib` keeps segments in order: the kept segments of two runs of
      segments are those of the first followed by those of the second. */
  lemma {:induction false} KeptSegmentsAppend(a: seq<string>, b: seq<string>)
    ensures KeptSegments(a + b) == KeptSegments(a) + KeptSegments(b)
  {
    if a != [] {
      assert (a + b)[0] == a[0] && (a + b)[1..] == a[1..] + b;
      KeptSegmentsAppend(a[1..], b);
    } else {
      assert a + b == b;
    }
  }

  /** An export with an unsupported filetype fails, and never reaches a
      writer, whatever the records. */
  lemma ExportRejects(stack: seq<Meta.Record>, filetype: string, date: string, time: string)
    requires filetype != "csv" && filetype != "json"
    ensures Export(stack, filetype, date, time) == Err(ValueError("Invalid argument"))
  {
  }

  /** The timestamp of an export whose date is read at instant `d` and
      whose time at instant `t`, as `filename` reads the clock twice: the
      date of `d`, `_`, and `HH.MM.SS` of `t`. The microseconds never reach
      it. */
  function SecondStamp(d: Clock.Instant, t: Clock.Instant): (st: string)
    ensures |st| == 19
  {
    Clock.DateText(d) + "_" + Pad(t.hour, 2) + "." + Pad(t.minute, 2) + "." + Pad(t.second, 2)
  }

  lemma ClockTimestamp(d: Clock.Instant, t: Clock.Instant)
    ensures Timestamp(Clock.DateText(d), Clock.TimeText(t)) == SecondStamp(d, t)
  {
    ClockTimePart(t);
  }

  /** The time part of the timestamp is `HH.MM.SS` of the time reading. */
  lemma ClockTimePart(t: Clock.Instant)
    ensures Take(Replace(Clock.TimeText(t), ':', '.'), 8)
         == Pad(t.hour, 2) + "." + Pad(t.minute, 2) + "." + Pad(t.second, 2)
  {
    var tt := Clock.TimeText(t);
    var h, m, s := Pad(t.hour, 2), Pad(t.minute, 2), Pad(t.second, 2);
    assert tt[..8] == h + ":" + m + ":" + s;
    var u := Take(Replace(tt, ':', '.'), 8);
    assert |u| == 8;
    forall i | 0 <= i < 8 ensures u[i] == (h + "." + m + "." + s)[i] {
      assert u[i] == Replace(tt, ':', '.')[i];
      if i != 2 && i != 5 {
        assert IsDigit(tt[i]);
      }
    }
  }

  /** Two exports of the same format whose date readings fall on one day
      and whose time readings show one clock second get the same path: the
      second export overwrites the first. */
  lemma SameSecondSamePath(ext: string, d1: Clock.Instant, t1: Clock.Instant, d2: Clock.Instant, t2: Clock.Instant)
    requires Clock.SameDate(d1, d2) && Clock.SameClockSecond(t1, t2)
    ensures Filename(ext, Clock.DateText(d1), Clock.TimeText(t1))
         == Filename(ext, Clock.DateText(d2), Clock.TimeText(t2))
  {
    ClockTimestamp(d1, t1);
    ClockTimestamp(d2, t2);
  }

  /** The date fields of the date reading and the clock fields of the time
      reading can be read back from the timestamp. */
  lemma SecondStampFields(d: Clock.Instant, t: Clock.Instant)
    requires Clock.Valid(d) && Clock.Valid(t)
    ensures |SecondStamp(d, t)| == 19
    ensures DecimalValue(SecondStamp(d, t)[0..4]) == d.year
    ensures DecimalValue(SecondStamp(d, t)[5..7]) == d.month
    ensures DecimalValue(SecondStamp(d, t)[8..10]) == d.day
    ensures DecimalValue(SecondStamp(d, t)[11..13]) == t.hour
    ensures DecimalValue(SecondStamp(d, t)[14..16]) == t.minute
    ensures DecimalValue(SecondStamp(d, t)[17..19]) == t.second
  {
    var st := SecondStamp(d, t);
    assert st[0..4] == Pad(d.year, 4);
    assert st[5..7] == Pad(d.month, 2);
    assert st[8..10] == Pad(d.day, 2);
    assert st[11..13] == Pad(t.hour, 2);
    assert st[14..16] == Pad(t.minute, 2);
    assert st[17..19] == Pad(t.second, 2);
    assert Pow10(2) == 100 && Pow10(4) == 10000;
    PadRoundTrip(d.year, 4);
    PadRoundTrip(d.month, 2);
    PadRoundTrip(d.day, 2);
    PadRoundTrip(t.hour, 2);
    PadRoundTrip(t.minute, 2);
    PadRoundTrip(t.second, 2);
  }

  /** The path an export writes to when it reads the date at `d` and the
      time at `t`. */
  lemma InstantPath(ext: string, d: Clock.Instant, t: Clock.Instant)
    requires ext == "csv" || ext == "json"
    ensures Filename(ext, Clock.DateText(d), Clock.TimeText(t))
         == Ok(Directory(ext) + "/" + FilePrefix + SecondStamp(d, t) + "." + ext)
  {
    FilenameShape(ext, Clock.DateText(d), Clock.TimeText(t));
    ClockTimestamp(d, t);
  }

  /** Equal paths with the same directory and extension have the same
      middle part. */
  lemma SameMiddle(head: string, m1: string, m2: string, ext: string)
    requires |m1| == |m2| && head + m1 + "." + ext == head + m2 + "." + ext
    ensures m1 == m2
  {
    assert m1 == (head + m1 + "." + ext)[|head|..|head| + |m1|];
    assert m2 == (head + m2 + "." + ext)[|head|..|head| + |m2|];
  }

  /** Exports of the same format get the same path only when their date
      readings fall on one day and their time readings show one clock
      second: the path determines both. */
  lemma SamePathSameSecond(ext: string, d1: Clock.Instant, t1: Clock.Instant, d2: Clock.Instant, t2: Clock.Instant)
    requires ext == "csv" || ext == "json"
    requires Clock.Valid(d1) && Clock.Valid(t1) && Clock.Valid(d2) && Clock.Valid(t2)
    requires Filename(ext, Clock.DateText(d1), Clock.TimeText(t1))
          == Filename(ext, Clock.DateText(d2), Clock.TimeText(t2))
    ensures Clock.SameDate(d1, d2) && Clock.SameClockSecond(t1, t2)
  {
    assert SecondStamp(d1, t1) == SecondStamp(d2, t2) by {
      var head := Directory(ext) + "/" + FilePrefix;
      assert head + SecondStamp(d1, t1) + "." + ext == head + SecondStamp(d2, t2) + "." + ext by {
        InstantPath(ext, d1, t1);
        InstantPath(ext, d2, t2);
      }
      SameMiddle(head, SecondStamp(d1, t1), SecondStamp(d2, t2), ext);
    }
    SecondStampFields(d1, t1);
    SecondStampFields(d2, t2);
  }

  /** When each export reads its date and its time on the same day, equal
      paths mean the two time readings fall in the same second of the same
      day. */
  lemma SamePathSameSecondOneDay(ext: string, d1: Clock.Instant, t1: Clock.Instant, d2: Clock.Instant, t2: Clock.Instant)
    requires ext == "csv" || ext == "json"
    requires Clock.Valid(d1) && Clock.Valid(t1) && Clock.Valid(d2) && Clock.Valid(t2)
    requires Clock.SameDate(d1, t1) && Clock.SameDate(d2, t2)
    requires Filename(ext, Clock.DateText(d1), Clock.TimeText(t1))
          == Filename(ext, Clock.DateText(d2), Clock.TimeText(t2))
    ensures Clock.SameDate(t1, t2) && Clock.SameClockSecond(t1, t2)
  {
    SamePathSameSecond(ext, d1, t1, d2, t2);
  }

  /** Without that, a day can separate two exports with one path: one whose
      date is read just before midnight and whose time just after it, and
      one made at midnight at the start of that day. */
  lemma MidnightCollision(ext: string, d1: Clock.Instant, t1: Clock.Instant, d2: Clock.Instant, t2: Clock.Instant)
    requires d1 == Clock.Instant(2024, 1, 1, 23, 59, 59, 999999)
    requires t1 == Clock.Instant(2024, 1, 2, 0, 0, 0, 1)
    requires d2 == Clock.Instant(2024, 1, 1, 0, 0, 0, 500000) && t2 == d2
    ensures Clock.Valid(d1) && Clock.Valid(t1) && Clock.Valid(d2)
    ensures !Clock.SameDate(t1, t2)
    ensures Filename(ext, Clock.DateText(d1), Clock.TimeText(t1))
         == Filename(ext, Clock.DateText(d2), Clock.TimeText(t2))
  {
    SameSecondSamePath(ext, d1, t1, d2, t2);
  }
}
