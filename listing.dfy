/**
 * parseEntryLine: one line of a Unix-style `LIST -a` answer turned into a
 * directory entry.  The line is cut at its first eight single spaces, so the
 * ninth field, the file name, keeps any spaces it contains.
 */
module DirListing {
  import opened FtpsErrors
  import opened GoText

  datatype Kind = File | Folder | Link

  /** A directory entry; `time` is whatever the time parser made of the timestamp text. */
  datatype DirEntry = Entry(kind: Kind, name: string, ext: string, size: nat, time: int)

  /** The number of fields a listing line is cut into. */
  const FieldCount: nat := 9

  /**
   * The entry type given by the first character of the permission field.
   * An unknown character leaves the zero value, a plain file: the error the
   * switch records is overwritten by the size parse right after it.
   */
  function KindOf(ch: char): (r: Kind)
    ensures r == Folder <==> ch == 'd'
    ensures r == Link <==> ch == 'l'
  {
    match ch
    case 'd' => Folder
    case 'l' => Link
    case _ => File
  }

  /**
   * The text handed to time.Parse, built from the month (f5), day (f6) and
   * hour-or-year (f7) fields.  With a ':' in f7 the entry is from this year and
   * the two-digit year is cut out of the decimal spelling of `year`; otherwise
   * f7 is a year whose last two digits are kept and the time is midnight.
   * Either cut is a Go slice expression `[2:4]`, which panics on a shorter string.
   */
  function TimeText(f5: string, f6: string, f7: string, year: int): (r: Result<string>)
    ensures r.Err? ==> r.error == Panic(SliceOutOfRange)
    ensures ':' in f7 ==> (r.Ok? <==> |Itoa(year)| >= 4)
    ensures ':' !in f7 ==> (r.Ok? <==> |f7| >= 4)
    ensures r.Ok? ==> f6 + " " + f5 + " " <= r.value
  {
    if ':' in f7 then
      var y := Itoa(year);
      if |y| < 4 then Err(Panic(SliceOutOfRange)) else Ok(f6 + " " + f5 + " " + y[2..4] + " " + f7 + " GMT")
    else if |f7| < 4 then Err(Panic(SliceOutOfRange))
    else Ok(f6 + " " + f5 + " " + f7[2..4] + " 00:00 GMT")
  }

  /** For an entry of this year and a four-digit year, the timestamp text carries the year modulo 100. */
  lemma TimeTextThisYear(f5: string, f6: string, f7: string, year: int)
    requires ':' in f7 && 1000 <= year <= 9999
    ensures |Itoa(year)| == 4
    ensures TimeText(f5, f6, f7, year) == Ok(f6 + " " + f5 + " " + Itoa(year)[2..4] + " " + f7 + " GMT")
    ensures DecimalValue(Itoa(year)[2..4]) == year % 100
  {
    ItoaOfFourDigitYear(year);
  }

  /** For an older entry, the timestamp text keeps the last two characters of the year field and says midnight. */
  lemma TimeTextOlder(f5: string, f6: string, y: string)
    requires |y| == 4 && ':' !in y
    ensures TimeText(f5, f6, y, 0) == Ok(f6 + " " + f5 + " " + [y[2], y[3]] + " 00:00 GMT")
  {
    assert y[2..4] == [y[2], y[3]];
  }

  /**
   * The name and the extension of a file name: cut at its last '.', the
   * extension is what follows it; without a '.', the extension is empty.
   */
  function NameAndExt(full: string): (r: (string, string))
    ensures '.' in full ==> r.0 + "." + r.1 == full && '.' !in r.1
    ensures '.' !in full ==> r == (full, "")
  {
    var dot := LastIndexOf(full, '.');
    if dot >= 0 then
      LastIndexOfLast(full, '.');
      assert full == full[..dot] + "." + full[dot + 1..];
      (full[..dot], full[dot + 1..])
    else (full, "")
  }

  /**
   * parseEntryLine.  `year` is the current year the clock would give and
   * `parseTime` stands for time.Parse with the layout "_2 Jan 06 15:04 MST"
   * (None: a ParseError).
   * The checks come in the order of the code: nine fields, field 7 found again
   * in the line, the type character (an index panic on an empty first field),
   * the size, the timestamp text, the time, and then the name.
   */
  function ParseEntryLine(line: string, year: int, parseTime: string -> Option<int>): (r: Result<DirEntry>)
    ensures r.Err? ==> r.error in {LineFormat, Panic(IndexOutOfRange), NumSyntax, NumRange, Panic(SliceOutOfRange), TimeFormat}
    ensures r.Ok? ==> r.value.size < Two64
  {
    var f := SplitN(line, ' ', FieldCount);
    if |f| != FieldCount then Err(LineFormat)
    else if LastIndexOfString(line, f[7]) < 0 then Err(LineFormat)
    else if |f[0]| == 0 then Err(Panic(IndexOutOfRange))
    else
      match ParseUint64(f[4])
      case Err(e) => Err(e)
      case Ok(size) =>
        match TimeText(f[5], f[6], f[7], year)
        case Err(e) => Err(e)
        case Ok(text) =>
          match parseTime(text)
          case None => Err(TimeFormat)
          case Some(t) =>
            var (name, ext) := NameAndExt(TrimRight(f[8], "\r\n"));
            Ok(Entry(KindOf(f[0][0]), name, ext, size, t))
  }

  /** The eighth field of a nine-field split occurs in the line, so the search for it never fails. */
  lemma FieldSevenOccurs(line: string)
    requires |SplitN(line, ' ', FieldCount)| == FieldCount
    ensures LastIndexOfString(line, SplitN(line, ' ', FieldCount)[7]) >= 0
  {
    var f := SplitN(line, ' ', FieldCount);
    var head := Join(f[..7], ' ');
    assert line == head + [' '] + f[7] + [' '] + f[8] by {
      JoinOfSplitN(line, ' ', FieldCount);
      JoinAt(f, ' ', 7);
      var tail := f[7..];
      assert tail[1..] == [f[8]];
      assert Join(tail, ' ') == f[7] + [' '] + f[8];
    }
    var at := |head| + 1;
    assert line[at..at + |f[7]|] == f[7];
    assert OccursAt(line, f[7], at);
  }

  /** A line is rejected as badly formatted exactly when it holds fewer than eight spaces. */
  lemma ParseEntryLineFormat(line: string, year: int, parseTime: string -> Option<int>)
    ensures ParseEntryLine(line, year, parseTime) == Err(LineFormat) <==> Count(line, ' ') < 8
  {
    SplitNLength(line, ' ', FieldCount);
    if Count(line, ' ') >= 8 {
      FieldSevenOccurs(line);
    }
  }

  /**
   * With eight spaces, the outcome is decided by the fields in the order of
   * the code; a success carries the parsed size and time, the type of the
   * first character, and the name and extension of the ninth field with its
   * trailing CR and LF removed.
   */
  lemma ParseEntryLineFields(line: string, year: int, parseTime: string -> Option<int>)
    requires Count(line, ' ') >= 8
    ensures var f := SplitN(line, ' ', FieldCount);
      var r := ParseEntryLine(line, year, parseTime);
      && |f| == FieldCount
      && (|f[0]| == 0 ==> r == Err(Panic(IndexOutOfRange)))
      && (|f[0]| > 0 && ParseUint64(f[4]).Err? ==> r == Err(ParseUint64(f[4]).error))
      && (|f[0]| > 0 && ParseUint64(f[4]).Ok? && TimeText(f[5], f[6], f[7], year).Err? ==> r == Err(Panic(SliceOutOfRange)))
      && (r.Ok? <==> |f[0]| > 0 && ParseUint64(f[4]).Ok? && TimeText(f[5], f[6], f[7], year).Ok?
                     && parseTime(TimeText(f[5], f[6], f[7], year).value).Some?)
      && (r.Ok? ==>
            && r.value.kind == KindOf(f[0][0])
            && r.value.size == ParseUint64(f[4]).value
            && Some(r.value.time) == parseTime(TimeText(f[5], f[6], f[7], year).value)
            && (r.value.name, r.value.ext) == NameAndExt(TrimRight(f[8], "\r\n")))
  {
    SplitNLength(line, ' ', FieldCount);
    FieldSevenOccurs(line);
  }

  /**
   * A line made of eight fields without spaces followed by any name parses
   * into exactly those fields: the name keeps its own spaces.
   */
  lemma ParseEntryLineOfFields(fields: seq<string>, name: string, year: int, parseTime: string -> Option<int>)
    requires |fields| == 8
    requires forall k :: 0 <= k < 8 ==> ' ' !in fields[k]
    ensures SplitN(Join(fields + [name], ' '), ' ', FieldCount) == fields + [name]
    ensures var r := ParseEntryLine(Join(fields + [name], ' '), year, parseTime);
      r.Ok? ==> (r.value.name, r.value.ext) == NameAndExt(TrimRight(name, "\r\n"))
  {
    var line := Join(fields + [name], ' ');
    SplitNOfJoin(fields, name, ' ');
    SplitNLength(line, ' ', FieldCount);
    ParseEntryLineFields(line, year, parseTime);
  }

  /**
   * The lines bufio.Reader.ReadString('\n') hands back without error from the
   * bytes the data connection delivers: each ends with its '\n', and a last
   * piece without one comes back with the read error instead.
   */
  function CompleteLines(text: string): (r: seq<string>)
    ensures |r| <= |text|
    decreases |text|
  {
    var nl := IndexOf(text, '\n');
    if nl < 0 then [] else [text[..nl + 1]] + CompleteLines(text[nl + 1..])
  }

  lemma CompleteLinesStep(text: string)
    requires IndexOf(text, '\n') >= 0
    ensures CompleteLines(text) == [text[..IndexOf(text, '\n') + 1]] + CompleteLines(text[IndexOf(text, '\n') + 1..])
  {
  }

  function Concat(lines: seq<string>): string
  {
    if |lines| == 0 then "" else lines[0] + Concat(lines[1..])
  }

  /** A well-formed line: a single '\n', and at its end. */
  predicate IsLine(line: string)
  {
    |line| > 0 && line[|line| - 1] == '\n' && '\n' !in line[..|line| - 1]
  }

  /** Every complete line is a line. */
  lemma {:induction false} CompleteLinesAreLines(text: string)
    ensures forall k :: 0 <= k < |CompleteLines(text)| ==> IsLine(CompleteLines(text)[k])
    decreases |text|
  {
    var nl := IndexOf(text, '\n');
    if nl >= 0 {
      var rest := text[nl + 1..];
      CompleteLinesStep(text);
      FirstLine(text);
      CompleteLinesAreLines(rest);
      var lines := CompleteLines(text);
      forall k | 0 <= k < |lines| ensures IsLine(lines[k]) {
        if k > 0 {
          assert lines[k] == CompleteLines(rest)[k - 1];
        }
      }
    }
  }

  /** The text up to its first '\n' is a line. */
  lemma FirstLine(text: string)
    requires IndexOf(text, '\n') >= 0
    ensures IsLine(text[..IndexOf(text, '\n') + 1])
  {
    var nl := IndexOf(text, '\n');
    IndexOfFirst(text, '\n');
    assert text[..nl + 1][..nl] == text[..nl];
  }

  /**
   * The complete lines spell out the text up to its last '\n', and what is
   * left after them holds no '\n'.
   */
  lemma {:induction false} CompleteLinesCover(text: string)
    ensures Covered(text, Concat(CompleteLines(text)))
    decreases |text|
  {
    var nl := IndexOf(text, '\n');
    if nl >= 0 {
      CompleteLinesCover(text[nl + 1..]);
      CoverStep(text);
    }
  }

  /** `done` is a prefix of `text`, and the rest of the text holds no '\n'. */
  predicate Covered(text: string, done: string)
  {
    |done| <= |text| && text[..|done|] == done && '\n' !in text[|done|..]
  }

  lemma CoverStep(text: string)
    requires IndexOf(text, '\n') >= 0
    requires Covered(text[IndexOf(text, '\n') + 1..], Concat(CompleteLines(text[IndexOf(text, '\n') + 1..])))
    ensures Covered(text, Concat(CompleteLines(text)))
  {
    var nl := IndexOf(text, '\n');
    var line := text[..nl + 1];
    var rest := text[nl + 1..];
    var more := Concat(CompleteLines(rest));
    assert Concat(CompleteLines(text)) == line + more by {
      CompleteLinesStep(text);
      ConcatFront(line, CompleteLines(rest));
    }
    SplitAt(text, nl + 1);
    CoverJoin(text, line, rest, more);
  }

  lemma SplitAt<T>(s: seq<T>, k: nat)
    requires k <= |s|
    ensures s == s[..k] + s[k..]
  {
  }

  lemma ConcatFront(line: string, lines: seq<string>)
    ensures Concat([line] + lines) == line + Concat(lines)
  {
    assert ([line] + lines)[1..] == lines;
  }

  /** A line in front of a covered rest covers the whole text. */
  lemma CoverJoin(text: string, line: string, rest: string, more: string)
    requires text == line + rest && Covered(rest, more)
    ensures Covered(text, line + more)
  {
    assert text[|line + more|..] == rest[|more|..];
  }

  /**
   * How a line that does not parse crashes the client: a panic inside the
   * parser is that panic; any other error leaves a nil entry, which the
   * append dereferences.
   */
  function Crash(e: Error): (r: Error)
    ensures r.Panic?
  {
    if e.Panic? then e else Panic(NilDereference)
  }

  /** The parse of every line by `parse`, in order; the first line that does not parse crashes the client. */
  function ParseEach(lines: seq<string>, parse: string -> Result<DirEntry>): (r: Result<seq<DirEntry>>)
    ensures r.Err? ==> r.error.Panic?
    ensures r.Ok? ==> |r.value| == |lines|
  {
    if |lines| == 0 then Ok([])
    else
      match parse(lines[0])
      case Err(e) => Err(Crash(e))
      case Ok(e) =>
        match ParseEach(lines[1..], parse)
        case Err(err) => Err(err)
        case Ok(es) => Ok([e] + es)
  }

  /** The parse of every complete line of a listing by parseEntryLine. */
  function ParseLines(lines: seq<string>, year: int, parseTime: string -> Option<int>): (r: Result<seq<DirEntry>>)
    ensures r.Err? ==> r.error.Panic?
    ensures r.Ok? ==> |r.value| == |lines|
  {
    ParseEach(lines, line => ParseEntryLine(line, year, parseTime))
  }

  /** Entries already parsed, in front of the parse of the lines still to come. */
  function Prepend(entries: seq<DirEntry>, rest: Result<seq<DirEntry>>): Result<seq<DirEntry>>
  {
    if rest.Ok? then Ok(entries + rest.value) else rest
  }

  lemma PrependNothing(r: Result<seq<DirEntry>>)
    ensures Prepend([], r) == r
  {
    if r.Ok? {
      assert [] + r.value == r.value;
    }
  }

  /** Without a further '\n' no complete line is left, and the entries so far are the result. */
  lemma PrependEnd(entries: seq<DirEntry>, text: string, parse: string -> Result<DirEntry>)
    requires IndexOf(text, '\n') < 0
    ensures Prepend(entries, ParseEach(CompleteLines(text), parse)) == Ok(entries)
  {
    assert entries + [] == entries;
  }

  /** A line that does not parse makes the whole listing fail, whatever came before it. */
  lemma PrependFails(entries: seq<DirEntry>, lines: seq<string>, parse: string -> Result<DirEntry>)
    requires |lines| > 0 && parse(lines[0]).Err?
    ensures Prepend(entries, ParseEach(lines, parse)) == Err(Crash(parse(lines[0]).error))
  {
  }

  /** The first complete line of a text with a '\n', and the ones after it. */
  lemma CompleteLinesFirst(text: string)
    requires IndexOf(text, '\n') >= 0
    ensures var lines := CompleteLines(text);
      && |lines| > 0
      && lines[0] == text[..IndexOf(text, '\n') + 1]
      && lines[1..] == CompleteLines(text[IndexOf(text, '\n') + 1..])
  {
    CompleteLinesStep(text);
  }

  /** The parse of the lines so far grows by one entry for each line that parses. */
  lemma PrependLine(entries: seq<DirEntry>, lines: seq<string>, parse: string -> Result<DirEntry>)
    requires |lines| > 0 && parse(lines[0]).Ok?
    ensures Prepend(entries, ParseEach(lines, parse))
         == Prepend(entries + [parse(lines[0]).value], ParseEach(lines[1..], parse))
  {
    var e := parse(lines[0]).value;
    var rest := ParseEach(lines[1..], parse);
    if rest.Ok? {
      assert entries + ([e] + rest.value) == entries + [e] + rest.value;
    }
  }

  /** The lines parse exactly when every one does, and then entry k is the parse of line k. */
  lemma {:induction false} ParseEachAll(lines: seq<string>, parse: string -> Result<DirEntry>)
    ensures ParseEach(lines, parse).Ok? <==> forall k :: 0 <= k < |lines| ==> parse(lines[k]).Ok?
    ensures ParseEach(lines, parse).Ok? ==>
      forall k :: 0 <= k < |lines| ==> ParseEach(lines, parse).value[k] == parse(lines[k]).value
  {
    if |lines| > 0 {
      ParseEachAll(lines[1..], parse);
      TailIndex(lines);
    }
  }

  /** The first line that does not parse decides the crash. */
  lemma {:induction false} ParseEachFirstError(lines: seq<string>, parse: string -> Result<DirEntry>, k: nat)
    requires k < |lines| && parse(lines[k]).Err?
    requires forall j :: 0 <= j < k ==> parse(lines[j]).Ok?
    ensures ParseEach(lines, parse) == Err(Crash(parse(lines[k]).error))
  {
    if k > 0 {
      TailIndex(lines);
      ParseEachFirstError(lines[1..], parse, k - 1);
    }
  }

  lemma TailIndex<T>(s: seq<T>)
    requires |s| > 0
    ensures forall k :: 1 <= k < |s| ==> s[k] == s[1..][k - 1]
  {
  }

  /** The listing parses exactly when every line does, and then entry k is the parse of line k. */
  lemma ParseLinesEach(lines: seq<string>, year: int, parseTime: string -> Option<int>)
    ensures ParseLines(lines, year, parseTime).Ok? <==>
      forall k :: 0 <= k < |lines| ==> ParseEntryLine(lines[k], year, parseTime).Ok?
    ensures ParseLines(lines, year, parseTime).Ok? ==>
      forall k :: 0 <= k < |lines| ==> ParseLines(lines, year, parseTime).value[k] == ParseEntryLine(lines[k], year, parseTime).value
  {
    ParseEachAll(lines, line => ParseEntryLine(line, year, parseTime));
  }

  /** For parseEntryLine: the first line that does not parse decides the crash. */
  lemma ParseLinesFirstError(lines: seq<string>, year: int, parseTime: string -> Option<int>, k: nat)
    requires k < |lines| && ParseEntryLine(lines[k], year, parseTime).Err?
    requires forall j :: 0 <= j < k ==> ParseEntryLine(lines[j], year, parseTime).Ok?
    ensures ParseLines(lines, year, parseTime) == Err(Crash(ParseEntryLine(lines[k], year, parseTime).error))
  {
    ParseEachFirstError(lines, line => ParseEntryLine(line, year, parseTime), k);
  }
}
